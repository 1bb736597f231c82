/**
 The token ledger of the triage runner (scripts/backlog-triage.py): a reservation before each Task, its
 settlement by what the Task used, and a daily cap.
 */
module TokenLedger {
  import opened Basics

  const TOKENS := 150000
  const DAILY := 2000000

  type Day = nat

  datatype Entry = Entry(key: nat, day: Day, settled: Option<nat>, settledDay: Option<Day>)

  /** What a Task says about its usage: nothing certain, or a number, final if it has finished. */
  datatype Usage = Unknown | Used(tokens: nat, finished: bool)

  // --- Sums over the ledger. --------------------------------------------------------------------

  function Charge(e: Entry): nat { if e.settled == None then TOKENS else e.settled.value }

  /** What the reservations not settled yet hold, whatever day they are from. */
  function Outstanding(es: seq<Entry>): nat {
    if es == [] then 0
    else Outstanding(es[..|es| - 1]) + if es[|es| - 1].settled == None then TOKENS else 0
  }

  /** What was used by the reservations made or settled on a day. */
  function SettledOn(es: seq<Entry>, d: Day): nat {
    if es == [] then 0
    else
      var e := es[|es| - 1];
      SettledOn(es[..|es| - 1], d)
      + if e.settled != None && (e.day == d || e.settledDay == Some(d)) then e.settled.value else 0
  }

  /** What the reservations admitted on a day cost: what they used, or all they may. */
  function Charged(es: seq<Entry>, d: Day): nat {
    if es == [] then 0
    else Charged(es[..|es| - 1], d) + if es[|es| - 1].day == d then Charge(es[|es| - 1]) else 0
  }

  lemma {:induction false} ChargedWithin(es: seq<Entry>, d: Day)
    ensures Charged(es, d) <= Outstanding(es) + SettledOn(es, d)
  {
    if es != [] {
      ChargedWithin(es[..|es| - 1], d);
    }
  }

  lemma {:induction false} ChargedUpdate(es: seq<Entry>, i: nat, e: Entry, d: Day)
    requires i < |es| && e.day == es[i].day
    ensures Charged(es[i := e], d) == Charged(es, d) + if e.day == d then Charge(e) - Charge(es[i]) else 0
  {
    var n := |es| - 1;
    if i < n {
      assert es[i := e][..n] == es[..n][i := e];
      ChargedUpdate(es[..n], i, e, d);
    } else {
      assert es[i := e][..n] == es[..n];
    }
  }

  lemma {:induction false} OutstandingUpdate(es: seq<Entry>, i: nat, e: Entry)
    requires i < |es|
    ensures Outstanding(es[i := e]) ==
            Outstanding(es) + (if e.settled == None then TOKENS else 0) - (if es[i].settled == None then TOKENS else 0)
  {
    var n := |es| - 1;
    if i < n {
      assert es[i := e][..n] == es[..n][i := e];
      OutstandingUpdate(es[..n], i, e);
    } else {
      assert es[i := e][..n] == es[..n];
    }
  }

  function OpenCount(es: seq<Entry>): nat {
    if es == [] then 0 else OpenCount(es[..|es| - 1]) + if es[|es| - 1].settled == None then 1 else 0
  }

  /** Under the cap at most thirteen reservations are open at once, over any number of midnights. */
  lemma {:induction false} FewOpen(es: seq<Entry>)
    ensures Outstanding(es) == TOKENS * OpenCount(es)
    ensures Outstanding(es) <= DAILY ==> OpenCount(es) <= 13
  {
    if es != [] {
      FewOpen(es[..|es| - 1]);
    }
  }

  // --- What the ledger keeps. -------------------------------------------------------------------

  ghost predicate UnderCap(es: seq<Entry>) { forall d: Day :: Charged(es, d) <= DAILY }

  ghost predicate Keys(es: seq<Entry>) { forall i, j :: 0 <= i < j < |es| ==> es[i].key != es[j].key }

  datatype Verdict = Done | Refused

  class Ledger {
    var entries: seq<Entry>
    var blocked: bool
    /** No settled Task has later been reported to have used more. */
    ghost var steady: bool

    ghost predicate Valid()
      reads this
    {
      && Keys(entries)
      && (!blocked ==> Outstanding(entries) <= DAILY)
      && (!blocked && steady ==> UnderCap(entries))
    }

    constructor ()
      ensures Valid() && entries == [] && !blocked && steady
    {
      entries, blocked, steady := [], false, true;
    }

    /** Where the key's reservation is. */
    method Find(key: nat) returns (i: Option<nat>)
      ensures i == None ==> forall k :: 0 <= k < |entries| ==> entries[k].key != key
      ensures i != None ==> i.value < |entries| && entries[i.value].key == key
    {
      for k := 0 to |entries|
        invariant forall j :: 0 <= j < k ==> entries[j].key != key
      {
        if entries[k].key == key {
          return Some(k);
        }
      }
      i := None;
    }

    /** `reserve`. Reservations of earlier days count until they are settled. */
    method Reserve(key: nat, today: Day) returns (r: Verdict)
      requires Valid()
      modifies this`entries
      ensures Valid()
      ensures r == Done <==> (!blocked && (forall k :: 0 <= k < |old(entries)| ==> old(entries)[k].key != key)
                              && Outstanding(old(entries)) + SettledOn(old(entries), today) + TOKENS <= DAILY)
      ensures entries == if r == Done then old(entries) + [Entry(key, today, None, None)] else old(entries)
    {
      var found := Find(key);
      if blocked || found != None || Outstanding(entries) + SettledOn(entries, today) + TOKENS > DAILY {
        return Refused;
      }
      var e := Entry(key, today, None, None);
      Admitted(entries, e);
      NewKey(entries, e);
      entries := entries + [e];
      r := Done;
    }

    /** `settle`. */
    method Settle(key: nat, usage: Usage, today: Day) returns (r: Verdict)
      requires Valid()
      modifies this`entries, this`blocked, this`steady
      ensures Valid() && (old(blocked) ==> blocked) && |entries| == |old(entries)|
      ensures r == Done <==> (usage.Unknown? || (usage.finished && usage.tokens <= TOKENS))
                             && exists k :: 0 <= k < |old(entries)| && old(entries)[k].key == key
      ensures forall k :: 0 <= k < |entries| ==>
                entries[k].key == old(entries)[k].key && entries[k].day == old(entries)[k].day
      ensures forall k :: 0 <= k < |entries| && entries[k].key != key ==> entries[k] == old(entries)[k]
      ensures forall k :: 0 <= k < |entries| && entries[k].key == key ==>
                entries[k] == Settled(old(entries)[k], usage, today)
                && (steady <==> old(steady) && !Rises(old(entries)[k], usage))
      ensures blocked <==> old(blocked) || (usage.Used? && usage.tokens > TOKENS)
                           || (usage.Unknown? && exists k :: 0 <= k < |old(entries)| && old(entries)[k].key == key
                                                      && old(entries)[k].settled != None)
    {
      var found := Find(key);
      r := Refused;
      if usage.Used? && usage.tokens > TOKENS {
        blocked := true;
        return;
      }
      if found == None {
        return;
      }
      var i := found.value;
      var e := entries[i];
      if usage.Unknown? {
        if e.settled != None {
          Replace(i, e.(settled := None, settledDay := None));
          blocked := true;
        }
        r := Done;
      } else if usage.finished {
        steady := steady && !Rises(e, usage);
        Replaced(entries, i, Settled(e, usage, today));
        Replace(i, Settled(e, usage, today));
        r := Done;
      }
    }

    method Replace(i: nat, e: Entry)
      requires i < |entries| && Keys(entries) && e.key == entries[i].key
      modifies this`entries
      ensures entries == old(entries)[i := e] && Keys(entries)
    {
      entries := entries[i := e];
    }
  }

  /** A finished Task that used more than it has been settled for. */
  predicate Rises(e: Entry, usage: Usage) {
    usage.Used? && usage.finished && usage.tokens <= TOKENS && e.settled != None && usage.tokens > e.settled.value
  }

  function Settled(e: Entry, usage: Usage, today: Day): Entry {
    if usage.Unknown? then if e.settled == None then e else e.(settled := None, settledDay := None)
    else if usage.finished && usage.tokens <= TOKENS then e.(settled := Some(usage.tokens), settledDay := Some(today))
    else e
  }

  lemma NewKey(es: seq<Entry>, e: Entry)
    requires Keys(es) && forall k :: 0 <= k < |es| ==> es[k].key != e.key
    ensures Keys(es + [e])
  {
  }

  lemma Admitted(es: seq<Entry>, e: Entry)
    requires e.settled == None && Outstanding(es) + SettledOn(es, e.day) + TOKENS <= DAILY
    ensures Outstanding(es + [e]) <= DAILY && (UnderCap(es) ==> UnderCap(es + [e]))
  {
    var more := es + [e];
    assert more[..|es|] == es;
    forall d: Day | UnderCap(es) ensures Charged(more, d) <= DAILY {
      ChargedWithin(es, d);
    }
  }

  lemma Replaced(es: seq<Entry>, i: nat, e: Entry)
    requires i < |es| && e.day == es[i].day && e.settled != None && Charge(e) <= TOKENS
    ensures Outstanding(es[i := e]) <= Outstanding(es)
    ensures UnderCap(es) && Charge(e) <= Charge(es[i]) ==> UnderCap(es[i := e])
  {
    OutstandingUpdate(es, i, e);
    var more := es[i := e];
    if UnderCap(es) && Charge(e) <= Charge(es[i]) {
      forall d: Day ensures Charged(more, d) <= DAILY {
        ChargedUpdate(es, i, e, d);
      }
    }
  }

  /** Settling again keeps the day's charge under the cap exactly when there is room for the difference. */
  lemma RiseNeedsRoom(es: seq<Entry>, i: nat, e: Entry)
    requires i < |es| && e.day == es[i].day && UnderCap(es)
    ensures UnderCap(es[i := e]) <==> Charged(es, e.day) - Charge(es[i]) + Charge(e) <= DAILY
  {
    var more := es[i := e];
    forall d: Day ensures Charged(more, d) == Charged(es, d) + if e.day == d then Charge(e) - Charge(es[i]) else 0 {
      ChargedUpdate(es, i, e, d);
    }
    assert UnderCap(more) ==> Charged(more, e.day) <= DAILY;
  }

  datatype Call = ReserveIt(key: nat, today: Day) | SettleIt(key: nat, usage: Usage, today: Day)

  /** Any calls in any order, on any days. While nothing has blocked the ledger, at most thirteen
      reservations are open; and while no settled Task was reported to have used more after all, no
      day's admissions cost more than the cap. */
  method Lifetime(calls: seq<Call>) returns (ledger: Ledger)
    ensures ledger.Valid()
    ensures !ledger.blocked ==> OpenCount(ledger.entries) <= 13
    ensures !ledger.blocked && ledger.steady ==> UnderCap(ledger.entries)
  {
    ledger := new Ledger();
    for i := 0 to |calls|
      invariant ledger.Valid() && fresh(ledger)
    {
      var r;
      match calls[i]
      case ReserveIt(key, today) => r := ledger.Reserve(key, today);
      case SettleIt(key, usage, today) => r := ledger.Settle(key, usage, today);
    }
    FewOpen(ledger.entries);
  }

  /** One Task settled for nothing, and then `n` open reservations of the same day. */
  function OneDay(n: nat): seq<Entry> {
    if n == 0 then [Entry(0, 1, Some(0), Some(1))] else OneDay(n - 1) + [Entry(n, 1, None, None)]
  }

  lemma {:induction false} OneDaySums(n: nat)
    ensures Outstanding(OneDay(n)) == Charged(OneDay(n), 1) == TOKENS * n && SettledOn(OneDay(n), 1) == 0
    ensures |OneDay(n)| == n + 1 && OneDay(n)[0] == Entry(0, 1, Some(0), Some(1))
    ensures forall k :: 0 <= k <= n ==> OneDay(n)[k].key == k
  {
    var es := OneDay(n);
    if n > 0 {
      OneDaySums(n - 1);
      assert es[..|es| - 1] == OneDay(n - 1);
    } else {
      assert es[..0] == [];
    }
  }

  /** Thirteen admissions after a Task that was settled for nothing. */
  method FullDay() returns (ledger: Ledger)
    ensures ledger.Valid() && fresh(ledger) && !ledger.blocked && ledger.entries == OneDay(13)
  {
    ledger := new Ledger();
    var r := ledger.Reserve(0, 1);
    r := ledger.Settle(0, Used(0, true), 1);
    assert ledger.entries == OneDay(0);
    for n := 0 to 13
      invariant ledger.Valid() && fresh(ledger) && !ledger.blocked && ledger.entries == OneDay(n)
    {
      OneMoreToday(ledger, n);
    }
  }

  method OneMoreToday(ledger: Ledger, n: nat)
    requires ledger.Valid() && !ledger.blocked && n < 13 && ledger.entries == OneDay(n)
    modifies ledger
    ensures ledger.Valid() && !ledger.blocked && ledger.entries == OneDay(n + 1)
  {
    OneDaySums(n);
    var r := ledger.Reserve(n + 1, 1);
  }

  /** The condition is needed: a Task settled for nothing, thirteen more admitted in its place, and then
      its usage reported after all, put the day over the cap with nothing blocked. */
  method RiseBreaksTheCap() returns (ledger: Ledger)
    ensures ledger.Valid() && !ledger.blocked && Charged(ledger.entries, 1) > DAILY
  {
    ledger := FullDay();
    OneDaySums(13);
    var r := ledger.Settle(0, Used(TOKENS, true), 1);
    var risen := Entry(0, 1, Some(TOKENS), Some(1));
    assert ledger.entries == OneDay(13)[0 := risen];
    ChargedUpdate(OneDay(13), 0, risen, 1);
  }
}
