/**
 The record of a gate's tests (scripts/ci-step.py): when a record is valid, and how the records of
 several runs are folded into one.
 */
module TestRecords {
  import opened Basics
  import opened Names

  const NAMES := 100
  const FLAKY := 25
  const MAX_COUNT := 0xFFFF_FFFF

  /** In order of precedence. */
  datatype Rerun = NotNeeded | NotRun | Isolated | OverBound

  function Rank(r: Rerun): nat {
    match r case NotNeeded => 0 case NotRun => 1 case Isolated => 2 case OverBound => 3
  }

  datatype Record = Record(threads: int, count: int, failed: seq<string>, flaky: seq<string>, rerun: Rerun)

  predicate IsControl(c: char) { c as int < 32 || 127 <= c as int < 160 }

  predicate ValidName(n: string) {
    |n| <= 512 && (exists i :: 0 <= i < |n| && !Space(n[i])) && forall i :: 0 <= i < |n| ==> !IsControl(n[i])
  }

  predicate RerunAgrees(r: Record) {
    match r.rerun
    case NotNeeded => r.count == 0 && r.flaky == []
    case NotRun => r.flaky == []
    case Isolated => r.count > 0 || r.flaky != []
    case OverBound => r.count > 0
  }

  /** `validate_tests`. */
  predicate Valid(r: Record) {
    && 1 <= r.threads <= 65536 && 0 <= r.count <= MAX_COUNT
    && |r.failed| <= NAMES && |r.failed| <= r.count && (r.count < NAMES ==> |r.failed| == r.count)
    && |r.flaky| <= FLAKY && AllNames(r.failed) && AllNames(r.flaky)
    && RerunAgrees(r)
  }

  predicate AllNames(ns: seq<string>) { forall i :: 0 <= i < |ns| ==> ValidName(ns[i]) }

  // --- What a fold means. -----------------------------------------------------------------------

  function FailedIn(runs: seq<Record>): seq<string> {
    if runs == [] then [] else AddNew(FailedIn(runs[..|runs| - 1]), runs[|runs| - 1].failed)
  }

  function FlakyIn(runs: seq<Record>): seq<string> {
    if runs == [] then [] else AddNew(FlakyIn(runs[..|runs| - 1]), runs[|runs| - 1].flaky)
  }

  /** The counts, less the names an earlier run has counted already. */
  function Summed(runs: seq<Record>): int {
    if runs == [] then 0
    else
      var before, last := runs[..|runs| - 1], runs[|runs| - 1];
      Summed(before) + last.count - |Elements(FailedIn(before)) * Elements(last.failed)|
  }

  predicate Capped(runs: seq<Record>) { exists i :: 0 <= i < |runs| && runs[i].count >= NAMES }

  function Strongest(runs: seq<Record>): Rerun
    requires runs != []
  {
    if |runs| == 1 then runs[0].rerun
    else
      var before, last := Strongest(runs[..|runs| - 1]), runs[|runs| - 1].rerun;
      if Rank(last) > Rank(before) then last else before
  }

  function Cut(ns: seq<string>, n: nat): seq<string> { if |ns| <= n then ns else ns[..n] }

  function Folded(runs: seq<Record>): Record
    requires runs != []
  {
    Record(runs[0].threads, if Capped(runs) then Summed(runs) else |FailedIn(runs)|,
           Cut(FailedIn(runs), NAMES), Cut(FlakyIn(runs), FLAKY), Strongest(runs))
  }

  const SPOOL_BYTES := 262144
  const SPOOL_LINES := 256

  /** A line of the private spool; `Garbage` is no record at all. */
  datatype Line = Blank | Run(record: Record) | Garbage

  datatype Spool = Spool(bytes: nat, lines: seq<Line>)

  datatype Outcome = Nothing | Fold(record: Record) | Invalid(line: nat) | Overflow(line: nat) | TooLong | Refused

  function RunsIn(lines: seq<Line>): seq<Record> {
    if lines == [] then []
    else RunsIn(lines[..|lines| - 1]) + match lines[|lines| - 1] case Run(r) => [r] case _ => []
  }

  predicate Readable(l: Line) { l.Blank? || (l.Run? && Valid(l.record)) }

  ghost predicate AllReadable(lines: seq<Line>) { forall i :: 0 <= i < |lines| ==> Readable(lines[i]) }

  predicate WithinBounds(s: Spool) { s.bytes <= SPOOL_BYTES && |s.lines| <= SPOOL_LINES }

  /** `finish_tests`: the records of a gate's runs in one, or none where there is no spool or nothing in it.
      It refuses only a spool beyond its bounds, the first line that is no valid record, and an overflow
      of the count; its final check never refuses. */
  method Finish(spool: Option<Spool>) returns (r: Outcome)
    ensures r == TooLong <==> spool != None && !WithinBounds(spool.value)
    ensures r == Nothing <==>
            spool == None || (WithinBounds(spool.value) && AllReadable(spool.value.lines)
                              && RunsIn(spool.value.lines) == [])
    ensures r.Fold? <==>
            && spool != None && WithinBounds(spool.value) && AllReadable(spool.value.lines)
            && RunsIn(spool.value.lines) != [] && NoOverflow(RunsIn(spool.value.lines))
    ensures r.Fold? ==> r.record == Folded(RunsIn(spool.value.lines)) && Valid(r.record)
    ensures r.Invalid? ==> r.line < |spool.value.lines| && !Readable(spool.value.lines[r.line])
    ensures r.Overflow? ==> r.line < |spool.value.lines| && Summed(RunsIn(spool.value.lines[..r.line + 1])) > MAX_COUNT
    ensures r != Refused
  {
    if spool == None {
      return Nothing;
    }
    if !WithinBounds(spool.value) {
      return TooLong;
    }
    r := FoldLines(spool.value.lines);
  }

  method FoldLines(lines: seq<Line>) returns (r: Outcome)
    ensures r == Nothing <==> AllReadable(lines) && RunsIn(lines) == []
    ensures r.Fold? <==> AllReadable(lines) && RunsIn(lines) != [] && NoOverflow(RunsIn(lines))
    ensures r.Fold? ==> r.record == Folded(RunsIn(lines)) && Valid(r.record)
    ensures r.Invalid? ==> r.line < |lines| && !Readable(lines[r.line])
    ensures r.Overflow? ==> r.line < |lines| && Summed(RunsIn(lines[..r.line + 1])) > MAX_COUNT
    ensures !r.Refused? && !r.TooLong?
  {
    var t, first;
    ghost var runs;
    r, runs, t, first := Scan(lines);
    if r == Nothing {
      AllScanned(lines, runs, t, first);
      if first != None {
        r := Conclude(runs, first.value, t);
      }
    }
  }

  lemma AllScanned(lines: seq<Line>, runs: seq<Record>, t: Tally, first: Option<Record>)
    requires Scanned(lines, |lines|, runs, t, first)
    ensures runs == RunsIn(lines) && AllReadable(lines) && first == First(runs)
    ensures AllValid(runs) && NoOverflow(runs) && t == TallyOf(runs)
  {
    assert lines[..|lines|] == lines;
  }

  /** All lines, up to the first that stops the reading. */
  method Scan(lines: seq<Line>) returns (stop: Outcome, ghost runs: seq<Record>, t: Tally, first: Option<Record>)
    ensures stop == Nothing || stop.Invalid? || stop.Overflow?
    ensures stop == Nothing ==> Scanned(lines, |lines|, runs, t, first)
    ensures stop.Invalid? ==> stop.line < |lines| && !Readable(lines[stop.line])
    ensures stop.Overflow? ==> stop.line < |lines| && Summed(RunsIn(lines[..stop.line + 1])) > MAX_COUNT
    ensures stop.Overflow? ==> !NoOverflow(RunsIn(lines))
  {
    stop, runs, t, first := Nothing, [], EMPTY, None;
    NothingScanned(lines);
    for i := 0 to |lines|
      invariant stop == Nothing && Scanned(lines, i, runs, t, first)
    {
      stop, runs, t, first := TakeLine(lines, i, runs, t, first);
      if stop != Nothing {
        return;
      }
    }
  }

  const EMPTY := Tally([], [], 0, false, NotNeeded)

  lemma NothingScanned(lines: seq<Line>)
    ensures Scanned(lines, 0, [], EMPTY, None)
  {
    assert lines[..0] == [];
  }

  /** How far the lines have been read. */
  ghost predicate Scanned(lines: seq<Line>, i: nat, runs: seq<Record>, t: Tally, first: Option<Record>) {
    i <= |lines| && runs == RunsIn(lines[..i]) && AllReadable(lines[..i]) && Tallied(runs, t) && first == First(runs)
  }

  /** What the runs read so far come to; said of whatever equals them, so that a proof about one more line
      does not unfold them. */
  ghost predicate Tallied(runs: seq<Record>, t: Tally) {
    forall rs :: rs == runs ==> AllValid(rs) && NoOverflow(rs) && TallyOf(rs) == t
  }

  /** One line; `Nothing` means that reading goes on. */
  method TakeLine(lines: seq<Line>, i: nat, ghost runs: seq<Record>, t: Tally, first: Option<Record>)
    returns (stop: Outcome, ghost now: seq<Record>, more: Tally, start: Option<Record>)
    requires i < |lines| && Scanned(lines, i, runs, t, first)
    ensures stop == Nothing || stop == Invalid(i) || stop == Overflow(i)
    ensures stop == Nothing ==> Scanned(lines, i + 1, now, more, start)
    ensures stop == Invalid(i) ==> !Readable(lines[i])
    ensures stop == Overflow(i) ==> Summed(RunsIn(lines[..i + 1])) > MAX_COUNT && !NoOverflow(RunsIn(lines))
  {
    NextLine(lines, i);
    assert AllValid(runs) && NoOverflow(runs) && TallyOf(runs) == t;
    stop, now, more, start := Nothing, runs, t, first;
    if !Readable(lines[i]) {
      stop := Invalid(i);
    } else if lines[i].Run? {
      var over;
      more, start, over := Take(runs, t, first, lines[i].record);
      now := runs + [lines[i].record];
      if over {
        OverflowStays(lines, i + 1);
        stop := Overflow(i);
      }
    }
  }

  function First(runs: seq<Record>): Option<Record> { if runs == [] then None else Some(runs[0]) }

  lemma NextLine(lines: seq<Line>, i: nat)
    requires i < |lines|
    ensures RunsIn(lines[..i + 1]) == RunsIn(lines[..i]) + if lines[i].Run? then [lines[i].record] else []
    ensures AllReadable(lines[..i + 1]) <==> AllReadable(lines[..i]) && Readable(lines[i])
  {
    var more := lines[..i + 1];
    assert more[..i] == lines[..i] && more[i] == lines[i];
    if AllReadable(lines[..i]) && Readable(lines[i]) {
      forall k | 0 <= k < |more| ensures Readable(more[k]) {
        assert k < i ==> more[k] == lines[..i][k];
      }
    }
    if AllReadable(more) {
      forall k | 0 <= k < i ensures Readable(lines[..i][k]) {
        assert lines[..i][k] == more[k];
      }
    }
  }

  /** One more run; whether the count overflows. */
  method Take(ghost runs: seq<Record>, t: Tally, first: Option<Record>, run: Record)
    returns (more: Tally, start: Option<Record>, over: bool)
    requires t == TallyOf(runs) && first == First(runs) && AllValid(runs) && NoOverflow(runs) && Valid(run)
    ensures more == TallyOf(runs + [run]) && start == First(runs + [run]) && AllValid(runs + [run])
    ensures over == (Summed(runs + [run]) > MAX_COUNT) && (over <==> !NoOverflow(runs + [run]))
  {
    more := AddRun(runs, t, run);
    Extended(runs, run);
    start := if first == None then Some(run) else first;
    over := more.summed > MAX_COUNT;
  }

  lemma {:induction false} OverflowStays(lines: seq<Line>, n: nat)
    requires n <= |lines| && !NoOverflow(RunsIn(lines[..n]))
    ensures !NoOverflow(RunsIn(lines))
    decreases |lines| - n
  {
    if n == |lines| {
      assert lines[..n] == lines;
    } else {
      NextLine(lines, n);
      if lines[n].Run? {
        OneMoreOverflows(RunsIn(lines[..n]), lines[n].record);
      } else {
        assert RunsIn(lines[..n + 1]) == RunsIn(lines[..n]);
      }
      OverflowStays(lines, n + 1);
    }
  }

  lemma OneMoreOverflows(runs: seq<Record>, run: Record)
    requires !NoOverflow(runs)
    ensures !NoOverflow(runs + [run])
  {
    assert (runs + [run])[..|runs|] == runs;
  }

  method Conclude(ghost runs: seq<Record>, first: Record, t: Tally) returns (r: Outcome)
    requires runs != [] && AllValid(runs) && NoOverflow(runs) && t == TallyOf(runs) && first == runs[0]
    ensures r == Fold(Folded(runs)) && Valid(Folded(runs))
  {
    var count := if t.capped then t.summed else |t.failed|;
    var record := Record(first.threads, count, Cut(t.failed, NAMES), Cut(t.flaky, FLAKY), t.rerun);
    FoldedIsValid(runs);
    r := if Valid(record) then Fold(record) else Refused;
  }

  /** What the fold carries from run to run. */
  datatype Tally = Tally(failed: seq<string>, flaky: seq<string>, summed: int, capped: bool, rerun: Rerun)

  ghost function TallyOf(runs: seq<Record>): Tally {
    Tally(FailedIn(runs), FlakyIn(runs), Summed(runs), Capped(runs), if runs == [] then NotNeeded else Strongest(runs))
  }

  method AddRun(ghost runs: seq<Record>, t: Tally, run: Record) returns (more: Tally)
    requires t == TallyOf(runs)
    ensures more == TallyOf(runs + [run])
  {
    var summed := t.summed + run.count - |Elements(t.failed) * Elements(run.failed)|;
    var failed := Append(t.failed, run.failed);
    var flaky := Append(t.flaky, run.flaky);
    var rerun := if Rank(run.rerun) > Rank(t.rerun) then run.rerun else t.rerun;
    more := Tally(failed, flaky, summed, t.capped || run.count >= NAMES, rerun);
    assert (runs + [run])[..|runs|] == runs;
    OneMore(runs, run);
  }

  lemma OneMore(runs: seq<Record>, run: Record)
    ensures Capped(runs + [run]) <==> Capped(runs) || run.count >= NAMES
  {
    var more := runs + [run];
    assert more[|runs|] == run;
    if Capped(runs) {
      var i :| 0 <= i < |runs| && runs[i].count >= NAMES;
      assert more[i].count >= NAMES;
    }
  }

  ghost predicate AllValid(runs: seq<Record>) { forall i :: 0 <= i < |runs| ==> Valid(runs[i]) }

  ghost predicate NoOverflow(runs: seq<Record>)
  {
    runs == [] || (NoOverflow(runs[..|runs| - 1]) && Summed(runs) <= MAX_COUNT)
  }

  lemma Extended(runs: seq<Record>, run: Record)
    requires AllValid(runs) && NoOverflow(runs) && Valid(run)
    ensures AllValid(runs + [run]) && (NoOverflow(runs + [run]) <==> Summed(runs + [run]) <= MAX_COUNT)
  {
    assert (runs + [run])[..|runs|] == runs;
  }

  // --- Why the fold is valid. -------------------------------------------------------------------

  lemma {:induction false} AddNewValid(known: seq<string>, ns: seq<string>)
    requires AllNames(known) && AllNames(ns)
    ensures AllNames(AddNew(known, ns))
  {
    if ns != [] {
      AddNewValid(known, ns[..|ns| - 1]);
    }
  }

  /** The failed names of the runs: each once, all of them valid. */
  lemma {:induction false} FailedNames(runs: seq<Record>)
    requires AllValid(runs)
    ensures Distinct(FailedIn(runs)) && AllNames(FailedIn(runs)) && Distinct(FlakyIn(runs)) && AllNames(FlakyIn(runs))
    ensures forall n :: n in FailedIn(runs) <==> exists i :: 0 <= i < |runs| && n in runs[i].failed
  {
    if runs != [] {
      var before, last := runs[..|runs| - 1], runs[|runs| - 1];
      FailedNames(before);
      AddNewIsUnion(FailedIn(before), last.failed);
      AddNewIsUnion(FlakyIn(before), last.flaky);
      AddNewValid(FailedIn(before), last.failed);
      AddNewValid(FlakyIn(before), last.flaky);
      forall n ensures n in FailedIn(runs) <==> exists i :: 0 <= i < |runs| && n in runs[i].failed {
        assert n in FailedIn(runs) <==> n in Elements(FailedIn(runs));
        assert n in FailedIn(before) <==> n in Elements(FailedIn(before));
        assert n in last.failed <==> n in Elements(last.failed);
        if i :| 0 <= i < |before| && n in before[i].failed {
          assert n in runs[i].failed;
        }
      }
    }
  }

  /** The sum counts every name at least once, and a capped run in full. */
  ghost predicate Covered(runs: seq<Record>) {
    && Distinct(FailedIn(runs)) && Summed(runs) >= |FailedIn(runs)|
    && (Capped(runs) ==> Summed(runs) >= NAMES)
  }

  lemma {:induction false} SummedCovers(runs: seq<Record>)
    requires AllValid(runs)
    ensures Covered(runs)
  {
    if runs != [] {
      var n := |runs| - 1;
      SummedCovers(runs[..n]);
      assert runs == runs[..n] + [runs[n]];
      CoversMore(runs[..n], runs[n]);
    }
  }

  lemma CoversMore(runs: seq<Record>, run: Record)
    requires Covered(runs) && |run.failed| <= run.count
    ensures Covered(runs + [run])
  {
    assert (runs + [run])[..|runs|] == runs;
    NewNames(FailedIn(runs), run.failed);
    OneMore(runs, run);
  }

  /** A run adds no more names than it lists beyond those known. */
  lemma NewNames(known: seq<string>, ns: seq<string>)
    requires Distinct(known)
    ensures Distinct(AddNew(known, ns))
    ensures |Elements(known) * Elements(ns)| <= |known| && |Elements(known) * Elements(ns)| <= |ns|
    ensures |AddNew(known, ns)| <= |known| + |ns| - |Elements(known) * Elements(ns)|
  {
    AddNewIsUnion(known, ns);
    DistinctCount(known);
    DistinctCount(ns);
    DistinctCount(AddNew(known, ns));
    UnionCount(Elements(known), Elements(ns));
  }

  lemma UnionCount(a: set<string>, b: set<string>)
    ensures |a + b| == |a| + |b| - |a * b| && |a * b| <= |a| && |a * b| <= |b|
  {
    var only := b - a;
    assert a + b == a + only && b == only + a * b;
    assert a == (a - b) + a * b;
  }

  /** Without a capped run, a run that counts a failure lists it. */
  lemma CountedIsListed(runs: seq<Record>, i: nat)
    requires AllValid(runs) && i < |runs| && !Capped(runs) && runs[i].count > 0
    ensures FailedIn(runs) != []
  {
    FailedNames(runs);
    var n := runs[i].failed[0];
    assert n in runs[i].failed;
    assert n in FailedIn(runs);
  }

  lemma {:induction false} FlakyKept(runs: seq<Record>, i: nat)
    requires AllValid(runs) && i < |runs|
    ensures runs[i].flaky != [] ==> FlakyIn(runs) != []
  {
    var before, last := runs[..|runs| - 1], runs[|runs| - 1];
    FailedNames(before);
    AddNewIsUnion(FlakyIn(before), last.flaky);
    if i < |before| {
      FlakyKept(before, i);
      if FlakyIn(before) != [] {
        assert FlakyIn(before)[0] in Elements(FlakyIn(runs));
      }
    } else if last.flaky != [] {
      assert last.flaky[0] in Elements(FlakyIn(runs));
    }
  }

  lemma {:induction false} NoFlaky(runs: seq<Record>)
    requires forall i :: 0 <= i < |runs| ==> runs[i].flaky == []
    ensures FlakyIn(runs) == []
  {
    if runs != [] {
      NoFlaky(runs[..|runs| - 1]);
    }
  }

  lemma {:induction false} NoFailed(runs: seq<Record>)
    requires forall i :: 0 <= i < |runs| ==> runs[i].failed == []
    ensures FailedIn(runs) == []
  {
    if runs != [] {
      NoFailed(runs[..|runs| - 1]);
    }
  }

  /** The strongest state is some run's, and none is stronger. */
  lemma {:induction false} StrongestIsOne(runs: seq<Record>) returns (k: nat)
    requires runs != []
    ensures k < |runs| && runs[k].rerun == Strongest(runs)
    ensures forall i :: 0 <= i < |runs| ==> Rank(runs[i].rerun) <= Rank(Strongest(runs))
  {
    k := 0;
    if |runs| > 1 {
      var n := |runs| - 1;
      k := StrongestIsOne(runs[..n]);
      if Rank(runs[n].rerun) > Rank(Strongest(runs[..n])) {
        k := n;
      }
    }
  }

  /** Folding valid records gives a valid record. Its count is the number of distinct failed tests when
      no run reached a hundred, and otherwise at least that number and at least a hundred. */
  lemma FoldedIsValid(runs: seq<Record>)
    requires runs != [] && AllValid(runs) && Summed(runs) <= MAX_COUNT
    ensures Valid(Folded(runs))
    ensures !Capped(runs) ==>
              Folded(runs).count == |set i, j | 0 <= i < |runs| && 0 <= j < |runs[i].failed| :: runs[i].failed[j]|
    ensures Capped(runs) ==> Folded(runs).count >= NAMES && Folded(runs).count >= |FailedIn(runs)|
  {
    SummedCovers(runs);
    FailedNames(runs);
    DistinctCount(FailedIn(runs));
    assert Elements(FailedIn(runs)) == set i, j | 0 <= i < |runs| && 0 <= j < |runs[i].failed| :: runs[i].failed[j];
    RerunFolds(runs);
  }

  lemma RerunFolds(runs: seq<Record>)
    requires runs != [] && AllValid(runs)
    ensures RerunAgrees(Folded(runs))
  {
    SummedCovers(runs);
    var k := StrongestIsOne(runs);
    assert Valid(runs[k]);
    match Strongest(runs)
    case NotNeeded =>
      NoFlaky(runs);
      NoFailed(runs);
    case NotRun =>
      NoFlaky(runs);
    case Isolated =>
      FlakyKept(runs, k);
      if runs[k].count > 0 && !Capped(runs) {
        CountedIsListed(runs, k);
      }
    case OverBound =>
      if runs[k].count > 0 && !Capped(runs) {
        CountedIsListed(runs, k);
      }
  }
}
