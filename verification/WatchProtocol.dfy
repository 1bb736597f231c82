/**
 The durable status of the merge watcher (scripts/scenario-merge-watch.py) as a protocol: what its
 memory may become, what is saved, and when a cleanup target may be deleted. A run is any sequence of
 events over any number of restarts.
 */
module WatchProtocol {
  import opened Basics

  /** `targets` cleanup targets, worktrees before branches. */
  datatype Config = Config(targets: nat, maxPolls: nat, maxErrors: nat)

  datatype Stage = Starting | WaitingForGitHub | WaitingForCi | WaitingForMerge | Cleaning | Finished | Failed

  datatype Progress = Ready | Intent | Removed

  /** The persisted status. `merge` and `kind` are the two halves of the merge evidence. */
  datatype Status = Status(polls: nat, errors: nat, stage: Stage, merge: Option<nat>, kind: Option<nat>,
                           cleanup: seq<Progress>)

  predicate Terminal(s: Stage) {
    s == Finished || s == Failed
  }

  function First(c: Config): Status {
    Status(0, 0, Starting, None, None, seq(c.targets, i => Ready))
  }

  /** The checks `admit` makes of a retained status. */
  predicate Admitted(c: Config, w: Status) {
    && w.polls <= c.maxPolls && w.errors <= c.maxErrors
    && |w.cleanup| == c.targets
    && (w.stage == Finished ==> (forall i :: 0 <= i < |w.cleanup| ==> w.cleanup[i] == Removed)
                                && w.merge != None && w.kind != None)
    && (w.merge != None <==> w.kind != None)
    && (w.stage == Cleaning || w.stage == Finished ==> w.merge != None)
    && ((exists i :: 0 <= i < |w.cleanup| && w.cleanup[i] != Ready) ==> w.merge != None)
  }

  /** A deletion that was dispatched, with what the running pass had established before it. */
  datatype Deletion = Deletion(target: nat, green: bool, verified: bool, durableMerge: bool)

  /** `green`, `verified`: this pass saw every required check green at the pinned head, and then
      verified the merge. `armed`: the target this pass has just marked. `absent`: the targets observed
      absent, after their deletion if there was one. `pass`: how far the running pass has come. `asked`: how
      many passes have asked GitHub; `failures`: how many of them failed for now; `lost`: how many failures
      no counter knows of, because the process died before it had saved them. */
  datatype State = State(disk: Option<Status>, memory: Status, green: bool, verified: bool, armed: Option<nat>,
                         deletions: seq<Deletion>, absent: set<nat>,
                         pass: Pass, asked: nat, failures: nat, lost: nat)

  /** A pass counts its poll, and may ask once that is durable. */
  datatype Pass = Idle | Counted | Asking

  datatype Event =
    | Restarted
    | Saved
    | CountPoll
    | Asked
    | CountError
    | SawGreen
    | SetMerge(merge: nat, kind: nat)
    | SetStage(stage: Stage)
    | Mark(i: nat)
    | Delete(i: nat)
    | SawAbsent(i: nat)
    | SetRemoved(i: nat)

  function Start(c: Config): State {
    State(None, First(c), false, false, None, [], {}, Idle, 0, 0, 0)
  }

  /** What a restart takes up. */
  function Durable(c: Config, disk: Option<Status>): Status {
    if disk == None then First(c) else disk.value
  }

  predicate Enabled(c: Config, s: State, e: Event) {
    var w := s.memory;
    match e
    case Restarted => true
    case Saved => true
    case CountPoll => !Terminal(w.stage) && w.polls < c.maxPolls
    case Asked => s.pass == Counted && s.disk == Some(w)
    case CountError => !Terminal(w.stage) && s.pass == Asking && w.errors < c.maxErrors
    case SawGreen => !Terminal(w.stage) && s.pass == Asking
    case SetMerge(m, k) =>
      !Terminal(w.stage) && s.green && (w.merge == None || (w.merge == Some(m) && w.kind == Some(k)))
    case SetStage(t) =>
      && !Terminal(w.stage)
      && (t == Cleaning ==> s.verified)
      && (t == Finished ==> s.verified
                            && (forall i :: 0 <= i < |w.cleanup| ==> w.cleanup[i] == Removed && i in s.absent))
    case Mark(i) => !Terminal(w.stage) && s.verified && i < |w.cleanup| && w.cleanup[i] == Ready
    case Delete(i) => s.armed == Some(i) && s.disk == Some(w) && i < |w.cleanup|
    case SawAbsent(i) => i < |w.cleanup|
    case SetRemoved(i) => !Terminal(w.stage) && i < |w.cleanup| && w.cleanup[i] == Intent && i in s.absent
  }

  function Apply(c: Config, s: State, e: Event): State
    requires Enabled(c, s, e)
  {
    var w := s.memory;
    match e
    case Restarted =>
      var durable := Durable(c, s.disk);
      s.(memory := durable, green := false, verified := false, armed := None, pass := Idle,
      lost := if w.errors > durable.errors then s.lost + 1 else s.lost)
    case Saved => s.(disk := Some(w))
    case CountPoll =>
      s.(memory := w.(polls := w.polls + 1), green := false, verified := false, armed := None, pass := Counted)
    case Asked => s.(asked := s.asked + 1, pass := Asking, armed := None)
    case CountError =>
      var last := w.stage == Cleaning || w.errors + 1 >= c.maxErrors;
      s.(memory := w.(errors := w.errors + 1, stage := if last then Failed else WaitingForGitHub), armed := None,
      green := false, verified := false, pass := Idle, failures := s.failures + 1)
    case SawGreen => s.(green := true, armed := None)
    case SetMerge(m, k) => s.(memory := w.(merge := Some(m), kind := Some(k)), verified := true, armed := None)
    case SetStage(t) => s.(memory := w.(stage := t), armed := None)
    case Mark(i) => s.(memory := w.(cleanup := w.cleanup[i := Intent]), armed := Some(i), absent := s.absent - {i})
    case Delete(i) =>
      s.(deletions := s.deletions + [Deletion(i, s.green, s.verified, s.disk.value.merge != None)], armed := None)
    case SawAbsent(i) => s.(absent := s.absent + {i}, armed := None)
    case SetRemoved(i) => s.(memory := w.(cleanup := w.cleanup[i := Removed]), armed := None)
  }

  ghost predicate Legal(c: Config, es: seq<Event>)
    decreases |es|, 0
  {
    es == [] || (Legal(c, es[..|es| - 1]) && Enabled(c, After(c, es[..|es| - 1]), es[|es| - 1]))
  }

  ghost function After(c: Config, es: seq<Event>): State
    requires Legal(c, es)
    decreases |es|, 1
  {
    if es == [] then Start(c) else Apply(c, After(c, es[..|es| - 1]), es[|es| - 1])
  }

  /** `es` is a run and leads to `s`: said of whatever equals `es`, so that a proof about one more step
      does not unfold the run. */
  ghost predicate LeadsTo(c: Config, es: seq<Event>, s: State) {
    forall fs :: fs == es ==> Legal(c, fs) && After(c, fs) == s
  }

  lemma OneMore(c: Config, es: seq<Event>, s: State, e: Event)
    requires LeadsTo(c, es, s) && Enabled(c, s, e)
    ensures LeadsTo(c, es + [e], Apply(c, s, e))
  {
    assert Legal(c, es) && After(c, es) == s;
    forall fs | fs == es + [e] ensures Legal(c, fs) && After(c, fs) == Apply(c, s, e) {
      assert fs[..|fs| - 1] == es;
    }
  }

  // --- What every run keeps. --------------------------------------------------------------------

  /** `w` can grow into `x`: budgets only get used, progress only advances, evidence stays. */
  ghost predicate Grows(w: Status, x: Status) {
    && w.polls <= x.polls && w.errors <= x.errors
    && |w.cleanup| == |x.cleanup|
    && (forall i :: 0 <= i < |w.cleanup| ==> Advances(w.cleanup[i], x.cleanup[i]))
    && (w.merge != None ==> x.merge == w.merge && x.kind == w.kind)
    && (Terminal(w.stage) ==> x == w)
  }

  predicate Advances(p: Progress, q: Progress) {
    p == q || p == Ready || (p == Intent && q == Removed)
  }

  ghost predicate Inv(c: Config, s: State) {
    && Admitted(c, s.memory)
    && (s.disk != None ==> Admitted(c, s.disk.value) && Grows(s.disk.value, s.memory))
    && (!Terminal(s.memory.stage) ==> s.memory.errors < c.maxErrors)
    && (s.disk != None && !Terminal(s.disk.value.stage) ==> s.disk.value.errors < c.maxErrors)
    && (s.verified ==> s.green && s.memory.merge != None)
    && ArmedInv(s)
    && DeletionsInv(s)
    && BudgetsInv(c, s)
    && (forall i :: 0 <= i < |s.memory.cleanup| && s.memory.cleanup[i] == Removed ==> i in s.absent)
  }

  /** What has just been marked was not deleted before. */
  ghost predicate ArmedInv(s: State) {
    s.armed != None ==>
      && s.verified && s.armed.value < |s.memory.cleanup| && s.memory.cleanup[s.armed.value] == Intent
      && (forall k :: 0 <= k < |s.deletions| ==> s.deletions[k].target != s.armed.value)
  }

  ghost predicate Warranted(disk: Option<Status>, d: Deletion) {
    && disk != None && d.target < |disk.value.cleanup| && disk.value.cleanup[d.target] != Ready
    && d.green && d.verified && d.durableMerge
  }

  /** Every deletion stands in the durable status, was dispatched once, and not before its evidence. */
  ghost predicate DeletionsInv(s: State) {
    && (forall k :: 0 <= k < |s.deletions| ==> Warranted(s.disk, s.deletions[k]))
    && (forall j, k :: 0 <= j < k < |s.deletions| ==> s.deletions[j].target != s.deletions[k].target)
  }

  /** Every pass that asked is durably counted, and every failure is counted in memory or was lost. */
  ghost predicate BudgetsInv(c: Config, s: State) {
    && s.asked <= Durable(c, s.disk).polls
    && s.asked + (if s.pass == Counted then 1 else 0) <= s.memory.polls
    && s.failures + (if s.pass == Asking then 1 else 0) <= s.asked
    && s.failures == s.memory.errors + s.lost
    && s.memory.errors <= Durable(c, s.disk).errors + (if s.pass == Asking then 0 else 1)
  }

  lemma GrowsTransitive(w: Status, x: Status, y: Status)
    requires Grows(w, x) && Grows(x, y)
    ensures Grows(w, y)
  {
  }

  /** One event: memory stays a status that could be saved, and only grows unless it is reloaded. */
  lemma EventKeepsMemory(c: Config, s: State, e: Event)
    requires c.maxErrors >= 1 && Inv(c, s) && Enabled(c, s, e)
    ensures Admitted(c, Apply(c, s, e).memory)
    ensures !Terminal(Apply(c, s, e).memory.stage) ==> Apply(c, s, e).memory.errors < c.maxErrors
    ensures e != Restarted ==> Grows(s.memory, Apply(c, s, e).memory)
  {
    var w, x := s.memory, Apply(c, s, e).memory;
    match e
    case Mark(i) =>
      assert w.merge != None;
    case SetRemoved(i) =>
      assert w.cleanup[i] != Ready;
    case Restarted =>
    case Saved =>
    case CountPoll =>
    case Asked =>
    case CountError =>
    case SawGreen =>
    case SetMerge(_, _) =>
    case SetStage(_) =>
    case Delete(_) =>
    case SawAbsent(_) =>
  }

  lemma EventKeepsDisk(c: Config, s: State, e: Event)
    requires c.maxErrors >= 1 && Inv(c, s) && Enabled(c, s, e)
    ensures var t := Apply(c, s, e);
            t.disk != None ==>
              && Admitted(c, t.disk.value) && Grows(t.disk.value, t.memory)
              && (!Terminal(t.disk.value.stage) ==> t.disk.value.errors < c.maxErrors)
    ensures s.disk != None ==> Apply(c, s, e).disk != None && Grows(s.disk.value, Apply(c, s, e).disk.value)
  {
    EventKeepsMemory(c, s, e);
    if s.disk != None && e != Restarted {
      GrowsTransitive(s.disk.value, s.memory, Apply(c, s, e).memory);
    }
  }

  lemma EventKeepsBudgets(c: Config, s: State, e: Event)
    requires BudgetsInv(c, s) && Enabled(c, s, e)
    requires Durable(c, s.disk).polls <= s.memory.polls && Durable(c, s.disk).errors <= s.memory.errors
    ensures BudgetsInv(c, Apply(c, s, e))
  {
    match e
    case Restarted =>
    case Saved =>
    case CountPoll =>
    case Asked =>
    case CountError =>
    case _ => SameBudgets(c, s, Apply(c, s, e));
  }

  lemma SameBudgets(c: Config, s: State, t: State)
    requires BudgetsInv(c, s) && t.disk == s.disk && t.pass == s.pass && t.asked == s.asked && t.failures == s.failures
    requires t.lost == s.lost && t.memory.polls == s.memory.polls && t.memory.errors == s.memory.errors
    ensures BudgetsInv(c, t)
  {
  }

  /** A deletion is of a target that is durably marked, and was not deleted before. */
  lemma DeleteKeepsDeletions(c: Config, s: State, i: nat)
    requires Inv(c, s) && Enabled(c, s, Delete(i))
    ensures DeletionsInv(Apply(c, s, Delete(i)))
  {
    var t := Apply(c, s, Delete(i));
    assert t.deletions[|s.deletions|] == Deletion(i, true, true, true) && Warranted(t.disk, t.deletions[|s.deletions|]);
    forall k | 0 <= k < |s.deletions| ensures t.deletions[k] == s.deletions[k] && s.deletions[k].target != i {
    }
  }

  lemma SaveKeepsDeletions(c: Config, s: State)
    requires Inv(c, s)
    ensures DeletionsInv(Apply(c, s, Saved))
  {
    forall k | 0 <= k < |s.deletions| ensures Warranted(Some(s.memory), s.deletions[k]) {
      var i := s.deletions[k].target;
      assert Warranted(s.disk, s.deletions[k]);
      assert Advances(s.disk.value.cleanup[i], s.memory.cleanup[i]);
    }
  }

  lemma SameDeletions(s: State, t: State)
    requires DeletionsInv(s) && t.disk == s.disk && t.deletions == s.deletions
    ensures DeletionsInv(t)
  {
  }

  lemma EventKeepsDeletions(c: Config, s: State, e: Event)
    requires Inv(c, s) && Enabled(c, s, e)
    ensures DeletionsInv(Apply(c, s, e))
  {
    if e.Delete? {
      DeleteKeepsDeletions(c, s, e.i);
    } else if e.Saved? {
      SaveKeepsDeletions(c, s);
    } else {
      SameDeletions(s, Apply(c, s, e));
    }
  }

  /** What is already marked cannot be marked again, so nothing armed was deleted before. */
  lemma MarkIsNew(c: Config, s: State, i: nat, k: nat)
    requires Inv(c, s) && Enabled(c, s, Mark(i)) && k < |s.deletions|
    ensures s.deletions[k].target != i
  {
    assert Warranted(s.disk, s.deletions[k]);
    assert Advances(s.disk.value.cleanup[s.deletions[k].target], s.memory.cleanup[s.deletions[k].target]);
  }

  lemma EventKeepsInv(c: Config, s: State, e: Event)
    requires c.maxErrors >= 1 && Inv(c, s) && Enabled(c, s, e)
    ensures Inv(c, Apply(c, s, e))
  {
    EventKeepsMemory(c, s, e);
    EventKeepsDisk(c, s, e);
    EventKeepsDeletions(c, s, e);
    EventKeepsBudgets(c, s, e);
    EventKeepsArmed(c, s, e);
  }

  lemma EventKeepsArmed(c: Config, s: State, e: Event)
    requires Inv(c, s) && Enabled(c, s, e)
    ensures ArmedInv(Apply(c, s, e))
  {
    if e.Mark? {
      forall k | 0 <= k < |s.deletions| ensures s.deletions[k].target != e.i { MarkIsNew(c, s, e.i, k); }
    }
  }

  lemma {:induction false} RunKeepsInv(c: Config, es: seq<Event>)
    requires c.maxErrors >= 1 && Legal(c, es)
    ensures Inv(c, After(c, es))
  {
    if es != [] {
      RunKeepsInv(c, es[..|es| - 1]);
      EventKeepsInv(c, After(c, es[..|es| - 1]), es[|es| - 1]);
    }
  }

  lemma Reached(c: Config, es: seq<Event>, s: State)
    requires c.maxErrors >= 1 && LeadsTo(c, es, s)
    ensures Inv(c, s)
  {
    assert Legal(c, es) && After(c, es) == s;
    RunKeepsInv(c, es);
  }

  // --- The theorems about whole runs. -----------------------------------------------------------

  /** Over all restarts each target's deletion is dispatched at most once, and each only in a pass that
      saw every required check green and verified the merge, with the merge evidence durable. */
  lemma DeletionsOnceAndAuthorized(c: Config, es: seq<Event>)
    requires c.maxErrors >= 1 && Legal(c, es)
    ensures forall j, k :: 0 <= j < k < |After(c, es).deletions| ==>
              After(c, es).deletions[j].target != After(c, es).deletions[k].target
    ensures forall d :: d in After(c, es).deletions ==> d.target < c.targets && d.green && d.verified && d.durableMerge
  {
    RunKeepsInv(c, es);
    var s := After(c, es);
    forall d | d in s.deletions ensures d.target < c.targets && d.green && d.verified && d.durableMerge {
      var k :| 0 <= k < |s.deletions| && s.deletions[k] == d;
      assert Warranted(s.disk, s.deletions[k]);
    }
  }

  /** Every status that is ever durable is admitted after a crash at any point, within its budgets. */
  lemma EveryStatusIsAdmitted(c: Config, es: seq<Event>)
    requires c.maxErrors >= 1 && Legal(c, es) && After(c, es).disk != None
    ensures Admitted(c, After(c, es).disk.value)
  {
    RunKeepsInv(c, es);
  }

  /** Over all restarts no more passes ask GitHub than are durably counted, so no more than the poll budget;
      and every failure is counted, or was lost with the process before it was saved. */
  lemma BudgetsCountWhatHappened(c: Config, es: seq<Event>)
    requires c.maxErrors >= 1 && Legal(c, es)
    ensures var s := After(c, es);
            && s.asked <= Durable(c, s.disk).polls <= c.maxPolls
            && s.failures <= s.asked
            && s.failures == s.memory.errors + s.lost && s.memory.errors <= c.maxErrors
  {
    RunKeepsInv(c, es);
  }

  /** The error budget bounds the failures that happened in exactly the configurations that leave no more
      polls than errors: a process that dies before it has saved its failure starts again with the old count. */
  lemma FailuresWithinErrorsExactly(c: Config)
    requires c.maxErrors >= 1
    ensures (forall es :: Legal(c, es) ==> After(c, es).failures <= c.maxErrors) <==> c.maxPolls <= c.maxErrors
  {
    if c.maxPolls <= c.maxErrors {
      forall es | Legal(c, es) ensures After(c, es).failures <= c.maxErrors {
        BudgetsCountWhatHappened(c, es);
      }
    } else {
      var run := DyingRun(c, c.maxPolls);
      assert exists es :: Legal(c, es) && After(c, es).failures > c.maxErrors by {
        assert Legal(c, run) && After(c, run).failures > c.maxErrors;
      }
    }
  }

  /** `n` lives, each of which asks once, fails and dies with its failure. */
  ghost function DyingRun(c: Config, n: nat): (es: seq<Event>)
    requires c.maxErrors >= 1 && n <= c.maxPolls
    ensures Legal(c, es)
    ensures var s := After(c, es);
            && s.failures == s.asked == s.lost == n && s.memory == First(c).(polls := n) == Durable(c, s.disk)
  {
    if n == 0 then [] else
      var es := DyingRun(c, n - 1);
      AskOnce(c, es);
      FailAndDie(c, es + [CountPoll] + [Saved] + [Asked]);
      es + [CountPoll] + [Saved] + [Asked] + [CountError] + [Restarted]
  }

  lemma Extend(c: Config, es: seq<Event>, e: Event)
    requires Legal(c, es) && Enabled(c, After(c, es), e)
    ensures Legal(c, es + [e]) && After(c, es + [e]) == Apply(c, After(c, es), e)
  {
    assert (es + [e])[..|es|] == es;
  }

  lemma AskOnce(c: Config, es: seq<Event>)
    requires Legal(c, es) && After(c, es).memory.polls < c.maxPolls && !Terminal(After(c, es).memory.stage)
    ensures Legal(c, es + [CountPoll] + [Saved] + [Asked])
    ensures var s, t := After(c, es), After(c, es + [CountPoll] + [Saved] + [Asked]);
            && t.memory == s.memory.(polls := s.memory.polls + 1) && t.disk == Some(t.memory)
            && t.pass == Asking && t.asked == s.asked + 1 && t.failures == s.failures && t.lost == s.lost
  {
    Extend(c, es, CountPoll);
    Extend(c, es + [CountPoll], Saved);
    Extend(c, es + [CountPoll] + [Saved], Asked);
  }

  lemma FailAndDie(c: Config, es: seq<Event>)
    requires Legal(c, es) && After(c, es).pass == Asking && After(c, es).disk == Some(After(c, es).memory)
    requires !Terminal(After(c, es).memory.stage) && After(c, es).memory.errors < c.maxErrors
    ensures Legal(c, es + [CountError] + [Restarted])
    ensures var s, t := After(c, es), After(c, es + [CountError] + [Restarted]);
            && t.memory == s.memory && t.disk == s.disk
            && t.asked == s.asked && t.failures == s.failures + 1 && t.lost == s.lost + 1
  {
    Extend(c, es, CountError);
    Extend(c, es + [CountError], Restarted);
  }

  /** Finished, durably, means that every target was observed absent, after its deletion if the watcher
      deleted it, and that the merge is on record. */
  lemma FinishedMeansAbsent(c: Config, es: seq<Event>)
    requires c.maxErrors >= 1 && Legal(c, es)
    requires After(c, es).disk != None && After(c, es).disk.value.stage == Finished
    ensures forall i :: 0 <= i < c.targets ==> i in After(c, es).absent
    ensures After(c, es).disk.value.merge != None
  {
    RunKeepsInv(c, es);
    var s := After(c, es);
    assert s.memory == s.disk.value;
  }

  /** From any durable status to any later one budgets are only used up, retained evidence and progress
      stay, and a terminal status never changes. */
  lemma {:induction false} DurableStatusOnlyGrows(c: Config, es: seq<Event>, n: nat)
    requires c.maxErrors >= 1 && Legal(c, es) && n <= |es|
    ensures Legal(c, es[..n])
    ensures After(c, es[..n]).disk != None ==>
              After(c, es).disk != None && Grows(After(c, es[..n]).disk.value, After(c, es).disk.value)
    decreases |es|
  {
    if n == |es| {
      assert es[..n] == es;
    } else {
      var before := es[..|es| - 1];
      assert before[..n] == es[..n];
      DurableStatusOnlyGrows(c, before, n);
      RunKeepsInv(c, before);
      EventKeepsDisk(c, After(c, before), es[|es| - 1]);
      if After(c, es[..n]).disk != None {
        GrowsTransitive(After(c, es[..n]).disk.value, After(c, before).disk.value, After(c, es).disk.value);
      }
    }
  }
}
