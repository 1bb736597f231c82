/**
 The merge watcher of scripts/scenario-merge-watch.py: a bounded polling loop that waits for a human
 merge and then removes the configured worktrees and branches. `script` holds what the environment
 answers, call by call; where it ends the process is stopped or dies. Whatever it says, what the
 watcher keeps, saves and deletes is a run of WatchProtocol.
 */
module MergeWatch {
  import opened Basics
  import opened WatchProtocol

  datatype Answer =
    | Good                          // the call succeeds; a save is durable
    | Refuses                       // Refused or OSError before any effect
    | RefusesLate                   // an error after the effect: the file replaced, the target deleted
    | Unavailable                   // a bounded command failed, with or without effect
    | Pull(merged: bool, sha: nat)  // the pull request, and its merge commit
    | Green(all: bool)              // whether every required check succeeded at the pinned head
    | Evidence(kind: nat)           // ancestry or exact tree, re-read and unchanged
    | Absent(yes: bool)             // whether the target is gone

  /** How a step of the loop ends: an exception other than Unavailable and Refused leaves `run`. */
  datatype Result = Ok | NotNow | Refused | Stopped

  predicate Says(script: seq<Answer>, n: nat, a: Answer) { n < |script| && script[n] == a }

  /** A pass in time, with its poll saved, whose first question fails for now. */
  predicate Unanswered(script: seq<Answer>, n: nat) {
    Says(script, n, Good) && Says(script, n + 1, Good) && Says(script, n + 2, Unavailable)
  }

  /** A life that ends before its first failure is saved. */
  predicate FailsUnsaved(c: Config, disk: Option<Status>, script: seq<Answer>) {
    var n := if disk == None then 2 else 1;
    && !Terminal(Durable(c, disk).stage) && Durable(c, disk).polls < c.maxPolls
    && |script| == n + 3 && (forall i :: 0 <= i < n ==> script[i] == Good) && Unanswered(script, n)
  }

  class Watcher {
    const config: Config
    var disk: Option<Status>
    var memory: Status
    var script: seq<Answer>
    var at: nat
    ghost var state: State
    ghost var events: seq<Event>

    ghost predicate Valid()
      reads this
    {
      && config.maxErrors >= 1
      && LeadsTo(config, events, state)
      && state.disk == disk && state.memory == memory
    }

    constructor (config: Config)
      requires config.maxErrors >= 1
      ensures Valid() && this.config == config && disk == None && state == Start(config)
    {
      this.config, disk, memory, script, at := config, None, First(config), [], 0;
      state, events := Start(config), [];
    }

    /** The status in memory can be saved, within its budgets. */
    lemma WithinBudgets()
      requires Valid()
      ensures Admitted(config, memory) && (!Terminal(memory.stage) ==> memory.errors < config.maxErrors)
      ensures state.asked <= Durable(config, disk).polls <= config.maxPolls
      ensures state.failures <= state.asked && Durable(config, disk).errors <= config.maxErrors
    {
      Reached(config, events, state);
    }

    /** A target armed with its mark on disk is deleted on durable evidence. */
    lemma ArmedIsAuthorized()
      requires Valid() && state.armed != None && disk == Some(memory)
      ensures state.green && state.verified && memory.merge != None
    {
      Reached(config, events, state);
    }

    method Next() returns (a: Option<Answer>)
      modifies this`at
      ensures a == if old(at) < |script| then Some(script[old(at)]) else None
      ensures at == old(at) + if old(at) < |script| then 1 else 0
    {
      a := None;
      if at < |script| {
        a, at := Some(script[at]), at + 1;
      }
    }

    ghost method Happen(e: Event)
      requires LeadsTo(config, events, state) && Enabled(config, state, e)
      modifies this`events, this`state
      ensures events == old(events) + [e] && LeadsTo(config, events, state)
      ensures state == Apply(config, old(state), e)
    {
      OneMore(config, events, state, e);
      events, state := events + [e], Apply(config, state, e);
    }

    static function Failure(a: Option<Answer>): Result {
      if a == None then Stopped else if a == Some(Unavailable) then NotNow else Refused
    }

    method Ask() returns (r: Result)
      modifies this`at
      ensures r == Ok <==> Says(script, old(at), Good)
      ensures r == Ok ==> at == old(at) + 1
    {
      var a := Next();
      r := if a == Some(Good) then Ok else Failure(a);
    }

    /** Write the status through to disk. Nothing saved is ever refused later by `admit`. */
    method Save() returns (r: Result)
      requires Valid()
      modifies this`disk, this`at, this`events, this`state
      ensures Valid() && old(events) <= events && Admitted(config, memory)
      ensures r in {Ok, Refused, Stopped}
      ensures state == old(state) || state == old(state).(disk := Some(memory))
      ensures r == Ok ==> disk == Some(memory) && state == old(state).(disk := Some(memory))
      ensures Says(script, old(at), Good) ==> r == Ok && at == old(at) + 1
      ensures old(at) >= |script| ==> r == Stopped && state == old(state) && disk == old(disk)
    {
      var a := Next();
      if a == Some(Good) || a == Some(RefusesLate) {
        Happen(Saved);
        disk := Some(memory);
      }
      r := if a == None then Stopped else if a == Some(Good) then Ok else Refused;
      WithinBudgets();
    }

    method SaveStage(t: Stage) returns (r: Result)
      requires Valid() && Enabled(config, state, SetStage(t))
      modifies this`disk, this`memory, this`at, this`events, this`state
      ensures Valid() && old(events) <= events && memory == old(memory).(stage := t)
      ensures r in {Ok, Refused, Stopped}
      ensures r == Ok ==> disk == Some(memory)
      ensures state.verified == old(state).verified && state.absent == old(state).absent
      ensures state.deletions == old(state).deletions && state.pass == old(state).pass
    {
      Happen(SetStage(t));
      memory := memory.(stage := t);
      r := Save();
    }

    /** Start again from what is durable. */
    method Restart()
      requires Valid()
      modifies this`memory, this`events, this`state
      ensures Valid() && old(events) <= events
      ensures memory == Durable(config, disk)
      ensures state.deletions == old(state).deletions && state.failures == old(state).failures
    {
      Happen(Restarted);
      memory := Durable(config, disk);
    }

    // --- Cleanup. -----------------------------------------------------------------------------

    /** Observe whether target `i` is absent. */
    method Look(i: nat) returns (r: Result)
      requires Valid() && i < |memory.cleanup|
      modifies this`at, this`events, this`state
      ensures Valid() && old(events) <= events
      ensures r == Ok <==> Says(script, old(at), Absent(true))
      ensures r == Ok ==> state == old(state).(absent := old(state).absent + {i}, armed := None)
      ensures r != Ok ==> state == old(state)
    {
      var a := Next();
      if a == Some(Absent(true)) {
        Happen(SawAbsent(i));
        r := Ok;
      } else {
        r := Failure(a);
      }
    }

    /** Mark target `i` durably, then delete it, then see it gone. */
    method Remove(i: nat) returns (r: Result)
      requires Valid() && !Terminal(memory.stage) && state.verified && i < |memory.cleanup|
      requires memory.cleanup[i] == Ready
      modifies this`disk, this`memory, this`at, this`events, this`state
      ensures Valid() && old(events) <= events
      ensures memory.stage == old(memory).stage && memory.polls == old(memory).polls
      ensures |memory.cleanup| == |old(memory).cleanup| && state.pass == old(state).pass
      ensures r == Ok ==> memory == old(memory).(cleanup := old(memory).cleanup[i := Intent])
      ensures r == Ok ==> state.verified && i in state.absent
      ensures r == Ok ==> state.deletions == old(state).deletions + [Deletion(i, true, true, true)]
    {
      r := Ask();  // the target is still exactly what was configured
      if r != Ok {
        return;
      }
      r := MarkTarget(i);
      if r != Ok {
        return;
      }
      ArmedIsAuthorized();
      Happen(Delete(i));  // whether or not the command then reports success
      r := Ask();
      if r == Ok {
        r := Look(i);
      }
    }

    method MarkTarget(i: nat) returns (r: Result)
      requires Valid() && Enabled(config, state, Mark(i))
      modifies this`disk, this`memory, this`at, this`events, this`state
      ensures Valid() && old(events) <= events
      ensures memory == old(memory).(cleanup := old(memory).cleanup[i := Intent])
      ensures r == Ok ==> disk == Some(memory) && state.armed == Some(i) && state.verified
      ensures state.deletions == old(state).deletions && state.pass == old(state).pass
    {
      Happen(Mark(i));
      memory := memory.(cleanup := memory.cleanup[i := Intent]);
      r := Save();
    }

    /** One target of the cleanup. A mark left by a crash is settled by absence, never repeated. */
    method CleanOne(i: nat) returns (r: Result)
      requires Valid() && !Terminal(memory.stage) && state.verified && i < |memory.cleanup|
      modifies this`disk, this`memory, this`at, this`events, this`state
      ensures Valid() && old(events) <= events
      ensures memory.stage == old(memory).stage && memory.polls == old(memory).polls
      ensures |memory.cleanup| == |old(memory).cleanup| && state.pass == old(state).pass
      ensures r == Ok ==> memory == old(memory).(cleanup := old(memory).cleanup[i := Removed]) && state.verified
      ensures old(memory).cleanup[i] != Ready ==> state.deletions == old(state).deletions
      ensures r == Ok && old(memory).cleanup[i] == Ready ==>
                state.deletions == old(state).deletions + [Deletion(i, true, true, true)]
    {
      if memory.cleanup[i] == Removed {
        r := Look(i);
        assert memory.cleanup[i := Removed] == memory.cleanup;
        return;
      }
      if memory.cleanup[i] == Intent {
        r := Look(i);
      } else {
        r := Remove(i);
      }
      if r == Ok {
        r := Conclude(i);
      }
    }

    method Conclude(i: nat) returns (r: Result)
      requires Valid() && !Terminal(memory.stage) && i < |memory.cleanup| && memory.cleanup[i] == Intent
      requires i in state.absent
      modifies this`disk, this`memory, this`at, this`events, this`state
      ensures Valid() && old(events) <= events && memory == old(memory).(cleanup := old(memory).cleanup[i := Removed])
      ensures state.verified == old(state).verified && state.deletions == old(state).deletions
      ensures state.pass == old(state).pass
    {
      Happen(SetRemoved(i));
      memory := memory.(cleanup := memory.cleanup[i := Removed]);
      r := Save();
    }

    /** All targets, then one more look at every one of them, then the final status. */
    method Cleanup() returns (r: Result)
      requires Valid() && !Terminal(memory.stage) && state.verified
      modifies this`disk, this`memory, this`at, this`events, this`state
      ensures Valid() && old(events) <= events && memory.polls == old(memory).polls
      ensures r == Ok ==> disk == Some(memory) && memory.stage == Finished
      ensures memory.stage == old(memory).stage || (memory.stage == Finished && r != NotNow)
      ensures |memory.cleanup| == |old(memory).cleanup| && state.pass == old(state).pass
    {
      ghost var n := |memory.cleanup|;
      for i := 0 to |memory.cleanup|
        invariant Valid() && old(events) <= events && state.verified
        invariant memory.stage == old(memory).stage && memory.polls == old(memory).polls
        invariant |memory.cleanup| == n && state.pass == old(state).pass
        invariant forall j :: 0 <= j < i ==> memory.cleanup[j] == Removed
      {
        r := CleanOne(i);
        if r != Ok {
          return;
        }
      }
      for i := 0 to |memory.cleanup|
        invariant Valid() && old(events) <= events && state.verified
        invariant memory.stage == old(memory).stage && memory.polls == old(memory).polls
        invariant |memory.cleanup| == n && state.pass == old(state).pass
        invariant forall j :: 0 <= j < n ==> memory.cleanup[j] == Removed
        invariant forall j :: 0 <= j < i ==> j in state.absent
      {
        r := Look(i);
        if r != Ok {
          return;
        }
      }
      r := SaveStage(Finished);
    }

    // --- The loop. ----------------------------------------------------------------------------

    method ReadPull() returns (r: Result, merged: bool, sha: nat)
      modifies this`at
      ensures r == Ok <==> old(at) < |script| && script[old(at)].Pull?
      ensures r == Ok ==> script[old(at)] == Pull(merged, sha)
      ensures Says(script, old(at), Unavailable) ==> r == NotNow && at == old(at) + 1
    {
      merged, sha := false, 0;
      var a := Next();
      if a != None && a.value.Pull? {
        r, merged, sha := Ok, a.value.merged, a.value.sha;
      } else {
        r := Failure(a);
      }
    }

    /** Keep the merge evidence and enter cleanup; evidence retained earlier may not change. */
    method Merged(sha: nat) returns (r: Result)
      requires Valid() && !Terminal(memory.stage) && state.green
      modifies this`disk, this`memory, this`at, this`events, this`state
      ensures Valid() && old(events) <= events && !Terminal(memory.stage) && memory.polls == old(memory).polls
      ensures r == Ok ==>
                state.verified && disk == Some(memory) && memory.merge == Some(sha) && memory.stage == Cleaning
      ensures r == Ok ==>
                old(at) < |script| && script[old(at)].Evidence? && memory.kind == Some(script[old(at)].kind)
      ensures state.pass == old(state).pass
      ensures old(memory).merge != None && (r == Ok || memory != old(memory)) ==>
                memory.merge == old(memory).merge && memory.kind == old(memory).kind
    {
      var a := Next();
      if a == None || !a.value.Evidence? {
        return Failure(a);
      }
      var kind := a.value.kind;
      if memory.merge != None && !(memory.merge == Some(sha) && memory.kind == Some(kind)) {
        return Refused;
      }
      Happen(SetMerge(sha, kind));
      memory := memory.(merge := Some(sha), kind := Some(kind));
      r := SaveStage(Cleaning);
    }

    /** The body of the loop: budgets first, then green checks and the merge at the same head. */
    method TryPass() returns (r: Result, done: bool)
      requires Valid() && !Terminal(memory.stage)
      modifies this`disk, this`memory, this`at, this`events, this`state
      ensures Valid() && old(events) <= events
      ensures r == NotNow || (r == Ok && !done) ==> !Terminal(memory.stage)
      ensures Terminal(memory.stage) ==> memory.stage == Finished
      ensures r == NotNow || (r == Ok && !done) ==> memory.polls == old(memory).polls + 1
      ensures r == Ok && done ==> disk == Some(memory) && memory.stage == Finished
      ensures r == NotNow ==> state.pass == Asking
      ensures Unanswered(script, old(at)) && old(memory).polls < config.maxPolls ==>
                && r == NotNow && at == old(at) + 3
                && memory == old(memory).(polls := old(memory).polls + 1) && disk == Some(memory)
                && state.failures == old(state).failures
    {
      done := false;
      var a := Next();
      if a != Some(Good) {  // the runtime is exhausted
        return if a == None then Stopped else Refused, false;
      }
      if memory.polls >= config.maxPolls {
        return Refused, false;
      }
      r := SpendPoll();
      if r == Ok {
        r, done := Poll();
      }
    }

    method SpendPoll() returns (r: Result)
      requires Valid() && Enabled(config, state, CountPoll)
      modifies this`disk, this`memory, this`at, this`events, this`state
      ensures Valid() && old(events) <= events && memory == old(memory).(polls := old(memory).polls + 1)
      ensures r in {Ok, Refused, Stopped} && (r == Ok ==> disk == Some(memory))
      ensures state.pass == Counted && state.failures == old(state).failures
      ensures Says(script, old(at), Good) ==> r == Ok && at == old(at) + 1
    {
      Happen(CountPoll);
      memory := memory.(polls := memory.polls + 1);
      r := Save();
    }

    /** Ask GitHub, which the count of this poll on disk allows once. */
    method Poll() returns (r: Result, done: bool)
      requires Valid() && !Terminal(memory.stage) && state.pass == Counted && disk == Some(memory)
      modifies this`disk, this`memory, this`at, this`events, this`state
      ensures Valid() && old(events) <= events && memory.polls == old(memory).polls
      ensures r == NotNow || (r == Ok && !done) ==> !Terminal(memory.stage)
      ensures Terminal(memory.stage) ==> memory.stage == Finished
      ensures r == Ok && done ==> disk == Some(memory) && memory.stage == Finished
      ensures r == NotNow ==> state.pass == Asking
      ensures Says(script, old(at), Unavailable) ==>
                && r == NotNow && at == old(at) + 1 && memory == old(memory) && disk == old(disk)
                && state.failures == old(state).failures
    {
      done := false;
      var merged, sha, green;
      Happen(Asked);
      r, merged, sha := ReadPull();
      if r != Ok {
        return;
      }
      if !merged && memory.merge != None {
        return Refused, false;
      }
      r, green := Checks();
      if r != Ok {
        return;
      }
      if !merged {
        r, merged, sha := ReadPull();
        if r != Ok {
          return;
        }
      }
      if merged && green {
        r := Merged(sha);
        if r == Ok {
          r := Cleanup();
          done := r == Ok;
        }
      } else {
        r := SaveStage(if green then WaitingForMerge else WaitingForCi);
      }
    }

    method Checks() returns (r: Result, green: bool)
      requires Valid() && !Terminal(memory.stage) && state.pass == Asking
      modifies this`at, this`events, this`state
      ensures Valid() && old(events) <= events && state.pass == Asking && (r == Ok && green ==> state.green)
    {
      var a := Next();
      if a == None || !a.value.Green? {
        return Failure(a), false;
      }
      r, green := Ok, a.value.all;
      if green {
        Happen(SawGreen);
      }
    }

    /** A pass that failed for now: it is counted, and the last one allowed, or one after the merge,
        ends the watch. */
    method CountFailure() returns (r: Verdict)
      requires Valid() && !Terminal(memory.stage) && state.pass == Asking
      modifies this`disk, this`memory, this`at, this`events, this`state
      ensures Valid() && old(events) <= events && memory.polls == old(memory).polls
      ensures r == Again ==> !Terminal(memory.stage)
      ensures r == Returned ==> disk == Some(memory) && Terminal(memory.stage)
      ensures state.failures == old(state).failures + 1
      ensures old(at) >= |script| ==> r == Halted && disk == old(disk)
    {
      WithinBudgets();
      Happen(CountError);
      var last := memory.stage == Cleaning || memory.errors + 1 >= config.maxErrors;
      memory := memory.(errors := memory.errors + 1, stage := if last then Failed else WaitingForGitHub);
      var saved := Save();
      r := if saved == Stopped then Halted else if saved == Refused then Escaped else if last then Returned else Again;
    }

    /** How a pass of the loop ends. `Escaped`: the failure itself could not be recorded. */
    method Pass() returns (r: Verdict)
      requires Valid() && !Terminal(memory.stage)
      modifies this`disk, this`memory, this`at, this`events, this`state
      ensures Valid() && old(events) <= events
      ensures r == Again ==> !Terminal(memory.stage) && memory.polls == old(memory).polls + 1
      ensures r == Returned ==> disk == Some(memory) && Terminal(memory.stage)
      ensures Unanswered(script, old(at)) && |script| == old(at) + 3 && old(memory).polls < config.maxPolls ==>
                && r == Halted && disk == Some(old(memory).(polls := old(memory).polls + 1))
                && state.failures == old(state).failures + 1
    {
      var result, done := TryPass();
      match result
      case Ok => r := if done then Returned else Again;
      case Stopped => r := Halted;
      case NotNow =>
        r := CountFailure();
      case Refused =>
        if Terminal(memory.stage) {
          r := Escaped;
        } else {
          var saved := SaveStage(Failed);
          r := if saved == Stopped then Halted else if saved == Refused then Escaped else Returned;
        }
    }

    /** The whole loop: it ends because every pass that goes round again has used up a poll. */
    method Run(answers: seq<Answer>) returns (r: Verdict)
      requires Valid()
      modifies this
      ensures Valid() && old(events) <= events && r != Again
      ensures r == Returned ==> Terminal(memory.stage) && disk == Some(memory)
      ensures state.asked <= Durable(config, disk).polls <= config.maxPolls
      ensures state.failures <= state.asked && Durable(config, disk).errors <= config.maxErrors
      ensures FailsUnsaved(config, old(disk), answers) ==>
                && disk == Some(old(Durable(config, disk)).(polls := old(Durable(config, disk)).polls + 1))
                && state.failures == old(state).failures + 1
    {
      Restart();
      script, at := answers, 0;
      r := Admit();
      ghost var dies, first := FailsUnsaved(config, old(disk), answers), memory;
      while r == Again && !Terminal(memory.stage)
        invariant Valid() && old(events) <= events
        invariant r == Again ==> disk != None || !Terminal(memory.stage)
        invariant r == Again && Terminal(memory.stage) ==> disk == Some(memory)
        invariant r == Returned ==> Terminal(memory.stage) && disk == Some(memory)
        invariant dies && r == Again ==>
                    memory == first && Unanswered(script, at) && |script| == at + 3
                    && state.failures == old(state).failures
        invariant dies && r != Again ==>
                    && disk == Some(first.(polls := first.polls + 1))
                    && state.failures == old(state).failures + 1
        decreases r == Again, config.maxPolls - memory.polls
      {
        r := Pass();
        WithinBudgets();
      }
      WithinBudgets();
      if r == Again {
        r := Returned;
      }
    }

    /** Take up the durable status, or check the targets and write the first one. What was durable is
        never refused. */
    method Admit() returns (r: Verdict)
      requires Valid() && memory == Durable(config, disk)
      modifies this`disk, this`at, this`events, this`state
      ensures Valid() && old(events) <= events && r in {Again, Halted, Escaped}
      ensures r == Again ==> disk == Some(memory)
      ensures disk == old(disk) || disk == Some(memory)
      ensures state.failures == old(state).failures
      ensures !Terminal(memory.stage) && Says(script, old(at), Good)
              && (old(disk) == None ==> Says(script, old(at) + 1, Good)) ==>
                r == Again && at == old(at) + if old(disk) == None then 2 else 1
    {
      var result := Ok;
      if disk == None {
        result := Ask();
      } else {
        WithinBudgets();
        assert Admitted(config, memory);
      }
      if result == Ok && (disk == None || !Terminal(memory.stage)) {
        result := Save();
      }
      r := if result == Ok then Again else if result == Stopped then Halted else Escaped;
    }
  }

  /** One configuration over any number of restarts, each ended by a verdict, a stop or a death. */
  method Lifetime(config: Config, lives: seq<seq<Answer>>) returns (w: Watcher)
    requires config.maxErrors >= 1
    ensures fresh(w) && w.Valid() && w.config == config
    ensures forall j, k :: 0 <= j < k < |w.state.deletions| ==>
              w.state.deletions[j].target != w.state.deletions[k].target
    ensures forall d :: d in w.state.deletions ==> d.green && d.verified && d.durableMerge
    ensures w.disk != None ==> Admitted(config, w.disk.value)
    ensures w.state.asked <= Durable(config, w.disk).polls <= config.maxPolls
    ensures w.state.failures <= w.state.asked && w.state.failures == w.memory.errors + w.state.lost
    ensures w.disk != None && w.disk.value.stage == Finished ==>
              forall i :: 0 <= i < config.targets ==> i in w.state.absent
  {
    w := new Watcher(config);
    for n := 0 to |lives|
      invariant fresh(w) && w.Valid() && w.config == config
    {
      var r := w.Run(lives[n]);
    }
    DeletionsOnceAndAuthorized(config, w.events);
    BudgetsCountWhatHappened(config, w.events);
    if w.disk != None {
      EveryStatusIsAdmitted(config, w.events);
      if w.disk.value.stage == Finished {
        FinishedMeansAbsent(config, w.events);
      }
    }
  }

  /** The error budget does not bound the failures that happened: lives that die before they have saved their
      failure fail once for every poll, and no failure is on record. */
  method FailuresUncounted(config: Config) returns (w: Watcher)
    requires config.maxErrors >= 1
    ensures fresh(w) && w.Valid() && w.config == config
    ensures w.state.failures == w.state.asked == config.maxPolls
    ensures Durable(config, w.disk) == First(config).(polls := config.maxPolls)
  {
    w := new Watcher(config);
    for n := 0 to config.maxPolls
      invariant fresh(w) && w.Valid() && w.config == config
      invariant w.state.failures == n && Durable(config, w.disk) == First(config).(polls := n)
    {
      var r := w.Run((if w.disk == None then [Good, Good] else [Good]) + [Good, Good, Unavailable]);
    }
    BudgetsCountWhatHappened(config, w.events);
  }

  datatype Verdict = Again | Returned | Halted | Escaped
}
