/**
 `cleanup` of the workspace adapter (scripts/scenario-git-workspace.py) for one cleanup record, over
 trees and refs that others change too. `script` says, for each step, what the others do just before
 it and how the step goes; where it ends the process dies. Whatever it says, the whole is a run of
 CleanupProtocol.
 */
module Cleanup {
  import opened Basics
  import opened CleanupProtocol
  import Lineage

  /** `late`: a save or a deletion that raises after it has taken effect. */
  datatype Turn = Turn(others: seq<Event>, good: bool, late: bool)

  datatype Result = Ok | Refused | Dead

  /** The step goes well and others do nothing. */
  predicate Quiet(script: seq<Turn>, n: nat) { n < |script| && script[n].others == [] && script[n].good }

  /** The step goes well, and just before it somebody moves the tree of `o` away, or back. */
  predicate TakenAway(script: seq<Turn>, n: nat, o: Owner) {
    n < |script| && script[n].others == [Vanish(o)] && script[n].good
  }

  predicate BroughtBack(script: seq<Turn>, n: nat, o: Owner) {
    n < |script| && script[n].others == [Return(o)] && script[n].good
  }

  /** One member is moved away after its removal was marked, and moved back before the end. */
  predicate AwayCourse(script: seq<Turn>, n: nat, o: Owner) {
    && Quiet(script, n) && Quiet(script, n + 1) && Quiet(script, n + 2) && Quiet(script, n + 3)
    && MissCourse(script, n + 4, o) && BackCourse(script, n + 7, o)
  }

  predicate MissCourse(script: seq<Turn>, n: nat, o: Owner) {
    Quiet(script, n) && TakenAway(script, n + 1, o) && Quiet(script, n + 2)
  }

  predicate BackCourse(script: seq<Turn>, n: nat, o: Owner) {
    && Quiet(script, n) && Quiet(script, n + 1) && Quiet(script, n + 2) && Quiet(script, n + 3)
    && Quiet(script, n + 4) && BroughtBack(script, n + 5, o)
  }

  class Cleaner {
    const chain: seq<Owner>
    var disk: Receipt
    var memory: Receipt
    var trees: map<Owner, bool>
    var local: Ref
    var remote: Ref
    var removed: seq<Owner>
    var script: seq<Turn>
    var at: nat
    ghost const start: State
    ghost var state: State
    ghost var events: seq<Event>

    ghost predicate Valid()
      reads this
    {
      && LeadsTo(start, events, state) && state.chain == chain
      && state.disk == disk && state.memory == memory && state.trees == trees
      && state.local == local && state.remote == remote && state.removed == removed
    }

    constructor (lineage: seq<Lineage.Prepared>, found: map<Owner, bool>)
      ensures Valid() && disk == memory == NEW && |chain| == |lineage| && start == state == Start(chain, found)
      ensures forall i :: 0 <= i < |lineage| ==> chain[i] == lineage[i].owner
    {
      var owners := seq(|lineage|, i requires 0 <= i < |lineage| => lineage[i].owner);
      chain, disk, memory, trees := owners, NEW, NEW, found;
      local, remote, removed, script, at := Own, Own, [], [], 0;
      start, state, events := Start(owners, found), Start(owners, found), [];
    }

    ghost method Happen(e: Event)
      requires LeadsTo(start, events, state) && Enabled(state, e)
      modifies this`events, this`state
      ensures events == old(events) + [e] && LeadsTo(start, events, state) && state == Apply(old(state), e)
    {
      OneMore(start, events, state, e);
      events, state := events + [e], Apply(state, e);
    }

    /** Everything but the trees and refs is as before. */
    static ghost predicate SameProcess(s: State, t: State) {
      && t.chain == s.chain && t.disk == s.disk && t.memory == s.memory && t.merged == s.merged && t.passed == s.passed
      && t.missing == s.missing && t.removed == s.removed
      && t.openedLocal == s.openedLocal && t.openedRemote == s.openedRemote
      && t.localGone == s.localGone && t.remoteGone == s.remoteGone
    }

    /** Trees and refs are as before. */
    twostate predicate SameWorld()
      reads this
    {
      trees == old(trees) && local == old(local) && remote == old(remote)
    }

    method Other(e: Event)
      requires Valid()
      modifies this`trees, this`local, this`remote, this`events, this`state
      ensures Valid() && old(events) <= events && SameProcess(old(state), state)
      ensures e.Vanish? && e.o in old(trees) ==>
                trees == old(trees) - {e.o} && unchanged(this`local) && unchanged(this`remote)
      ensures e.Return? && e.o !in old(trees) && e.o !in removed ==>
                trees == old(trees)[e.o := true] && unchanged(this`local) && unchanged(this`remote)
    {
      if e.SetLocal? || e.SetRemote? {
        OtherRef(e);
      } else if e.Replace? || e.Vanish? || e.Return? {
        OtherTree(e);
      }
    }

    method OtherTree(e: Event)
      requires Valid() && (e.Replace? || e.Vanish? || e.Return?)
      modifies this`trees, this`events, this`state
      ensures Valid() && old(events) <= events && SameProcess(old(state), state)
      ensures e.Vanish? && e.o in old(trees) ==> trees == old(trees) - {e.o}
      ensures e.Return? && e.o !in old(trees) && e.o !in removed ==> trees == old(trees)[e.o := true]
    {
      if e.Replace? {
        Happen(e);
        trees := trees[e.o := false];
      } else if e.Vanish? && e.o in trees {
        Happen(e);
        trees := trees - {e.o};
      } else if e.Return? && e.o !in trees && e.o !in removed {
        Happen(e);
        trees := trees[e.o := true];
      }
    }

    method OtherRef(e: Event)
      requires Valid() && (e.SetLocal? || e.SetRemote?)
      modifies this`local, this`remote, this`events, this`state
      ensures Valid() && old(events) <= events && SameProcess(old(state), state)
    {
      Happen(e);
      if e.SetLocal? {
        local := e.ref;
      } else {
        remote := e.ref;
      }
    }

    method Next() returns (t: Option<Turn>)
      requires Valid()
      modifies this`trees, this`local, this`remote, this`at, this`events, this`state
      ensures Valid() && old(events) <= events && SameProcess(old(state), state)
      ensures t == if old(at) < |script| then Some(script[old(at)]) else None
      ensures old(at) < |script| ==> at == old(at) + 1
      ensures Quiet(script, old(at)) ==> SameWorld()
      ensures forall o :: TakenAway(script, old(at), o) && o in old(trees) ==>
                trees == old(trees) - {o} && unchanged(this`local) && unchanged(this`remote)
      ensures forall o :: BroughtBack(script, old(at), o) && o !in old(trees) && o !in removed ==>
                trees == old(trees)[o := true] && unchanged(this`local) && unchanged(this`remote)
    {
      t := None;
      if at < |script| {
        t := Some(script[at]);
        Others(script[at].others);
        at := at + 1;
      }
    }

    method Others(es: seq<Event>)
      requires Valid()
      modifies this`trees, this`local, this`remote, this`events, this`state
      ensures Valid() && old(events) <= events && SameProcess(old(state), state)
      ensures es == [] ==> SameWorld()
      ensures |es| == 1 && es[0].Vanish? && es[0].o in old(trees) ==>
                trees == old(trees) - {es[0].o} && unchanged(this`local) && unchanged(this`remote)
      ensures |es| == 1 && es[0].Return? && es[0].o !in old(trees) && es[0].o !in removed ==>
                trees == old(trees)[es[0].o := true] && unchanged(this`local) && unchanged(this`remote)
    {
      for i := 0 to |es|
        invariant Valid() && old(events) <= events && SameProcess(old(state), state)
        invariant i == 0 ==> SameWorld()
        invariant i == 1 && es[0].Vanish? && es[0].o in old(trees) ==>
                    trees == old(trees) - {es[0].o} && unchanged(this`local) && unchanged(this`remote)
        invariant i == 1 && es[0].Return? && es[0].o !in old(trees) && es[0].o !in removed ==>
                    trees == old(trees)[es[0].o := true] && unchanged(this`local) && unchanged(this`remote)
      {
        Other(es[i]);
      }
    }

    method Ask() returns (r: Result)
      requires Valid()
      modifies this`trees, this`local, this`remote, this`at, this`events, this`state
      ensures Valid() && old(events) <= events && SameProcess(old(state), state)
      ensures r == Ok <==> old(at) < |script| && script[old(at)].good
      ensures Quiet(script, old(at)) ==> at == old(at) + 1 && SameWorld()
    {
      var t := Next();
      r := if t == None then Dead else if t.value.good then Ok else Refused;
    }

    method Save() returns (r: Result)
      requires Valid()
      modifies this`disk, this`trees, this`local, this`remote, this`at, this`events, this`state
      ensures Valid() && old(events) <= events
      ensures SameProcess(old(state), state) || SameProcess(old(state).(disk := memory), state)
      ensures r == Ok ==> disk == memory
      ensures Quiet(script, old(at)) ==> r == Ok && at == old(at) + 1 && SameWorld()
      ensures forall o :: BroughtBack(script, old(at), o) && o !in old(trees) && o !in removed ==>
                r == Ok && trees == old(trees)[o := true]
    {
      var t := Next();
      if t != None && (t.value.good || t.value.late) {
        Happen(Saved);
        disk := memory;
      }
      r := if t == None then Dead else if t.value.good then Ok else Refused;
    }

    // --- The checks before anything is deleted. -----------------------------------------------

    /** A member must be there and owned, or be absent for a recorded reason. */
    method CheckMember(o: Owner) returns (r: Result)
      requires Valid() && disk == memory
      modifies this`trees, this`local, this`remote, this`at, this`events, this`state
      ensures Valid() && old(events) <= events && disk == old(disk) && memory == old(memory)
      ensures r == Ok ==> state.passed == old(state).passed + {o}
      ensures state.localGone == old(state).localGone && state.remoteGone == old(state).remoteGone
      ensures state.merged == old(state).merged
      ensures Quiet(script, old(at)) && o in old(trees) && old(trees)[o] && o !in memory.cleaned ==>
                r == Ok && at == old(at) + 1 && SameWorld()
    {
      r := Ask();
      if r != Ok {
        return;
      }
      if o in trees {
        if o in memory.cleaned || !trees[o] {
          return Refused;
        }
        PassPresent(o);
      } else {
        if o !in memory.cleaned && memory.pending != Some(o) {
          return Refused;
        }
        PassAbsent(o);
      }
    }

    ghost method PassPresent(o: Owner)
      requires Valid() && o in trees && trees[o]
      modifies this`events, this`state
      ensures Valid() && old(events) <= events && state == old(state).(passed := old(state).passed + {o})
    {
      Happen(PassedOwn(o));
    }

    ghost method PassAbsent(o: Owner)
      requires Valid() && disk == memory && o !in trees && (o in memory.cleaned || memory.pending == Some(o))
      modifies this`events, this`state
      ensures Valid() && old(events) <= events
      ensures state == old(state).(passed := old(state).passed + {o}, missing := state.missing)
      ensures memory.pending == Some(o) ==> o in state.missing
    {
      Happen(PassedAbsent(o));
    }

    method CheckMembers() returns (r: Result)
      requires Valid() && disk == memory
      modifies this`trees, this`local, this`remote, this`at, this`events, this`state
      ensures Valid() && old(events) <= events && disk == old(disk) && memory == old(memory)
      ensures r == Ok ==> AllPassed(state)
      ensures state.localGone == old(state).localGone && state.remoteGone == old(state).remoteGone
      ensures state.merged == old(state).merged
      ensures (|chain| == 1 && Quiet(script, old(at)) && chain[0] in old(trees) && old(trees)[chain[0]]
               && chain[0] !in memory.cleaned) ==>
                r == Ok && at == old(at) + 1 && SameWorld()
    {
      r := Ok;
      for i := 0 to |chain|
        invariant Valid() && old(events) <= events && disk == old(disk) && memory == old(memory) && r == Ok
        invariant forall k :: 0 <= k < i ==> chain[k] in state.passed
        invariant state.localGone == old(state).localGone && state.remoteGone == old(state).remoteGone
        invariant state.merged == old(state).merged
        invariant i == 0 ==> at == old(at) && SameWorld()
        invariant (|chain| == i == 1 && Quiet(script, old(at)) && chain[0] in old(trees) && old(trees)[chain[0]]
                   && chain[0] !in memory.cleaned) ==>
                    at == old(at) + 1 && SameWorld()
      {
        r := CheckMember(chain[i]);
        if r != Ok {
          return;
        }
      }
    }

    // --- Removing the worktrees. --------------------------------------------------------------

    /** What of the call's progress the removal of a worktree leaves alone. */
    static ghost predicate SameRefs(s: State, t: State) {
      && t.merged == s.merged && s.passed <= t.passed && t.localGone == s.localGone && t.remoteGone == s.remoteGone
      && t.memory.branch == s.memory.branch && t.memory.remote == s.memory.remote
    }

    method MarkPending(o: Owner) returns (r: Result)
      requires Valid() && o in chain && o !in memory.cleaned && !memory.done
      modifies this`disk, this`memory, this`trees, this`local, this`remote, this`at, this`events, this`state
      ensures Valid() && old(events) <= events && SameRefs(old(state), state)
      ensures memory == old(memory).(pending := Some(o)) && (r == Ok ==> disk == memory)
      ensures Quiet(script, old(at)) ==> r == Ok && at == old(at) + 1 && SameWorld()
    {
      Happen(Pend(o));
      memory := memory.(pending := Some(o));
      r := Save();
    }

    /** Remove the worktree if it is there, after checking once more that it is the owned one. */
    method RemoveTree(o: Owner) returns (r: Result)
      requires Valid() && disk == memory && memory.pending == Some(o) && AllPassed(state) && state.merged
      modifies this`trees, this`removed, this`local, this`remote, this`at, this`events, this`state
      ensures Valid() && old(events) <= events && SameRefs(old(state), state)
      ensures memory == old(memory) && disk == old(disk)
      ensures r == Ok ==> Gone(state, o)
      ensures TakenAway(script, old(at), o) && o in old(trees) ==>
                && r == Ok && at == old(at) + 1 && trees == old(trees) - {o}
                && unchanged(this`local) && unchanged(this`remote) && unchanged(this`removed)
    {
      var t := Next();
      if t == None || !(t.value.good || t.value.late) || (o in trees && !trees[o]) {
        return if t == None then Dead else Refused;
      }
      DropOrMiss(o);
      r := if t.value.good then Ok else Refused;
    }

    method DropOrMiss(o: Owner)
      requires Valid() && disk == memory && memory.pending == Some(o) && AllPassed(state) && state.merged
      requires o in trees ==> trees[o]
      modifies this`trees, this`removed, this`events, this`state
      ensures Valid() && old(events) <= events && SameRefs(old(state), state) && Gone(state, o)
      ensures o !in old(trees) ==> unchanged(this`trees) && unchanged(this`removed)
    {
      if o in trees {
        Drop(o);
      } else {
        PassAbsent(o);
      }
    }

    method Drop(o: Owner)
      requires Valid() && disk == memory && memory.pending == Some(o) && AllPassed(state) && state.merged && o in trees
      requires trees[o]
      modifies this`trees, this`removed, this`events, this`state
      ensures Valid() && old(events) <= events && SameRefs(old(state), state) && Gone(state, o)
    {
      Happen(Remove(o));
      trees, removed := trees - {o}, removed + [o];
    }

    method RecordCleaned(o: Owner) returns (r: Result)
      requires Valid() && memory.pending == Some(o) && Gone(state, o) && AllPassed(state) && state.merged
      modifies this`disk, this`memory, this`trees, this`local, this`remote, this`at, this`events, this`state
      ensures Valid() && old(events) <= events && SameRefs(old(state), state)
      ensures memory == old(memory).(cleaned := old(memory).cleaned + {o}, pending := None)
      ensures r == Ok ==> disk == memory
      ensures Quiet(script, old(at)) ==> r == Ok && at == old(at) + 1 && SameWorld()
    {
      Happen(Clean(o));
      memory := memory.(cleaned := memory.cleaned + {o}, pending := None);
      r := Save();
    }

    method CleanMember(o: Owner) returns (r: Result)
      requires Valid() && o in chain && disk == memory && !memory.done && AllPassed(state) && state.merged
      modifies this`disk, this`memory, this`trees, this`removed, this`local, this`remote,
               this`at, this`events, this`state
      ensures Valid() && old(events) <= events && SameRefs(old(state), state) && !memory.done
      ensures r == Ok ==> disk == memory && memory.cleaned == old(memory).cleaned + {o}
      ensures MissCourse(script, old(at), o) && o in old(trees) && o !in old(memory).cleaned ==>
                && r == Ok && at == old(at) + 3 && trees == old(trees) - {o}
                && unchanged(this`local) && unchanged(this`remote) && unchanged(this`removed)
    {
      if o in memory.cleaned {
        return Ok;
      }
      r := MarkPending(o);
      if r == Ok {
        r := RemoveTree(o);
      }
      if r == Ok {
        r := RecordCleaned(o);
      }
    }

    method CleanMembers() returns (r: Result)
      requires Valid() && disk == memory && !memory.done && AllPassed(state) && state.merged
      modifies this`disk, this`memory, this`trees, this`removed, this`local, this`remote,
               this`at, this`events, this`state
      ensures Valid() && old(events) <= events && SameRefs(old(state), state) && !memory.done
      ensures r == Ok ==> disk == memory && AllCleaned(state)
      ensures (|chain| == 1 && MissCourse(script, old(at), chain[0]) && chain[0] in old(trees)
               && chain[0] !in old(memory).cleaned) ==>
                && r == Ok && at == old(at) + 3 && trees == old(trees) - {chain[0]}
                && unchanged(this`local) && unchanged(this`remote) && unchanged(this`removed)
    {
      r := Ok;
      for i := 0 to |chain|
        invariant Valid() && old(events) <= events && SameRefs(old(state), state) && !memory.done
        invariant r == Ok && disk == memory
        invariant forall k :: 0 <= k < i ==> chain[k] in memory.cleaned
        invariant i == 0 ==> at == old(at) && memory == old(memory) && unchanged(this`removed) && SameWorld()
        invariant (|chain| == i == 1 && MissCourse(script, old(at), chain[0]) && chain[0] in old(trees)
                   && chain[0] !in old(memory).cleaned) ==>
                    && at == old(at) + 3 && trees == old(trees) - {chain[0]}
                    && unchanged(this`local) && unchanged(this`remote) && unchanged(this`removed)
      {
        r := CleanMember(chain[i]);
        if r != Ok {
          return;
        }
      }
    }

    // --- Deleting the refs. -------------------------------------------------------------------

    method DeleteLocal() returns (r: Result)
      requires Valid() && !memory.branch && AllCleaned(state) && AllPassed(state) && state.merged
      modifies this`disk, this`memory, this`trees, this`local, this`remote, this`at, this`events, this`state
      ensures Valid() && old(events) <= events
      ensures memory == old(memory).(branch := true)
      ensures state.passed == old(state).passed && state.remoteGone == old(state).remoteGone
      ensures state.merged == old(state).merged
      ensures r == Ok ==> state.localGone && disk == memory
      ensures Quiet(script, old(at)) && Quiet(script, old(at) + 1) && old(local) == Own ==>
                r == Ok && at == old(at) + 2 && unchanged(this`trees) && unchanged(this`remote)
    {
      Happen(OpenLocal);
      memory := memory.(branch := true);
      r := Save();
      if r == Ok {
        r := SendLocalDeletion();
      }
    }

    method SendLocalDeletion() returns (r: Result)
      requires Valid() && disk == memory && state.openedLocal
      modifies this`trees, this`local, this`remote, this`at, this`events, this`state
      ensures Valid() && old(events) <= events && memory == old(memory) && disk == old(disk)
      ensures state.merged == old(state).merged
      ensures state.passed == old(state).passed && state.remoteGone == old(state).remoteGone
      ensures state.merged == old(state).merged
      ensures r == Ok ==> state.localGone
      ensures Quiet(script, old(at)) && old(local) == Own ==>
                r == Ok && at == old(at) + 1 && unchanged(this`trees) && unchanged(this`remote)
    {
      var t := Next();
      if t == None {
        return Dead;
      }
      // Compare and swap: Git deletes the ref only if it still names the owned commit.
      var accepted := (t.value.good || t.value.late) && local == Own;
      ApplyLocal(accepted);
      r := if t.value.good && accepted then Ok else Refused;
    }

    method ApplyLocal(accepted: bool)
      requires Valid() && disk == memory && state.openedLocal
      modifies this`local, this`events, this`state
      ensures Valid() && old(events) <= events && state.localGone == accepted
      ensures state.passed == old(state).passed && state.remoteGone == old(state).remoteGone
      ensures state.merged == old(state).merged
    {
      Happen(SendLocal(accepted));
      local := if accepted then Absent else local;
    }

    method DeleteRemote() returns (r: Result)
      requires Valid() && !memory.remote && AllCleaned(state) && AllPassed(state) && state.merged
      modifies this`disk, this`memory, this`trees, this`local, this`remote, this`at, this`events, this`state
      ensures Valid() && old(events) <= events
      ensures memory == old(memory).(remote := true)
      ensures state.localGone == old(state).localGone
      ensures r == Ok ==> state.remoteGone && disk == memory
      ensures (Quiet(script, old(at)) && Quiet(script, old(at) + 1) && Quiet(script, old(at) + 2)
               && old(remote) == Own) ==>
                r == Ok && at == old(at) + 3 && unchanged(this`trees)
    {
      Happen(OpenRemote);
      memory := memory.(remote := true);
      r := Save();
      if r == Ok {
        r := SendRemoteDeletion();
      }
      if r == Ok {
        r := ReadBackRemote();
      }
    }

    method SendRemoteDeletion() returns (r: Result)
      requires Valid() && disk == memory && state.openedRemote
      modifies this`trees, this`local, this`remote, this`at, this`events, this`state
      ensures Valid() && old(events) <= events && memory == old(memory) && disk == old(disk)
      ensures state.merged == old(state).merged
      ensures state.localGone == old(state).localGone
      ensures Quiet(script, old(at)) && old(remote) == Own ==>
                r == Ok && at == old(at) + 1 && remote == Absent && unchanged(this`trees)
    {
      var t := Next();
      if t == None {
        return Dead;
      }
      var accepted := (t.value.good || t.value.late) && remote == Own;
      ApplyRemote(accepted);
      r := if t.value.good && accepted then Ok else Refused;
    }

    method ApplyRemote(accepted: bool)
      requires Valid() && disk == memory && state.openedRemote
      modifies this`remote, this`events, this`state
      ensures Valid() && old(events) <= events && state.localGone == old(state).localGone
      ensures state.merged == old(state).merged
      ensures accepted ==> remote == Absent
    {
      Happen(SendRemote(accepted));
      remote := if accepted then Absent else remote;
    }

    method ReadBackRemote() returns (r: Result)
      requires Valid()
      modifies this`trees, this`local, this`remote, this`at, this`events, this`state
      ensures Valid() && old(events) <= events && memory == old(memory) && disk == old(disk)
      ensures state.merged == old(state).merged
      ensures state.localGone == old(state).localGone
      ensures r == Ok ==> state.remoteGone
      ensures Quiet(script, old(at)) && old(remote) == Absent ==>
                r == Ok && at == old(at) + 1 && unchanged(this`trees)
    {
      r := Ask();
      if r == Ok && remote != Absent {
        r := Refused;
      }
      if r == Ok {
        Happen(SeenRemoteAbsent);
      }
    }

    // --- `cleanup`. ---------------------------------------------------------------------------

    /** What the refs may look like: as owned, or absent; and absent only, once a deletion may have
        been sent. */
    method ReadRefs() returns (r: Result, l: Ref, m: Ref)
      requires Valid()
      modifies this`trees, this`local, this`remote, this`at, this`events, this`state
      ensures Valid() && old(events) <= events && memory == old(memory) && disk == old(disk)
      ensures state.merged == old(state).merged
      ensures r == Ok ==> l in {Own, Absent} && m in {Own, Absent}
      ensures r == Ok && l == Own ==> !memory.branch
      ensures r == Ok && l == Absent ==> state.localGone
      ensures r == Ok && m == Own ==> !memory.remote
      ensures r == Ok && m == Absent ==> state.remoteGone
      ensures (Quiet(script, old(at)) && Quiet(script, old(at) + 1) && old(local) == old(remote) == Own
               && !memory.branch && !memory.remote) ==>
                r == Ok && l == m == Own && at == old(at) + 2 && SameWorld()
    {
      m := Absent;
      r, l := ReadLocal();
      if r == Ok {
        r, m := ReadRemote();
      }
    }

    method ReadLocal() returns (r: Result, l: Ref)
      requires Valid()
      modifies this`trees, this`local, this`remote, this`at, this`events, this`state
      ensures Valid() && old(events) <= events && memory == old(memory) && disk == old(disk)
      ensures state.merged == old(state).merged
      ensures r == Ok && l == Own ==> !memory.branch
      ensures r == Ok ==> l == Own || (l == Absent && state.localGone)
      ensures Quiet(script, old(at)) && old(local) == Own && !memory.branch ==>
                r == Ok && l == Own && at == old(at) + 1 && SameWorld()
    {
      l := Absent;
      r := Ask();
      if r == Ok {
        l := local;
        if l == Changed || memory.branch != (l == Absent) {
          r := Refused;
        } else if l == Absent {
          Happen(SeenLocalAbsent);
        }
      }
    }

    method ReadRemote() returns (r: Result, m: Ref)
      requires Valid()
      modifies this`trees, this`local, this`remote, this`at, this`events, this`state
      ensures Valid() && old(events) <= events && memory == old(memory) && disk == old(disk)
      ensures state.merged == old(state).merged
      ensures state.localGone == old(state).localGone
      ensures r == Ok && m == Own ==> !memory.remote
      ensures r == Ok ==> m == Own || (m == Absent && state.remoteGone)
      ensures Quiet(script, old(at)) && old(remote) == Own && !memory.remote ==>
                r == Ok && m == Own && at == old(at) + 1 && SameWorld()
    {
      m := Absent;
      r := Ask();
      if r == Ok {
        m := remote;
        if m == Changed || (m == Own && memory.remote) {
          r := Refused;
        } else if m == Absent {
          Happen(SeenRemoteAbsent);
        }
      }
    }

    method Finished() returns (r: Result)
      requires Valid()
      modifies this`trees, this`local, this`remote, this`at, this`events, this`state
      ensures Valid() && old(events) <= events && memory == old(memory) && disk == old(disk)
      ensures state.merged == old(state).merged
      ensures r == Ok ==> (forall o :: o in chain ==> o !in trees) && local == Absent && remote == Absent
    {
      r := Ask();
      if r == Ok && (local != Absent || remote != Absent || exists o :: o in chain && o in trees) {
        r := Refused;
      }
    }

    method Conclude() returns (r: Result)
      requires Valid() && AllCleaned(state) && state.localGone && state.remoteGone
      modifies this`disk, this`memory, this`trees, this`local, this`remote, this`at, this`events, this`state
      ensures Valid() && old(events) <= events && (r == Ok ==> disk == memory && disk.done)
      ensures forall o :: BroughtBack(script, old(at), o) && o !in old(trees) && o !in removed ==>
                r == Ok && Stands(state, o)
    {
      Happen(Finish);
      memory := memory.(done := true);
      r := Save();
    }

    method Begin() returns (r: Result)
      requires Valid() && disk == memory
      modifies this`trees, this`local, this`remote, this`at, this`events, this`state
      ensures Valid() && old(events) <= events && disk == old(disk) && memory == old(memory)
      ensures r == Ok ==> state.merged && old(at) < |script| && script[old(at)].good
      ensures Quiet(script, old(at)) ==> r == Ok && at == old(at) + 1 && SameWorld()
    {
      Happen(Called);
      r := Ask();  // the merge of exactly this head
      if r == Ok {
        Happen(SawMerge);
      }
    }

    method CleanUp() returns (r: Result)
      requires Valid() && disk == memory
      modifies this`disk, this`memory, this`trees, this`removed, this`local, this`remote,
               this`at, this`events, this`state
      ensures Valid() && old(events) <= events
      ensures r == Ok ==> disk == memory && disk.done
      ensures (|chain| == 1 && AwayCourse(script, old(at), chain[0]) && old(memory) == NEW
               && old(local) == old(remote) == Own && Stands(old(state), chain[0]) && chain[0] !in old(removed)) ==>
                r == Ok && Stands(state, chain[0])
    {
      r := Begin();
      if r != Ok {
        return;
      }
      if memory.done {
        r := Finished();
        return;
      }
      var l, m;
      r, l, m := ReadRefs();
      if r == Ok {
        r := CheckMembers();
      }
      if r == Ok {
        r := CleanMembers();
      }
      if r == Ok {
        r := DeleteRefs(l == Own, m == Own);
      }
    }

    method DeleteRefs(l: bool, m: bool) returns (r: Result)
      requires Valid() && disk == memory && AllCleaned(state) && AllPassed(state) && state.merged
      requires if l then !memory.branch else state.localGone
      requires if m then !memory.remote else state.remoteGone
      modifies this`disk, this`memory, this`trees, this`local, this`remote, this`at, this`events, this`state
      ensures Valid() && old(events) <= events
      ensures r == Ok ==> disk == memory && disk.done
      ensures forall o :: (l && m && BackCourse(script, old(at), o) && old(local) == old(remote) == Own
                           && o !in old(trees) && o !in removed) ==>
                r == Ok && Stands(state, o)
    {
      r := Ok;
      if l {
        r := DeleteLocal();
      }
      if r == Ok && m {
        r := DeleteRemote();
      }
      if r == Ok {
        r := Conclude();
      }
    }

    method Restart()
      requires Valid()
      modifies this`memory, this`events, this`state
      ensures Valid() && old(events) <= events && disk == memory
    {
      Happen(Crashed);
      memory := disk;
    }
  }

  /** Any number of cleanup calls for one lineage, each ending where its script does: each ref's deletion
      is sent once at most, and a completion means that every member was removed, or missed under a
      durable mark; where one was removed the owned tree does not stand. */
  method Lifetime(lineage: seq<Lineage.Prepared>, found: map<Owner, bool>, calls: seq<seq<Turn>>)
    returns (cleaner: Cleaner)
    ensures cleaner.Valid() && cleaner.state.localSends <= 1 && cleaner.state.remoteSends <= 1
    ensures cleaner.disk.done ==> forall i :: 0 <= i < |lineage| ==> Gone(cleaner.state, lineage[i].owner)
    ensures forall o :: o in cleaner.removed && o in cleaner.trees ==> !cleaner.trees[o]
  {
    cleaner := new Cleaner(lineage, found);
    for i := 0 to |calls|
      invariant cleaner.Valid() && cleaner.disk == cleaner.memory && fresh(cleaner)
      invariant cleaner.start.chain == cleaner.chain
      invariant |cleaner.chain| == |lineage|
      invariant forall i :: 0 <= i < |lineage| ==> cleaner.chain[i] == lineage[i].owner
    {
      cleaner.script, cleaner.at := calls[i], 0;
      var r := cleaner.CleanUp();
      if r != Ok {
        cleaner.Restart();
      }
    }
    assert Run(cleaner.start, cleaner.events) && After(cleaner.start, cleaner.events) == cleaner.state;
    RunKeepsInv(cleaner.start, cleaner.events);
    if cleaner.disk.done {
      CompletionMeansGone(cleaner.start, cleaner.events);
    }
  }

  /** What completion does not mean: the one member of a lineage is moved away just after its removal was
      marked, missed, and moved back before the call ends; the call reports completion, and the owned tree
      stands, never removed. */
  method CompletedAndStanding(item: Lineage.Prepared) returns (cleaner: Cleaner)
    ensures fresh(cleaner) && cleaner.Valid() && cleaner.chain == [item.owner] && cleaner.disk.done
    ensures Stands(cleaner.state, item.owner) && item.owner !in cleaner.removed
  {
    cleaner := new Cleaner([item], map[item.owner := true]);
    cleaner.script, cleaner.at := Away(item.owner), 0;
    AwayIsCourse(item.owner);
    var r := cleaner.CleanUp();
    StandingWasNotRemoved(cleaner.start, cleaner.events, cleaner.state, item.owner);
  }

  function Away(o: Owner): seq<Turn> {
    var go := Turn([], true, false);
    [go, go, go, go, go, Turn([Vanish(o)], true, false), go, go, go, go, go, go, Turn([Return(o)], true, false)]
  }

  lemma AwayIsCourse(o: Owner)
    ensures AwayCourse(Away(o), 0, o)
  {
  }

  lemma StandingWasNotRemoved(start: State, es: seq<Event>, s: State, o: Owner)
    requires LeadsTo(start, es, s) && Stands(s, o)
    ensures o !in s.removed
  {
    assert Run(start, es) && After(start, es) == s;
    RunKeepsInv(start, es);
  }
}
