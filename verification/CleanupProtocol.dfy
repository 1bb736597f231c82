/**
 Cleanup of a repair lineage after its merge (`cleanup` of scripts/scenario-git-workspace.py) as a
 protocol: the worktrees of the lineage, then its local and its remote branch, with any number of
 crashes and repeated calls, while others change trees and refs as they like.
 */
module CleanupProtocol {
  import opened Basics

  type Owner = nat

  /** The journal's record of the cleanup; `branch` and `remote` are its persisted deletion intents. */
  datatype Receipt = Receipt(done: bool, cleaned: set<Owner>, pending: Option<Owner>, branch: bool, remote: bool)

  const NEW := Receipt(false, {}, None, false, false)

  datatype Ref = Absent | Own | Changed

  /** `trees`: what stands at the members' paths, and whether it is the owned tree. `merged`: this
      call has seen the merge of exactly the lineage's head. `passed`: the members checked in this call.
      `opened*`: this call has opened the intent and sent nothing yet.
      `*Gone`: this call has seen the ref absent, or its deletion accepted. `removed`: the members whose
      tree was removed, in that order. `missing`: those seen absent while a durable mark said that their
      removal was under way. */
  datatype State = State(chain: seq<Owner>, disk: Receipt, memory: Receipt, trees: map<Owner, bool>,
                         local: Ref, remote: Ref,
                         merged: bool, passed: set<Owner>, openedLocal: bool, openedRemote: bool,
                         localGone: bool, remoteGone: bool,
                         missing: set<Owner>, removed: seq<Owner>, localSends: nat, remoteSends: nat)

  datatype Event =
    | Crashed
    | Called
    | SawMerge
    | Saved
    | PassedOwn(o: Owner)
    | PassedAbsent(o: Owner)
    | Pend(o: Owner)
    | Remove(o: Owner)
    | Clean(o: Owner)
    | SeenLocalAbsent
    | OpenLocal
    | SendLocal(accepted: bool)
    | SeenRemoteAbsent
    | OpenRemote
    | SendRemote(accepted: bool)
    | Finish
    | Replace(o: Owner)       // by somebody else
    | Vanish(o: Owner)        // by somebody else, who may keep the tree
    | Return(o: Owner)        // by somebody else: a tree that was never removed comes back
    | SetLocal(ref: Ref)      // by somebody else
    | SetRemote(ref: Ref)     // by somebody else

  function Start(chain: seq<Owner>, trees: map<Owner, bool>): State {
    State(chain, NEW, NEW, trees, Own, Own, false, {}, false, false, false, false, {}, [], 0, 0)
  }

  /** The member was removed, or missed while its removal was under way. */
  predicate Gone(s: State, o: Owner) { o in s.removed || o in s.missing }

  predicate AllCleaned(s: State) { forall o :: o in s.chain ==> o in s.memory.cleaned }
  predicate AllPassed(s: State) { forall o :: o in s.chain ==> o in s.passed }

  predicate Enabled(s: State, e: Event) {
    var m := s.memory;
    match e
    case Crashed => true
    case Called => s.disk == m
    case SawMerge => true
    case Saved => true
    case PassedOwn(o) => o in s.trees && s.trees[o]
    case PassedAbsent(o) => s.disk == m && o !in s.trees && (o in m.cleaned || m.pending == Some(o))
    case Pend(o) => o in s.chain && o !in m.cleaned && !m.done
    case Remove(o) => s.disk == m && m.pending == Some(o) && o in s.trees && s.trees[o] && s.merged && AllPassed(s)
    case Clean(o) => m.pending == Some(o) && Gone(s, o) && AllPassed(s)
    case SeenLocalAbsent => s.local == Absent && m.branch
    case OpenLocal => !m.branch && s.merged && AllCleaned(s) && AllPassed(s)
    case SendLocal(_) => s.disk == m && s.openedLocal
    case SeenRemoteAbsent => s.remote == Absent
    case OpenRemote => !m.remote && s.merged && AllCleaned(s) && AllPassed(s)
    case SendRemote(_) => s.disk == m && s.openedRemote
    case Finish => AllCleaned(s) && s.localGone && s.remoteGone
    case Replace(o) => true
    case Vanish(o) => o in s.trees
    case Return(o) => o !in s.trees && o !in s.removed
    case SetLocal(_) => true
    case SetRemote(_) => true
  }

  function NewCall(s: State): State {
    s.(merged := false, passed := {}, openedLocal := false, openedRemote := false,
       localGone := false, remoteGone := false)
  }

  function Apply(s: State, e: Event): State
    requires Enabled(s, e)
  {
    var m := s.memory;
    match e
    case Crashed => NewCall(s).(memory := s.disk)
    case Called => NewCall(s)
    case SawMerge => s.(merged := true)
    case Saved => s.(disk := m)
    case PassedOwn(o) => s.(passed := s.passed + {o})
    case PassedAbsent(o) =>
      s.(passed := s.passed + {o}, missing := if m.pending == Some(o) then s.missing + {o} else s.missing)
    case Pend(o) => s.(memory := m.(pending := Some(o)))
    case Remove(o) => s.(trees := s.trees - {o}, removed := s.removed + [o])
    case Clean(o) => s.(memory := m.(cleaned := m.cleaned + {o}, pending := None))
    case SeenLocalAbsent => s.(localGone := true)
    case OpenLocal => s.(memory := m.(branch := true), openedLocal := true)
    case SendLocal(accepted) =>
      s.(openedLocal := false, localSends := s.localSends + 1, localGone := accepted,
         local := if accepted then Absent else s.local)
    case SeenRemoteAbsent => s.(remoteGone := true)
    case OpenRemote => s.(memory := m.(remote := true), openedRemote := true)
    case SendRemote(accepted) =>
      s.(openedRemote := false, remoteSends := s.remoteSends + 1, remote := if accepted then Absent else s.remote)
    case Finish => s.(memory := m.(done := true))
    case Replace(o) => s.(trees := s.trees[o := false])
    case Vanish(o) => s.(trees := s.trees - {o})
    case Return(o) => s.(trees := s.trees[o := true])
    case SetLocal(ref) => s.(local := ref)
    case SetRemote(ref) => s.(remote := ref)
  }

  ghost predicate Legal(start: State, es: seq<Event>)
    decreases |es|, 0
  {
    es == [] || (Legal(start, es[..|es| - 1]) && Enabled(After(start, es[..|es| - 1]), es[|es| - 1]))
  }

  ghost function After(start: State, es: seq<Event>): State
    requires Legal(start, es)
    decreases |es|, 1
  {
    if es == [] then start else Apply(After(start, es[..|es| - 1]), es[|es| - 1])
  }

  /** A run starts with a new record; the trees of the lineage are whatever they are. */
  ghost predicate Run(start: State, es: seq<Event>) {
    start == Start(start.chain, start.trees) && Legal(start, es)
  }

  /** `es` is such a run and leads to `s`: said of whatever equals `es`, so that a proof about one more step
      does not unfold the run. */
  ghost predicate LeadsTo(start: State, es: seq<Event>, s: State) {
    forall fs :: fs == es ==> Run(start, fs) && After(start, fs) == s
  }

  lemma OneMore(start: State, es: seq<Event>, s: State, e: Event)
    requires LeadsTo(start, es, s) && Enabled(s, e)
    ensures LeadsTo(start, es + [e], Apply(s, e))
  {
    assert Run(start, es) && After(start, es) == s;
    forall fs | fs == es + [e] ensures Run(start, fs) && After(start, fs) == Apply(s, e) {
      assert fs[..|fs| - 1] == es;
    }
  }

  // --- What every run keeps. --------------------------------------------------------------------

  ghost predicate Behind(d: Receipt, m: Receipt) {
    d.cleaned <= m.cleaned && (d.branch ==> m.branch) && (d.remote ==> m.remote) && (d.done ==> m.done)
  }

  ghost predicate ReceiptInv(r: Receipt, s: State) {
    && (forall o :: o in r.cleaned ==> Gone(s, o))
    && (r.done ==> forall o :: o in s.chain ==> o in r.cleaned)
    && (s.localSends > 0 ==> r.branch) && (s.remoteSends > 0 ==> r.remote)
  }

  ghost predicate Inv(s: State) {
    && Behind(s.disk, s.memory) && ReceiptInv(s.disk, s) && ReceiptInv(s.memory, s)
    && s.localSends <= 1 && s.remoteSends <= 1
    && (s.openedLocal ==> s.localSends == 0 && s.memory.branch)
    && (s.openedRemote ==> s.remoteSends == 0 && s.memory.remote)
    && (forall o :: o in s.removed && o in s.trees ==> !s.trees[o])
    && (forall i, j :: 0 <= i < j < |s.removed| ==> s.removed[i] != s.removed[j])
  }

  /** A removal is of a tree that stands, so it is the first of its member. */
  lemma RemoveKeepsInv(s: State, e: Event)
    requires Inv(s) && Enabled(s, e) && e.Remove?
    ensures Inv(Apply(s, e)) && Apply(s, e).chain == s.chain
  {
    assert e.o !in s.removed;
  }

  lemma MemberKeepsInv(s: State, e: Event)
    requires Inv(s) && Enabled(s, e) && (e.PassedOwn? || e.PassedAbsent? || e.Pend? || e.Clean?)
    ensures Inv(Apply(s, e)) && Apply(s, e).chain == s.chain
  {
  }

  lemma RefKeepsInv(s: State, e: Event)
    requires Inv(s) && Enabled(s, e)
    requires e.SeenLocalAbsent? || e.OpenLocal? || e.SendLocal? || e.SeenRemoteAbsent? || e.OpenRemote? || e.SendRemote?
    ensures Inv(Apply(s, e)) && Apply(s, e).chain == s.chain
  {
  }

  lemma CallKeepsInv(s: State, e: Event)
    requires Inv(s) && Enabled(s, e) && (e.Crashed? || e.Called? || e.SawMerge? || e.Saved? || e.Finish?)
    ensures Inv(Apply(s, e)) && Apply(s, e).chain == s.chain
  {
  }

  lemma OthersKeepInv(s: State, e: Event)
    requires Inv(s) && Enabled(s, e) && (e.Replace? || e.Vanish? || e.Return?)
    ensures Inv(Apply(s, e)) && Apply(s, e).chain == s.chain
  {
  }

  lemma OtherRefsKeepInv(s: State, e: Event)
    requires Inv(s) && Enabled(s, e) && (e.SetLocal? || e.SetRemote?)
    ensures Inv(Apply(s, e)) && Apply(s, e).chain == s.chain
  {
  }

  lemma EventKeepsInv(s: State, e: Event)
    requires Inv(s) && Enabled(s, e)
    ensures Inv(Apply(s, e)) && Apply(s, e).chain == s.chain
  {
    match e
    case Remove(_) => RemoveKeepsInv(s, e);
    case PassedOwn(_) => MemberKeepsInv(s, e);
    case PassedAbsent(_) => MemberKeepsInv(s, e);
    case Pend(_) => MemberKeepsInv(s, e);
    case Clean(_) => MemberKeepsInv(s, e);
    case Replace(_) => OthersKeepInv(s, e);
    case Vanish(_) => OthersKeepInv(s, e);
    case Return(_) => OthersKeepInv(s, e);
    case SetLocal(_) => OtherRefsKeepInv(s, e);
    case SetRemote(_) => OtherRefsKeepInv(s, e);
    case Crashed => CallKeepsInv(s, e);
    case Called => CallKeepsInv(s, e);
    case SawMerge => CallKeepsInv(s, e);
    case Saved => CallKeepsInv(s, e);
    case Finish => CallKeepsInv(s, e);
    case _ => RefKeepsInv(s, e);
  }

  lemma {:induction false} RunKeepsInv(start: State, es: seq<Event>)
    requires Run(start, es)
    ensures Inv(After(start, es)) && After(start, es).chain == start.chain
  {
    if es != [] {
      RunKeepsInv(start, es[..|es| - 1]);
      EventKeepsInv(After(start, es[..|es| - 1]), es[|es| - 1]);
    }
  }

  // --- The theorems about whole runs. -----------------------------------------------------------

  /** Over all calls and crashes at most one deletion of the local ref is sent, and at most one of the
      remote ref; either only with its intent on disk. */
  lemma RefDeletionsAtMostOnce(start: State, es: seq<Event>)
    requires Run(start, es)
    ensures var s := After(start, es);
            && s.localSends <= 1 && s.remoteSends <= 1
            && (s.localSends == 1 ==> s.disk.branch) && (s.remoteSends == 1 ==> s.disk.remote)
  {
    RunKeepsInv(start, es);
  }

  /** No worktree is removed twice. */
  lemma WorktreesRemovedAtMostOnce(start: State, es: seq<Event>)
    requires Run(start, es)
    ensures var r := After(start, es).removed;
            forall i, j :: 0 <= i < j < |r| ==> r[i] != r[j]
  {
    RunKeepsInv(start, es);
  }

  /** A durable completion means that every member of the lineage was removed, or was missed while a
      durable mark said that its removal was under way; what stands at the path of a removed one now, if
      anything, is not the owned tree. */
  lemma CompletionMeansGone(start: State, es: seq<Event>)
    requires Run(start, es) && After(start, es).disk.done
    ensures forall o :: o in start.chain ==> Gone(After(start, es), o)
    ensures forall o :: o in After(start, es).removed && o in After(start, es).trees ==> !After(start, es).trees[o]
  {
    RunKeepsInv(start, es);
  }

  /** A member that was missed was looked for under its durable mark, and was not there. */
  ghost predicate MissedAt(start: State, es: seq<Event>, i: int, o: Owner) {
    && 0 <= i < |es| && es[i] == PassedAbsent(o) && Legal(start, es[..i])
    && After(start, es[..i]).disk.pending == Some(o) && o !in After(start, es[..i]).trees
  }

  lemma {:induction false} MissingWasMissed(start: State, es: seq<Event>, o: Owner)
    requires Run(start, es) && o in After(start, es).missing
    ensures exists i :: MissedAt(start, es, i, o)
  {
    var before, last := es[..|es| - 1], |es| - 1;
    if o in After(start, before).missing {
      MissingWasMissed(start, before, o);
      var i :| MissedAt(start, before, i, o);
      assert es[..i] == before[..i];
      assert MissedAt(start, es, i, o);
    } else {
      MissingStep(After(start, before), es[last], o);
      assert MissedAt(start, es, last, o);
    }
  }

  lemma MissingStep(s: State, e: Event, o: Owner)
    requires Enabled(s, e) && o in Apply(s, e).missing && o !in s.missing
    ensures e == PassedAbsent(o) && s.disk.pending == Some(o) && o !in s.trees
  {
  }

  /** The owned tree of `o` stands at its path. */
  predicate Stands(s: State, o: Owner) { o in s.trees && s.trees[o] }

  predicate Passes(e: Event, o: Owner) { e == PassedOwn(o) || e == PassedAbsent(o) }
  predicate Begins(e: Event) { e == Called || e == Crashed }

  /** Where, in the call that is under way after `es`, member `o` passed its check. */
  ghost predicate PassedAt(es: seq<Event>, j: int, o: Owner) {
    0 <= j < |es| && Passes(es[j], o) && forall k :: j < k < |es| ==> !Begins(es[k])
  }

  lemma PassedStep(s: State, e: Event, o: Owner)
    requires Enabled(s, e) && o in Apply(s, e).passed
    ensures Passes(e, o) || (o in s.passed && !Begins(e))
  {
  }

  lemma {:induction false} PassedInThisCall(start: State, es: seq<Event>, o: Owner)
    requires Run(start, es) && o in After(start, es).passed
    ensures exists j :: PassedAt(es, j, o)
  {
    var last := |es| - 1;
    var before := es[..last];
    PassedStep(After(start, before), es[last], o);
    if Passes(es[last], o) {
      assert PassedAt(es, last, o);
    } else {
      PassedInThisCall(start, before, o);
      var j :| PassedAt(before, j, o);
      StillThisCall(before, es, j);
      assert PassedAt(es, j, o);
    }
  }

  /** What happened since no call began has still happened since no call began. */
  lemma StillThisCall(before: seq<Event>, es: seq<Event>, j: nat)
    requires |es| == |before| + 1 && before == es[..|before|] && j < |before| && !Begins(es[|before|])
    requires forall k :: j < k < |before| ==> !Begins(before[k])
    ensures before[j] == es[j] && forall k :: j < k < |es| ==> !Begins(es[k])
  {
    forall k | j < k < |es| ensures !Begins(es[k]) {
      if k < |before| {
        assert es[k] == before[k];
      }
    }
  }

  /** Where, in the call that is under way after `es`, the merge was seen. */
  ghost predicate MergedAt(es: seq<Event>, j: int) {
    0 <= j < |es| && es[j] == SawMerge && forall k :: j < k < |es| ==> !Begins(es[k])
  }

  lemma MergedStep(s: State, e: Event)
    requires Enabled(s, e) && Apply(s, e).merged
    ensures e == SawMerge || (s.merged && !Begins(e))
  {
  }

  lemma {:induction false} MergedInThisCall(start: State, es: seq<Event>)
    requires Run(start, es) && After(start, es).merged
    ensures exists j :: MergedAt(es, j)
  {
    var last := |es| - 1;
    var before := es[..last];
    MergedStep(After(start, before), es[last]);
    if es[last] == SawMerge {
      assert MergedAt(es, last);
    } else {
      MergedInThisCall(start, before);
      var j :| MergedAt(before, j);
      StillThisCall(before, es, j);
      assert MergedAt(es, j);
    }
  }

  /** Nothing of the lineage is deleted, neither tree nor ref intent, before the merge was seen and
      every one of its members has passed its check in the same call. */
  lemma AllPassBeforeAnyDeletion(start: State, es: seq<Event>, i: nat, o: Owner)
    requires Run(start, es) && i < |es| && (es[i].Remove? || es[i].OpenLocal? || es[i].OpenRemote?) && o in start.chain
    ensures exists j :: PassedAt(es[..i], j, o)
    ensures exists j :: MergedAt(es[..i], j)
  {
    LegalPrefix(start, es, i + 1);
    RunKeepsInv(start, es[..i]);
    PassedInThisCall(start, es[..i], o);
    MergedInThisCall(start, es[..i]);
  }

  lemma {:induction false} LegalPrefix(start: State, es: seq<Event>, n: nat)
    requires Legal(start, es) && n <= |es|
    ensures Legal(start, es[..n])
    ensures n > 0 ==> Legal(start, es[..n - 1]) && Enabled(After(start, es[..n - 1]), es[n - 1])
  {
    if n == |es| {
      assert es[..n] == es;
    } else {
      var shorter := es[..|es| - 1];
      LegalPrefix(start, shorter, n);
      assert shorter[..n] == es[..n];
      if n > 0 {
        assert shorter[..n - 1] == es[..n - 1];
      }
    }
  }
}
