/**
 The gate owner of scripts/gate-owner.py: it polls its children, reaps the ones that exited, asks
 and then forces the rest to stop, and leaves its loop only when nothing is left below it. Between
 any two of its system calls the rest of the machine runs as `schedule` says.
 */
module GateOwner {
  import opened Basics
  import opened ProcessTree

  // Milliseconds.
  const DRAIN := 10_000
  const TERM := 2_000
  const KILL := 2_000

  /** A signal the owner sent at `at`, to the process that then held `pid`: SIGKILL if `kill`, else
      the stopping signal. */
  datatype Sent = Sent(pid: Pid, born: nat, kill: bool, at: int)

  datatype Wait = Running | Ended

  /** From `t` to `u` time passed and the owner may have reaped: whoever holds a pid held it before
      or was born since, and a child still there is the same child. */
  ghost predicate Later(t: Tree, u: Tree) {
    && t.clock <= u.clock
    && (forall p :: SameHolder(t, u, p))
    && (forall p :: OwnChild(t, p) && !Replaced(t, u, p) ==> SameChild(t, u, p))
  }

  /** The process that held `p` in `t` is no longer in `u`. */
  ghost predicate Replaced(t: Tree, u: Tree, p: Pid) {
    p !in u.procs || t.clock <= u.procs[p].born
  }

  lemma LaterTransitive(t: Tree, u: Tree, v: Tree)
    requires Inv(t) && Later(t, u) && Later(u, v)
    ensures Later(t, v)
  {
    forall p ensures SameHolder(t, v, p) {
      assert SameHolder(t, u, p) && SameHolder(u, v, p);
    }
    forall p | OwnChild(t, p) && !Replaced(t, v, p) ensures SameChild(t, v, p) {
      assert SameHolder(u, v, p) && Hangs(t, p);
      assert SameChild(t, u, p) && SameChild(u, v, p);
    }
  }

  lemma KeepsIsLater(t: Tree, u: Tree)
    requires KeepsChildren(t, u)
    ensures Later(t, u)
  {
  }

  /** Reaping an exited child leaves a whole tree: nothing can hang below a process that exited. */
  lemma ReapChild(t: Tree, p: Pid)
    requires Inv(t) && OwnChild(t, p) && !t.procs[p].live
    ensures Inv(t.(procs := t.procs - {p})) && Later(t, t.(procs := t.procs - {p}))
  {
    var u := t.(procs := t.procs - {p});
    forall x | x in u.procs ensures Hangs(u, x) {
      assert Hangs(t, x);
    }
  }

  /** The system calls of the owner, each after whatever the rest of the machine did meanwhile. */
  class Kernel {
    const schedule: nat -> seq<Event>
    const clock: nat -> int
    var tree: Tree
    var turn: nat
    ghost var sent: seq<Sent>

    ghost predicate Valid()
      reads this
    {
      Inv(tree)
    }

    constructor (schedule: nat -> seq<Event>, clock: nat -> int, tree: Tree)
      requires Inv(tree)
      ensures Valid() && this.tree == tree && sent == [] && turn == 0
      ensures this.schedule == schedule && this.clock == clock
    {
      this.schedule, this.clock := schedule, clock;
      this.tree, this.turn, this.sent := tree, 0, [];
    }

    method Interleave()
      requires Valid()
      modifies this`tree, this`turn
      ensures Valid() && KeepsChildren(old(tree), tree)
      ensures tree == ApplyAll(old(tree), schedule(old(turn))) && turn == old(turn) + 1
    {
      ScheduleKeeps(tree, schedule(turn));
      tree, turn := ApplyAll(tree, schedule(turn)), turn + 1;
    }

    /** The direct children, read at one instant. */
    method ReadChildren() returns (pids: seq<Pid>)
      requires Valid()
      modifies this`tree, this`turn
      ensures Valid() && KeepsChildren(old(tree), tree)
      ensures forall p :: p in pids <==> p in Children(tree)
      ensures forall i, j :: 0 <= i < j < |pids| ==> pids[i] != pids[j]
    {
      Interleave();
      pids := [];
      var rest := Children(tree);
      while rest != {}
        invariant forall p :: p in pids || p in rest <==> p in Children(tree)
        invariant forall p :: p in rest ==> p !in pids
        invariant forall i, j :: 0 <= i < j < |pids| ==> pids[i] != pids[j]
        decreases |rest|
      {
        var p :| p in rest;
        pids, rest := pids + [p], rest - {p};
      }
    }

    /** `waitid` with WNOWAIT: observes without reaping. */
    method Observe(pid: Pid) returns (w: Wait)
      requires Valid() && OwnChild(tree, pid)
      modifies this`tree, this`turn
      ensures Valid() && KeepsChildren(old(tree), tree)
      ensures SameChild(old(tree), tree, pid) && (w == Ended <==> !tree.procs[pid].live)
    {
      Interleave();
      assert SameChild(old(tree), tree, pid);
      w := if tree.procs[pid].live then Running else Ended;
    }

    /** `waitpid` with WNOHANG: reaps the child if it exited. */
    method TryReap(pid: Pid) returns (w: Wait)
      requires Valid() && OwnChild(tree, pid)
      modifies this`tree, this`turn
      ensures Valid() && Later(old(tree), tree)
      ensures w == Running ==> SameChild(old(tree), tree, pid) && old(tree).procs[pid].live
      ensures w == Ended ==> Replaced(old(tree), tree, pid)
      ensures forall p :: p != pid && OwnChild(old(tree), p) ==> SameChild(old(tree), tree, p)
    {
      ghost var was := tree;
      Interleave();
      KeepsIsLater(was, tree);
      assert SameChild(was, tree, pid);
      if tree.procs[pid].live {
        w := Running;
      } else {
        w := Ended;
        ghost var mid := tree;
        ReapChild(tree, pid);
        tree := tree.(procs := tree.procs - {pid});
        LaterTransitive(was, mid, tree);
        forall p | p != pid && OwnChild(was, p) ensures SameChild(was, tree, p) {
          assert SameChild(was, mid, p);
        }
      }
    }

    /** `kill`. The obligation of every caller is the point: the target is the owner's own child,
        not reaped, so the pid cannot belong to anyone else. */
    method Kill(pid: Pid, kill: bool, at: int)
      requires Valid() && OwnChild(tree, pid)
      modifies this`sent
      ensures sent == old(sent) + [Sent(pid, tree.procs[pid].born, kill, at)]
    {
      sent := sent + [Sent(pid, tree.procs[pid].born, kill, at)];
    }

    /** Observe first, so that the pid is pinned, then signal; the machine runs in between. */
    method SendChild(pid: Pid, kill: bool, at: int)
      requires Valid() && OwnChild(tree, pid)
      modifies this
      ensures Valid() && KeepsChildren(old(tree), tree)
      ensures sent == old(sent) + [Sent(pid, old(tree).procs[pid].born, kill, at)]
    {
      ghost var was := tree;
      var w := Observe(pid);
      ghost var mid := tree;
      Interleave();
      KeepsChildrenTransitive(was, mid, tree);
      assert SameChild(was, tree, pid);
      Kill(pid, kill, at);
    }

    /** Reap every child but the leader that exited; return the ones still there. */
    method Sweep(leader: Pid) returns (remaining: seq<Pid>)
      requires Valid() && OwnChild(tree, leader)
      modifies this`tree, this`turn
      ensures Valid() && Later(old(tree), tree)
      ensures SameChild(old(tree), tree, leader)
      ensures forall p :: p in remaining ==> OwnChild(tree, p) && p != leader
      ensures forall p :: OwnChild(old(tree), p) && p != leader ==> p in remaining || Replaced(old(tree), tree, p)
      ensures forall p :: OwnChild(old(tree), p) && p != leader && !old(tree).procs[p].live ==>
                Replaced(old(tree), tree, p)
      ensures forall i, j :: 0 <= i < j < |remaining| ==> remaining[i] != remaining[j]
    {
      ghost var was := tree;
      var pids := ReadChildren();
      ghost var read := tree;
      KeepsIsLater(was, read);
      assert SameChild(was, read, leader);
      remaining := [];
      SweepBegins(read, pids, leader);
      for i := 0 to |pids|
        invariant Valid() && Later(read, tree) && SameChild(read, tree, leader)
        invariant Sweeping(read, tree, pids, i, remaining, leader)
      {
        var pid := pids[i];
        ghost var mid, before := tree, remaining;
        if pid != leader {
          var w := TryReap(pid);
          if w == Running {
            remaining := remaining + [pid];
          }
          LaterTransitive(read, mid, tree);
        }
        SweepStep(read, mid, tree, pids, i, before, remaining, leader);
      }
      LaterTransitive(was, read, tree);
      SweptAll(was, read, tree, pids, remaining, leader);
    }
  }

  /** How far a sweep of the children `pids`, read at `read`, has come. */
  ghost predicate Sweeping(read: Tree, now: Tree, pids: seq<Pid>, i: nat, remaining: seq<Pid>, leader: Pid) {
    && i <= |pids|
    && (forall k :: i <= k < |pids| ==> SameChild(read, now, pids[k]))
    && (forall p :: p in remaining ==> SameChild(read, now, p) && read.procs[p].live && p != leader && p in pids[..i])
    && (forall k :: 0 <= k < i && pids[k] != leader ==> pids[k] in remaining || Replaced(read, now, pids[k]))
    && (forall a, b :: 0 <= a < b < |remaining| ==> remaining[a] != remaining[b])
  }

  lemma SweepBegins(read: Tree, pids: seq<Pid>, leader: Pid)
    requires forall p :: p in pids <==> p in Children(read)
    ensures Later(read, read) && Sweeping(read, read, pids, 0, [], leader)
  {
    assert forall p :: SameHolder(read, read, p);
    forall k | 0 <= k < |pids| ensures SameChild(read, read, pids[k]) {
      assert pids[k] in Children(read);
    }
  }

  lemma SweepStep(read: Tree, mid: Tree, now: Tree, pids: seq<Pid>, i: nat,
                  before: seq<Pid>, after: seq<Pid>, leader: Pid)
    requires i < |pids| && Sweeping(read, mid, pids, i, before, leader)
    requires forall a, b :: 0 <= a < b < |pids| ==> pids[a] != pids[b]
    requires forall p :: p != pids[i] && OwnChild(mid, p) ==> SameChild(mid, now, p)
    requires forall p :: SameHolder(mid, now, p)
    requires read.clock <= mid.clock
    requires if pids[i] == leader then after == before && mid == now
             else (after == before && Replaced(mid, now, pids[i]))
                  || (after == before + [pids[i]] && SameChild(mid, now, pids[i]) && mid.procs[pids[i]].live)
    ensures Sweeping(read, now, pids, i + 1, after, leader)
  {
    assert pids[..i + 1] == pids[..i] + [pids[i]];
    forall k | i + 1 <= k < |pids| ensures SameChild(read, now, pids[k]) {
      assert SameChild(mid, now, pids[k]);
    }
    forall p | p in after ensures SameChild(read, now, p) && read.procs[p].live && p != leader && p in pids[..i + 1] {
      assert p in before ==> p in pids[..i] && p != pids[i];
    }
    forall k | 0 <= k < i + 1 && pids[k] != leader ensures pids[k] in after || Replaced(read, now, pids[k]) {
      assert SameHolder(mid, now, pids[k]);
    }
  }

  lemma SweptAll(was: Tree, read: Tree, now: Tree, pids: seq<Pid>, remaining: seq<Pid>, leader: Pid)
    requires KeepsChildren(was, read)
    requires forall p :: p in pids <==> p in Children(read)
    requires Sweeping(read, now, pids, |pids|, remaining, leader)
    ensures forall p :: OwnChild(was, p) && p != leader ==> p in remaining || Replaced(was, now, p)
    ensures forall p :: OwnChild(was, p) && p != leader && !was.procs[p].live ==> Replaced(was, now, p)
  {
    forall p | OwnChild(was, p) && p != leader
      ensures p in remaining || Replaced(was, now, p)
      ensures !was.procs[p].live ==> Replaced(was, now, p)
    {
      assert SameChild(was, read, p);
      assert p in Children(read) && p in pids;
      var k :| 0 <= k < |pids| && pids[k] == p;
      assert pids[k] in remaining || Replaced(read, now, pids[k]);
    }
  }

  /** What the supervision loop carries from one round to the next. */
  datatype Control = Control(drainUntil: Option<int>, stopping: bool, killAt: Option<int>, failed: bool,
                             termSent: set<Pid>)

  const START := Control(None, false, None, false, {})

  /** The process signal `e` went to can no longer be met under its pid, or the owner still counts
      it among those already asked to stop. */
  ghost predicate Accounted(t: Tree, termSent: set<Pid>, leader: Pid, e: Sent) {
    && e.born < t.clock
    && (e.kill || e.pid == leader
        || e.pid !in t.procs || e.born < t.procs[e.pid].born
        || (e.pid in termSent && OwnChild(t, e.pid) && t.procs[e.pid].born == e.born))
  }

  /** No process is asked to stop twice, although pids are reused. */
  ghost predicate AskedOnce(sent: seq<Sent>) {
    forall i, j :: 0 <= i < j < |sent| && !sent[i].kill && !sent[j].kill && sent[i].pid == sent[j].pid
                   ==> sent[i].born != sent[j].born
  }

  /** The leader is asked first; nothing is killed before its grace period is over. */
  ghost predicate AskedBeforeForced(sent: seq<Sent>, leader: Pid) {
    forall e :: e in sent ==>
      sent[0].pid == leader && !sent[0].kill && (e.kill ==> sent[0].at + TERM <= e.at)
  }

  ghost predicate ControlInv(c: Control, sent: seq<Sent>, t: Tree, leader: Pid) {
    && (c.killAt == None ==> sent == [] && c.termSent == {})
    && (c.killAt != None ==> c.stopping && sent != [] && c.killAt.value == sent[0].at + TERM)
    && (c.failed ==> c.stopping)
    && AskedOnce(sent) && AskedBeforeForced(sent, leader)
    && (forall e :: e in sent ==> Accounted(t, c.termSent, leader, e))
  }

  /** Time passing keeps the book on signals, as long as the children still there are kept in it. */
  lemma LaterKeepsAccount(t: Tree, u: Tree, termSent: set<Pid>, kept: set<Pid>, leader: Pid, e: Sent)
    requires Inv(t) && Later(t, u) && Accounted(t, termSent, leader, e)
    requires forall p :: OwnChild(t, p) && p != leader && p in termSent ==> p in kept || Replaced(t, u, p)
    ensures Accounted(u, kept, leader, e)
  {
    assert SameHolder(t, u, e.pid);
  }

  lemma LaterKeepsControl(c: Control, sent: seq<Sent>, t: Tree, u: Tree, leader: Pid)
    requires Inv(t) && Later(t, u) && ControlInv(c, sent, t, leader)
    ensures ControlInv(c, sent, u, leader)
  {
    forall e | e in sent ensures Accounted(u, c.termSent, leader, e) {
      LaterKeepsAccount(t, u, c.termSent, c.termSent, leader, e);
    }
  }

  /** Asking child `p`, not yet counted as asked, to stop asks a process that never was. */
  lemma AskOne(c: Control, sent: seq<Sent>, t: Tree, leader: Pid, p: Pid, at: int)
    requires Inv(t) && ControlInv(c, sent, t, leader) && c.killAt != None
    requires OwnChild(t, p) && p != leader && p !in c.termSent
    ensures ControlInv(c.(termSent := c.termSent + {p}), sent + [Sent(p, t.procs[p].born, false, at)], t, leader)
  {
    assert Hangs(t, p);
    var more := sent + [Sent(p, t.procs[p].born, false, at)];
    forall e | e in more ensures Accounted(t, c.termSent + {p}, leader, e) {
      if e in sent { assert Accounted(t, c.termSent, leader, e); }
    }
    forall i | 0 <= i < |sent| && !sent[i].kill && sent[i].pid == p ensures sent[i].born != t.procs[p].born {
      assert Accounted(t, c.termSent, leader, sent[i]);
    }
  }

  lemma ForceOne(c: Control, sent: seq<Sent>, t: Tree, leader: Pid, p: Pid, at: int)
    requires Inv(t) && ControlInv(c, sent, t, leader) && c.killAt != None && c.killAt.value <= at
    requires OwnChild(t, p)
    ensures ControlInv(c, sent + [Sent(p, t.procs[p].born, true, at)], t, leader)
  {
    assert Hangs(t, p);
  }

  lemma AskLeader(c: Control, t: Tree, leader: Pid, at: int)
    requires Inv(t) && ControlInv(c, [], t, leader) && c.killAt == None && OwnChild(t, leader)
    ensures ControlInv(c.(stopping := true, killAt := Some(at + TERM)), [Sent(leader, t.procs[leader].born, false, at)],
                       t, leader)
  {
    assert Hangs(t, leader);
  }

  /** The control whose book holds only the pids in `kept`. */
  function Keeping(c: Control, kept: set<Pid>): Control {
    c.(termSent := c.termSent * kept)
  }

  /** After a sweep the book may be cut down to the children it left: whoever else was asked is gone. */
  lemma KeepRemaining(c: Control, sent: seq<Sent>, t: Tree, u: Tree, remaining: seq<Pid>, leader: Pid)
    requires Inv(t) && Later(t, u) && ControlInv(c, sent, t, leader)
    requires forall p :: OwnChild(t, p) && p != leader ==> p in remaining || Replaced(t, u, p)
    ensures ControlInv(Keeping(c, set p | p in remaining), sent, u, leader)
  {
    var kept := set p | p in remaining;
    forall e | e in sent ensures Accounted(u, c.termSent * kept, leader, e) {
      LaterKeepsAccount(t, u, c.termSent, c.termSent * kept, leader, e);
    }
  }

  /** One of the signals forces `p`. */
  ghost predicate Forced(sent: seq<Sent>, p: Pid) {
    exists i :: 0 <= i < |sent| && sent[i].pid == p && sent[i].kill
  }

  lemma ForcedSooner(sent: seq<Sent>, m: nat, n: nat)
    requires m <= n <= |sent|
    ensures forall p :: Forced(sent[n..], p) ==> Forced(sent[m..], p)
  {
    forall p | Forced(sent[n..], p) ensures Forced(sent[m..], p) {
      var i :| 0 <= i < |sent[n..]| && sent[n..][i].pid == p && sent[n..][i].kill;
      assert sent[m..][i + n - m] == sent[n..][i];
    }
  }

  lemma ForcedStays(sent: seq<Sent>, e: Sent, n: nat)
    requires n <= |sent|
    ensures forall p :: Forced(sent[n..], p) ==> Forced((sent + [e])[n..], p)
    ensures e.kill ==> Forced((sent + [e])[n..], e.pid)
  {
    var more := (sent + [e])[n..];
    assert more == sent[n..] + [e];
    forall p | Forced(sent[n..], p) ensures Forced(more, p) {
      var i :| 0 <= i < |sent[n..]| && sent[n..][i].pid == p && sent[n..][i].kill;
      assert more[i].pid == p && more[i].kill;
    }
    assert more[|more| - 1] == e;
  }

  /** One round of asking and forcing, for the children `remaining` the last sweep left. The pids
      that left the children are dropped from the book before the next sweep: by then the kernel
      may have given them to other processes. */
  method Escalate(k: Kernel, leader: Pid, remaining: seq<Pid>, c: Control, now: int) returns (d: Control)
    requires k.Valid() && OwnChild(k.tree, leader) && c.stopping
    requires ControlInv(Keeping(c, set p | p in remaining), k.sent, k.tree, leader)
    requires forall p :: p in remaining ==> OwnChild(k.tree, p) && p != leader
    modifies k
    ensures k.Valid() && KeepsChildren(old(k.tree), k.tree) && ControlInv(d, k.sent, k.tree, leader)
    ensures d.stopping && d.failed == c.failed && d.killAt != None && d.drainUntil == c.drainUntil
    ensures old(k.sent) <= k.sent && (c.killAt == None ==> |k.sent| > |old(k.sent)|)
    ensures forall p :: p in remaining ==>
              if now >= d.killAt.value then Forced(k.sent[|old(k.sent)|..], p) else p in d.termSent
    ensures now >= d.killAt.value ==> Forced(k.sent[|old(k.sent)|..], leader)
  {
    ghost var was := k.tree;
    var kept := set p | p in remaining;
    d := c;
    assert forall p :: SameHolder(was, was, p);
    if d.killAt == None {
      d := AskTheLeader(k, leader, d, now, kept);
    }
    ghost var asked := |k.sent|;
    d := PressAll(k, leader, remaining, d, now, was, kept);
    ForcedSooner(k.sent, |old(k.sent)|, asked);
    d := Keeping(d, kept);
    if now >= d.killAt.value {
      ForceLeader(k, leader, d, now, was, |old(k.sent)|);
    }
  }

  method PressAll(k: Kernel, leader: Pid, remaining: seq<Pid>, c: Control,
                  now: int, ghost was: Tree, ghost kept: set<Pid>)
    returns (d: Control)
    requires k.Valid() && ControlInv(Keeping(c, kept), k.sent, k.tree, leader) && c.stopping && c.killAt != None
    requires KeepsChildren(was, k.tree) && forall p :: p in remaining ==> OwnChild(was, p) && p != leader && p in kept
    modifies k
    ensures k.Valid() && KeepsChildren(was, k.tree) && ControlInv(Keeping(d, kept), k.sent, k.tree, leader)
    ensures d == c.(termSent := d.termSent) && old(k.sent) <= k.sent
    ensures forall p :: p in remaining ==>
              if now >= d.killAt.value then Forced(k.sent[|old(k.sent)|..], p) else p in d.termSent
  {
    d := c;
    for i := 0 to |remaining|
      invariant k.Valid() && KeepsChildren(was, k.tree) && ControlInv(Keeping(d, kept), k.sent, k.tree, leader)
      invariant d == c.(termSent := d.termSent) && old(k.sent) <= k.sent
      invariant forall j :: 0 <= j < i ==>
                  if now >= d.killAt.value then Forced(k.sent[|old(k.sent)|..], remaining[j])
                  else remaining[j] in d.termSent
    {
      ghost var before, sent := k.tree, k.sent;
      d := Press(k, leader, remaining[i], d, now, was, kept);
      KeepsChildrenTransitive(was, before, k.tree);
      if k.sent != sent {
        ForcedStays(sent, k.sent[|sent|], |old(k.sent)|);
      }
    }
  }

  method ForceLeader(k: Kernel, leader: Pid, c: Control, now: int, ghost was: Tree, ghost from: nat)
    requires k.Valid() && ControlInv(c, k.sent, k.tree, leader) && c.killAt != None && c.killAt.value <= now
    requires KeepsChildren(was, k.tree) && OwnChild(was, leader) && from <= |k.sent|
    modifies k
    ensures k.Valid() && KeepsChildren(was, k.tree) && ControlInv(c, k.sent, k.tree, leader)
    ensures old(k.sent) < k.sent && Forced(k.sent[from..], leader)
    ensures forall p :: Forced(old(k.sent)[from..], p) ==> Forced(k.sent[from..], p)
  {
    assert SameChild(was, k.tree, leader);
    ghost var before, sent := k.tree, k.sent;
    k.SendChild(leader, true, now);
    ForcedStays(sent, k.sent[|sent|], from);
    KeepsIsLater(before, k.tree);
    KeepsChildrenTransitive(was, before, k.tree);
    LaterKeepsControl(c, sent, before, k.tree, leader);
    assert SameChild(before, k.tree, leader);
    ForceOne(c, sent, k.tree, leader, leader, now);
  }

  method AskTheLeader(k: Kernel, leader: Pid, c: Control, now: int, ghost kept: set<Pid>) returns (d: Control)
    requires k.Valid() && OwnChild(k.tree, leader) && ControlInv(Keeping(c, kept), k.sent, k.tree, leader)
    requires c.stopping && c.killAt == None
    modifies k
    ensures k.Valid() && KeepsChildren(old(k.tree), k.tree) && ControlInv(Keeping(d, kept), k.sent, k.tree, leader)
    ensures d == c.(killAt := Some(now + TERM))
    ensures k.sent == old(k.sent) + [Sent(leader, old(k.tree).procs[leader].born, false, now)]
  {
    ghost var was := k.tree;
    d := c.(killAt := Some(now + TERM));
    k.SendChild(leader, false, now);
    KeepsIsLater(was, k.tree);
    LaterKeepsControl(Keeping(c, kept), [], was, k.tree, leader);
    assert SameChild(was, k.tree, leader);
    AskLeader(Keeping(c, kept), k.tree, leader, now);
  }

  /** Force child `p` once the grace period is over; before that ask it, unless it was asked. */
  method Press(k: Kernel, leader: Pid, p: Pid, c: Control, now: int, ghost was: Tree, ghost kept: set<Pid>)
    returns (d: Control)
    requires k.Valid() && ControlInv(Keeping(c, kept), k.sent, k.tree, leader) && c.stopping && c.killAt != None
    requires KeepsChildren(was, k.tree) && OwnChild(was, p) && p != leader && p in kept
    modifies k
    ensures k.Valid() && KeepsChildren(old(k.tree), k.tree) && ControlInv(Keeping(d, kept), k.sent, k.tree, leader)
    ensures p in old(k.tree).procs
    ensures var born := old(k.tree).procs[p].born;
            if now >= c.killAt.value then k.sent == old(k.sent) + [Sent(p, born, true, now)] && d == c
            else if p !in c.termSent then k.sent == old(k.sent) + [Sent(p, born, false, now)]
              && d == c.(termSent := c.termSent + {p})
            else k.sent == old(k.sent) && d == c
  {
    d := c;
    assert SameChild(was, k.tree, p);
    ghost var before, sent, book := k.tree, k.sent, Keeping(c, kept);
    if now >= c.killAt.value {
      k.SendChild(p, true, now);
      KeepsIsLater(before, k.tree);
      LaterKeepsControl(book, sent, before, k.tree, leader);
      assert SameChild(before, k.tree, p);
      ForceOne(book, sent, k.tree, leader, p, now);
    } else if p !in c.termSent {
      k.SendChild(p, false, now);
      KeepsIsLater(before, k.tree);
      LaterKeepsControl(book, sent, before, k.tree, leader);
      assert SameChild(before, k.tree, p);
      AskOne(book, sent, k.tree, leader, p, now);
      d := c.(termSent := c.termSent + {p});
      assert Keeping(d, kept) == book.(termSent := book.termSent + {p});
    } else {
      assert forall q :: SameHolder(before, before, q);
    }
  }

  datatype Verdict = Continue | AllGone | TimedOut

  /** One round of the supervision loop. `cancelled` is whether a cancelling signal has arrived. */
  method Round(k: Kernel, leader: Pid, c: Control, cancelled: bool) returns (d: Control, v: Verdict)
    requires k.Valid() && OwnChild(k.tree, leader) && ControlInv(c, k.sent, k.tree, leader)
    modifies k
    ensures k.Valid() && OwnChild(k.tree, leader) && ControlInv(d, k.sent, k.tree, leader)
    ensures v == AllGone ==> Quiescent(k.tree, leader)
    ensures d.stopping <==> c.stopping || cancelled || d.failed
    ensures c.failed ==> d.failed
  {
    d := c;
    v := Continue;
    var w := k.Observe(leader);
    KeepsIsLater(old(k.tree), k.tree);
    LaterKeepsControl(c, k.sent, old(k.tree), k.tree, leader);
    ghost var seen := k.tree;
    var remaining := k.Sweep(leader);
    ghost var swept, kept := k.tree, set p | p in remaining;
    LaterKeepsControl(c, k.sent, seen, swept, leader);
    KeepRemaining(c, k.sent, seen, swept, remaining, leader);
    var now := k.clock(k.turn);
    d := d.(stopping := d.stopping || cancelled);
    if w == Ended && d.drainUntil == None {
      d := d.(drainUntil := Some(now + DRAIN));
    }
    if w == Ended && remaining == [] {
      var kids := k.ReadChildren();
      KeepsIsLater(swept, k.tree);
      LaterKeepsControl(d, k.sent, swept, k.tree, leader);
      LaterKeepsControl(Keeping(d, kept), k.sent, swept, k.tree, leader);
      assert SameChild(swept, k.tree, leader);
      if kids == [leader] {
        assert Children(k.tree) == {leader};
        OnlyExitedLeaderLeft(k.tree, leader);
        v := AllGone;
        return;
      }
    }
    d, v := Decide(k, leader, remaining, d, now);
  }

  /** The end of a round: whether the drain is over, and what is done about the children that are left. */
  method Decide(k: Kernel, leader: Pid, remaining: seq<Pid>, c: Control, now: int) returns (d: Control, v: Verdict)
    requires k.Valid() && OwnChild(k.tree, leader) && ControlInv(c, k.sent, k.tree, leader)
    requires ControlInv(Keeping(c, set p | p in remaining), k.sent, k.tree, leader)
    requires forall p :: p in remaining ==> OwnChild(k.tree, p) && p != leader
    modifies k
    ensures k.Valid() && OwnChild(k.tree, leader) && ControlInv(d, k.sent, k.tree, leader)
    ensures v != AllGone && (d.stopping <==> c.stopping || d.failed) && (c.failed ==> d.failed)
  {
    d, v := c, Continue;
    if !d.stopping && d.drainUntil != None && now >= d.drainUntil.value {
      d := d.(failed := true, stopping := true);
    }
    if d.stopping {
      ghost var before := k.tree;
      d := Escalate(k, leader, remaining, d, now);
      assert SameChild(before, k.tree, leader);
      if now >= d.killAt.value + KILL {
        v := TimedOut;
      }
    }
  }

  datatype Outcome =
    | Finished(status: int)  // the loop broke and the leader was waited for
    | Overdue                // TimeoutError: children outlived the forced stop
    | Lost                   // the owner itself was killed

  /** `cancel(i)` is the cancelling signal seen by round `i`; the first one stays the one that counts. */
  ghost predicate FirstSignalStays(cancel: nat -> Option<int>) {
    forall i, j :: i <= j && cancel(i) != None ==> cancel(j) == cancel(i) && cancel(i).value > 0
  }

  /** What `run` returns once the leader's exit status is known. */
  function Status(signal: Option<int>, failed: bool, code: int): int {
    if signal != None then -signal.value else if failed && code == 0 then 125 else code
  }

  /** `leader.wait()` once only the leader is left: the tree below the owner is empty for good. */
  method WaitForLeader(k: Kernel, leader: Pid) returns (code: int)
    requires k.Valid() && Quiescent(k.tree, leader)
    modifies k`tree, k`turn
    ensures k.Valid() && k.tree.procs.Keys == {OWNER} && code == old(k.tree).procs[leader].code
  {
    QuiescentForever(k.tree, leader, k.schedule(k.turn));
    k.Interleave();
    code := k.tree.procs[leader].code;
    ReapChild(k.tree, leader);
    k.tree := k.tree.(procs := k.tree.procs - {leader});
  }

  /** The supervision loop, for at most `rounds` rounds before the owner itself is lost. Whatever the
      rest of the machine does, and whenever: if it finishes, nothing lives below the owner and
      nothing can come back; no process was asked to stop twice, none killed before the leader's
      grace period was over; and status 0 means that the whole gate ended by itself. */
  method Supervise(k: Kernel, leader: Pid, cancel: nat -> Option<int>, rounds: nat)
    returns (out: Outcome, ghost last: Tree, ghost failed: bool, ghost at: nat)
    requires k.Valid() && OwnChild(k.tree, leader) && k.sent == [] && FirstSignalStays(cancel)
    modifies k
    ensures k.Valid() && AskedOnce(k.sent) && AskedBeforeForced(k.sent, leader)
    ensures out.Finished? ==>
              && k.tree.procs.Keys == {OWNER}
              && Inv(last) && Quiescent(last, leader)
              && out.status == Status(cancel(at), failed, last.procs[leader].code)
    ensures out.Finished? && out.status == 0 ==> k.sent == [] && last.procs[leader].code == 0
  {
    last, failed, at := k.tree, false, 0;
    var c := START;
    for r := 0 to rounds
      invariant k.Valid() && OwnChild(k.tree, leader) && ControlInv(c, k.sent, k.tree, leader)
      invariant c.stopping ==> c.failed || cancel(r) != None
    {
      var v;
      c, v := Round(k, leader, c, cancel(r) != None);
      if v == AllGone {
        last, failed, at := k.tree, c.failed, r + 1;
        var code := WaitForLeader(k, leader);
        out := Finished(Status(cancel(r + 1), c.failed, code));
        return;
      }
      if v == TimedOut {
        out := Overdue;
        return;
      }
    }
    out := Lost;
  }

  /** The emergency teardown: it confirms the cleanup only on the same evidence as the loop. */
  method Teardown(k: Kernel, leader: Pid, rounds: nat) returns (confirmed: bool)
    requires k.Valid() && OwnChild(k.tree, leader)
    modifies k
    ensures k.Valid()
    ensures confirmed ==> k.tree.procs.Keys == {OWNER}
    ensures forall i :: |old(k.sent)| <= i < |k.sent| ==> k.sent[i].kill
    ensures old(k.sent) <= k.sent
  {
    ghost var first := k.sent;
    confirmed := false;
    for r := 0 to rounds
      invariant k.Valid() && OwnChild(k.tree, leader) && first <= k.sent
      invariant forall i :: |first| <= i < |k.sent| ==> k.sent[i].kill
    {
      KillAll(k, leader, k.clock(k.turn));
      var w := k.Observe(leader);
      ghost var seen := k.tree;
      var again := k.Sweep(leader);
      ghost var swept := k.tree;
      if w == Ended && again == [] {
        var kids := k.ReadChildren();
        assert SameChild(swept, k.tree, leader);
        if kids == [leader] {
          assert Children(k.tree) == {leader};
          OnlyExitedLeaderLeft(k.tree, leader);
          var code := WaitForLeader(k, leader);
          confirmed := true;
          return;
        }
      }
    }
  }

  method KillAll(k: Kernel, leader: Pid, now: int)
    requires k.Valid() && OwnChild(k.tree, leader)
    modifies k
    ensures k.Valid() && OwnChild(k.tree, leader) && old(k.sent) < k.sent
    ensures forall i :: |old(k.sent)| <= i < |k.sent| ==> k.sent[i].kill
  {
    ghost var was, first := k.tree, k.sent;
    k.SendChild(leader, true, now);
    assert SameChild(was, k.tree, leader);
    var remaining := k.Sweep(leader);
    ghost var swept := k.tree;
    assert forall p :: SameHolder(swept, swept, p);
    for i := 0 to |remaining|
      invariant k.Valid() && KeepsChildren(swept, k.tree) && OwnChild(k.tree, leader) && first < k.sent
      invariant forall j :: |first| <= j < |k.sent| ==> k.sent[j].kill
    {
      ghost var before := k.tree;
      assert SameChild(swept, k.tree, remaining[i]);
      k.SendChild(remaining[i], true, now);
      KeepsChildrenTransitive(swept, before, k.tree);
      assert SameChild(swept, k.tree, leader);
    }
  }
}
