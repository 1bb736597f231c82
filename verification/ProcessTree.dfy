/**
 The Linux process tree below one gate owner, as scripts/gate-owner.py sees it: the owner is a
 child subreaper, everything else forks, exits, adopts and reaps on its own schedule.
 */
module ProcessTree {

  type Pid = nat

  const OWNER: Pid := 1

  /** An entry of the process table. A process that exited stays, not `live`, until its parent reaps
      it; `born` tells two processes apart that were given the same pid one after the other. */
  datatype Process = Process(parent: Pid, born: nat, live: bool, subreaper: bool, code: int)

  datatype Tree = Tree(procs: map<Pid, Process>, clock: nat)

  /** What any process other than the owner can do between two steps of the owner. The kernel gives
      the orphans of a process that exits to an older live subreaper, `adopter`. */
  datatype Event =
    | Fork(parent: Pid, child: Pid)
    | Exit(pid: Pid, code: int, adopter: Pid)
    | Reap(parent: Pid, pid: Pid)
    | BecomeSubreaper(pid: Pid)

  /** Process `p` hangs below an older live one. */
  ghost predicate Hangs(t: Tree, p: Pid) {
    p in t.procs && t.procs[p].born < t.clock &&
    (p != OWNER ==>
       var q := t.procs[p].parent;
       q in t.procs && t.procs[q].live && t.procs[q].born < t.procs[p].born)
  }

  /** No chain of parents leaves the tree: this is what the subreaper guarantees. */
  ghost predicate Inv(t: Tree) {
    && OWNER in t.procs && t.procs[OWNER].live && t.procs[OWNER].subreaper
    && (forall p :: p in t.procs ==> Hangs(t, p))
  }

  /** A pid the owner may wait for and signal: its own child, not reaped yet. */
  predicate OwnChild(t: Tree, p: Pid) {
    p in t.procs && p != OWNER && t.procs[p].parent == OWNER
  }

  function Children(t: Tree): set<Pid> {
    set p | p in t.procs && OwnChild(t, p)
  }

  predicate Enabled(t: Tree, e: Event) {
    match e
    case Fork(q, c) => q in t.procs && q != OWNER && t.procs[q].live && c !in t.procs
    case Exit(p, _, a) =>
      && p in t.procs && p != OWNER && t.procs[p].live
      && a in t.procs && t.procs[a].live && t.procs[a].subreaper && t.procs[a].born < t.procs[p].born
    case Reap(q, p) => q != OWNER && p in t.procs && p != OWNER && t.procs[p].parent == q && !t.procs[p].live
    case BecomeSubreaper(p) => p in t.procs && t.procs[p].live
  }

  /** The entry of `x` once `p` exited and its children, `x` perhaps, went to `a`. */
  function AfterExit(e: Process, x: Pid, p: Pid, code: int, a: Pid): Process {
    if x == p then e.(live := false, code := code)
    else if x != OWNER && e.parent == p then e.(parent := a)
    else e
  }

  /** One event of the environment; an event that is not enabled does nothing. */
  function Apply(t: Tree, e: Event): Tree {
    if !Enabled(t, e) then t else
    match e
    case Fork(q, c) => Tree(t.procs[c := Process(q, t.clock, true, false, 0)], t.clock + 1)
    case Exit(p, code, a) => t.(procs := map x | x in t.procs :: AfterExit(t.procs[x], x, p, code, a))
    case Reap(_, p) => t.(procs := t.procs - {p})
    case BecomeSubreaper(p) => t.(procs := t.procs[p := t.procs[p].(subreaper := true)])
  }

  /** Child `p` of the owner is in `u` what it was in `t`, or has exited meanwhile: it was not
      reaped, taken away or revived, and its pid was not given to another process. */
  ghost predicate SameChild(t: Tree, u: Tree, p: Pid) {
    && OwnChild(t, p) && OwnChild(u, p) && u.procs[p].born == t.procs[p].born
    && (!t.procs[p].live ==> !u.procs[p].live && u.procs[p].code == t.procs[p].code)
  }

  /** Whoever holds pid `p` in `u` held it in `t`, or was born since. */
  ghost predicate SameHolder(t: Tree, u: Tree, p: Pid) {
    p in u.procs ==> t.clock <= u.procs[p].born || (p in t.procs && t.procs[p].born == u.procs[p].born)
  }

  ghost predicate KeepsChildren(t: Tree, u: Tree) {
    && t.clock <= u.clock
    && (forall p :: OwnChild(t, p) ==> SameChild(t, u, p))
    && (forall p :: SameHolder(t, u, p))
  }

  lemma EventKeepsTree(t: Tree, e: Event)
    requires Inv(t)
    ensures Inv(Apply(t, e))
  {
    var u := Apply(t, e);
    if Enabled(t, e) {
      forall p | p in u.procs ensures Hangs(u, p) {
        match e
        case Fork(q, c) => if p != c { assert Hangs(t, p); } else { assert Hangs(t, q); }
        case Exit(q, _, a) => assert Hangs(t, p);
        case Reap(q, d) => assert Hangs(t, p) && Hangs(t, d);
        case BecomeSubreaper(q) => assert Hangs(t, p);
      }
    }
  }

  lemma EventKeepsChildren(t: Tree, e: Event)
    requires Inv(t)
    ensures KeepsChildren(t, Apply(t, e))
  {
    var u := Apply(t, e);
    if Enabled(t, e) {
      forall p | OwnChild(t, p) ensures SameChild(t, u, p) {
        match e
        case Fork(q, c) =>
        case Exit(q, _, a) =>
        case Reap(q, d) =>
        case BecomeSubreaper(q) =>
      }
    }
  }

  function ApplyAll(t: Tree, es: seq<Event>): Tree
    decreases |es|
  {
    if es == [] then t else ApplyAll(Apply(t, es[0]), es[1..])
  }

  lemma KeepsChildrenTransitive(t: Tree, u: Tree, v: Tree)
    requires KeepsChildren(t, u) && KeepsChildren(u, v)
    ensures KeepsChildren(t, v)
  {
    forall p | OwnChild(t, p) ensures SameChild(t, v, p) {
      assert SameChild(t, u, p) && SameChild(u, v, p);
    }
    forall p ensures SameHolder(t, v, p) {
      assert SameHolder(t, u, p) && SameHolder(u, v, p);
    }
  }

  /** Under any schedule of the environment the tree stays whole and every child of the owner stays
      the owner's to wait for. */
  lemma {:induction false} ScheduleKeeps(t: Tree, es: seq<Event>)
    requires Inv(t)
    ensures Inv(ApplyAll(t, es)) && KeepsChildren(t, ApplyAll(t, es))
    decreases |es|
  {
    if es == [] {
      assert forall p :: SameHolder(t, t, p);
    } else {
      var u, rest := Apply(t, es[0]), es[1..];
      EventKeepsTree(t, es[0]);
      EventKeepsChildren(t, es[0]);
      ScheduleKeeps(u, rest);
      KeepsChildrenTransitive(t, u, ApplyAll(u, rest));
    }
  }

  /** Nothing but the owner and the leader's exit status is left. */
  ghost predicate Quiescent(t: Tree, leader: Pid) {
    t.procs.Keys == {OWNER, leader} && OwnChild(t, leader) && !t.procs[leader].live
  }

  /** Every live process has a live child of the owner above it, or is one. */
  lemma {:induction false} LiveChildAbove(t: Tree, p: Pid) returns (c: Pid)
    requires Inv(t) && p in t.procs && p != OWNER && t.procs[p].live
    ensures c in Children(t) && t.procs[c].live
    decreases t.procs[p].born
  {
    assert Hangs(t, p);
    if t.procs[p].parent == OWNER {
      c := p;
    } else {
      c := LiveChildAbove(t, t.procs[p].parent);
    }
  }

  /** What the owner reads before it leaves its loop proves that the whole tree below it is gone. */
  lemma OnlyExitedLeaderLeft(t: Tree, leader: Pid)
    requires Inv(t) && Children(t) == {leader} && !t.procs[leader].live
    ensures Quiescent(t, leader)
  {
    assert leader in Children(t);
    if p :| p in t.procs && p != OWNER && p != leader {
      assert Hangs(t, p) && p !in Children(t);
      var c := LiveChildAbove(t, t.procs[p].parent);
      assert false; // c is live and among the children, the leader is neither
    }
  }

  /** And no schedule of the environment can bring anything back. */
  lemma {:induction false} QuiescentForever(t: Tree, leader: Pid, es: seq<Event>)
    requires Inv(t) && Quiescent(t, leader)
    ensures Quiescent(ApplyAll(t, es), leader)
    ensures ApplyAll(t, es).procs[leader].code == t.procs[leader].code
    decreases |es|
  {
    if es == [] {
    } else {
      EventKeepsTree(t, es[0]);
      QuiescentForever(Apply(t, es[0]), leader, es[1..]);
    }
  }
}
