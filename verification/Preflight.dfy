/**
 The graph part of the Task preflight (scripts/task-preflight.py): the validation of the graph's order,
 and the pass that decides whether a verifier feeds the coverage of an obligation, and whether what
 connects them is optional or conditional.
 */
module Preflight {
  import opened Basics
  import opened Names

  type Name = string

  datatype Address = Address(node: Name, port: Name)
  datatype Input = Input(source: Address, optional: bool)
  datatype Node = Node(inputs: map<Name, Input>, conditions: seq<Address>, outputs: set<Name>)
  type Graph = map<Name, Node>

  // --- The order. -------------------------------------------------------------------------------

  ghost predicate Precedes(order: seq<Name>, a: Name, b: Name) {
    exists i, j :: 0 <= i < j < |order| && order[i] == a && order[j] == b
  }

  /** `a` names an existing output of a node that comes before `n`. */
  ghost predicate Resolves(g: Graph, order: seq<Name>, n: Name, a: Address) {
    a.node in g && a.port in g[a.node].outputs && Precedes(order, a.node, n)
  }

  ghost predicate NodeResolves(g: Graph, order: seq<Name>, n: Name)
    requires n in g
  {
    && (forall p :: p in g[n].inputs ==> Resolves(g, order, n, g[n].inputs[p].source))
    && (forall i :: 0 <= i < |g[n].conditions| ==> Resolves(g, order, n, g[n].conditions[i]))
  }

  /** The graphs that the validation lets through. */
  ghost predicate Accepted(g: Graph, order: seq<Name>) {
    && Distinct(order) && (set n | n in order) == g.Keys
    && forall n :: n in g ==> NodeResolves(g, order, n)
  }

  /** The validation, as a computation over the positions in the order. */
  predicate PositionsOk(g: Graph, positions: map<Name, nat>, n: Name, a: Address) {
    && a.node in g && a.port in g[a.node].outputs
    && a.node in positions && n in positions && positions[a.node] < positions[n]
  }

  ghost predicate ArePositions(order: seq<Name>, positions: map<Name, nat>, upTo: nat) {
    && upTo <= |order|
    && (forall i :: 0 <= i < upTo ==> order[i] in positions && positions[order[i]] == i)
    && (forall n :: n in positions ==> positions[n] < upTo && order[positions[n]] == n)
  }

  method Validate(g: Graph, order: seq<Name>) returns (ok: bool)
    ensures ok <==> Accepted(g, order)
  {
    var positions: map<Name, nat>;
    ok, positions := Positions(order);
    if ok {
      assert positions.Keys == set n | n in order;
      ok := positions.Keys == g.Keys;
    }
    if ok {
      ok := AllResolve(g, order, positions);
    }
  }

  method Positions(order: seq<Name>) returns (ok: bool, positions: map<Name, nat>)
    ensures ok <==> Distinct(order)
    ensures ok ==> ArePositions(order, positions, |order|)
  {
    positions := map[];
    for k := 0 to |order|
      invariant ArePositions(order, positions, k)
      invariant forall i, j :: 0 <= i < j < k ==> order[i] != order[j]
    {
      if order[k] in positions {
        assert order[positions[order[k]]] == order[k];
        return false, positions;
      }
      positions := positions[order[k] := k];
    }
    ok := true;
  }

  method AllResolve(g: Graph, order: seq<Name>, positions: map<Name, nat>) returns (ok: bool)
    requires Distinct(order) && ArePositions(order, positions, |order|)
    ensures ok <==> forall n :: n in g ==> NodeResolves(g, order, n)
  {
    var pending := g.Keys;
    while pending != {}
      invariant pending <= g.Keys
      invariant forall n :: n in g && n !in pending ==> NodeResolves(g, order, n)
      decreases pending
    {
      var n :| n in pending;
      pending := pending - {n};
      PositionsDecide(g, order, positions, n);
      if (exists p :: p in g[n].inputs && !PositionsOk(g, positions, n, g[n].inputs[p].source))
         || (exists i :: 0 <= i < |g[n].conditions| && !PositionsOk(g, positions, n, g[n].conditions[i]))
      {
        assert !NodeResolves(g, order, n);
        return false;
      }
    }
    ok := true;
  }

  lemma PositionsDecide(g: Graph, order: seq<Name>, positions: map<Name, nat>, n: Name)
    requires Distinct(order) && ArePositions(order, positions, |order|) && n in g
    ensures forall a :: PositionsOk(g, positions, n, a) <==> Resolves(g, order, n, a)
  {
    forall a ensures PositionsOk(g, positions, n, a) <==> Resolves(g, order, n, a) {
      if PositionsOk(g, positions, n, a) {
        assert order[positions[a.node]] == a.node && order[positions[n]] == n;
      }
    }
  }

  // --- Data paths. ------------------------------------------------------------------------------

  /** Node `b` reads an output of node `a` through `port`. */
  predicate Reads(g: Graph, a: Name, b: Name, port: Name) {
    b in g && port in g[b].inputs && g[b].inputs[port].source.node == a
  }

  ghost predicate Edge(g: Graph, a: Name, b: Name) {
    exists port :: Reads(g, a, b, port)
  }

  ghost predicate IsPath(g: Graph, p: seq<Name>, a: Name, b: Name) {
    && |p| > 0 && p[0] == a && p[|p| - 1] == b && a in g
    && forall i :: 0 <= i < |p| - 1 ==> Edge(g, p[i], p[i + 1])
  }

  ghost predicate Reaches(g: Graph, a: Name, b: Name) {
    exists p :: IsPath(g, p, a, b)
  }

  /** `x` lies on a data path from `a` to `b`. */
  ghost predicate OnPath(g: Graph, a: Name, b: Name, x: Name) {
    exists p :: IsPath(g, p, a, b) && x in p
  }

  /** Some data path from `a` to `b` uses an optional input. */
  ghost predicate PathIsOptional(g: Graph, a: Name, b: Name) {
    exists p, i, port :: IsPath(g, p, a, b) && OptionalStep(g, p, i, port)
  }

  ghost predicate OptionalStep(g: Graph, p: seq<Name>, i: int, port: Name) {
    0 <= i < |p| - 1 && Reads(g, p[i], p[i + 1], port) && g[p[i + 1]].inputs[port].optional
  }

  /** Some data path from `a` to `b` goes through a conditional node. */
  ghost predicate PathIsConditional(g: Graph, a: Name, b: Name) {
    exists x :: OnPath(g, a, b, x) && x in g && g[x].conditions != []
  }

  lemma Concatenated(g: Graph, p: seq<Name>, q: seq<Name>, a: Name, b: Name, c: Name)
    requires IsPath(g, p, a, b) && IsPath(g, q, b, c)
    ensures IsPath(g, p + q[1..], a, c)
  {
    var r := p + q[1..];
    forall i | 0 <= i < |r| - 1 ensures Edge(g, r[i], r[i + 1]) {
      if i < |p| - 1 {
        assert Edge(g, p[i], p[i + 1]);
      } else {
        var k := i - (|p| - 1);
        assert r[i] == q[k] && r[i + 1] == q[k + 1];
        assert Edge(g, q[k], q[k + 1]);
      }
    }
  }

  lemma Split(g: Graph, p: seq<Name>, a: Name, b: Name, i: nat)
    requires IsPath(g, p, a, b) && i < |p| && p[i] in g
    ensures IsPath(g, p[..i + 1], a, p[i]) && IsPath(g, p[i..], p[i], b)
  {
    forall k | 0 <= k < |p[i..]| - 1 ensures Edge(g, p[i..][k], p[i..][k + 1]) {
      assert Edge(g, p[i + k], p[i + k + 1]);
    }
  }

  lemma ReachesItself(g: Graph, a: Name)
    requires a in g
    ensures Reaches(g, a, a)
  {
    assert IsPath(g, [a], a, a);
  }

  lemma OneStep(g: Graph, a: Name, b: Name)
    requires a in g && Edge(g, a, b)
    ensures Reaches(g, a, b)
  {
    assert IsPath(g, [a, b], a, b);
  }

  lemma ReachesTransitive(g: Graph, a: Name, b: Name, c: Name)
    requires Reaches(g, a, b) && Reaches(g, b, c)
    ensures Reaches(g, a, c)
  {
    var p :| IsPath(g, p, a, b);
    var q :| IsPath(g, q, b, c);
    Concatenated(g, p, q, a, b, c);
  }

  /** Data flows with the order: a path never leads back, nor out of the graph. */
  lemma {:induction false} PathsFollowOrder(g: Graph, order: seq<Name>, p: seq<Name>, a: Name, b: Name)
    requires Accepted(g, order) && IsPath(g, p, a, b)
    ensures b in g && (|p| == 1 || Precedes(order, a, b))
    decreases |p|
  {
    if |p| > 1 {
      var y, n := p[|p| - 2], |p| - 1;
      assert Edge(g, p[n - 1], p[n - 1 + 1]);
      var port :| Reads(g, y, b, port);
      assert Resolves(g, order, b, g[b].inputs[port].source);
      assert IsPath(g, p[..n], a, y) by {
        forall i | 0 <= i < n - 1 ensures Edge(g, p[..n][i], p[..n][i + 1]) {
          assert Edge(g, p[i], p[i + 1]);
        }
      }
      PathsFollowOrder(g, order, p[..n], a, y);
      if n > 1 {
        PrecedesTransitive(order, a, y, b);
      }
    }
  }

  lemma PrecedesTransitive(order: seq<Name>, a: Name, b: Name, c: Name)
    requires Distinct(order) && Precedes(order, a, b) && Precedes(order, b, c)
    ensures Precedes(order, a, c)
  {
    var i, j :| 0 <= i < j < |order| && order[i] == a && order[j] == b;
    var k, l :| 0 <= k < l < |order| && order[k] == b && order[l] == c;
    assert j == k;
  }

  /** Nothing feeds a node that it is fed by. */
  lemma NoCycle(g: Graph, order: seq<Name>, a: Name, b: Name)
    requires Accepted(g, order) && Reaches(g, a, b) && Reaches(g, b, a)
    ensures a == b
  {
    var p :| IsPath(g, p, a, b);
    var q :| IsPath(g, q, b, a);
    PathsFollowOrder(g, order, p, a, b);
    PathsFollowOrder(g, order, q, b, a);
    if a != b {
      PrecedesTransitive(order, a, b, a);
    }
  }

  /** To lie on a path is to be reached from its start and to reach its end. */
  lemma OnPathMeans(g: Graph, order: seq<Name>, a: Name, b: Name, x: Name)
    requires Accepted(g, order)
    ensures OnPath(g, a, b, x) <==> Reaches(g, a, x) && Reaches(g, x, b)
  {
    if OnPath(g, a, b, x) {
      var p :| IsPath(g, p, a, b) && x in p;
      var i :| 0 <= i < |p| && p[i] == x;
      NodeOnPath(g, order, p, a, b, i);
      Split(g, p, a, b, i);
    }
    if Reaches(g, a, x) && Reaches(g, x, b) {
      var p :| IsPath(g, p, a, x);
      var q :| IsPath(g, q, x, b);
      Concatenated(g, p, q, a, x, b);
      assert (p + q[1..])[|p| - 1] == x;
    }
  }

  lemma NodeOnPath(g: Graph, order: seq<Name>, p: seq<Name>, a: Name, b: Name, i: nat)
    requires Accepted(g, order) && IsPath(g, p, a, b) && i < |p|
    ensures p[i] in g
  {
    if i > 0 {
      assert Edge(g, p[i - 1], p[i - 1 + 1]);
    }
  }

  // --- The forward pass: what the verifier feeds. ------------------------------------------------

  method Feeds(g: Graph, order: seq<Name>, verifier: Name) returns (feeds: set<Name>)
    requires Accepted(g, order) && verifier in g
    ensures forall x :: x in feeds <==> Reaches(g, verifier, x)
  {
    feeds := {verifier};
    ReachesItself(g, verifier);
    for k := 0 to |order|
      invariant forall x :: x in feeds ==> Reaches(g, verifier, x)
      invariant forall i :: 0 <= i < k && Reaches(g, verifier, order[i]) ==> order[i] in feeds
      invariant verifier in feeds
    {
      var current := order[k];
      NextInOrder(g, order, verifier, k, feeds);
      if exists port :: port in g[current].inputs && g[current].inputs[port].source.node in feeds {
        feeds := feeds + {current};
      }
    }
    forall x | Reaches(g, verifier, x) ensures x in feeds {
      var p :| IsPath(g, p, verifier, x);
      PathsFollowOrder(g, order, p, verifier, x);
    }
  }

  /** When all nodes before it are decided, so is the next one. */
  lemma NextInOrder(g: Graph, order: seq<Name>, verifier: Name, k: nat, feeds: set<Name>)
    requires Accepted(g, order) && verifier in g && k < |order| && verifier in feeds
    requires forall x :: x in feeds ==> Reaches(g, verifier, x)
    requires forall i :: 0 <= i < k && Reaches(g, verifier, order[i]) ==> order[i] in feeds
    ensures order[k] in g
    ensures (order[k] == verifier
             || exists port :: port in g[order[k]].inputs && g[order[k]].inputs[port].source.node in feeds)
            <==> Reaches(g, verifier, order[k])
  {
    var x := order[k];
    assert x in g.Keys;
    ReachesItself(g, verifier);
    if port :| port in g[x].inputs && g[x].inputs[port].source.node in feeds {
      var y := g[x].inputs[port].source.node;
      assert Reads(g, y, x, port);
      assert Resolves(g, order, x, g[x].inputs[port].source);
      OneStep(g, y, x);
      ReachesTransitive(g, verifier, y, x);
    }
    if Reaches(g, verifier, x) && x != verifier {
      var y, port := LastStep(g, order, verifier, x);
      var i, j :| 0 <= i < j < |order| && order[i] == y && order[j] == x;
      assert j == k;
    }
  }

  lemma LastStep(g: Graph, order: seq<Name>, a: Name, b: Name) returns (y: Name, port: Name)
    requires Accepted(g, order) && Reaches(g, a, b) && a != b
    ensures Reads(g, y, b, port) && Reaches(g, a, y) && Precedes(order, y, b)
  {
    var p :| IsPath(g, p, a, b);
    var n := |p| - 1;
    assert Edge(g, p[n - 1], p[n - 1 + 1]);
    y := p[n - 1];
    port :| Reads(g, y, b, port);
    NodeOnPath(g, order, p, a, b, n - 1);
    Split(g, p, a, b, n - 1);
    assert Resolves(g, order, b, g[b].inputs[port].source);
  }

  // --- The backward pass: what lies between the verifier and the coverage. -----------------------

  datatype Verdict = Verdict(ancestors: set<Name>, optional: bool, conditional: bool)

  /** The report about one obligation, exactly: whether the verifier feeds the coverage target, the
      nodes on the data paths that connect them, and whether any such path uses an optional input or
      a conditional node. */
  method Connection(g: Graph, order: seq<Name>, verifier: Name, target: Option<Name>) returns (v: Verdict)
    requires Accepted(g, order) && verifier in g
    ensures target == None ==> v == Verdict({}, false, false)
    ensures target != None ==> forall x :: x in v.ancestors <==> OnPath(g, verifier, target.value, x)
    ensures target != None ==> (verifier in v.ancestors <==> Reaches(g, verifier, target.value))
    ensures target != None ==> (v.optional <==> PathIsOptional(g, verifier, target.value))
    ensures target != None ==> (v.conditional <==> PathIsConditional(g, verifier, target.value))
  {
    var feeds := Feeds(g, order, verifier);
    if target == None {
      return Verdict({}, false, false);
    }
    if target.value in feeds {
      v := Backward(g, order, verifier, target.value, feeds);
      Exact(g, order, verifier, target.value, feeds, v);
    } else {
      v := Verdict({}, false, false);
      NotConnected(g, order, verifier, target.value);
    }
    ReachesItself(g, verifier);
    OnPathMeans(g, order, verifier, target.value, verifier);
  }

  lemma NotConnected(g: Graph, order: seq<Name>, a: Name, b: Name)
    requires Accepted(g, order) && !Reaches(g, a, b)
    ensures (forall x :: !OnPath(g, a, b, x)) && !PathIsOptional(g, a, b) && !PathIsConditional(g, a, b)
  {
  }

  /** An optional input of `x` that brings data from the verifier. */
  ghost predicate OptionalAt(g: Graph, feeds: set<Name>, x: Name) {
    x in g && exists port :: port in g[x].inputs && g[x].inputs[port].source.node in feeds && g[x].inputs[port].optional
  }

  /** All that feeds `x` from the verifier is in `known`. */
  ghost predicate FedFrom(g: Graph, feeds: set<Name>, x: Name, known: set<Name>) {
    x in g ==>
      forall port :: port in g[x].inputs && g[x].inputs[port].source.node in feeds ==>
        g[x].inputs[port].source.node in known
  }

  /** What the worklist has found: between verifier and target, closed under "is fed from". */
  ghost predicate Found(g: Graph, feeds: set<Name>, verifier: Name, target: Name, v: Verdict, pending: set<Name>) {
    && target in v.ancestors + pending
    && (forall x :: x in v.ancestors + pending ==> x in feeds && x in g && Reaches(g, x, target))
    && (forall x :: x in v.ancestors && x != verifier ==> FedFrom(g, feeds, x, v.ancestors + pending))
    && (v.optional <==> exists x :: x in v.ancestors && x != verifier && OptionalAt(g, feeds, x))
    && (v.conditional <==> exists x :: x in v.ancestors && x in g && g[x].conditions != [])
  }

  method Backward(g: Graph, order: seq<Name>, verifier: Name, target: Name, feeds: set<Name>) returns (v: Verdict)
    requires Accepted(g, order) && verifier in g && target in feeds
    requires forall x :: x in feeds <==> Reaches(g, verifier, x)
    ensures Found(g, feeds, verifier, target, v, {})
  {
    var pending := [target];
    v := Verdict({}, false, false);
    TargetFound(g, order, verifier, target, feeds);
    while pending != []
      invariant Found(g, feeds, verifier, target, v, Elements(pending))
      decreases g.Keys - v.ancestors, |pending|
    {
      var last := |pending| - 1;
      var current := pending[last];
      Popped(pending);
      pending := pending[..last];
      if current !in v.ancestors {
        v, pending := Visit(g, order, verifier, target, feeds, current, v, pending);
      } else {
        assert v.ancestors + Elements(pending) == v.ancestors + (Elements(pending) + {current});
      }
    }
    assert Elements(pending) == {};
  }

  method Visit(g: Graph, order: seq<Name>, verifier: Name, ghost target: Name, feeds: set<Name>,
               current: Name, v: Verdict,
               pending: seq<Name>) returns (w: Verdict, more: seq<Name>)
    requires Accepted(g, order) && Found(g, feeds, verifier, target, v, Elements(pending) + {current})
    ensures Found(g, feeds, verifier, target, w, Elements(more))
    ensures w.ancestors == v.ancestors + {current} && current in g
  {
    assert current in v.ancestors + (Elements(pending) + {current});
    w, more := v.(ancestors := v.ancestors + {current},
                  conditional := v.conditional || g[current].conditions != []), pending;
    if current != verifier {
      var sources, optional := SourcesOf(g, feeds, current);
      w, more := w.(optional := w.optional || optional), pending + sources;
      Joined(pending, sources);
    }
    Visited(g, order, verifier, target, feeds, v, Elements(pending) + {current}, current, w, Elements(more));
  }

  // The worklist as a set.

  lemma Popped(s: seq<Name>)
    requires s != []
    ensures Elements(s) == Elements(s[..|s| - 1]) + {s[|s| - 1]}
  {
    assert s == s[..|s| - 1] + [s[|s| - 1]];
  }

  lemma Joined(s: seq<Name>, t: seq<Name>)
    ensures Elements(s + t) == Elements(s) + Elements(t)
  {
  }

  ghost function Sources(g: Graph, feeds: set<Name>, x: Name): set<Name>
    requires x in g
  {
    set port | port in g[x].inputs && g[x].inputs[port].source.node in feeds :: g[x].inputs[port].source.node
  }

  method SourcesOf(g: Graph, feeds: set<Name>, x: Name) returns (sources: seq<Name>, optional: bool)
    requires x in g
    ensures Elements(sources) == Sources(g, feeds, x)
    ensures optional <==> OptionalAt(g, feeds, x)
  {
    sources, optional := [], false;
    var ports := g[x].inputs.Keys;
    while ports != {}
      invariant ports <= g[x].inputs.Keys
      invariant forall port :: port in g[x].inputs && port !in ports && g[x].inputs[port].source.node in feeds ==>
                  g[x].inputs[port].source.node in sources && (g[x].inputs[port].optional ==> optional)
      invariant forall y :: y in sources ==> y in Sources(g, feeds, x)
      invariant optional ==> OptionalAt(g, feeds, x)
      decreases ports
    {
      var port :| port in ports;
      ports := ports - {port};
      var input := g[x].inputs[port];
      if input.source.node in feeds {
        sources, optional := sources + [input.source.node], optional || input.optional;
      }
    }
  }

  lemma TargetFound(g: Graph, order: seq<Name>, verifier: Name, target: Name, feeds: set<Name>)
    requires Accepted(g, order) && verifier in g && target in feeds && Reaches(g, verifier, target)
    ensures Found(g, feeds, verifier, target, Verdict({}, false, false), Elements([target]))
  {
    var p :| IsPath(g, p, verifier, target);
    PathsFollowOrder(g, order, p, verifier, target);
    ReachesItself(g, target);
    assert Elements([target]) == {target};
  }

  lemma SourceReaches(g: Graph, order: seq<Name>, target: Name, feeds: set<Name>, current: Name, x: Name)
    requires Accepted(g, order) && current in g && Reaches(g, current, target) && x in Sources(g, feeds, current)
    ensures x in feeds && x in g && Reaches(g, x, target)
  {
    var port :| port in g[current].inputs && g[current].inputs[port].source.node == x && x in feeds;
    assert Resolves(g, order, current, g[current].inputs[port].source);
    assert Reads(g, x, current, port);
    OneStep(g, x, current);
    ReachesTransitive(g, x, current, target);
  }

  /** Visiting a node, and putting its sources on the worklist unless it is the verifier. */
  lemma Visited(g: Graph, order: seq<Name>, verifier: Name, target: Name, feeds: set<Name>, before: Verdict,
                waiting: set<Name>, current: Name, v: Verdict, now: set<Name>)
    requires Accepted(g, order) && Found(g, feeds, verifier, target, before, waiting) && current in waiting
    requires current in g && v.ancestors == before.ancestors + {current}
    requires waiting <= now + {current} && now <= waiting + Sources(g, feeds, current)
    requires current != verifier ==> Sources(g, feeds, current) <= now
    requires v.optional == (before.optional || (current != verifier && OptionalAt(g, feeds, current)))
    requires v.conditional == (before.conditional || g[current].conditions != [])
    ensures Found(g, feeds, verifier, target, v, now)
  {
    forall x | x in v.ancestors + now ensures x in feeds && x in g && Reaches(g, x, target) {
      if x !in before.ancestors + waiting {
        SourceReaches(g, order, target, feeds, current, x);
      }
    }
    forall x | x in v.ancestors && x != verifier ensures FedFrom(g, feeds, x, v.ancestors + now) {
      if x in before.ancestors {
        FedFromMore(g, feeds, x, before.ancestors + waiting, v.ancestors + now);
      }
    }
  }

  lemma FedFromMore(g: Graph, feeds: set<Name>, x: Name, a: set<Name>, b: set<Name>)
    requires x in g && FedFrom(g, feeds, x, a) && a <= b
    ensures FedFrom(g, feeds, x, b)
  {
  }

  // What the finished worklist means.

  /** What feeds the target from the verifier has been found, whichever path it takes. */
  lemma {:induction false} FoundAlongPath(g: Graph, order: seq<Name>, verifier: Name, target: Name, feeds: set<Name>,
                                          v: Verdict, q: seq<Name>, x: Name)
    requires Accepted(g, order) && Found(g, feeds, verifier, target, v, {}) && IsPath(g, q, x, target)
    requires forall y :: y in feeds <==> Reaches(g, verifier, y)
    requires Reaches(g, verifier, x)
    ensures x in v.ancestors
    decreases |q|
  {
    if |q| > 1 {
      var y := q[1];
      assert Edge(g, q[0], q[0 + 1]);
      OneStep(g, x, y);
      ReachesTransitive(g, verifier, x, y);
      NodeOnPath(g, order, q, x, target, 1);
      Split(g, q, x, target, 1);
      FoundAlongPath(g, order, verifier, target, feeds, v, q[1..], y);
      NotBack(g, order, verifier, x, y);
      var port :| Reads(g, x, y, port);
      assert FedFrom(g, feeds, y, v.ancestors + {});
    }
  }

  /** What the verifier feeds does not feed the verifier. */
  lemma NotBack(g: Graph, order: seq<Name>, verifier: Name, x: Name, y: Name)
    requires Accepted(g, order) && Reaches(g, verifier, x) && Edge(g, x, y) && x in g
    ensures y != verifier
  {
    EdgeFollowsOrder(g, order, x, y);
    OneStep(g, x, y);
    if y == verifier {
      NoCycle(g, order, verifier, x);
    }
  }

  lemma EdgeFollowsOrder(g: Graph, order: seq<Name>, x: Name, y: Name)
    requires Accepted(g, order) && Edge(g, x, y)
    ensures Precedes(order, x, y)
  {
    var port :| Reads(g, x, y, port);
    assert Resolves(g, order, y, g[y].inputs[port].source);
  }

  lemma Exact(g: Graph, order: seq<Name>, verifier: Name, target: Name, feeds: set<Name>, v: Verdict)
    requires Accepted(g, order) && verifier in g && Found(g, feeds, verifier, target, v, {})
    requires forall x :: x in feeds <==> Reaches(g, verifier, x)
    ensures forall x :: x in v.ancestors <==> OnPath(g, verifier, target, x)
    ensures v.optional <==> PathIsOptional(g, verifier, target)
    ensures v.conditional <==> PathIsConditional(g, verifier, target)
  {
    forall x ensures x in v.ancestors <==> OnPath(g, verifier, target, x) {
      OnPathMeans(g, order, verifier, target, x);
      if Reaches(g, verifier, x) && Reaches(g, x, target) {
        var q :| IsPath(g, q, x, target);
        FoundAlongPath(g, order, verifier, target, feeds, v, q, x);
      }
    }
    if PathIsOptional(g, verifier, target) {
      var p, i, port :| IsPath(g, p, verifier, target) && OptionalStep(g, p, i, port);
      OptionalFound(g, order, verifier, target, feeds, v, p, i, port);
    }
    if v.optional {
      var x :| x in v.ancestors && x != verifier && OptionalAt(g, feeds, x);
      OptionalIsOnPath(g, order, verifier, target, feeds, x);
    }
  }

  lemma OptionalFound(g: Graph, order: seq<Name>, verifier: Name, target: Name, feeds: set<Name>, v: Verdict,
                      p: seq<Name>, i: int, port: Name)
    requires Accepted(g, order) && Found(g, feeds, verifier, target, v, {})
    requires forall x :: x in feeds <==> Reaches(g, verifier, x)
    requires forall x :: x in v.ancestors <==> OnPath(g, verifier, target, x)
    requires IsPath(g, p, verifier, target) && OptionalStep(g, p, i, port)
    ensures v.optional
  {
    var z, x := p[i], p[i + 1];
    NodeOnPath(g, order, p, verifier, target, i);
    Split(g, p, verifier, target, i);
    NotBack(g, order, verifier, z, x);
    assert x in p;
    assert OnPath(g, verifier, target, x);
    assert OptionalAt(g, feeds, x);
  }

  lemma OptionalIsOnPath(g: Graph, order: seq<Name>, verifier: Name, target: Name, feeds: set<Name>, x: Name)
    requires Accepted(g, order) && OptionalAt(g, feeds, x) && Reaches(g, x, target)
    requires forall y :: y in feeds <==> Reaches(g, verifier, y)
    ensures PathIsOptional(g, verifier, target)
  {
    var port :| port in g[x].inputs && g[x].inputs[port].source.node in feeds && g[x].inputs[port].optional;
    var z := g[x].inputs[port].source.node;
    assert Resolves(g, order, x, g[x].inputs[port].source);
    assert Reads(g, z, x, port);
    var p :| IsPath(g, p, verifier, z);
    var q :| IsPath(g, q, x, target);
    Concatenated(g, [z, x], q, z, x, target);
    var r := [z, x] + q[1..];
    Concatenated(g, p, r, verifier, z, target);
    var whole, i := p + r[1..], |p| - 1;
    assert whole[i] == z && whole[i + 1] == x;
    assert OptionalStep(g, whole, i, port);
  }
}
