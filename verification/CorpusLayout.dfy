/**
 The layout of the telemetry corpus (scripts/telemetry-corpus.py): which executions refer to which
 blobs, and how many references that makes.
 */
module CorpusLayout {

  function Executions(runs: nat): nat { 2 * runs }
  function Unshared(runs: nat): nat { 15 * runs }
  function Blobs(runs: nat): nat { 20 * runs }

  function RunOf(execution: nat): nat { execution / 2 }

  /** The executions that refer to a blob. */
  function BlobSegments(runs: nat, index: nat): (refs: seq<nat>)
    requires runs > 0 && index < Blobs(runs)
    ensures forall i :: 0 <= i < |refs| ==> refs[i] < Executions(runs)
  {
    if index < Unshared(runs) then [index % Executions(runs)]
    else
      var first := 2 * (index - Unshared(runs)) % Executions(runs);
      [first, (first + 1 + Executions(runs) / 2) % Executions(runs)]
  }

  // --- Remainders. ------------------------------------------------------------------------------

  lemma Remainder(k: nat, r: nat, j: nat)
    requires j < r
    ensures (k * r + j) % r == j
    decreases k
  {
    if k > 0 {
      Remainder(k - 1, r, j);
      assert k * r + j == (k - 1) * r + j + r;
      MinusOne((k - 1) * r + j, r);
    } else {
      assert k * r + j == j;
    }
  }

  lemma MinusOne(a: nat, r: nat)
    requires r > 0
    ensures (a + r) % r == a % r
  {
    var q, m := a / r, a % r;
    assert a + r == r * (q + 1) + m;
    Unique(a + r, r, q + 1, m);
  }

  lemma Unique(a: nat, r: nat, q: nat, m: nat)
    requires r > 0 && m < r && a == r * q + m
    ensures a / r == q && a % r == m
  {
    var p := a / r;
    assert a == r * p + a % r;
    if p < q {
      Apart(r, p, q);
    } else if q < p {
      Apart(r, q, p);
    }
  }

  lemma Apart(r: nat, p: nat, q: nat)
    requires p < q
    ensures r * p + r <= r * q
  {
    assert r * (p + 1) <= r * q;
  }

  lemma DoubleRemainder(s: nat, r: nat)
    requires r > 0
    ensures (2 * s) % (2 * r) == 2 * (s % r)
  {
    var q, m := s / r, s % r;
    assert s == r * q + m;
    assert 2 * s == (2 * r) * q + 2 * m;
    Unique(2 * s, 2 * r, q, 2 * m);
  }

  /** Of what is at most one turn too far. */
  lemma OneTurn(z: nat, e: nat)
    requires e > 0 && z < 2 * e
    ensures z % e == if z < e then z else z - e
  {
    if z >= e {
      MinusOne(z - e, e);
    }
  }

  // --- Shared blobs. ----------------------------------------------------------------------------

  /** A shared blob is referred to by two executions, and these belong to different runs, exactly when
      there are at least two runs. */
  lemma SharedAcrossRuns(runs: nat, index: nat)
    requires runs > 0 && Unshared(runs) <= index < Blobs(runs)
    ensures |BlobSegments(runs, index)| == 2
    ensures RunOf(BlobSegments(runs, index)[0]) != RunOf(BlobSegments(runs, index)[1]) <==> runs >= 2
  {
    var s := index - Unshared(runs);
    var y := s % runs;
    DoubleRemainder(s, runs);
    var first := BlobSegments(runs, index)[0];
    assert first == 2 * y;
    OneTurn(first + 1 + runs, 2 * runs);
  }

  // --- How many references there are. -----------------------------------------------------------

  /** The references of the first `n` blobs. */
  function References(runs: nat, n: nat): nat
    requires runs > 0 && n <= Blobs(runs)
  {
    if n == 0 then 0 else References(runs, n - 1) + |BlobSegments(runs, n - 1)|
  }

  lemma {:induction false} ReferencesSoFar(runs: nat, n: nat)
    requires runs > 0 && n <= Blobs(runs)
    ensures References(runs, n) == n + if n > Unshared(runs) then n - Unshared(runs) else 0
  {
    if n > 0 {
      ReferencesSoFar(runs, n - 1);
    }
  }

  /** Twenty-five references for every run. */
  lemma TwentyFivePerRun(runs: nat)
    requires runs > 0
    ensures References(runs, Blobs(runs)) == 25 * runs
  {
    ReferencesSoFar(runs, Blobs(runs));
  }

  /** How often `x` is the remainder of a number below `n`. */
  function Hits(n: nat, r: nat, x: nat): nat
    requires r > 0
  {
    if n == 0 then 0 else Hits(n - 1, r, x) + if (n - 1) % r == x then 1 else 0
  }

  lemma {:induction false} HitsInBlock(k: nat, r: nat, x: nat, j: nat)
    requires 0 < r && j <= r
    ensures Hits(k * r + j, r, x) == Hits(k * r, r, x) + if x < j then 1 else 0
  {
    if j > 0 {
      HitsInBlock(k, r, x, j - 1);
      Remainder(k, r, j - 1);
      assert k * r + j - 1 == k * r + (j - 1);
    }
  }

  /** Every remainder comes once a turn. */
  lemma {:induction false} HitsPerTurn(k: nat, r: nat, x: nat)
    requires x < r
    ensures Hits(k * r, r, x) == k
  {
    if k == 0 {
      assert k * r == 0;
    } else {
      HitsPerTurn(k - 1, r, x);
      HitsInBlock(k - 1, r, x, r);
      assert k * r == (k - 1) * r + r;
    }
  }

  lemma {:induction false} HitsGrow(n: nat, more: nat, r: nat, x: nat)
    requires r > 0
    ensures Hits(n, r, x) <= Hits(n + more, r, x)
  {
    if more > 0 {
      HitsGrow(n, more - 1, r, x);
    }
  }

  function Occurs(e: nat, refs: seq<nat>): nat {
    if refs == [] then 0 else Occurs(e, refs[1..]) + if refs[0] == e then 1 else 0
  }

  lemma OccursOnce(e: nat, a: nat)
    ensures Occurs(e, [a]) == if a == e then 1 else 0
  {
    assert [a][1..] == [];
  }

  lemma OccursTwice(e: nat, a: nat, b: nat)
    ensures Occurs(e, [a, b]) == (if a == e then 1 else 0) + if b == e then 1 else 0
  {
    assert [a, b][1..] == [b];
    OccursOnce(e, b);
  }

  /** How often execution `e` refers to one of the first `n` blobs. */
  function RefsOf(runs: nat, e: nat, n: nat): nat
    requires runs > 0 && n <= Blobs(runs)
  {
    if n == 0 then 0 else RefsOf(runs, e, n - 1) + Occurs(e, BlobSegments(runs, n - 1))
  }

  lemma {:induction false} UnsharedRefs(runs: nat, e: nat, n: nat)
    requires runs > 0 && n <= Unshared(runs)
    ensures RefsOf(runs, e, n) == Hits(n, 2 * runs, e)
  {
    if n > 0 {
      UnsharedRefs(runs, e, n - 1);
      OccursOnce(e, (n - 1) % Executions(runs));
    }
  }

  /** The one remainder whose shared blobs refer to `e` second. */
  function SecondTurn(runs: nat, e: nat): nat
    requires 0 < runs && e < 2 * runs
  {
    (if e >= runs + 1 then e - 1 - runs else e + runs - 1) / 2
  }

  lemma SharedRefs(runs: nat, e: nat, s: nat)
    requires runs > 0 && e < 2 * runs && s < 5 * runs
    ensures Occurs(e, BlobSegments(runs, Unshared(runs) + s)) <=
            (if s % runs == e / 2 then 1 else 0) + (if s % runs == SecondTurn(runs, e) then 1 else 0)
  {
    var refs := BlobSegments(runs, Unshared(runs) + s);
    DoubleRemainder(s, runs);
    OneTurn(2 * (s % runs) + 1 + runs, 2 * runs);
    OccursTwice(e, refs[0], refs[1]);
    assert refs == [refs[0], refs[1]];
  }

  lemma {:induction false} AllSharedRefs(runs: nat, e: nat, m: nat)
    requires runs > 0 && e < 2 * runs && m <= 5 * runs
    ensures RefsOf(runs, e, Unshared(runs) + m) <=
            RefsOf(runs, e, Unshared(runs)) + Hits(m, runs, e / 2) + Hits(m, runs, SecondTurn(runs, e))
  {
    if m > 0 {
      AllSharedRefs(runs, e, m - 1);
      SharedRefs(runs, e, m - 1);
    }
  }

  /** No execution refers to more than eighteen blobs: its segment has room for all its events. */
  lemma AtMostEighteen(runs: nat, e: nat)
    requires runs > 0 && e < Executions(runs)
    ensures RefsOf(runs, e, Blobs(runs)) <= 18
  {
    UnsharedRefs(runs, e, Unshared(runs));
    HitsGrow(15 * runs, runs, 2 * runs, e);
    assert 15 * runs + runs == 8 * (2 * runs);
    HitsPerTurn(8, 2 * runs, e);
    AllSharedRefs(runs, e, 5 * runs);
    HitsPerTurn(5, runs, e / 2);
    HitsPerTurn(5, runs, SecondTurn(runs, e));
  }
}
