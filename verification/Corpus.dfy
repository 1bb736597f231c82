/**
 The generation of a whole corpus (scripts/telemetry-corpus.py): the blobs of each execution by the
 layout, and a segment for each execution.
 */
module Corpus {
  import opened Basics
  import opened CorpusLayout
  import opened CorpusSegment

  const START_NS := 1_790_000_000_000_000_000

  function StartNs(execution: nat): nat {
    START_NS + (execution / 2) * 360_000_000_000 + (execution % 2) * 120_000_000_000
  }

  // --- The references of each execution. --------------------------------------------------------

  function Repeat(x: nat, n: nat): (s: seq<nat>)
    ensures |s| == n
  {
    if n == 0 then [] else Repeat(x, n - 1) + [x]
  }

  /** The blobs among the first `n` that execution `e` refers to, in order. */
  function RefList(runs: nat, e: nat, n: nat): (s: seq<nat>)
    requires runs > 0 && n <= Blobs(runs)
    ensures |s| == RefsOf(runs, e, n) && forall i :: 0 <= i < |s| ==> s[i] < n
  {
    if n == 0 then []
    else
      RepeatIs(n - 1, Occurs(e, BlobSegments(runs, n - 1)));
      RefList(runs, e, n - 1) + Repeat(n - 1, Occurs(e, BlobSegments(runs, n - 1)))
  }

  lemma {:induction false} RepeatIs(x: nat, n: nat)
    ensures forall i :: 0 <= i < n ==> Repeat(x, n)[i] == x
  {
    if n > 0 {
      RepeatIs(x, n - 1);
    }
  }

  lemma {:induction false} OccursAppend(e: nat, s: seq<nat>, x: nat)
    ensures Occurs(e, s + [x]) == Occurs(e, s) + if x == e then 1 else 0
  {
    if s == [] {
      OccursOnce(e, x);
      assert s + [x] == [x];
    } else {
      assert (s + [x])[1..] == s[1..] + [x];
      OccursAppend(e, s[1..], x);
    }
  }

  /** The lists of the executions, filled blob by blob. */
  method PerSegment(runs: nat) returns (lists: seq<seq<nat>>)
    requires runs > 0
    ensures |lists| == Executions(runs) && forall e :: 0 <= e < |lists| ==> lists[e] == RefList(runs, e, Blobs(runs))
  {
    lists := seq(Executions(runs), _ => []);
    for index := 0 to Blobs(runs)
      invariant |lists| == Executions(runs) && forall e :: 0 <= e < |lists| ==> lists[e] == RefList(runs, e, index)
    {
      lists := Refer(runs, index, lists);
    }
  }

  method Refer(runs: nat, index: nat, before: seq<seq<nat>>) returns (lists: seq<seq<nat>>)
    requires runs > 0 && index < Blobs(runs) && |before| == Executions(runs)
    requires forall e :: 0 <= e < |before| ==> before[e] == RefList(runs, e, index)
    ensures |lists| == |before| && forall e :: 0 <= e < |lists| ==> lists[e] == RefList(runs, e, index + 1)
  {
    lists := before;
    var refs := BlobSegments(runs, index);
    for j := 0 to |refs|
      invariant |lists| == |before|
      invariant forall e :: 0 <= e < |lists| ==> lists[e] == before[e] + Repeat(index, Occurs(e, refs[..j]))
    {
      assert refs[..j + 1] == refs[..j] + [refs[j]];
      forall e | 0 <= e < |lists|
        ensures Occurs(e, refs[..j + 1]) == Occurs(e, refs[..j]) + if refs[j] == e then 1 else 0 {
        OccursAppend(e, refs[..j], refs[j]);
      }
      lists := lists[refs[j] := lists[refs[j]] + [index]];
    }
    assert refs[..|refs|] == refs;
  }

  // --- Nothing is lost. -------------------------------------------------------------------------

  /** The references of the first `k` executions to the first `n` blobs. */
  function AllRefs(runs: nat, n: nat, k: nat): nat
    requires runs > 0 && n <= Blobs(runs)
  {
    if k == 0 then 0 else AllRefs(runs, n, k - 1) + RefsOf(runs, k - 1, n)
  }

  function AllOccurs(refs: seq<nat>, k: nat): nat { if k == 0 then 0 else AllOccurs(refs, k - 1) + Occurs(k - 1, refs) }

  lemma {:induction false} EachOccursOnce(refs: seq<nat>, k: nat)
    requires forall i :: 0 <= i < |refs| ==> refs[i] < k
    ensures AllOccurs(refs, k) == |refs|
  {
    if refs == [] {
      NothingOccurs(k);
    } else {
      EachOccursOnce(refs[1..], k);
      OneMoreOccurs(refs, k);
    }
  }

  lemma {:induction false} NothingOccurs(k: nat)
    ensures AllOccurs([], k) == 0
  {
    if k > 0 {
      NothingOccurs(k - 1);
    }
  }

  lemma {:induction false} OneMoreOccurs(refs: seq<nat>, k: nat)
    requires refs != []
    ensures AllOccurs(refs, k) == AllOccurs(refs[1..], k) + if refs[0] < k then 1 else 0
  {
    if k > 0 {
      OneMoreOccurs(refs, k - 1);
    }
  }

  lemma {:induction false} OneMoreBlob(runs: nat, n: nat, k: nat)
    requires runs > 0 && n < Blobs(runs)
    ensures AllRefs(runs, n + 1, k) == AllRefs(runs, n, k) + AllOccurs(BlobSegments(runs, n), k)
  {
    if k > 0 {
      OneMoreBlob(runs, n, k - 1);
    }
  }

  lemma {:induction false} NoBlobs(runs: nat, k: nat)
    requires runs > 0
    ensures AllRefs(runs, 0, k) == 0
  {
    if k > 0 {
      NoBlobs(runs, k - 1);
    }
  }

  /** The lists of the executions hold every reference of the blobs, and no more. */
  lemma {:induction false} AllReferred(runs: nat, n: nat)
    requires runs > 0 && n <= Blobs(runs)
    ensures AllRefs(runs, n, Executions(runs)) == References(runs, n)
  {
    if n == 0 {
      NoBlobs(runs, Executions(runs));
    } else {
      AllReferred(runs, n - 1);
      OneMoreBlob(runs, n - 1, Executions(runs));
      EachOccursOnce(BlobSegments(runs, n - 1), Executions(runs));
    }
  }

  // --- The whole corpus. ------------------------------------------------------------------------

  /** What a reader must find in the segment of an execution. */
  ghost predicate GoodSegment(runs: nat, e: nat, pad: nat, lines: seq<Line>)
    requires runs > 0
  {
    var t := Read(StartNs(e), lines);
    && t != None && t.value.sealed && t.value.starts == t.value.ends == SPANS && t.value.events == EVENTS
    && t.value.refs == RefsOf(runs, e, Blobs(runs)) && t.value.padding == pad
  }

  /** For every layout the list of every execution leaves room for its events, so a reader accepts every
      segment of the corpus, with a hundred spans, two hundred events and one reference for each that the
      layout gives it; together they hold twenty-five for every run. */
  method Generate(runs: nat, digests: seq<Digest>, pads: seq<nat>) returns (segments: seq<seq<Line>>)
    requires runs > 0 && |digests| == Blobs(runs) && |pads| == Executions(runs)
    ensures |segments| == Executions(runs)
    ensures forall e :: 0 <= e < |segments| ==> GoodSegment(runs, e, pads[e], segments[e])
    ensures AllRefs(runs, Blobs(runs), |segments|) == 25 * runs
  {
    var lists := PerSegment(runs);
    segments := [];
    for e := 0 to Executions(runs)
      invariant |segments| == e && forall d :: 0 <= d < e ==> GoodSegment(runs, d, pads[d], segments[d])
    {
      AtMostEighteen(runs, e);
      var list := lists[e];
      var blobs := seq(|list|, i requires 0 <= i < |list| => digests[list[i]]);
      var lines := SegmentRecords(StartNs(e), blobs, pads[e]);
      segments := segments + [lines];
    }
    AllReferred(runs, Blobs(runs));
    TwentyFivePerRun(runs);
  }
}
