/**
 One segment of the telemetry corpus (scripts/telemetry-corpus.py): the lines that `segment_records`
 writes, checked by a reader that knows nothing of how they came about.
 */
module CorpusSegment {
  import opened Basics

  const SPANS := 100
  const EVENTS := 200
  const NODES := 19

  type Digest = string

  /** A line without its sequence number; a span is known by the number of the line that starts it. */
  datatype Body =
    | Header
    | SpanStart(parent: Option<nat>, time: nat)
    | SpanEnd(span: nat, time: nat)
    | Blob(digest: Digest)
    | BlobRef(digest: Digest, span: nat, eventSeq: nat)
    | Event(span: nat, time: nat, occurrence: Option<nat>, padding: nat)
    | Seal(time: nat, spans: nat, events: nat, blobs: nat)

  datatype Line = Line(seqno: nat, body: Body)

  // --- The reader. ------------------------------------------------------------------------------

  /** What the reader knows: the spans open, innermost last; the time of the last line that had one; how
      many spans have started and ended; the events; the blobs written; the references to blobs; the
      artifact references that pad the events; the occurrence whose event must come next; whether the
      segment is sealed. */
  datatype Trace = Trace(open: seq<nat>, clock: nat, starts: nat, ends: nat, events: nat, blobs: set<Digest>, refs: nat,
                         padding: nat, awaited: Option<nat>, sealed: bool)

  function Opened(clock: nat): Trace { Trace([], clock, 0, 0, 0, {}, 0, 0, None, false) }

  /** What a line must be like where it stands. */
  predicate Fits(t: Trace, n: nat, b: Body) {
    && !t.sealed && (t.awaited != None ==> b.Event? && b.occurrence == t.awaited)
    && match b
       case Header => n == 1
       case SpanStart(parent, time) =>
         time > t.clock && (if parent == None then t.open == [] && t.starts == 0 else parent.value in t.open)
       case SpanEnd(span, time) => time > t.clock && t.open != [] && span == t.open[|t.open| - 1]
       case Blob(digest) => digest !in t.blobs
       case BlobRef(digest, span, eventSeq) => digest in t.blobs && span in t.open && eventSeq == n + 1
       case Event(span, time, occurrence, _) => time > t.clock && span in t.open && occurrence == t.awaited
       case Seal(time, spans, events, blobs) =>
         time > t.clock && t.open == [] && spans == t.starts == t.ends && events == t.events && blobs == |t.blobs|
  }

  function Step(t: Trace, n: nat, b: Body): Trace
    requires Fits(t, n, b)
  {
    match b
    case Header => t
    case SpanStart(_, time) => t.(open := t.open + [n], starts := t.starts + 1, clock := time)
    case SpanEnd(_, time) => t.(open := t.open[..|t.open| - 1], ends := t.ends + 1, clock := time)
    case Blob(digest) => t.(blobs := t.blobs + {digest})
    case BlobRef(_, _, _) => t.(refs := t.refs + 1, awaited := Some(n))
    case Event(_, time, _, padding) =>
      t.(events := t.events + 1, clock := time, awaited := None, padding := t.padding + padding)
    case Seal(time, _, _, _) => t.(clock := time, sealed := true)
  }

  /** The reader's verdict on the lines so far: consecutive numbers, spans that nest, time that goes on,
      every blob before its references and every reference before its event. */
  function Read(start: nat, lines: seq<Line>): Option<Trace> {
    if lines == [] then Some(Opened(start))
    else
      var n := |lines|;
      var t := Read(start, lines[..n - 1]);
      if t == None || lines[n - 1].seqno != n || !Fits(t.value, n, lines[n - 1].body) then None
      else Some(Step(t.value, n, lines[n - 1].body))
  }

  // --- The writer. ------------------------------------------------------------------------------

  class Writer {
    const start: nat
    var lines: seq<Line>
    var clock: nat
    var written: set<Digest>
    ghost var trace: Trace

    ghost predicate Valid()
      reads this
    {
      Read(start, lines) == Some(trace) && trace.clock == clock && trace.blobs == written
    }

    constructor (start: nat)
      ensures Valid() && lines == [] && this.start == start && trace == Opened(start)
    {
      this.start, lines, clock, written, trace := start, [], start, {}, Opened(start);
    }

    method Add(b: Body) returns (n: nat)
      requires Valid() && Fits(trace, |lines| + 1, b)
      modifies this`lines, this`clock, this`written, this`trace
      ensures Valid() && n == |lines| == |old(lines)| + 1 && old(lines) <= lines
      ensures trace == Step(old(trace), n, b)
    {
      written := if b.Blob? then written + {b.digest} else written;
      n := |lines| + 1;
      ReadOneMore(start, lines, trace, b);
      lines, trace := lines + [Line(n, b)], Step(trace, n, b);
      clock := match b
        case SpanStart(_, time) => time
        case SpanEnd(_, time) => time
        case Event(_, time, _, _) => time
        case Seal(time, _, _, _) => time
        case _ => clock;
    }

    method Start(parent: Option<nat>) returns (span: nat)
      requires Valid() && !trace.sealed && trace.awaited == None
      requires if parent == None then trace.open == [] && trace.starts == 0 else parent.value in trace.open
      modifies this`lines, this`clock, this`written, this`trace
      ensures Valid() && old(lines) <= lines && span == |lines|
      ensures trace == old(trace).(open := old(trace).open + [span], starts := old(trace).starts + 1, clock := clock)
    {
      span := Add(SpanStart(parent, clock + 1000000));
    }

    method End(span: nat)
      requires Valid() && !trace.sealed && trace.awaited == None
      requires trace.open != [] && span == trace.open[|trace.open| - 1]
      modifies this`lines, this`clock, this`written, this`trace
      ensures Valid() && old(lines) <= lines
      ensures trace == old(trace).(open := old(trace).open[..|old(trace).open| - 1],
                                   ends := old(trace).ends + 1, clock := clock)
    {
      var n := Add(SpanEnd(span, clock + 1000000));
    }

    /** A span with nothing in it. */
    method Empty(parent: nat)
      requires Valid() && !trace.sealed && trace.awaited == None && parent in trace.open
      modifies this`lines, this`clock, this`written, this`trace
      ensures Valid() && old(lines) <= lines
      ensures trace == old(trace).(starts := old(trace).starts + 1, ends := old(trace).ends + 1, clock := clock)
    {
      var span := Start(Some(parent));
      End(span);
    }

    /** One blob of the segment: its line if it is the first time, a reference and the content event. */
    method Content(digest: Digest, span: nat)
      requires Valid() && !trace.sealed && trace.awaited == None && span in trace.open
      modifies this`lines, this`clock, this`written, this`trace
      ensures Valid() && old(lines) <= lines
      ensures trace == old(trace).(blobs := old(trace).blobs + {digest}, refs := old(trace).refs + 1,
                                   events := old(trace).events + 1, clock := clock)
    {
      if digest !in written {
        var n := Add(Blob(digest));
      }
      assert digest in trace.blobs;
      var m := Add(BlobRef(digest, span, |lines| + 2));
      var e := Add(Event(span, clock + 1000000, Some(m), 0));
    }

    /** The mirrored Store events from number `first` on, each with its share of the padding. */
    method Mirror(span: nat, first: nat, count: nat, pad: nat, mirrors: nat)
      requires Valid() && !trace.sealed && trace.awaited == None && span in trace.open && first + count <= mirrors
      modifies this`lines, this`clock, this`written, this`trace
      ensures Valid() && old(lines) <= lines
      ensures trace == old(trace).(events := old(trace).events + count, clock := clock,
                                   padding := old(trace).padding + PaddingFrom(pad, mirrors, first, count))
    {
      for i := 0 to count
        invariant Valid() && old(lines) <= lines
        invariant trace == old(trace).(events := old(trace).events + i, clock := clock,
                                       padding := old(trace).padding + PaddingFrom(pad, mirrors, first, i))
      {
        var n := Add(Event(span, clock + 1000000, None, PadOf(pad, mirrors, first + i)));
      }
    }

    // --- The parts of a segment. --------------------------------------------------------------

    /** The contents that fall to a node: every nineteenth blob. */
    method Contents(blobs: seq<Digest>, node: nat, span: nat)
      requires Valid() && !trace.sealed && trace.awaited == None && span in trace.open && node < NODES
      modifies this`lines, this`clock, this`written, this`trace
      ensures Valid() && old(lines) <= lines
      ensures trace == old(trace).(blobs := old(trace).blobs + Falling(blobs, node, Share(|blobs|, node)),
                                   refs := old(trace).refs + Share(|blobs|, node),
                                   events := old(trace).events + Share(|blobs|, node), clock := clock)
    {
      var index := node;
      ghost var j := 0;
      while index < |blobs|
        invariant index == node + NODES * j && j <= Share(|blobs|, node)
        invariant Valid() && old(lines) <= lines
        invariant trace == old(trace).(blobs := old(trace).blobs + Falling(blobs, node, j), refs := old(trace).refs + j,
                                       events := old(trace).events + j, clock := clock)
      {
        ShareMeans(|blobs|, node, j);
        Content(blobs[index], span);
        index, j := index + NODES, j + 1;
      }
      ShareMeans(|blobs|, node, j);
    }

    /** The five spans of a node, with its contents and its mirrored Store events. */
    method Node(run: nat, node: nat, blobs: seq<Digest>, mirrored: nat, count: nat, pad: nat, mirrors: nat)
      requires Valid() && !trace.sealed && trace.awaited == None && run in trace.open && node < NODES
      requires mirrored + count <= mirrors
      modifies this`lines, this`clock, this`written, this`trace
      ensures Valid() && old(lines) <= lines
      ensures trace == old(trace).(starts := old(trace).starts + 5, ends := old(trace).ends + 5,
                                   blobs := old(trace).blobs + Falling(blobs, node, Share(|blobs|, node)),
                                   refs := old(trace).refs + Share(|blobs|, node),
                                   events := old(trace).events + Share(|blobs|, node) + count, clock := clock,
                                   padding := old(trace).padding + PaddingFrom(pad, mirrors, mirrored, count))
    {
      var own := Start(Some(run));
      Attempt(own, node, blobs, mirrored, count, pad, mirrors);
      End(own);
    }

    method Attempt(own: nat, node: nat, blobs: seq<Digest>, mirrored: nat, count: nat, pad: nat, mirrors: nat)
      requires Valid() && !trace.sealed && trace.awaited == None && own in trace.open && node < NODES
      requires mirrored + count <= mirrors
      modifies this`lines, this`clock, this`written, this`trace
      ensures Valid() && old(lines) <= lines
      ensures trace == old(trace).(starts := old(trace).starts + 4, ends := old(trace).ends + 4,
                                   blobs := old(trace).blobs + Falling(blobs, node, Share(|blobs|, node)),
                                   refs := old(trace).refs + Share(|blobs|, node),
                                   events := old(trace).events + Share(|blobs|, node) + count, clock := clock,
                                   padding := old(trace).padding + PaddingFrom(pad, mirrors, mirrored, count))
    {
      var attempt := Start(Some(own));
      Compose(attempt, node, blobs);
      Empty(attempt);  // the harness
      Empty(attempt);  // the parsing of its output
      Mirror(attempt, mirrored, count, pad, mirrors);
      End(attempt);
    }

    method Compose(attempt: nat, node: nat, blobs: seq<Digest>)
      requires Valid() && !trace.sealed && trace.awaited == None && attempt in trace.open && node < NODES
      modifies this`lines, this`clock, this`written, this`trace
      ensures Valid() && old(lines) <= lines
      ensures trace == old(trace).(starts := old(trace).starts + 1, ends := old(trace).ends + 1,
                                   blobs := old(trace).blobs + Falling(blobs, node, Share(|blobs|, node)),
                                   refs := old(trace).refs + Share(|blobs|, node),
                                   events := old(trace).events + Share(|blobs|, node), clock := clock)
    {
      var compose := Start(Some(attempt));
      Contents(blobs, node, compose);
      End(compose);
    }

    method Nodes(run: nat, blobs: seq<Digest>, pad: nat)
      requires Valid() && !trace.sealed && trace.awaited == None && run in trace.open && |blobs| <= EVENTS
      modifies this`lines, this`clock, this`written, this`trace
      ensures Valid() && old(lines) <= lines
      ensures trace == old(trace).(starts := old(trace).starts + 95, ends := old(trace).ends + 95,
                                   blobs := old(trace).blobs + set i | 0 <= i < |blobs| :: blobs[i],
                                   refs := old(trace).refs + |blobs|, events := old(trace).events + EVENTS,
                                   clock := clock,
                                   padding := old(trace).padding + if |blobs| < EVENTS then pad else 0)
    {
      var mirrors, mirrored := EVENTS - |blobs|, 0;
      for node := 0 to NODES
        invariant Valid() && old(lines) <= lines && mirrored == Shares(mirrors, node) <= mirrors
        invariant trace == AfterNodes(old(trace), blobs, node, pad, mirrors).(clock := clock)
      {
        mirrored := NextNode(old(trace), run, node, blobs, mirrored, pad, mirrors);
      }
      AllShares(|blobs|);
      AllShares(mirrors);
      AllFall(blobs);
      AllPadding(pad, mirrors);
    }

    method NextNode(ghost before: Trace, run: nat, node: nat, blobs: seq<Digest>, mirrored: nat, pad: nat, mirrors: nat)
      returns (more: nat)
      requires Valid() && !before.sealed && before.awaited == None && run in before.open && node < NODES
      requires mirrored == Shares(mirrors, node) <= mirrors
      requires trace == AfterNodes(before, blobs, node, pad, mirrors).(clock := clock)
      modifies this`lines, this`clock, this`written, this`trace
      ensures Valid() && old(lines) <= lines && more == Shares(mirrors, node + 1) <= mirrors
      ensures trace == AfterNodes(before, blobs, node + 1, pad, mirrors).(clock := clock)
    {
      SharesWithin(mirrors, node + 1);
      PaddingJoins(pad, mirrors, mirrored, Share(mirrors, node));
      Node(run, node, blobs, mirrored, Share(mirrors, node), pad, mirrors);
      more := mirrored + Share(mirrors, node);
    }

    method Run(command: nat, blobs: seq<Digest>, pad: nat)
      requires Valid() && !trace.sealed && trace.awaited == None && command in trace.open && |blobs| <= EVENTS
      modifies this`lines, this`clock, this`written, this`trace
      ensures Valid() && old(lines) <= lines
      ensures trace == old(trace).(starts := old(trace).starts + 99, ends := old(trace).ends + 99,
                                   blobs := old(trace).blobs + set i | 0 <= i < |blobs| :: blobs[i],
                                   refs := old(trace).refs + |blobs|, events := old(trace).events + EVENTS,
                                   clock := clock,
                                   padding := old(trace).padding + if |blobs| < EVENTS then pad else 0)
    {
      var run := Start(Some(command));
      Empty(run);  // loading the authority
      Empty(run);  // planning
      Nodes(run, blobs, pad);
      Empty(command);  // the sweep
      End(run);
    }

    method Command(blobs: seq<Digest>, pad: nat)
      requires Valid() && trace == Opened(clock) && |blobs| <= EVENTS
      modifies this`lines, this`clock, this`written, this`trace
      ensures Valid() && old(lines) <= lines
      ensures trace == Trace([], clock, SPANS, SPANS, EVENTS, set i | 0 <= i < |blobs| :: blobs[i], |blobs|,
                             if |blobs| < EVENTS then pad else 0, None, false)
    {
      var command := Start(None);
      Run(command, blobs, pad);
      End(command);
    }
  }

  /** What the first nodes leave, but for the clock. */
  ghost function AfterNodes(t: Trace, blobs: seq<Digest>, nodes: nat, pad: nat, mirrors: nat): Trace
    requires Shares(mirrors, nodes) <= mirrors
  {
    t.(starts := t.starts + 5 * nodes, ends := t.ends + 5 * nodes, blobs := t.blobs + FallingBelow(blobs, nodes),
       refs := t.refs + Shares(|blobs|, nodes), events := t.events + Shares(|blobs|, nodes) + Shares(mirrors, nodes),
       padding := t.padding + Padding(pad, mirrors, Shares(mirrors, nodes)))
  }

  lemma ReadOneMore(start: nat, lines: seq<Line>, t: Trace, b: Body)
    requires Read(start, lines) == Some(t) && Fits(t, |lines| + 1, b)
    ensures Read(start, lines + [Line(|lines| + 1, b)]) == Some(Step(t, |lines| + 1, b))
  {
    var more := lines + [Line(|lines| + 1, b)];
    assert more[..|more| - 1] == lines;
  }

  // --- How blobs and events are shared out among the nodes. ---------------------------------------

  function Share(n: nat, node: nat): nat { n / NODES + if node < n % NODES then 1 else 0 }

  function Shares(n: nat, nodes: nat): nat { if nodes == 0 then 0 else Shares(n, nodes - 1) + Share(n, nodes - 1) }

  lemma ShareMeans(n: nat, node: nat, j: nat)
    requires node < NODES
    ensures node + NODES * j < n <==> j < Share(n, node)
  {
  }

  lemma {:induction false} SharesSoFar(n: nat, nodes: nat)
    requires nodes <= NODES
    ensures Shares(n, nodes) == nodes * (n / NODES) + if nodes < n % NODES then nodes else n % NODES
  {
    if nodes > 0 {
      SharesSoFar(n, nodes - 1);
      assert nodes * (n / NODES) == (nodes - 1) * (n / NODES) + n / NODES;
    }
  }

  /** Nothing is left over. */
  lemma AllShares(n: nat)
    ensures Shares(n, NODES) == n
  {
    SharesSoFar(n, NODES);
  }

  lemma {:induction false} SharesGrow(n: nat, nodes: nat, more: nat)
    ensures Shares(n, nodes) <= Shares(n, nodes + more)
  {
    if more > 0 {
      SharesGrow(n, nodes, more - 1);
    }
  }

  lemma SharesWithin(n: nat, nodes: nat)
    requires nodes <= NODES
    ensures Shares(n, nodes) <= n
  {
    SharesGrow(n, nodes, NODES - nodes);
    AllShares(n);
  }

  /** The share of the padding that mirrored event `i` carries. */
  function PadOf(pad: nat, mirrors: nat, i: nat): nat
    requires mirrors > 0
  {
    pad / mirrors + if i < pad % mirrors then 1 else 0
  }

  /** What the first `k` of them carry. */
  function Padding(pad: nat, mirrors: nat, k: nat): nat
    requires k <= mirrors
  {
    if k == 0 then 0 else Padding(pad, mirrors, k - 1) + PadOf(pad, mirrors, k - 1)
  }

  /** What `count` of them carry, from number `first` on. */
  function PaddingFrom(pad: nat, mirrors: nat, first: nat, count: nat): nat
    requires first + count <= mirrors
  {
    if count == 0 then 0 else PaddingFrom(pad, mirrors, first, count - 1) + PadOf(pad, mirrors, first + count - 1)
  }

  lemma {:induction false} PaddingJoins(pad: nat, mirrors: nat, first: nat, count: nat)
    requires first + count <= mirrors
    ensures Padding(pad, mirrors, first) + PaddingFrom(pad, mirrors, first, count)
            == Padding(pad, mirrors, first + count)
  {
    if count > 0 {
      PaddingJoins(pad, mirrors, first, count - 1);
    }
  }

  lemma {:induction false} PaddingSoFar(pad: nat, mirrors: nat, k: nat)
    requires k <= mirrors && mirrors > 0
    ensures Padding(pad, mirrors, k) == k * (pad / mirrors) + if k < pad % mirrors then k else pad % mirrors
  {
    if k > 0 {
      PaddingSoFar(pad, mirrors, k - 1);
      assert k * (pad / mirrors) == (k - 1) * (pad / mirrors) + pad / mirrors;
    }
  }

  /** None of the padding is left over. */
  lemma AllPadding(pad: nat, mirrors: nat)
    ensures Padding(pad, mirrors, mirrors) == if mirrors > 0 then pad else 0
  {
    if mirrors > 0 {
      PaddingSoFar(pad, mirrors, mirrors);
      assert pad == mirrors * (pad / mirrors) + pad % mirrors;
    }
  }

  /** The first `count` blobs that fall to a node. */
  ghost function Falling(blobs: seq<Digest>, node: nat, count: nat): set<Digest> {
    if count == 0 then {}
    else
      var i := node + NODES * (count - 1);
      Falling(blobs, node, count - 1) + if i < |blobs| then {blobs[i]} else {}
  }

  ghost function FallingBelow(blobs: seq<Digest>, nodes: nat): set<Digest> {
    if nodes == 0 then {} else FallingBelow(blobs, nodes - 1) + Falling(blobs, nodes - 1, Share(|blobs|, nodes - 1))
  }

  lemma {:induction false} Falls(blobs: seq<Digest>, node: nat, count: nat, j: nat)
    requires j < count && node + NODES * j < |blobs|
    ensures blobs[node + NODES * j] in Falling(blobs, node, count)
  {
    if j < count - 1 {
      Falls(blobs, node, count - 1, j);
    }
  }

  lemma {:induction false} FallsBelow(blobs: seq<Digest>, nodes: nat, node: nat)
    requires node < nodes
    ensures Falling(blobs, node, Share(|blobs|, node)) <= FallingBelow(blobs, nodes)
  {
    if node < nodes - 1 {
      FallsBelow(blobs, nodes - 1, node);
    }
  }

  lemma {:induction false} OnlyBlobsFall(blobs: seq<Digest>, node: nat, count: nat)
    ensures Falling(blobs, node, count) <= set i | 0 <= i < |blobs| :: blobs[i]
  {
    if count > 0 {
      OnlyBlobsFall(blobs, node, count - 1);
    }
  }

  lemma {:induction false} OnlyBlobsFallBelow(blobs: seq<Digest>, nodes: nat)
    ensures FallingBelow(blobs, nodes) <= set i | 0 <= i < |blobs| :: blobs[i]
  {
    if nodes > 0 {
      OnlyBlobsFallBelow(blobs, nodes - 1);
      OnlyBlobsFall(blobs, nodes - 1, Share(|blobs|, nodes - 1));
    }
  }

  /** Every blob falls to some node. */
  lemma AllFall(blobs: seq<Digest>)
    ensures FallingBelow(blobs, NODES) == set i | 0 <= i < |blobs| :: blobs[i]
  {
    OnlyBlobsFallBelow(blobs, NODES);
    forall i | 0 <= i < |blobs| ensures blobs[i] in FallingBelow(blobs, NODES) {
      var node, j := i % NODES, i / NODES;
      ShareMeans(|blobs|, node, j);
      Falls(blobs, node, Share(|blobs|, node), j);
      FallsBelow(blobs, NODES, node);
    }
  }

  // --- A whole segment. ---------------------------------------------------------------------------

  /** `segment_records`: whatever blobs an execution refers to, up to two hundred, a reader accepts its
      segment to the last line, and has seen exactly a hundred spans, started and ended in nested
      order, two hundred events, one reference for each blob of the list, one line for each different one
      as the seal says, and all of the padding. */
  method SegmentRecords(start: nat, blobs: seq<Digest>, pad: nat) returns (lines: seq<Line>)
    requires |blobs| <= EVENTS
    ensures var t := Read(start, lines);
            && t != None && t.value.sealed && t.value.open == []
            && t.value.starts == t.value.ends == SPANS && t.value.events == EVENTS && t.value.refs == |blobs|
            && t.value.blobs == (set i | 0 <= i < |blobs| :: blobs[i])
            && (|blobs| < EVENTS ==> t.value.padding == pad)
  {
    var w := new Writer(start);
    var n := w.Add(Header);
    w.Command(blobs, pad);
    n := w.Add(Seal(w.clock + 1000000, SPANS, EVENTS, |w.written|));
    lines := w.lines;
  }
}
