/**
 The publication part of the issue-triage runner (scripts/backlog-triage.py) for one issue: `publish`
 of a generation, with its freshness checks, reconciliations, intents and aborts, and the auxiliary
 writes of the sweep. `script` holds what the environment answers, call by call; where it ends the
 process dies. Whatever it says, what the runner does to its journal and to GitHub is a run of
 TriageProtocol.
 */
module Triage {
  import opened Basics
  import opened TriageProtocol

  datatype Answer =
    | Good                  // the call succeeds; a save is durable
    | Refuses               // it raises before it has any effect
    | RefusesLate           // a save raises after the file was replaced
    | Unclear               // a write whose outcome is unknown
    | Created(id: nat)      // a comment write answers with the comment's id
    | Issue(held: bool, listing: Listing, labels: Labels)
    | Snapshot(change: Change, labels: Labels)
    | AuxView(found: nat, hasLabel: bool, edits: nat)  // what `auxiliary` looks for on the issue

  /** The labels of the issue, against the ones the generation wants: how many edits lead there, and
      whether the labels the runner controls are already as wanted. */
  datatype Labels = Labels(edits: nat, controlledMatch: bool) {
    predicate Match() { edits == 0 || controlledMatch }
  }

  /** The comments of the issue, against the generation being reconciled: those by the runner that end
      with its marker, whether every other canonical comment is the journaled one, whether the marked
      one is unaltered, whether the journaled one is there. */
  datatype Listing = Listing(marked: seq<nat>, onlyKnown: bool, unaltered: bool, named: bool)

  /** What a fresh snapshot shows: nothing new, a hold label, owner labels in conflict, labels or
      evidence changed from outside. */
  datatype Change = Same | HoldLabel | Conflict | Changed

  /** What the issue shows of an auxiliary effect: how many comments with its recorded body, and whether the
      labels are those it recorded. */
  datatype View = View(found: nat, labelled: bool)

  function Of(views: map<Key, View>, key: Key): View { if key in views then views[key] else View(0, false) }

  function Resolved(c: Checkpoint, v: View): Checkpoint {
    if c == LabelIntent && v.labelled then LabelsDone else if c == CommentIntent && v.found == 1 then Done else c
  }

  predicate TooMany(c: Checkpoint, v: View) { c == CommentIntent && v.found > 1 }

  /** Answer `n` of the environment is `a`. */
  predicate Says(script: seq<Answer>, n: nat, a: Answer) { n < |script| && script[n] == a }

  /** It is a snapshot that shows this change. */
  predicate Shows(script: seq<Answer>, n: nat, change: Change) {
    n < |script| && script[n].Snapshot? && script[n].change == change
  }

  /** How a step ends. `Doubt`: a write may have happened. */
  datatype Result = Ok | Refused | Doubt | Dead

  /** Nothing has been sent. */
  ghost predicate Quiet(s: State, t: State) {
    && t.creates == s.creates && t.edits == s.edits && t.labelled == s.labelled && t.auxCreates == s.auxCreates
  }

  /** Nothing has been sent but, maybe, label edits of generation `k`. */
  ghost predicate LabelsOnly(s: State, t: State, k: Key) {
    && t.creates == s.creates && t.edits == s.edits && t.auxCreates == s.auxCreates
    && (t.labelled == s.labelled || t.labelled == s.labelled + {k})
  }

  /** The intents and completions of all generations, and the checkpoints, are the same. */
  ghost predicate SameEffectsAll(b: Book, c: Book) {
    && c.commentId == b.commentId && c.sweeps == b.sweeps && c.gens.Keys == b.gens.Keys
    && forall k :: k in b.gens ==> SameEffects(b.gens[k], c.gens[k])
  }

  /** Generations other than `k`, and the checkpoints, are the same. */
  ghost predicate OthersSame(b: Book, c: Book, k: Key) {
    && c.sweeps == b.sweeps && c.gens.Keys == b.gens.Keys
    && (k in b.gens ==> c.gens[k].hasRecord == b.gens[k].hasRecord)
    && forall j :: j in b.gens && j != k ==> c.gens[j] == b.gens[j]
  }

  /** The status of a generation after a refusal: a proposal stays one. */
  function Demoted(s: Status, hold: bool): Status {
    if s == DryRun then DryRun else if hold then HeldBack else if s == Stale then Stale else Uncertain
  }

  // --- Courses of a publication, in answers of the environment. ------------------------------------

  /** An issue that is not held, with these comments of the generation, all as journaled. */
  predicate Lists(script: seq<Answer>, n: nat, marked: seq<nat>) {
    n < |script| && script[n].Issue? && !script[n].held && script[n].listing == Listing(marked, true, true, true)
  }

  /** The owner's hold is seen, and journaled. */
  predicate HoldAt(script: seq<Answer>, n: nat) { Shows(script, n, HoldLabel) && Says(script, n + 1, Good) }

  /** Nothing has changed and all labels are as wanted. */
  predicate AllQuiet(script: seq<Answer>, n: nat) { Shows(script, n, Same) && script[n].labels.edits == 0 }

  /** How the comment phase may go: the comment is written and seen; the reply to the write is lost; or an
      owner's hold, seen just before the write, refuses it. */
  datatype Course = Written(id: nat) | ReplyLost | HeldUp

  predicate CommentCourse(script: seq<Answer>, n: nat, c: Course) {
    Says(script, n, Good) && WriteCourse(script, n + 1, c)
  }

  predicate WriteCourse(script: seq<Answer>, n: nat, c: Course) {
    && Says(script, n + 1, Good)
    && match c
       case Written(id) =>
         && Shows(script, n, Same) && id > 0 && Says(script, n + 2, Created(id)) && Says(script, n + 3, Good)
         && Lists(script, n + 4, [id]) && Says(script, n + 5, Good)
       case ReplyLost => Shows(script, n, Same) && Says(script, n + 2, Unclear)
       case HeldUp => Shows(script, n, HoldLabel) && Says(script, n + 2, Good)
  }

  /** What that makes of the journal, in memory and on disk. */
  function AfterComment(b: Book, k: Key, c: Course): Book
    requires k in b.gens
  {
    var g := b.gens[k];
    match c
    case Written(id) => SetGen(b, k, g.(commentIntent := true, commentDone := true)).(commentId := Some(id))
    case ReplyLost => SetGen(b, k, g.(commentIntent := true))
    case HeldUp => SetGen(b, k, g.(commentIntent := false, status := Demoted(g.status, true))).(hold := true)
  }

  function ResultOf(c: Course): Result {
    match c case Written(_) => Ok case ReplyLost => Doubt case HeldUp => Refused
  }

  /** The label phase when the labels turn out to be as wanted. */
  predicate LabelCourse(script: seq<Answer>, n: nat) {
    Says(script, n, Good) && Says(script, n + 1, Good) && AllQuiet(script, n + 2) && Says(script, n + 3, Good)
  }

  function AfterLabels(b: Book, k: Key): Book
    requires k in b.gens
  {
    SetGen(b, k, b.gens[k].(labelsIntent := true, labelsDone := true))
  }

  /** Both phases; labels that are done already are not written again. */
  predicate EffectsCourse(script: seq<Answer>, n: nat, labelsDone: bool, c: Course) {
    LabelsCourse(script, n, labelsDone) && CommentCourse(script, n + if labelsDone then 1 else 5, c)
  }

  predicate LabelsCourse(script: seq<Answer>, n: nat, labelsDone: bool) {
    if labelsDone then Shows(script, n, Same) else LabelCourse(script, n) && Shows(script, n + 4, Same)
  }

  function WithLabels(b: Book, k: Key): Book
    requires k in b.gens
  {
    if b.gens[k].labelsDone then b else AfterLabels(b, k)
  }

  function AfterEffects(b: Book, k: Key, c: Course): Book
    requires k in b.gens
  {
    AfterComment(WithLabels(b, k), k, c)
  }

  /** From the check of the lease on. A comment that is written ends with one more look and a save. */
  predicate PublishCourse(script: seq<Answer>, n: nat, labelsDone: bool, c: Course) {
    Says(script, n, Good) && Says(script, n + 1, Good) && CompleteCourse(script, n + 2, labelsDone, c)
  }

  predicate CompleteCourse(script: seq<Answer>, n: nat, labelsDone: bool, c: Course) {
    && EffectsCourse(script, n, labelsDone, c)
    && (c.Written? ==> var m := n + (if labelsDone then 8 else 12); Shows(script, m, Same) && Says(script, m + 1, Good))
  }

  function Completed(b: Book, k: Key, c: Course): Book
    requires k in b.gens
  {
    if c.Written? then Marked(AfterEffects(b, k, c), k) else AfterEffects(b, k, c)
  }

  function Started(b: Book, k: Key): Book
    requires k in b.gens
  {
    if b.gens[k].status == DryRun then b else SetGen(b, k, b.gens[k].(status := Publishing))
  }

  function Marked(b: Book, k: Key): Book
    requires k in b.gens
  {
    SetGen(b, k, b.gens[k].(status := Published)).(published := Some(k))
  }

  function AfterPublish(b: Book, k: Key, c: Course): Book
    requires k in b.gens
  {
    Completed(Started(b, k), k, c)
  }

  /** A generation whose turn it is, with nothing in its way and nothing of it in doubt but, maybe, an edit
      of the comment that the journal names. */
  ghost predicate Ready(b: Book, k: Key) {
    && k in b.gens && b.current == Some(k) && !b.hold && b.gens[k].status !in {Published, Stale}
    && !b.gens[k].commentDone && (b.gens[k].commentIntent ==> b.commentId != None)
    && (b.gens[k].labelsIntent ==> b.gens[k].labelsDone)
    && !EffectsBlocked(b, Some(k), b.gens[k].hasRecord)
  }

  class Runner {
    const apply: bool
    var disk: Book
    var memory: Book
    var script: seq<Answer>
    var at: nat
    ghost var state: State
    ghost var events: seq<Event>

    ghost predicate Valid()
      reads this
    {
      && LeadsTo(events, state)
      && state.disk == disk && state.memory == memory
    }

    constructor (apply: bool)
      ensures Valid() && disk == memory == EMPTY && state == START && this.apply == apply
    {
      this.apply, disk, memory, script, at := apply, EMPTY, EMPTY, [], 0;
      state, events := START, [];
    }

    method Next() returns (a: Option<Answer>)
      modifies this`at
      ensures if old(at) < |script| then a == Some(script[old(at)]) && at == old(at) + 1 else a == None && at == old(at)
    {
      if at < |script| {
        a, at := Some(script[at]), at + 1;
      } else {
        a := None;
      }
    }

    ghost method Happen(e: Event)
      requires LeadsTo(events, state) && Enabled(state, e)
      modifies this`events, this`state
      ensures events == old(events) + [e] && LeadsTo(events, state) && state == Apply(old(state), e)
    {
      OneMore(events, state, e);
      events, state := events + [e], Apply(state, e);
    }

    static function Failure(a: Option<Answer>): Result {
      if a == None then Dead else if a == Some(Unclear) then Doubt else Refused
    }

    /** A read, a lease check, a principal check: it refuses or not. */
    method Ask() returns (r: Result)
      modifies this`at
      ensures r in {Ok, Refused, Dead} && (r == Ok <==> Says(script, old(at), Good))
      ensures r != Dead ==> at == old(at) + 1
    {
      var a := Next();
      r := if a == Some(Good) then Ok else if a == None then Dead else Refused;
    }

    method Save() returns (r: Result)
      requires Valid()
      modifies this`disk, this`at, this`events, this`state
      ensures Valid() && old(events) <= events && r in {Ok, Refused, Dead}
      ensures state == old(state) || state == old(state).(disk := memory)
      ensures r == Ok ==> disk == memory
      ensures r == Ok <==> Says(script, old(at), Good)
      ensures r != Dead ==> at == old(at) + 1
    {
      var a := Next();
      if a == Some(Good) || a == Some(RefusesLate) {
        Happen(Saved);
        disk := memory;
      }
      r := if a == None then Dead else if a == Some(Good) then Ok else Refused;
    }

    method SetStatus(k: Key, s: Status)
      requires Valid() && k in memory.gens && memory.gens[k].status != DryRun && s != Published
      modifies this`memory, this`events, this`state
      ensures Valid() && old(events) <= events && Quiet(old(state), state) && state.armed == old(state).armed
      ensures memory == SetGen(old(memory), k, old(memory).gens[k].(status := s))
      ensures SameEffectsAll(old(memory), memory) && OthersSame(old(memory), memory, k)
    {
      StatusIsNoEffect(memory, k, s);
      Happen(Assign(k, s));
      memory := SetGen(memory, k, memory.gens[k].(status := s));
    }

    method SetCurrent(c: Option<Key>)
      requires Valid()
      modifies this`memory, this`events, this`state
      ensures Valid() && old(events) <= events && Quiet(old(state), state) && state.armed == old(state).armed
      ensures memory == old(memory).(current := c)
    {
      Happen(Point(c));
      memory := memory.(current := c);
    }

    /** `invalidate`: changed inputs ask for new work, but do not resolve a proposal. */
    method Invalidate(k: Key) returns (r: Result)
      requires Valid() && k in memory.gens
      modifies this`disk, this`memory, this`at, this`events, this`state
      ensures Valid() && old(events) <= events && Quiet(old(state), state) && state.armed == old(state).armed
      ensures SameEffectsAll(old(memory), memory) && OthersSame(old(memory), memory, k)
      ensures old(memory).gens[k].status == DryRun ==> memory.gens[k].status == DryRun
    {
      Supersede(k);
      r := Save();
    }

    method Supersede(k: Key)
      requires Valid() && k in memory.gens
      modifies this`memory, this`events, this`state
      ensures Valid() && old(events) <= events && Quiet(old(state), state) && state.armed == old(state).armed
      ensures SameEffectsAll(old(memory), memory) && OthersSame(old(memory), memory, k)
      ensures memory == if old(memory).gens[k].status != DryRun
                        then SetGen(old(memory), k, old(memory).gens[k].(status := Stale))
                        else if old(memory).current == Some(k) then old(memory).(current := None) else old(memory)
    {
      if memory.gens[k].status != DryRun {
        SetStatus(k, Stale);
      } else if memory.current == Some(k) {
        SetCurrent(None);
      }
    }

    method SetTheHold(h: bool) returns (r: Result)
      requires Valid()
      modifies this`disk, this`memory, this`at, this`events, this`state
      ensures Valid() && old(events) <= events && Quiet(old(state), state) && state.armed == old(state).armed
      ensures memory == old(memory).(hold := h) && r in {Ok, Refused, Dead}
      ensures r == Ok ==> disk == memory
      ensures Says(script, old(at), Good) ==> r == Ok && at == old(at) + 1
    {
      Happen(SetHold(h));
      memory := memory.(hold := h);
      r := Save();
    }

    /** `fresh`: the generation is still the current one and nothing it was built from has changed. On
        success memory is durable and everything but the hold is as before. */
    method Fresh(k: Key) returns (r: Result, labels: Labels)
      requires Valid() && k in memory.gens && disk == memory
      modifies this`disk, this`memory, this`at, this`events, this`state
      ensures Valid() && old(events) <= events && Quiet(old(state), state) && state.armed == old(state).armed
      ensures SameEffectsAll(old(memory), memory) && OthersSame(old(memory), memory, k)
      ensures r in {Ok, Refused, Dead}
      ensures r == Ok ==> disk == memory == old(memory).(hold := memory.hold)
      ensures r == Ok ==> memory.current == Some(k) && !memory.hold
      ensures r == Ok ==> Shows(script, old(at), Same) && labels == script[old(at)].labels
      ensures old(memory).gens[k].status == DryRun ==> memory.gens[k].status == DryRun
      ensures Shows(script, old(at), Same) && old(memory).current == Some(k) && !old(memory).hold ==>
                r == Ok && memory == old(memory) && at == old(at) + 1
      ensures HoldAt(script, old(at)) && old(memory).current == Some(k) && !old(memory).hold ==>
                r == Refused && disk == memory == old(memory).(hold := true) && at == old(at) + 2
    {
      labels := Labels.Labels(0, false);
      if memory.current != Some(k) {
        r := Invalidate(k);
        r := if r == Dead then Dead else Refused;
        return;
      }
      var a := Next();
      if a == None || !a.value.Snapshot? {
        r := if a == None then Dead else Refused;
        return;
      }
      labels := a.value.labels;
      match a.value.change
      case Same =>
        r := Ok;
        if memory.hold {
          r := SetTheHold(false);  // the owner released it
        }
      case HoldLabel =>
        r := Ok;
        if !memory.hold {
          r := SetTheHold(true);
        }
        r := if r == Dead then Dead else Refused;
      case Conflict => r := Refused;
      case Changed =>
        r := Invalidate(k);
        r := if r == Dead then Dead else Refused;
    }

    // --- Reconciliation: an intent is resolved by observation only. ---------------------------

    method ReconcileComment(k: Key, l: Listing) returns (r: Result)
      requires Valid() && k in memory.gens && disk == memory
      modifies this`disk, this`memory, this`at, this`events, this`state
      ensures Valid() && old(events) <= events && Quiet(old(state), state) && OthersSame(old(memory), memory, k)
      ensures r == Ok ==> disk == memory
      ensures r == Ok && memory.gens[k].commentIntent && !memory.gens[k].commentDone ==> memory.commentId != None
      ensures memory.gens[k] == old(memory).gens[k].(commentDone := memory.gens[k].commentDone)
      ensures r == Ok ==> l.onlyKnown && |l.marked| <= 1 && (memory.commentId != None ==> l.named)
      ensures r == Ok && |l.marked| == 1 ==>
                l.unaltered && memory.gens[k].commentDone && memory.commentId == Some(l.marked[0])
      ensures |l.marked| != 1 ==> memory == old(memory)
      ensures r == Doubt <==> l.onlyKnown && l.marked == [] && memory.gens[k].commentIntent && memory.commentId == None
      ensures (l == Listing([], true, true, true)
               && (old(memory).gens[k].commentIntent ==> old(memory).commentId != None)) ==>
                r == Ok && at == old(at)
      ensures (|l.marked| == 1 && l == Listing(l.marked, true, true, true) && Says(script, old(at), Good)
               && old(memory).commentId in {None, Some(l.marked[0])}) ==>
                && r == Ok && at == old(at) + 1
                && memory
                  == SetGen(old(memory), k, old(memory).gens[k].(commentDone := true)).(commentId := Some(l.marked[0]))
    {
      if !l.onlyKnown || |l.marked| > 1 {
        return Refused;
      }
      r := Ok;
      if |l.marked| == 1 {
        var id := l.marked[0];
        if !(memory.commentId == None || memory.commentId == Some(id)) || !l.unaltered {
          return Refused;
        }
        r := Adopt(k, id);
        if r != Ok {
          return;
        }
      } else if memory.gens[k].commentIntent && memory.commentId == None {
        return Doubt;
      }
      if memory.commentId != None && !l.named {
        return Refused;
      }
    }

    /** The marked comment is this generation's, whether or not the reply to its write was seen. */
    method Adopt(k: Key, id: nat) returns (r: Result)
      requires Valid() && k in memory.gens && (memory.commentId == None || memory.commentId == Some(id))
      modifies this`disk, this`memory, this`at, this`events, this`state
      ensures Valid() && old(events) <= events && Quiet(old(state), state) && OthersSame(old(memory), memory, k)
      ensures r in {Ok, Refused, Dead}
      ensures r == Ok ==> disk == memory
      ensures memory == SetGen(old(memory), k, old(memory).gens[k].(commentDone := true)).(commentId := Some(id))
      ensures Says(script, old(at), Good) ==> r == Ok && at == old(at) + 1
    {
      Happen(SeenComment(k, id));
      memory := SetGen(memory, k, memory.gens[k].(commentDone := true)).(commentId := Some(id));
      r := Save();
    }

    method ReconcileLabels(k: Key, labels: Labels) returns (r: Result)
      requires Valid() && k in memory.gens && disk == memory
      modifies this`disk, this`memory, this`at, this`events, this`state
      ensures Valid() && old(events) <= events && Quiet(old(state), state) && OthersSame(old(memory), memory, k)
      ensures r in {Ok, Refused, Dead}
      ensures r == Ok ==> disk == memory && memory.commentId == old(memory).commentId
      ensures memory.gens[k] == old(memory).gens[k].(labelsDone := memory.gens[k].labelsDone)
      ensures memory.gens[k].labelsDone <==>
                old(memory).gens[k].labelsDone || (labels.Match() && old(memory).gens[k].labelsIntent)
      ensures !old(memory).gens[k].labelsIntent || old(memory).gens[k].labelsDone ==>
                r == Ok && memory == old(memory) && at == old(at)
      ensures (labels.Match() && old(memory).gens[k].labelsIntent && !old(memory).gens[k].labelsDone
               && Says(script, old(at), Good)) ==>
                r == Ok && at == old(at) + 1
                && memory == SetGen(old(memory), k, old(memory).gens[k].(labelsDone := true))
    {
      r := Ok;
      if memory.gens[k].labelsIntent && !memory.gens[k].labelsDone && labels.Match() {
        Happen(SeenLabels(k));
        memory := SetGen(memory, k, memory.gens[k].(labelsDone := true));
        r := Save();
      }
    }

    // --- The label phase. ---------------------------------------------------------------------

    method OpenLabelIntent(k: Key) returns (r: Result)
      requires Valid() && k in memory.gens && !memory.gens[k].labelsDone
      requires !EffectsBlocked(memory, Some(k), memory.gens[k].hasRecord)
      modifies this`disk, this`memory, this`at, this`events, this`state
      ensures Valid() && old(events) <= events && Quiet(old(state), state) && OthersSame(old(memory), memory, k)
      ensures r in {Ok, Refused, Dead}
      ensures memory == SetGen(old(memory), k, old(memory).gens[k].(labelsIntent := true))
      ensures r == Ok ==> disk == memory && state.armed == Armed.Labels(k, old(memory).gens[k].labelsIntent)
      ensures Says(script, old(at), Good) ==> r == Ok && at == old(at) + 1
    {
      Happen(OpenLabels(k));
      memory := SetGen(memory, k, memory.gens[k].(labelsIntent := true));
      r := Save();
    }

    /** What runs before every write: the generation is fresh, the principal unchanged. */
    method BeforeWrite(k: Key) returns (r: Result)
      requires Valid() && k in memory.gens && disk == memory
      modifies this`disk, this`memory, this`at, this`events, this`state
      ensures Valid() && old(events) <= events && Quiet(old(state), state) && state.armed == old(state).armed
      ensures SameEffectsAll(old(memory), memory) && OthersSame(old(memory), memory, k)
      ensures r in {Ok, Refused, Dead}
      ensures r == Ok ==> disk == memory == old(memory).(hold := memory.hold)
      ensures r == Ok ==> memory.current == Some(k) && Shows(script, old(at), Same)
      ensures (Shows(script, old(at), Same) && Says(script, old(at) + 1, Good)
               && old(memory).current == Some(k) && !old(memory).hold) ==>
                r == Ok && memory == old(memory) && at == old(at) + 2
      ensures HoldAt(script, old(at)) && old(memory).current == Some(k) && !old(memory).hold ==>
                r == Refused && disk == memory == old(memory).(hold := true) && at == old(at) + 2
    {
      var m;
      r, m := Fresh(k);
      if r == Ok {
        r := Ask();
      }
    }

    /** `set_labels`: `edits` single-label calls. What is refused before the first of them wrote
        nothing. */
    method WriteLabels(k: Key, edits: nat) returns (r: Result)
      requires Valid() && k in memory.gens && disk == memory && state.armed.Labels? && state.armed.k == k
      modifies this`disk, this`memory, this`at, this`events, this`state
      ensures Valid() && old(events) <= events && SameEffectsAll(old(memory), memory)
      ensures OthersSame(old(memory), memory, k) && LabelsOnly(old(state), state, k)
      ensures r == Refused ==> state.labelled == old(state).labelled && state.armed == old(state).armed
      ensures !Quiet(old(state), state) ==> edits > 0 && Shows(script, old(at) + 1, Same)
      ensures edits == 0 && Says(script, old(at), Good) ==> r == Ok && memory == old(memory) && at == old(at) + 1
      ensures r == Ok ==> disk == memory
    {
      r := Ask();  // only labels the runner manages
      if r != Ok || edits == 0 {
        return;
      }
      r := BeforeWrite(k);
      if r == Ok {
        Happen(SendLabels(k));
        r := EditLabels(k, edits);
      }
    }

    /** The edits, the first of which has passed its checks. Any failure leaves the outcome unknown. */
    method EditLabels(k: Key, edits: nat) returns (r: Result)
      requires Valid() && k in memory.gens && disk == memory
      modifies this`disk, this`memory, this`at, this`events, this`state
      ensures Valid() && old(events) <= events && SameEffectsAll(old(memory), memory)
      ensures OthersSame(old(memory), memory, k) && Quiet(old(state), state)
      ensures r in {Ok, Doubt, Dead} && (r == Ok ==> disk == memory)
    {
      r := Ok;
      for i := 0 to edits
        invariant Valid() && old(events) <= events && SameEffectsAll(old(memory), memory)
        invariant OthersSame(old(memory), memory, k) && Quiet(old(state), state) && disk == memory && r == Ok
      {
        if i > 0 {
          r := BeforeWrite(k);
          if r != Ok {
            return if r == Dead then Dead else Doubt;
          }
        }
        var a := Next();
        r := if a == Some(Good) then Ok else if a == None then Dead else Doubt;
        if r != Ok {
          return;
        }
      }
    }

    /** `abort_effect` of the label phase, for an intent under which nothing was ever sent. */
    method AbortLabelPhase(k: Key) returns (r: Result)
      requires Valid() && k in memory.gens && state.armed == Armed.Labels(k, false)
      modifies this`disk, this`memory, this`at, this`events, this`state
      ensures Valid() && old(events) <= events && Quiet(old(state), state) && OthersSame(old(memory), memory, k)
      ensures var g := old(memory).gens[k];
              memory == SetGen(old(memory), k, g.(labelsIntent := false, status := Demoted(g.status, old(memory).hold)))
    {
      ClearLabelIntent(k);
      Demote(k);
      SetTwice(old(memory), k, old(memory).gens[k].(labelsIntent := false), memory.gens[k]);
      r := Save();
    }

    method ClearLabelIntent(k: Key)
      requires Valid() && k in memory.gens && state.armed == Armed.Labels(k, false)
      modifies this`memory, this`events, this`state
      ensures Valid() && old(events) <= events && Quiet(old(state), state)
      ensures memory == SetGen(old(memory), k, old(memory).gens[k].(labelsIntent := false))
    {
      Happen(AbortLabels(k));
      memory := SetGen(memory, k, memory.gens[k].(labelsIntent := false));
    }

    /** The status of a generation whose publication was refused. */
    method Demote(k: Key)
      requires Valid() && k in memory.gens
      modifies this`memory, this`events, this`state
      ensures Valid() && old(events) <= events && Quiet(old(state), state) && SameEffectsAll(old(memory), memory)
      ensures OthersSame(old(memory), memory, k)
      ensures memory == SetGen(old(memory), k,
                               old(memory).gens[k].(status := Demoted(old(memory).gens[k].status, old(memory).hold)))
    {
      KeptGen(memory, k);
      var status := memory.gens[k].status;
      if status != DryRun {
        if memory.hold {
          SetStatus(k, HeldBack);
        } else if status != Stale {
          SetStatus(k, Uncertain);
        }
      }
    }

    /** The label phase of `publish`. It ends well only with the labels seen as wanted. */
    method PublishLabels(k: Key, edits: nat) returns (r: Result)
      requires Valid() && k in memory.gens && disk == memory && !memory.gens[k].labelsDone
      requires !EffectsBlocked(memory, Some(k), memory.gens[k].hasRecord)
      modifies this`disk, this`memory, this`at, this`events, this`state
      ensures Valid() && old(events) <= events && OthersSame(old(memory), memory, k) && LabelsOnly(old(state), state, k)
      ensures r == Ok ==> disk == memory && memory.gens[k].labelsDone && memory.commentId == old(memory).commentId
      ensures r == Ok ==> SameComment(memory.gens[k], old(memory).gens[k])
      ensures edits == 0 && LabelCourse(script, old(at)) && old(memory).current == Some(k) && !old(memory).hold ==>
                r == Ok && memory == AfterLabels(old(memory), k) && at == old(at) + 4
    {
      var unresolved := memory.gens[k].labelsIntent;
      r := OpenLabelIntent(k);
      if r == Ok {
        SetTwice(old(memory), k, memory.gens[k], AfterLabels(old(memory), k).gens[k]);
        r := WriteTheLabels(k, edits, unresolved);
      }
    }

    /** The edits themselves, under an intent that is durable. */
    method WriteTheLabels(k: Key, edits: nat, unresolved: bool) returns (r: Result)
      requires Valid() && k in memory.gens && disk == memory && memory.gens[k].labelsIntent
      requires state.armed == Armed.Labels(k, unresolved)
      modifies this`disk, this`memory, this`at, this`events, this`state
      ensures Valid() && old(events) <= events && OthersSame(old(memory), memory, k) && LabelsOnly(old(state), state, k)
      ensures r == Ok ==> disk == memory && memory.gens[k].labelsDone && memory.commentId == old(memory).commentId
      ensures r == Ok ==> SameComment(memory.gens[k], old(memory).gens[k])
      ensures (edits == 0 && Says(script, old(at), Good) && AllQuiet(script, old(at) + 1)
               && Says(script, old(at) + 2, Good)
               && old(memory).current == Some(k) && !old(memory).hold && !old(memory).gens[k].labelsDone) ==>
                r == Ok && at == old(at) + 3
                && memory == SetGen(old(memory), k, old(memory).gens[k].(labelsDone := true))
    {
      r := WriteLabels(k, edits);
      if r == Ok {
        r := ObserveLabels(k);
      } else if r == Refused && !unresolved {
        var s := AbortLabelPhase(k);
        r := if s == Dead then Dead else Refused;
      }
    }

    /** What a successful attempt leaves: the generation published, or proposed, or held back. */
    static predicate Settled(b: Book, k: Key, apply: bool)
      requires k in b.gens
    {
      match b.gens[k].status
      case Published => true
      case DryRun => !apply || b.hold
      case HeldBack => b.hold
      case _ => false
    }

    static predicate SameComment(g: Gen, h: Gen) {
      g.commentIntent == h.commentIntent && g.commentDone == h.commentDone && g.hasRecord == h.hasRecord
    }

    /** The write is complete when a fresh snapshot shows the labels wanted, not when it was answered. */
    method ObserveLabels(k: Key) returns (r: Result)
      requires Valid() && k in memory.gens && disk == memory && memory.gens[k].labelsIntent
      modifies this`disk, this`memory, this`at, this`events, this`state
      ensures Valid() && old(events) <= events && OthersSame(old(memory), memory, k) && Quiet(old(state), state)
      ensures r == Ok ==> disk == memory && memory.gens[k].labelsDone && memory.commentId == old(memory).commentId
      ensures r == Ok ==> SameComment(memory.gens[k], old(memory).gens[k])
      ensures r == Ok ==> AllQuiet(script, old(at))
      ensures (AllQuiet(script, old(at)) && Says(script, old(at) + 1, Good) && old(memory).current == Some(k)
               && !old(memory).hold && !old(memory).gens[k].labelsDone) ==>
                r == Ok && at == old(at) + 2
                && memory == SetGen(old(memory), k, old(memory).gens[k].(labelsDone := true))
    {
      var labels;
      r, labels := Fresh(k);
      if r == Ok && labels.edits != 0 {
        r := Refused;
      }
      if r == Ok {
        r := ReconcileLabels(k, labels);
      }
    }

    // --- The comment phase. -------------------------------------------------------------------

    method OpenCommentIntent(k: Key) returns (r: Result)
      requires Valid() && k in memory.gens && !memory.gens[k].commentDone
      requires !EffectsBlocked(memory, Some(k), memory.gens[k].hasRecord)
      requires memory.gens[k].commentIntent ==> memory.commentId != None
      modifies this`disk, this`memory, this`at, this`events, this`state
      ensures Valid() && old(events) <= events && Quiet(old(state), state) && r in {Ok, Refused, Dead}
      ensures memory == SetGen(old(memory), k, old(memory).gens[k].(commentIntent := true))
      ensures r == Ok ==> disk == memory && state.armed.Comment? && state.armed.k == k
      ensures Says(script, old(at), Good) ==> r == Ok && at == old(at) + 1
    {
      Happen(OpenComment(k));
      memory := SetGen(memory, k, memory.gens[k].(commentIntent := true));
      r := Save();
    }

    /** `comment`: create the canonical comment, or edit it when its id is known. */
    method WriteComment(k: Key) returns (r: Result, id: nat)
      requires Valid() && k in memory.gens && disk == memory && state.armed.Comment? && state.armed.k == k
      modifies this`disk, this`memory, this`at, this`events, this`state
      ensures Valid() && old(events) <= events
      ensures SameEffectsAll(old(memory), memory) && OthersSame(old(memory), memory, k)
      ensures r == Refused ==> Quiet(old(state), state) && state.armed == old(state).armed
      ensures !Quiet(old(state), state) ==> Shows(script, old(at), Same)
      ensures r == Ok ==> disk == memory
      ensures (Shows(script, old(at), Same) && Says(script, old(at) + 1, Good) && old(at) + 2 < |script|
               && old(memory).current == Some(k) && !old(memory).hold) ==>
                && memory == old(memory) == disk && at == old(at) + 3
                && (if script[old(at) + 2].Created? then r == Ok && id == script[old(at) + 2].id else r == Doubt)
                && (old(memory).commentId != None ==> k in state.edits)
      ensures HoldAt(script, old(at)) && old(memory).current == Some(k) && !old(memory).hold ==>
                r == Refused && disk == memory == old(memory).(hold := true) && at == old(at) + 2
    {
      id := 0;
      r := BeforeWrite(k);
      if r == Ok {
        Happen(SendComment(k));
        var a := Next();
        if a == None {
          r := Dead;
        } else if a.value.Created? {
          id := a.value.id;
        } else {
          r := Doubt;
        }
      }
    }

    method AbortCommentPhase(k: Key) returns (r: Result)
      requires Valid() && k in memory.gens && state.armed.Comment? && state.armed.k == k
      modifies this`disk, this`memory, this`at, this`events, this`state
      ensures Valid() && old(events) <= events && Quiet(old(state), state) && OthersSame(old(memory), memory, k)
      ensures var g := old(memory).gens[k];
              memory
                == SetGen(old(memory), k, g.(commentIntent := false, status := Demoted(g.status, old(memory).hold)))
      ensures Says(script, old(at), Good) ==> r == Ok && disk == memory && at == old(at) + 1
    {
      ClearCommentIntent(k);
      Demote(k);
      SetTwice(old(memory), k, old(memory).gens[k].(commentIntent := false), memory.gens[k]);
      r := Save();
    }

    method ClearCommentIntent(k: Key)
      requires Valid() && k in memory.gens && state.armed.Comment? && state.armed.k == k
      modifies this`memory, this`events, this`state
      ensures Valid() && old(events) <= events && Quiet(old(state), state)
      ensures memory == SetGen(old(memory), k, old(memory).gens[k].(commentIntent := false))
    {
      Happen(AbortComment(k));
      memory := SetGen(memory, k, memory.gens[k].(commentIntent := false));
    }

    method RememberComment(id: nat) returns (r: Result)
      requires Valid()
      modifies this`disk, this`memory, this`at, this`events, this`state
      ensures Valid() && old(events) <= events && Quiet(old(state), state) && r in {Ok, Refused, Dead}
      ensures memory == old(memory).(commentId := Some(id)) && (r == Ok ==> disk == memory)
      ensures Says(script, old(at), Good) ==> r == Ok && at == old(at) + 1
    {
      Happen(JournalId(id));
      memory := memory.(commentId := Some(id));
      r := Save();
    }

    /** The write is complete when the comment is seen on the issue, unaltered. */
    method ObserveComment(k: Key) returns (r: Result)
      requires Valid() && k in memory.gens && disk == memory
      modifies this`disk, this`memory, this`at, this`events, this`state
      ensures Valid() && old(events) <= events && Quiet(old(state), state) && OthersSame(old(memory), memory, k)
      ensures r == Ok ==> disk == memory && memory.gens[k] == old(memory).gens[k].(commentDone := true)
      ensures r == Ok && !old(memory).gens[k].commentDone ==>
                && old(at) < |script| && script[old(at)].Issue?
                && |script[old(at)].listing.marked| == 1 && script[old(at)].listing.unaltered
      ensures forall id :: (old(memory).commentId == Some(id) && Lists(script, old(at), [id])
                            && Says(script, old(at) + 1, Good)) ==>
                r == Ok && at == old(at) + 2
                && memory == SetGen(old(memory), k, old(memory).gens[k].(commentDone := true))
    {
      var a := Next();
      if a == None || !a.value.Issue? {
        return if a == None then Dead else Refused;
      }
      r := ReconcileComment(k, a.value.listing);
      if r == Ok && !memory.gens[k].commentDone {
        r := Refused;
      }
    }

    /** The comment phase of `publish`. It ends well only with the comment seen. */
    method PublishComment(k: Key) returns (r: Result)
      requires Valid() && k in memory.gens && disk == memory && !memory.gens[k].commentDone
      requires !EffectsBlocked(memory, Some(k), memory.gens[k].hasRecord)
      requires memory.gens[k].commentIntent ==> memory.commentId != None
      modifies this`disk, this`memory, this`at, this`events, this`state
      ensures Valid() && old(events) <= events && OthersSame(old(memory), memory, k)
      ensures r == Ok ==> disk == memory && memory.gens[k].commentDone
      ensures r == Ok ==> memory.gens[k].labelsDone == old(memory).gens[k].labelsDone
      ensures forall c :: CommentCourse(script, old(at), c) && old(memory).current == Some(k) && !old(memory).hold ==>
                && r == ResultOf(c) && disk == memory == AfterComment(old(memory), k, c)
                && (c.Written? ==> at == old(at) + 7)
                && (c == ReplyLost && old(memory).commentId != None ==> k in state.edits)
    {
      r := OpenCommentIntent(k);
      if r == Ok {
        SameCourses(old(memory), k);
        r := WriteTheComment(k);
      }
    }

    /** The write itself, under an intent that is durable. */
    method WriteTheComment(k: Key) returns (r: Result)
      requires Valid() && k in memory.gens && disk == memory && state.armed.Comment? && state.armed.k == k
      modifies this`disk, this`memory, this`at, this`events, this`state
      ensures Valid() && old(events) <= events && OthersSame(old(memory), memory, k)
      ensures r == Ok ==> disk == memory && memory.gens[k].commentDone
      ensures r == Ok ==> memory.gens[k].labelsDone == old(memory).gens[k].labelsDone
      ensures forall c :: (WriteCourse(script, old(at), c) && old(memory).current == Some(k) && !old(memory).hold
                           && old(memory).gens[k].commentIntent) ==>
                && r == ResultOf(c) && disk == memory == AfterComment(old(memory), k, c)
                && (c.Written? ==> at == old(at) + 6)
                && (c == ReplyLost && old(memory).commentId != None ==> k in state.edits)
    {
      var id;
      r, id := WriteComment(k);
      KeptGen(old(memory), k);
      if r == Refused {
        var s := AbortCommentPhase(k);
        r := if s == Dead then Dead else Refused;
      } else if r == Ok {
        r := SettleComment(k, id);
      }
    }

    method SettleComment(k: Key, id: nat) returns (r: Result)
      requires Valid() && k in memory.gens && disk == memory
      modifies this`disk, this`memory, this`at, this`events, this`state
      ensures Valid() && old(events) <= events && OthersSame(old(memory), memory, k)
      ensures r == Ok ==> disk == memory && memory.gens[k] == old(memory).gens[k].(commentDone := true)
      ensures (id > 0 && Says(script, old(at), Good) && Lists(script, old(at) + 1, [id])
               && Says(script, old(at) + 2, Good)) ==>
                && r == Ok && at == old(at) + 3
                && memory == SetGen(old(memory), k, old(memory).gens[k].(commentDone := true)).(commentId := Some(id))
    {
      if id == 0 {
        return Refused;  // no id to journal, and no abort: the comment may exist
      }
      r := RememberComment(id);
      if r == Ok {
        r := ObserveComment(k);
      }
    }

    // --- `publish`. ---------------------------------------------------------------------------

    /** One attempt to publish generation `k`. Without `apply` it sends nothing. It reports success only
        in a durable state, and with `apply` marks the generation published only when it is the
        current one and both its effects have been seen. */
    method PublishGeneration(k: Key) returns (r: Result)
      requires Valid() && k in memory.gens && disk == memory
      modifies this`disk, this`memory, this`at, this`events, this`state
      ensures Valid() && old(events) <= events
      ensures !apply ==> Quiet(old(state), state)
      ensures r == Ok ==> disk == memory && k in memory.gens && Settled(memory, k, apply)
      ensures forall c :: (Lists(script, old(at), []) && AllQuiet(script, old(at) + 1)
                           && PublishCourse(script, old(at) + 2, old(memory).gens[k].labelsDone, c)
                           && apply && Ready(old(memory), k) && NothingToRetire(old(memory), k, c)) ==>
                && r == ResultOf(c) && disk == memory == AfterPublish(old(memory), k, c)
                && (c == ReplyLost && old(memory).commentId != None ==> k in state.edits)
    {
      if memory.gens[k].status == Published {
        return Ok;
      }
      var a := Next();
      if a == None || !a.value.Issue? {
        return if a == None then Dead else Refused;
      }
      if a.value.held {
        r := HoldBack(k);
        return;
      }
      r := Ok;
      if memory.hold {
        r := SetTheHold(false);  // the owner released it
      }
      if r == Ok {
        r := PublishUnheld(k, a.value.listing, a.value.labels);
      }
    }

    /** Nobody holds the issue: what it shows is reconciled first. */
    method PublishUnheld(k: Key, l: Listing, labels: Labels) returns (r: Result)
      requires Valid() && k in memory.gens && disk == memory
      modifies this`disk, this`memory, this`at, this`events, this`state
      ensures Valid() && old(events) <= events
      ensures !apply ==> Quiet(old(state), state)
      ensures r == Ok ==> disk == memory && k in memory.gens && Settled(memory, k, apply)
      ensures forall c :: (l == Listing([], true, true, true) && AllQuiet(script, old(at))
                           && PublishCourse(script, old(at) + 1, old(memory).gens[k].labelsDone, c)
                           && apply && Ready(old(memory), k) && NothingToRetire(old(memory), k, c)) ==>
                && r == ResultOf(c) && disk == memory == AfterPublish(old(memory), k, c)
                && (c == ReplyLost && old(memory).commentId != None ==> k in state.edits)
    {
      if memory.gens[k].status == Stale {
        return Refused;
      }
      r := ReconcileComment(k, l);
      if r == Ok {
        r := ReconcileLabels(k, labels);
      }
      if r == Ok {
        r := PublishReconciled(k);
      }
    }

    /** A private hold does not resolve a proposal. */
    method HoldBack(k: Key) returns (r: Result)
      requires Valid() && k in memory.gens && disk == memory
      modifies this`disk, this`memory, this`at, this`events, this`state
      ensures Valid() && old(events) <= events && Quiet(old(state), state)
      ensures r == Ok ==>
                disk == memory && memory.hold && k in memory.gens && memory.gens[k].status in {DryRun, HeldBack}
    {
      r := Ok;
      if !memory.hold {
        r := SetTheHold(true);
      }
      if r == Ok && memory.gens[k].status != DryRun {
        SetStatus(k, HeldBack);
        r := Save();
      }
    }

    /** An intent left open by a lost reply has an id by now, or `publish` has stopped. */
    method PublishReconciled(k: Key) returns (r: Result)
      requires Valid() && k in memory.gens && disk == memory
      requires memory.gens[k].commentIntent && !memory.gens[k].commentDone ==> memory.commentId != None
      modifies this`disk, this`memory, this`at, this`events, this`state
      ensures Valid() && old(events) <= events
      ensures !apply ==> Quiet(old(state), state)
      ensures r == Ok ==> disk == memory && k in memory.gens && Settled(memory, k, apply)
      ensures forall c :: (AllQuiet(script, old(at))
                           && PublishCourse(script, old(at) + 1, old(memory).gens[k].labelsDone, c)
                           && apply && Ready(old(memory), k) && NothingToRetire(old(memory), k, c)) ==>
                && r == ResultOf(c) && disk == memory == AfterPublish(old(memory), k, c)
                && (c == ReplyLost && old(memory).commentId != None ==> k in state.edits)
    {
      var labels;
      r, labels := Fresh(k);
      if r != Ok {
        return;
      }
      if EffectsBlocked(memory, Some(k), memory.gens[k].hasRecord) {
        return Refused;
      }
      if !apply {
        r := Propose(k);
        return;
      }
      r := PublishUnblocked(k, labels.edits);
    }

    method PublishUnblocked(k: Key, edits: nat) returns (r: Result)
      requires Valid() && k in memory.gens && disk == memory
      requires !EffectsBlocked(memory, Some(k), memory.gens[k].hasRecord)
      requires memory.gens[k].commentIntent && !memory.gens[k].commentDone ==> memory.commentId != None
      modifies this`disk, this`memory, this`at, this`events, this`state
      ensures Valid() && old(events) <= events
      ensures r == Ok ==> disk == memory && memory.published == Some(k) == memory.current
      ensures r == Ok ==> k in memory.gens && memory.gens[k].status == Published
      ensures forall c :: (PublishCourse(script, old(at), old(memory).gens[k].labelsDone, c) && edits == 0
                           && Ready(old(memory), k) && NothingToRetire(old(memory), k, c)) ==>
                && r == ResultOf(c) && disk == memory == AfterPublish(old(memory), k, c)
                && (c == ReplyLost && old(memory).commentId != None ==> k in state.edits)
    {
      r := Ask();  // the lease
      if r == Ok {
        r := StartPublishing(k);
      }
      if r == Ok {
        OthersDecide(old(memory), memory, k);
        r := Complete(k, edits);
      }
    }

    /** Both effects, and then the mark. */
    method Complete(k: Key, edits: nat) returns (r: Result)
      requires Valid() && k in memory.gens && disk == memory
      requires !EffectsBlocked(memory, Some(k), memory.gens[k].hasRecord)
      requires memory.gens[k].commentIntent && !memory.gens[k].commentDone ==> memory.commentId != None
      modifies this`disk, this`memory, this`at, this`events, this`state
      ensures Valid() && old(events) <= events
      ensures r == Ok ==> disk == memory && memory.published == Some(k) == memory.current
      ensures r == Ok ==> k in memory.gens && memory.gens[k].status == Published
      ensures forall c :: (CompleteCourse(script, old(at), old(memory).gens[k].labelsDone, c) && edits == 0
                           && old(memory).current == Some(k) && !old(memory).hold && !old(memory).gens[k].commentDone
                           && (c.Written? ==> Retired(Completed(old(memory), k, c))
                                              == Completed(old(memory), k, c))) ==>
                && r == ResultOf(c) && disk == memory == Completed(old(memory), k, c)
                && (c == ReplyLost && old(memory).commentId != None ==> k in state.edits)
    {
      r := WriteEffects(k, edits);
      if r == Ok {
        r := FinishPublishing(k);
      }
    }

    method Propose(k: Key) returns (r: Result)
      requires Valid() && k in memory.gens && disk == memory
      modifies this`disk, this`memory, this`at, this`events, this`state
      ensures Valid() && old(events) <= events && Quiet(old(state), state)
      ensures r == Ok ==> disk == memory && k in memory.gens && memory.gens[k].status == DryRun
    {
      if memory.gens[k].status != DryRun {
        SetStatus(k, DryRun);
      }
      r := Save();
    }

    method StartPublishing(k: Key) returns (r: Result)
      requires Valid() && k in memory.gens
      modifies this`disk, this`memory, this`at, this`events, this`state
      ensures Valid() && old(events) <= events && Quiet(old(state), state)
      ensures SameEffectsAll(old(memory), memory) && OthersSame(old(memory), memory, k)
      ensures memory == Started(old(memory), k)
      ensures r == Ok ==> disk == memory
      ensures Says(script, old(at), Good) ==> r == Ok && at == old(at) + 1
    {
      if memory.gens[k].status != DryRun {
        SetStatus(k, Publishing);
      }
      r := Save();
    }

    /** The two phases, each only if its effect has not been seen yet. */
    method WriteEffects(k: Key, edits: nat) returns (r: Result)
      requires Valid() && k in memory.gens && disk == memory
      requires !EffectsBlocked(memory, Some(k), memory.gens[k].hasRecord)
      requires memory.gens[k].commentIntent && !memory.gens[k].commentDone ==> memory.commentId != None
      modifies this`disk, this`memory, this`at, this`events, this`state
      ensures Valid() && old(events) <= events
      ensures r == Ok ==> disk == memory && k in memory.gens && memory.gens[k].labelsDone && memory.gens[k].commentDone
      ensures forall c :: (EffectsCourse(script, old(at), old(memory).gens[k].labelsDone, c) && edits == 0
                           && old(memory).current == Some(k) && !old(memory).hold
                           && !old(memory).gens[k].commentDone) ==>
                && r == ResultOf(c) && disk == memory == AfterEffects(old(memory), k, c)
                && (c.Written? ==> at == old(at) + if old(memory).gens[k].labelsDone then 8 else 12)
                && (c == ReplyLost && old(memory).commentId != None ==> k in state.edits)
    {
      r := LabelsFirst(k, edits);
      if r == Ok && !memory.gens[k].commentDone {
        OthersDecide(old(memory), memory, k);
        r := PublishComment(k);
      }
    }

    /** The label phase, and another look before the comment. */
    method LabelsFirst(k: Key, edits: nat) returns (r: Result)
      requires Valid() && k in memory.gens && disk == memory
      requires !EffectsBlocked(memory, Some(k), memory.gens[k].hasRecord)
      modifies this`disk, this`memory, this`at, this`events, this`state
      ensures Valid() && old(events) <= events && OthersSame(old(memory), memory, k)
      ensures r == Ok ==> disk == memory && memory.gens[k].labelsDone && memory.commentId == old(memory).commentId
      ensures r == Ok ==> SameComment(memory.gens[k], old(memory).gens[k])
      ensures (edits == 0 && LabelsCourse(script, old(at), old(memory).gens[k].labelsDone)
               && old(memory).current == Some(k) && !old(memory).hold) ==>
                && r == Ok && memory == WithLabels(old(memory), k)
                && at == old(at) + if old(memory).gens[k].labelsDone then 1 else 5
    {
      r := Ok;
      if !memory.gens[k].labelsDone {
        r := PublishLabels(k, edits);
      }
      if r == Ok {
        var labels;
        r, labels := Fresh(k);
      }
    }

    method FinishPublishing(k: Key) returns (r: Result)
      requires Valid() && k in memory.gens && disk == memory
      requires memory.gens[k].labelsDone && memory.gens[k].commentDone
      modifies this`disk, this`memory, this`at, this`events, this`state
      ensures Valid() && old(events) <= events && Quiet(old(state), state)
      ensures r == Ok ==> disk == memory && memory.published == Some(k) == memory.current
      ensures r == Ok ==> k in memory.gens && memory.gens[k].status == Published
      ensures (Shows(script, old(at), Same) && Says(script, old(at) + 1, Good) && old(memory).current == Some(k)
               && !old(memory).hold && Retired(Marked(old(memory), k)) == Marked(old(memory), k)) ==>
                r == Ok && memory == Marked(old(memory), k)
    {
      var labels;
      r, labels := Fresh(k);
      if r == Ok {
        MarkPublished(k);
        r := RetireSuperseded();
      }
      if r == Ok {
        r := Save();
      }
    }

    method MarkPublished(k: Key)
      requires Valid() && k in memory.gens && memory.current == Some(k)
      requires memory.gens[k].labelsDone && memory.gens[k].commentDone
      modifies this`memory, this`events, this`state
      ensures Valid() && old(events) <= events && Quiet(old(state), state)
      ensures memory == Marked(old(memory), k)
    {
      Happen(Publish(k));
      memory := SetGen(memory, k, memory.gens[k].(status := Published)).(published := Some(k));
    }

    /** Publishing `k` supersedes no proposal. */
    static ghost predicate NothingToRetire(b: Book, k: Key, c: Course) {
      k in b.gens && c.Written? ==> Retired(AfterPublish(b, k, c)) == AfterPublish(b, k, c)
    }

    // --- Superseded proposals. ----------------------------------------------------------------

    /** `retire_superseded_dry_runs`: all of them, and nothing else. */
    method RetireSuperseded() returns (r: Result)
      requires Valid()
      modifies this`disk, this`memory, this`at, this`events, this`state
      ensures Valid() && old(events) <= events && Quiet(old(state), state) && r in {Ok, Refused, Dead}
      ensures memory == Retired(old(memory))
      ensures r == Ok && old(disk == memory) ==> disk == memory
      ensures memory == old(memory) ==> r == Ok && at == old(at)
    {
      ghost var before, done := memory, {};
      var pending, changed := memory.gens.Keys, false;
      NoneRetired(before);
      while pending != {}
        invariant Valid() && old(events) <= events && Quiet(old(state), state)
        invariant pending !! done && done + pending == before.gens.Keys
        invariant memory == RetiredIn(before, done) && disk == old(disk) && at == old(at)
        invariant changed <==> memory != before
        decreases pending
      {
        var k :| k in pending;
        RetiringIsIndependent(before, done, k);
        var one := RetireOne(k);
        pending, changed, done := pending - {k}, changed || one, done + {k};
      }
      r := Ok;
      if changed {
        r := Save();
      }
    }

    method RetireOne(k: Key) returns (changed: bool)
      requires Valid()
      modifies this`memory, this`events, this`state
      ensures Valid() && old(events) <= events && Quiet(old(state), state)
      ensures changed == Superseded(old(memory), k)
      ensures memory == if changed then SetGen(old(memory), k, old(memory).gens[k].(status := Stale)) else old(memory)
    {
      changed := Superseded(memory, k);
      if changed {
        Happen(Retire(k));
        memory := SetGen(memory, k, memory.gens[k].(status := Stale));
      }
    }

    // --- Auxiliary writes: the comment of one piece of evidence and, for a sweep, its label. ------

    method SetCheckpoint(key: Key, c: Checkpoint, ghost e: Event)
      requires Valid() && Enabled(state, e) && NewBook(state, e) == memory.(sweeps := memory.sweeps[key := c])
      requires e != Crashed && e != Saved && !e.SendComment? && !e.SendLabels? && !e.AuxSendComment?
      modifies this`memory, this`events, this`state
      ensures Valid() && old(events) <= events && Quiet(old(state), state)
      ensures memory == old(memory).(sweeps := old(memory).sweeps[key := c]) && state.armed == NewArmed(old(state), e)
    {
      Happen(e);
      memory := memory.(sweeps := memory.sweeps[key := c]);
    }

    /** Save, drop the authority of the canonical comment, and save again. */
    method Disown() returns (r: Result)
      requires Valid()
      modifies this`disk, this`memory, this`at, this`events, this`state
      ensures Valid() && old(events) <= events && Quiet(old(state), state) && state.armed == old(state).armed
      ensures memory in {old(memory), old(memory).(current := None)}
      ensures r == Ok ==> disk == memory
    {
      r := Save();
      if r == Ok {
        SetCurrent(None);
        r := Save();
      }
    }

    method Auxiliary(key: Key, labelled: bool) returns (r: Result)
      requires Valid() && disk == memory
      modifies this`disk, this`memory, this`at, this`events, this`state
      ensures Valid() && old(events) <= events && (!apply ==> Quiet(old(state), state))
      ensures r == Ok ==> disk == memory && (apply ==> Check(memory, key) == Done)
    {
      if Check(memory, key) == Done {
        return Ok;
      }
      if EffectsBlocked(memory, None, false) {
        return Refused;
      }
      if !apply {
        return Ok;
      }
      r := Ask();  // held, inputs changed, lease lost
      var a := Next();
      if r != Ok || a == None || !a.value.AuxView? || a.value.found > 1 {
        return if r == Dead || a == None then Dead else Refused;
      }
      if a.value.found == 0 {
        if labelled && !a.value.hasLabel && Check(memory, key) != LabelsDone {
          r := AuxiliaryLabels(key, a.value.edits);
        }
        if r == Ok {
          r := AuxiliaryComment(key);
        }
      }
      if r == Ok {
        r := AuxiliaryDone(key);
      }
    }

    method AuxiliaryDone(key: Key) returns (r: Result)
      requires Valid() && Check(memory, key) != LabelIntent
      modifies this`disk, this`memory, this`at, this`events, this`state
      ensures Valid() && old(events) <= events && Quiet(old(state), state)
      ensures r == Ok ==> disk == memory && Check(memory, key) == Done
    {
      SetCheckpoint(key, Done, AuxSeen(key));
      r := Save();
    }

    method AuxiliaryLabels(key: Key, edits: nat) returns (r: Result)
      requires Valid() && disk == memory && !EffectsBlocked(memory, None, false)
      requires Check(memory, key) in {Untouched, Aborted}
      modifies this`disk, this`memory, this`at, this`events, this`state
      ensures Valid() && old(events) <= events && Quiet(old(state), state)
      ensures r == Ok ==> disk == memory && Check(memory, key) == LabelsDone && !EffectsBlocked(memory, None, false)
    {
      var previous := memory.current;
      SetCheckpoint(key, LabelIntent, AuxOpenLabels(key));
      r := Disown();
      if r != Ok {
        return;
      }
      r := Ask();  // before the first edit
      if r == Refused {
        r := AbortAuxiliary(key, previous);
      } else if r == Ok {
        r := SendAuxiliaryLabels(key, edits);
      }
      CheckpointMoves(old(memory), memory, key);
    }

    method SendAuxiliaryLabels(key: Key, edits: nat) returns (r: Result)
      requires Valid() && disk == memory && state.armed == AuxLabels(key) && Check(memory, key) == LabelIntent
      modifies this`disk, this`memory, this`at, this`events, this`state
      ensures Valid() && old(events) <= events && Quiet(old(state), state)
      ensures r == Ok ==> disk == memory == old(memory).(sweeps := old(memory).sweeps[key := LabelsDone])
    {
      Happen(AuxSendLabels(key));
      r := AuxiliaryEdits(edits);
      if r == Ok {
        r := ObserveAuxiliaryLabels(key);
      }
    }

    method AbortAuxiliary(key: Key, previous: Option<Key>) returns (r: Result)
      requires Valid() && state.armed == AuxLabels(key)
      modifies this`disk, this`memory, this`at, this`events, this`state
      ensures Valid() && old(events) <= events && Quiet(old(state), state) && r in {Refused, Dead}
    {
      SetCheckpoint(key, Aborted, AuxAbort(key));
      SetCurrent(previous);
      r := Save();
      r := if r == Dead then Dead else Refused;
    }

    method AuxiliaryEdits(edits: nat) returns (r: Result)
      modifies this`at
      ensures r in {Ok, Doubt, Dead}
    {
      r := Ok;
      for i := 0 to edits
        invariant r == Ok
      {
        var a := Next();
        r := if a == Some(Good) then Ok else if a == None then Dead else Doubt;
        if r != Ok {
          return;
        }
      }
    }

    /** Only the label state itself resolves the intent. */
    method ObserveAuxiliaryLabels(key: Key) returns (r: Result)
      requires Valid() && disk == memory && Check(memory, key) == LabelIntent
      modifies this`disk, this`memory, this`at, this`events, this`state
      ensures Valid() && old(events) <= events && Quiet(old(state), state)
      ensures r == Ok ==> disk == memory == old(memory).(sweeps := old(memory).sweeps[key := LabelsDone])
    {
      r := Ask();
      if r == Ok {
        SetCheckpoint(key, LabelsDone, AuxSeenLabels(key));
        r := Save();
      }
    }

    method AuxiliaryComment(key: Key) returns (r: Result)
      requires Valid() && disk == memory && !EffectsBlocked(memory, None, false)
      requires Check(memory, key) in {Untouched, Aborted, LabelsDone}
      modifies this`disk, this`memory, this`at, this`events, this`state
      ensures Valid() && old(events) <= events
      ensures r == Ok ==> Check(memory, key) == CommentIntent
    {
      SetCheckpoint(key, CommentIntent, AuxOpenComment(key));
      SetCurrent(None);
      r := Save();
      if r == Ok {
        r := SendAuxiliaryComment(key);
      }
    }

    method SendAuxiliaryComment(key: Key) returns (r: Result)
      requires Valid() && disk == memory && state.armed == AuxComment(key)
      modifies this`at, this`events, this`state
      ensures Valid() && old(events) <= events
    {
      r := Ask();
      if r == Ok {
        Happen(AuxSendComment(key));
        var a := Next();
        r := if a == None then Dead else if a.value.Created? then Ok else Doubt;
      }
    }

    /** `reconcile_auxiliary`: what the issue shows of an open checkpoint resolves it, and nothing else
        does. */
    method ReconcileAuxiliary(views: map<Key, View>) returns (r: Result)
      requires Valid() && disk == memory
      modifies this`disk, this`memory, this`at, this`events, this`state
      ensures Valid() && old(events) <= events && Quiet(old(state), state) && r in {Ok, Refused, Dead}
      ensures memory.sweeps.Keys == old(memory).sweeps.Keys && memory == old(memory).(sweeps := memory.sweeps)
      ensures forall key :: key in old(memory).sweeps ==>
                memory.sweeps[key] in {old(memory).sweeps[key], Resolved(old(memory).sweeps[key], Of(views, key))}
      ensures r == Ok ==> disk == memory && forall key :: key in old(memory).sweeps ==>
                memory.sweeps[key] == Resolved(old(memory).sweeps[key], Of(views, key))
                && !TooMany(old(memory).sweeps[key], Of(views, key))
    {
      r := Ok;
      ghost var before := memory.sweeps;
      var pending := memory.sweeps.Keys;
      while pending != {}
        invariant Valid() && old(events) <= events && Quiet(old(state), state) && disk == memory && r == Ok
        invariant pending <= before.Keys && memory == old(memory).(sweeps := memory.sweeps)
        invariant memory.sweeps.Keys == before.Keys
        invariant forall key :: key in before && key in pending ==> memory.sweeps[key] == before[key]
        invariant forall key :: key in before && key !in pending ==>
                    memory.sweeps[key] == Resolved(before[key], Of(views, key)) && !TooMany(before[key], Of(views, key))
        decreases pending
      {
        var key :| key in pending;
        pending := pending - {key};
        r := ReconcileCheckpoint(key, Of(views, key));
        if r != Ok {
          return;
        }
      }
    }

    method ReconcileCheckpoint(key: Key, v: View) returns (r: Result)
      requires Valid() && disk == memory && key in memory.sweeps
      modifies this`disk, this`memory, this`at, this`events, this`state
      ensures Valid() && old(events) <= events && Quiet(old(state), state) && r in {Ok, Refused, Dead}
      ensures key in memory.sweeps
      ensures memory == old(memory).(sweeps := old(memory).sweeps[key := memory.sweeps[key]])
      ensures memory.sweeps[key] in {old(memory).sweeps[key], Resolved(old(memory).sweeps[key], v)}
      ensures r == Ok ==>
                && disk == memory && memory.sweeps[key] == Resolved(old(memory).sweeps[key], v)
                && !TooMany(old(memory).sweeps[key], v)
    {
      var c := memory.sweeps[key];
      assert memory.sweeps[key := c] == memory.sweeps;
      if TooMany(c, v) {
        return Refused;
      }
      r := Ok;
      if c == LabelIntent && v.labelled {
        SetCheckpoint(key, LabelsDone, AuxSeenLabels(key));
        r := Save();
      } else if c == CommentIntent && v.found == 1 {
        SetCheckpoint(key, Done, AuxSeen(key));
        r := Save();
      }
    }

    // --- Everything else the runner does to the journal, and the end of a process. ---------------

    /** Claim a generation, which makes it the current one whether or not it is there already, or move an
        unpublished one on: planned, admitted, checked, failed. */
    method Prepare(k: Key, status: Status, record: bool) returns (r: Result)
      requires Valid() && disk == memory
      modifies this`disk, this`memory, this`at, this`events, this`state
      ensures Valid() && old(events) <= events && Quiet(old(state), state)
      ensures r == Ok ==> disk == memory
      ensures k !in old(memory).gens && record && Says(script, old(at), Good) ==>
                r == Ok && memory == SetGen(old(memory), k, NEW.(hasRecord := true)).(current := Some(k))
      ensures status == Claimed ==> memory.current == Some(k)
      ensures k in old(memory).gens && status == Claimed && !record ==> memory == old(memory).(current := Some(k))
    {
      if k !in memory.gens {
        Claim(k);
      } else if status == Claimed {
        SetCurrent(Some(k));
      } else if memory.gens[k].status != DryRun && status != Published {
        SetStatus(k, status);
      }
      if record {
        SetTwice(memory, k, memory.gens[k], memory.gens[k].(hasRecord := true));
        GiveTheRecord(k);
        assert k !in old(memory).gens ==> memory.gens == old(memory).gens[k := NEW.(hasRecord := true)];
      }
      r := Save();
    }

    method Claim(k: Key)
      requires Valid() && k !in memory.gens
      modifies this`memory, this`events, this`state
      ensures Valid() && old(events) <= events && Quiet(old(state), state)
      ensures memory == SetGen(old(memory), k, NEW).(current := Some(k))
    {
      Happen(NewGen(k));
      memory := SetGen(memory, k, NEW);
      SetCurrent(Some(k));
    }

    method GiveTheRecord(k: Key)
      requires Valid() && k in memory.gens
      modifies this`memory, this`events, this`state
      ensures Valid() && old(events) <= events && Quiet(old(state), state)
      ensures memory == SetGen(old(memory), k, old(memory).gens[k].(hasRecord := true))
    {
      Happen(GiveRecord(k));
      memory := SetGen(memory, k, memory.gens[k].(hasRecord := true));
    }

    /** The process ends; the next one loads what was saved. */
    method Restart()
      requires Valid()
      modifies this`memory, this`events, this`state
      ensures Valid() && old(events) <= events && Quiet(old(state), state)
      ensures memory == disk
    {
      Happen(Crashed);
      memory := disk;
    }

    method Serve(c: Call) returns (r: Result)
      requires Valid() && disk == memory
      modifies this`disk, this`memory, this`at, this`events, this`state
      ensures Valid() && old(events) <= events && (!apply ==> Quiet(old(state), state))
      ensures r == Ok ==> disk == memory
    {
      r := Ok;
      match c
      case PrepareIt(k, status, record) => r := Prepare(k, status, record);
      case PublishIt(k) =>
        if k in memory.gens {
          r := PublishGeneration(k);
        }
      case ReconcileIt(k, labels) =>
        if k in memory.gens {
          r := ReconcileLabels(k, labels);
        }
      case RetireAll => r := RetireSuperseded();
      case Sweep(views) => r := ReconcileAuxiliary(views);
      case Evidence(key, labelled) => r := Auxiliary(key, labelled);
    }
  }

  datatype Call = PrepareIt(k: Key, status: Status, record: bool) | PublishIt(k: Key)
                | ReconcileIt(k: Key, labels: Labels) | RetireAll | Sweep(views: map<Key, View>)
                | Evidence(key: Key, labelled: bool)

  /** Any number of batches and sweeps, each call with any answers, and a process that ends wherever
      its answers do or a refusal leaves the journal unsaved. */
  method Lifetime(apply: bool, calls: seq<(Call, seq<Answer>)>) returns (runner: Runner)
    ensures runner.Valid()
    ensures |runner.state.creates| <= 1
    ensures runner.state.creates != [] ==>
              runner.disk.commentId != None || FencesCreate(runner.disk, runner.state.creates[0])
    ensures OneWriter(runner.disk) && PublishedDone(runner.disk)
    ensures forall i, j :: 0 <= i < j < |runner.state.auxCreates| ==>
              runner.state.auxCreates[i] != runner.state.auxCreates[j]
    ensures !apply ==> Quiet(START, runner.state)
  {
    runner := new Runner(apply);
    for i := 0 to |calls|
      invariant runner.Valid() && runner.disk == runner.memory && fresh(runner) && runner.apply == apply
      invariant !apply ==> Quiet(START, runner.state)
    {
      runner.script, runner.at := calls[i].1, 0;
      var r := runner.Serve(calls[i].0);
      if r == Dead || runner.disk != runner.memory {
        runner.Restart();
      }
    }
    assert Legal(runner.events);
    RunKeepsInv(runner.events);
    ObservedSoFar(runner.events);
  }

  lemma KeptGen(b: Book, k: Key)
    requires k in b.gens
    ensures SetGen(b, k, b.gens[k]) == b
  {
    assert b.gens[k := b.gens[k]] == b.gens;
  }

  lemma SetTwice(b: Book, k: Key, g: Gen, h: Gen)
    ensures SetGen(SetGen(b, k, g), k, h) == SetGen(b, k, h)
  {
    assert b.gens[k := g][k := h] == b.gens[k := h];
  }

  /** Opening the intent first makes no difference to where a course leads. */
  lemma SameCourses(b: Book, k: Key)
    requires k in b.gens
    ensures forall c :: AfterComment(SetGen(b, k, b.gens[k].(commentIntent := true)), k, c) == AfterComment(b, k, c)
  {
    forall c ensures AfterComment(SetGen(b, k, b.gens[k].(commentIntent := true)), k, c) == AfterComment(b, k, c) {
      var g := b.gens[k];
      SetTwice(b, k, g.(commentIntent := true), g.(commentIntent := true, commentDone := true));
      SetTwice(b, k, g.(commentIntent := true), g.(commentIntent := true));
      SetTwice(b, k, g.(commentIntent := true), g.(commentIntent := false, status := Demoted(g.status, true)));
    }
  }

  lemma StatusIsNoEffect(b: Book, k: Key, s: Status)
    requires k in b.gens
    ensures SameEffectsAll(b, SetGen(b, k, b.gens[k].(status := s)))
    ensures OthersSame(b, SetGen(b, k, b.gens[k].(status := s)), k)
  {
  }

  /** A checkpoint that moves from one resolved state to another leaves the issue unblocked. */
  lemma CheckpointMoves(b: Book, c: Book, key: Key)
    requires !EffectsBlocked(b, None, false)
    ensures (c.gens == b.gens && c.sweeps.Keys <= b.sweeps.Keys + {key}
             && Check(c, key) !in {LabelIntent, CommentIntent}
             && forall x :: x in c.sweeps && x != key ==> x in b.sweeps && c.sweeps[x] == b.sweeps[x])
            ==> !EffectsBlocked(c, None, false)
  {
    assert !AuxOpen(b);
  }

  /** Whether `k` may write depends on the others only. */
  lemma OthersDecide(b: Book, c: Book, k: Key)
    requires OthersSame(b, c, k) && k in b.gens
    ensures EffectsBlocked(b, Some(k), b.gens[k].hasRecord) == EffectsBlocked(c, Some(k), c.gens[k].hasRecord)
  {
    assert forall j :: j in b.gens && Some(j) != Some(k) ==> j in c.gens && c.gens[j] == b.gens[j];
    assert forall j :: j in c.gens && Some(j) != Some(k) ==> j in b.gens && c.gens[j] == b.gens[j];
  }

  /** The book with the superseded proposals among `ks` retired. */
  ghost function RetiredIn(b: Book, ks: set<Key>): Book {
    b.(gens := map k | k in b.gens :: if k in ks && Superseded(b, k) then b.gens[k].(status := Stale) else b.gens[k])
  }

  ghost function Retired(b: Book): Book {
    RetiredIn(b, b.gens.Keys)
  }

  lemma NoneRetired(b: Book)
    ensures RetiredIn(b, {}) == b
  {
    assert RetiredIn(b, {}).gens == b.gens;
  }

  /** Retiring some proposals neither makes nor unmakes another one superseded. */
  lemma RetiringIsIndependent(b: Book, ks: set<Key>, k: Key)
    requires k in b.gens && k !in ks
    ensures Superseded(RetiredIn(b, ks), k) <==> Superseded(b, k)
    ensures RetiredIn(b, ks + {k}) ==
            if Superseded(b, k) then SetGen(RetiredIn(b, ks), k, b.gens[k].(status := Stale)) else RetiredIn(b, ks)
  {
    var c := RetiredIn(b, ks);
    assert c.gens[k] == b.gens[k];
    if b.current != None && b.current.value in b.gens && b.gens[b.current.value].status == Published {
      assert c.gens[b.current.value] == b.gens[b.current.value];
    }
    var d := RetiredIn(b, ks + {k});
    assert forall j :: j in b.gens && j != k ==> d.gens[j] == c.gens[j];
    assert d.gens == if Superseded(b, k) then c.gens[k := b.gens[k].(status := Stale)] else c.gens;
  }

  // --- How the fence of an edit is lost. -----------------------------------------------------------

  const WANTED := Labels.Labels(0, true)
  const SNAPSHOT := Snapshot(Same, WANTED)

  /** The answers of one attempt that goes this way. */
  function Attempt(c: Course, labelsDone: bool): seq<Answer> {
    [Issue(false, Listing([], true, true, true), WANTED), SNAPSHOT, Good, Good]
    + (if labelsDone then [] else [Good, Good, SNAPSHOT, Good])
    + [SNAPSHOT, Good]
    + match c
      case Written(id) =>
        [SNAPSHOT, Good, Created(id), Good, Issue(false, Listing([id], true, true, true), WANTED), Good, SNAPSHOT, Good]
      case ReplyLost => [SNAPSHOT, Good, Unclear]
      case HeldUp => [Snapshot(HoldLabel, WANTED), Good, Good]
  }

  lemma AttemptIsCourse(c: Course, labelsDone: bool)
    requires c.Written? ==> c.id > 0
    ensures var s := Attempt(c, labelsDone);
            Lists(s, 0, []) && AllQuiet(s, 1) && PublishCourse(s, 2, labelsDone, c)
  {
  }

  /** After a lost reply to an edit the generation is ready for another attempt. */
  lemma StaysReady(b: Book, k: Key)
    requires Ready(b, k) && b.commentId != None
    ensures Ready(AfterPublish(b, k, ReplyLost), k)
    ensures AfterPublish(b, k, ReplyLost).commentId == b.commentId
    ensures AfterPublish(b, k, ReplyLost).gens[k].labelsDone
  {
    var c := AfterPublish(b, k, ReplyLost);
    assert OthersSame(b, c, k);
    OthersDecide(b, c, k);
  }

  /** Whenever a generation is ready to edit the comment that the journal names, this takes the fence of
      its edit away: the reply to the edit is lost, the process ends, and the next attempt is refused
      just before it would write. */
  method LoseFence(runner: Runner, k: Key)
    requires runner.Valid() && runner.apply && runner.disk == runner.memory
    requires Ready(runner.memory, k) && runner.memory.commentId != None
    modifies runner
    ensures runner.Valid() && k in runner.state.edits
    ensures runner.disk == runner.memory
              == AfterPublish(AfterPublish(old(runner.memory), k, ReplyLost), k, HeldUp)
  {
    StaysReady(runner.memory, k);
    GoThrough(runner, k, ReplyLost);
    ghost var es, s := runner.events, runner.state;
    runner.Restart();
    GoThrough(runner, k, HeldUp);
    EditsOnlyGrow(es, s, runner.events, runner.state);
  }

  /** One attempt that goes this way. */
  method GoThrough(runner: Runner, k: Key, c: Course)
    requires runner.Valid() && runner.apply && runner.disk == runner.memory && (c.Written? ==> c.id > 0)
    requires Ready(runner.memory, k) && Runner.NothingToRetire(runner.memory, k, c)
    modifies runner
    ensures runner.Valid() && old(runner.events) <= runner.events
    ensures runner.disk == runner.memory == AfterPublish(old(runner.memory), k, c)
    ensures c == ReplyLost && old(runner.memory).commentId != None ==> k in runner.state.edits
  {
    var labelsDone := runner.memory.gens[k].labelsDone;
    AttemptIsCourse(c, labelsDone);
    runner.script, runner.at := Attempt(c, labelsDone), 0;
    var r := runner.PublishGeneration(k);
  }

  /** The promise that a refusal on a later attempt cannot abort an earlier unresolved intent fails for the
      edits of `publish`: one generation is published, the edit of the next is in doubt, and in the end
      no intent says so and an auxiliary write is free to go. */
  method EditFenceLost() returns (runner: Runner)
    ensures fresh(runner) && runner.Valid() && 2 in runner.state.edits
    ensures 2 in runner.disk.gens && !Unresolved(runner.disk.gens[2]) && !runner.disk.gens[2].commentDone
    ensures !EffectsBlocked(runner.disk, None, false)
  {
    runner := FirstPublished();
    runner.script, runner.at := [Good], 0;
    var r := runner.Prepare(2, Claimed, true);
    SecondReady();
    LoseFence(runner, 2);
    FenceIsGone();
  }

  function FirstBook(): Book { SetGen(EMPTY, 1, NEW.(hasRecord := true)).(current := Some(1)) }
  function PublishedBook(): Book { AfterPublish(FirstBook(), 1, Written(7)) }
  function SecondBook(): Book { SetGen(PublishedBook(), 2, NEW.(hasRecord := true)).(current := Some(2)) }

  method FirstPublished() returns (runner: Runner)
    ensures fresh(runner) && runner.Valid() && runner.apply && runner.disk == runner.memory == PublishedBook()
  {
    runner := new Runner(true);
    runner.script, runner.at := [Good], 0;
    var r := runner.Prepare(1, Claimed, true);
    FirstReady();
    GoThrough(runner, 1, Written(7));
  }

  lemma FirstReady()
    ensures Ready(FirstBook(), 1) && Runner.NothingToRetire(FirstBook(), 1, Written(7))
  {
    var b := PublishedBook();
    assert forall k :: k in b.gens ==> k == 1 && !Superseded(b, k);
    assert Retired(b).gens == b.gens;
  }

  lemma SecondReady()
    ensures Ready(SecondBook(), 2) && SecondBook().commentId == Some(7)
  {
    var b := SecondBook();
    assert b.gens[1].status == Published && !Unresolved(b.gens[1]);
    assert b.sweeps == map[];
  }

  lemma FenceIsGone()
    ensures var b := AfterPublish(AfterPublish(SecondBook(), 2, ReplyLost), 2, HeldUp);
            && 2 in b.gens && !Unresolved(b.gens[2]) && !b.gens[2].commentDone && !EffectsBlocked(b, None, false)
  {
    var b := AfterPublish(AfterPublish(SecondBook(), 2, ReplyLost), 2, HeldUp);
    assert b.gens[1].status == Published && !Unresolved(b.gens[1]);
    assert b.gens[2].status == HeldBack && !Unresolved(b.gens[2]);
    assert b.sweeps == map[];
  }
}
