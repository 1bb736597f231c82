/**
 Publication of triage results on one issue (scripts/backlog-triage.py) as a protocol: many
 generations, each with a label phase and a comment phase guarded by durable intents, and the
 auxiliary writes of the weekly sweep. A run is any sequence of events, crashes included.
 */
module TriageProtocol {
  import opened Basics

  type Key = nat

  datatype Status = Claimed | Planning | Admitting | Uncertain | Checked | DryRun | Publishing
                  | Published | HeldBack | Stale | FailedRun | Suspended

  datatype Gen = Gen(status: Status, hasRecord: bool, labelsIntent: bool, labelsDone: bool,
                     commentIntent: bool, commentDone: bool)

  const NEW := Gen(Claimed, false, false, false, false, false)

  /** The checkpoint of one auxiliary effect; `Untouched` when there is none. */
  datatype Checkpoint = Untouched | LabelIntent | LabelsDone | CommentIntent | Done | Aborted

  /** What the journal holds about the issue. */
  datatype Book = Book(gens: map<Key, Gen>, commentId: Option<nat>, hold: bool, current: Option<Key>,
                       published: Option<Key>, sweeps: map<Key, Checkpoint>)

  /** An effect whose intent the running process has opened and of which it has sent nothing yet;
      `before`: the intent was open already, left by an earlier attempt. */
  datatype Armed = Nothing | Labels(k: Key, before: bool) | Comment(k: Key, before: bool)
                 | AuxLabels(k: Key) | AuxComment(k: Key)

  /** `creates`: the canonical comments that may have been created, by generation. `edits`: the
      generations whose edit of the canonical comment may have landed. `labelled`: those whose label
      writes may have. `auxCreates`: the auxiliary comments that may have been created. */
  datatype State = State(disk: Book, memory: Book, armed: Armed,
                         creates: seq<Key>, edits: set<Key>, labelled: set<Key>, auxCreates: seq<Key>)

  datatype Event =
    | Crashed
    | Saved
    | NewGen(k: Key)
    | Assign(k: Key, status: Status)
    | GiveRecord(k: Key)
    | Point(current: Option<Key>)
    | SetHold(hold: bool)
    | OpenLabels(k: Key)
    | SendLabels(k: Key)
    | AbortLabels(k: Key)
    | SeenLabels(k: Key)
    | OpenComment(k: Key)
    | SendComment(k: Key)
    | AbortComment(k: Key)
    | JournalId(id: nat)
    | SeenComment(k: Key, id: nat)
    | Publish(k: Key)
    | Retire(k: Key)
    | AuxOpenLabels(k: Key)
    | AuxSendLabels(k: Key)
    | AuxAbort(k: Key)
    | AuxSeenLabels(k: Key)
    | AuxOpenComment(k: Key)
    | AuxSendComment(k: Key)
    | AuxSeen(k: Key)

  const START := State(EMPTY, EMPTY, Nothing, [], {}, {}, [])
  const EMPTY := Book(map[], None, false, None, None, map[])

  /** `unresolved_effects`: an intent without its completion. */
  predicate Unresolved(g: Gen) {
    (g.labelsIntent && !g.labelsDone) || (g.commentIntent && !g.commentDone)
  }

  predicate InFlight(s: Status) {
    s in {Planning, Admitting, Uncertain, Checked, DryRun, Publishing, Claimed}
  }

  predicate AuxOpen(b: Book) {
    exists k :: k in b.sweeps && b.sweeps[k] in {LabelIntent, CommentIntent}
  }

  /** `effects_blocked`: an auxiliary intent is open, or a generation other than `except` is in flight
      or unresolved; a proposal without unresolved effects may be passed by its checked replacement. */
  predicate EffectsBlocked(b: Book, except: Option<Key>, replacing: bool) {
    AuxOpen(b)
    || exists k :: k in b.gens && Some(k) != except
                   && !(replacing && b.gens[k].status == DryRun && !Unresolved(b.gens[k]))
                   && (InFlight(b.gens[k].status) || Unresolved(b.gens[k]))
  }

  function Check(b: Book, k: Key): Checkpoint {
    if k in b.sweeps then b.sweeps[k] else Untouched
  }

  /** When a superseded proposal may be retired: its replacement is published, completely. */
  predicate Superseded(b: Book, k: Key) {
    && k in b.gens && b.gens[k].status == DryRun && !Unresolved(b.gens[k])
    && b.current != None && b.current != Some(k) && b.published == b.current
    && b.current.value in b.gens
    && var r := b.gens[b.current.value];
       r.status == Published && r.hasRecord && r.labelsDone && r.commentDone
  }

  predicate Enabled(s: State, e: Event) {
    var b := s.memory;
    match e
    case Crashed => true
    case Saved => true
    case NewGen(k) => k !in b.gens
    case Assign(k, t) => k in b.gens && b.gens[k].status != DryRun && t != Published
    case GiveRecord(k) => k in b.gens
    case Point(_) => true
    case SetHold(_) => true
    case OpenLabels(k) => k in b.gens && !b.gens[k].labelsDone && !EffectsBlocked(b, Some(k), b.gens[k].hasRecord)
    case SendLabels(k) => s.armed.Labels? && s.armed.k == k && s.disk == b && k in b.gens
    case AbortLabels(k) => s.armed == Labels(k, false) && k in b.gens
    case SeenLabels(k) => k in b.gens && b.gens[k].labelsIntent
    case OpenComment(k) =>
      && k in b.gens && !b.gens[k].commentDone && !EffectsBlocked(b, Some(k), b.gens[k].hasRecord)
      && (b.gens[k].commentIntent ==> b.commentId != None)
    case SendComment(k) => s.armed.Comment? && s.armed.k == k && s.disk == b && k in b.gens
    case AbortComment(k) => s.armed.Comment? && s.armed.k == k && k in b.gens
    case JournalId(_) => true
    case SeenComment(k, id) => k in b.gens && (b.commentId == None || b.commentId == Some(id))
    case Publish(k) => k in b.gens && b.current == Some(k) && b.gens[k].labelsDone && b.gens[k].commentDone
    case Retire(k) => Superseded(b, k)
    case AuxOpenLabels(k) => !EffectsBlocked(b, None, false) && Check(b, k) in {Untouched, Aborted}
    case AuxSendLabels(k) => s.armed == AuxLabels(k) && s.disk == b
    case AuxAbort(k) => s.armed == AuxLabels(k)
    case AuxSeenLabels(k) => Check(b, k) == LabelIntent
    case AuxOpenComment(k) => !EffectsBlocked(b, None, false) && Check(b, k) in {Untouched, LabelsDone, Aborted}
    case AuxSendComment(k) => s.armed == AuxComment(k) && s.disk == b
    case AuxSeen(k) => Check(b, k) in {CommentIntent, Untouched, Aborted, LabelsDone, Done}
  }

  function SetGen(b: Book, k: Key, g: Gen): Book {
    b.(gens := b.gens[k := g])
  }

  /** How an event changes the journal in memory. */
  function NewBook(s: State, e: Event): Book
    requires Enabled(s, e)
  {
    var b := s.memory;
    match e
    case Crashed => s.disk
    case NewGen(k) => SetGen(b, k, NEW)
    case Assign(k, t) => SetGen(b, k, b.gens[k].(status := t))
    case GiveRecord(k) => SetGen(b, k, b.gens[k].(hasRecord := true))
    case Point(c) => b.(current := c)
    case SetHold(h) => b.(hold := h)
    case OpenLabels(k) => SetGen(b, k, b.gens[k].(labelsIntent := true))
    case AbortLabels(k) => SetGen(b, k, b.gens[k].(labelsIntent := false))
    case SeenLabels(k) => SetGen(b, k, b.gens[k].(labelsDone := true))
    case OpenComment(k) => SetGen(b, k, b.gens[k].(commentIntent := true))
    case AbortComment(k) => SetGen(b, k, b.gens[k].(commentIntent := false))
    case JournalId(id) => b.(commentId := Some(id))
    case SeenComment(k, id) => SetGen(b, k, b.gens[k].(commentDone := true)).(commentId := Some(id))
    case Publish(k) => SetGen(b, k, b.gens[k].(status := Published)).(published := Some(k))
    case Retire(k) => SetGen(b, k, b.gens[k].(status := Stale))
    case AuxOpenLabels(k) => b.(sweeps := b.sweeps[k := LabelIntent])
    case AuxAbort(k) => b.(sweeps := b.sweeps[k := Aborted])
    case AuxSeenLabels(k) => b.(sweeps := b.sweeps[k := LabelsDone])
    case AuxOpenComment(k) => b.(sweeps := b.sweeps[k := CommentIntent])
    case AuxSeen(k) => b.(sweeps := b.sweeps[k := Done])
    case Saved => b
    case SendLabels(_) => b
    case SendComment(_) => b
    case AuxSendLabels(_) => b
    case AuxSendComment(_) => b
  }

  function NewArmed(s: State, e: Event): Armed
    requires Enabled(s, e)
  {
    match e
    case Saved => s.armed
    case SetHold(_) => s.armed
    case Point(_) => s.armed
    case Assign(_, _) => s.armed
    case OpenLabels(k) => Labels(k, s.memory.gens[k].labelsIntent)
    case OpenComment(k) => Comment(k, s.memory.gens[k].commentIntent)
    case AuxOpenLabels(k) => AuxLabels(k)
    case AuxOpenComment(k) => AuxComment(k)
    case _ => Nothing
  }

  function Apply(s: State, e: Event): State
    requires Enabled(s, e)
  {
    var t := s.(memory := NewBook(s, e), armed := NewArmed(s, e));
    match e
    case Saved => t.(disk := s.memory)
    case SendLabels(k) => t.(labelled := s.labelled + {k})
    case SendComment(k) =>
      if s.memory.commentId == None then t.(creates := s.creates + [k]) else t.(edits := s.edits + {k})
    case AuxSendComment(k) => t.(auxCreates := s.auxCreates + [k])
    case _ => t
  }

  ghost predicate Legal(es: seq<Event>)
    decreases |es|, 0
  {
    es == [] || (Legal(es[..|es| - 1]) && Enabled(After(es[..|es| - 1]), es[|es| - 1]))
  }

  ghost function After(es: seq<Event>): State
    requires Legal(es)
    decreases |es|, 1
  {
    if es == [] then START else Apply(After(es[..|es| - 1]), es[|es| - 1])
  }

  /** `es` is a run and leads to `s`: said of whatever equals `es`, so that a proof about one more step
      does not unfold the run. */
  ghost predicate LeadsTo(es: seq<Event>, s: State) {
    forall fs :: fs == es ==> Legal(fs) && After(fs) == s
  }

  lemma OneMore(es: seq<Event>, s: State, e: Event)
    requires LeadsTo(es, s) && Enabled(s, e)
    ensures LeadsTo(es + [e], Apply(s, e))
  {
    assert Legal(es) && After(es) == s;
    forall fs | fs == es + [e] ensures Legal(fs) && After(fs) == Apply(s, e) {
      assert fs[..|fs| - 1] == es;
    }
  }

  lemma {:induction false} EditsOnlyGrow(es: seq<Event>, s: State, fs: seq<Event>, t: State)
    requires LeadsTo(es, s) && LeadsTo(fs, t) && es <= fs
    ensures s.edits <= t.edits
    decreases |fs|
  {
    assert Legal(es) && Legal(fs);
    if |es| < |fs| {
      var before := fs[..|fs| - 1];
      assert es <= before;
      forall gs | gs == before ensures Legal(gs) && After(gs) == After(before) {
      }
      EditsOnlyGrow(es, s, before, After(before));
    } else {
      assert es == fs;
    }
  }

  // --- What every run keeps, of the journal in memory and of the one on disk. --------------------

  /** Generation `k` may have created the comment, and its intent still says so. */
  ghost predicate FencesCreate(b: Book, k: Key) {
    k in b.gens && b.gens[k].commentIntent && !b.gens[k].commentDone
  }

  /** A create that may have been sent is journaled by id or fenced by its own open intent. */
  ghost predicate CreateKnown(b: Book, creates: seq<Key>) {
    creates != [] ==> b.commentId != None || FencesCreate(b, creates[0])
  }

  ghost predicate LabelsKnown(b: Book, labelled: set<Key>) {
    forall k :: k in labelled ==> k in b.gens && b.gens[k].labelsIntent
  }

  ghost predicate AuxKnown(b: Book, auxCreates: seq<Key>) {
    forall k :: k in auxCreates ==> Check(b, k) in {CommentIntent, Done}
  }

  /** At most one effect of the issue is in doubt: one generation's, or one auxiliary one. */
  ghost predicate OneWriter(b: Book) {
    && (forall j, k :: j in b.gens && k in b.gens && Unresolved(b.gens[j]) && Unresolved(b.gens[k]) ==> j == k)
    && (forall k, x :: k in b.gens && Unresolved(b.gens[k]) && x in b.sweeps ==>
         b.sweeps[x] !in {LabelIntent, CommentIntent})
    && (forall x, y | x in b.sweeps && y in b.sweeps && b.sweeps[x] in {LabelIntent, CommentIntent}
                      && b.sweeps[y] in {LabelIntent, CommentIntent} :: x == y)
  }

  ghost predicate DoneHasId(b: Book) {
    forall k :: k in b.gens && b.gens[k].commentDone ==> b.commentId != None
  }

  ghost predicate BookInv(b: Book, s: State) {
    && CreateKnown(b, s.creates) && LabelsKnown(b, s.labelled) && AuxKnown(b, s.auxCreates)
    && OneWriter(b) && DoneHasId(b)
  }

  /** What is armed has not been sent: nor, for a create, by any generation; nor, for an auxiliary
      comment, before. */
  ghost predicate ArmedInv(s: State) {
    match s.armed
    case Nothing => true
    case Labels(k, before) =>
      k in s.memory.gens && s.memory.gens[k].labelsIntent && !s.memory.gens[k].labelsDone
      && (!before ==> k !in s.labelled)
    case Comment(k, before) =>
      k in s.memory.gens && s.memory.gens[k].commentIntent && !s.memory.gens[k].commentDone
      && (s.memory.commentId == None ==> s.creates == [])
    case AuxLabels(k) => Check(s.memory, k) == LabelIntent && k !in s.auxCreates
    case AuxComment(k) => Check(s.memory, k) == CommentIntent && k !in s.auxCreates
  }

  ghost predicate Inv(s: State) {
    && BookInv(s.memory, s) && BookInv(s.disk, s) && ArmedInv(s)
    && |s.creates| <= 1
    && (forall i, j :: 0 <= i < j < |s.auxCreates| ==> s.auxCreates[i] != s.auxCreates[j])
  }

  // One lemma per kind of event.

  lemma OpeningKeepsInv(s: State, e: Event)
    requires Inv(s) && Enabled(s, e) && (e.OpenLabels? || e.OpenComment?)
    ensures Inv(Apply(s, e))
  {
    assert !AuxOpen(s.memory);
    assert forall j :: j in s.memory.gens && j != e.k ==> !Unresolved(s.memory.gens[j]);
  }

  lemma AuxOpeningKeepsInv(s: State, e: Event)
    requires Inv(s) && Enabled(s, e) && (e.AuxOpenLabels? || e.AuxOpenComment?)
    ensures Inv(Apply(s, e))
  {
    assert !AuxOpen(s.memory);
    assert forall j :: j in s.memory.gens ==> !Unresolved(s.memory.gens[j]);
  }

  lemma SendingKeepsInv(s: State, e: Event)
    requires Inv(s) && Enabled(s, e) && (e.SendLabels? || e.SendComment? || e.AuxSendLabels? || e.AuxSendComment?)
    ensures Inv(Apply(s, e))
  {
  }

  lemma AbortingKeepsInv(s: State, e: Event)
    requires Inv(s) && Enabled(s, e) && (e.AbortLabels? || e.AbortComment?)
    ensures Inv(Apply(s, e))
  {
  }

  lemma AuxAbortingKeepsInv(s: State, e: Event)
    requires Inv(s) && Enabled(s, e) && e.AuxAbort?
    ensures Inv(Apply(s, e))
  {
  }

  lemma ObservingKeepsInv(s: State, e: Event)
    requires Inv(s) && Enabled(s, e) && (e.SeenLabels? || e.JournalId?)
    ensures Inv(Apply(s, e))
  {
  }

  lemma AdoptingKeepsInv(s: State, e: Event)
    requires Inv(s) && Enabled(s, e) && e.SeenComment?
    ensures Inv(Apply(s, e))
  {
  }

  lemma AuxObservingKeepsInv(s: State, e: Event)
    requires Inv(s) && Enabled(s, e) && (e.AuxSeenLabels? || e.AuxSeen?)
    ensures Inv(Apply(s, e))
  {
  }

  lemma CrashAndSaveKeepInv(s: State, e: Event)
    requires Inv(s) && Enabled(s, e) && (e == Crashed || e == Saved)
    ensures Inv(Apply(s, e))
  {
  }

  /** Events that change neither an intent nor a completion of any generation, nor a checkpoint. */
  predicate Bookkeeping(e: Event) {
    e.NewGen? || e.Assign? || e.GiveRecord? || e.Point? || e.SetHold? || e.Publish? || e.Retire?
  }

  predicate SameEffects(g: Gen, h: Gen) {
    && g.labelsIntent == h.labelsIntent && g.labelsDone == h.labelsDone
    && g.commentIntent == h.commentIntent && g.commentDone == h.commentDone
  }

  lemma BookkeepingIsHarmless(s: State, e: Event)
    requires Enabled(s, e) && Bookkeeping(e)
    ensures var b, c := s.memory, NewBook(s, e);
            && c.commentId == b.commentId && c.sweeps == b.sweeps
            && (forall k :: k in b.gens ==> k in c.gens && SameEffects(b.gens[k], c.gens[k]))
            && (forall k :: k in c.gens && k !in b.gens ==> c.gens[k] == NEW)
  {
  }

  lemma HarmlessKeepsBook(s: State, b: Book, c: Book)
    requires BookInv(b, s)
    requires c.commentId == b.commentId && c.sweeps == b.sweeps
    requires forall k :: k in b.gens ==> k in c.gens && SameEffects(b.gens[k], c.gens[k])
    requires forall k :: k in c.gens && k !in b.gens ==> c.gens[k] == NEW
    ensures BookInv(c, s)
  {
    assert forall k :: k in c.gens && Unresolved(c.gens[k]) ==> k in b.gens && Unresolved(b.gens[k]);
  }

  lemma BookkeepingKeepsInv(s: State, e: Event)
    requires Inv(s) && Enabled(s, e) && Bookkeeping(e)
    ensures Inv(Apply(s, e))
  {
    BookkeepingIsHarmless(s, e);
    HarmlessKeepsBook(s, s.memory, NewBook(s, e));
  }

  lemma EventKeepsInv(s: State, e: Event)
    requires Inv(s) && Enabled(s, e)
    ensures Inv(Apply(s, e))
  {
    if e == Crashed || e == Saved { CrashAndSaveKeepInv(s, e); }
    else if Bookkeeping(e) { BookkeepingKeepsInv(s, e); }
    else if e.OpenLabels? || e.OpenComment? { OpeningKeepsInv(s, e); }
    else if e.AuxOpenLabels? || e.AuxOpenComment? { AuxOpeningKeepsInv(s, e); }
    else if e.AuxAbort? { AuxAbortingKeepsInv(s, e); }
    else if e.AbortLabels? || e.AbortComment? { AbortingKeepsInv(s, e); }
    else if e.SendLabels? || e.SendComment? || e.AuxSendLabels? || e.AuxSendComment? { SendingKeepsInv(s, e); }
    else if e.AuxSeenLabels? || e.AuxSeen? { AuxObservingKeepsInv(s, e); }
    else if e.SeenComment? { AdoptingKeepsInv(s, e); }
    else { ObservingKeepsInv(s, e); }
  }

  lemma {:induction false} RunKeepsInv(es: seq<Event>)
    requires Legal(es)
    ensures Inv(After(es))
  {
    if es != [] {
      RunKeepsInv(es[..|es| - 1]);
      EventKeepsInv(After(es[..|es| - 1]), es[|es| - 1]);
    }
  }

  // --- The theorems about whole runs. -----------------------------------------------------------

  /** The open intent of generation `c` blocks every other generation and every auxiliary write. */
  ghost predicate Fences(b: Book, c: Key) {
    FencesCreate(b, c)
    && forall other: Option<Key>, replacing :: other != Some(c) ==> EffectsBlocked(b, other, replacing)
  }

  /** Across all generations of the issue at most one canonical comment is ever created, and from the
      moment one may have been, its id is journaled or the open intent of the generation that sent it
      fences everything else, in memory and after any crash. */
  lemma AtMostOneCanonicalComment(es: seq<Event>)
    requires Legal(es)
    ensures |After(es).creates| <= 1
    ensures After(es).creates != [] ==>
              forall b | b in {After(es).disk, After(es).memory} ::
                b.commentId != None || Fences(b, After(es).creates[0])
  {
    RunKeepsInv(es);
    if After(es).creates != [] {
      var c := After(es).creates[0];
      forall b | b in {After(es).disk, After(es).memory} && b.commentId == None ensures Fences(b, c) {
        OpenIntentFences(b, c);
      }
    }
  }

  lemma OpenIntentFences(b: Book, k: Key)
    requires k in b.gens && Unresolved(b.gens[k])
    ensures forall other: Option<Key>, replacing :: other != Some(k) ==> EffectsBlocked(b, other, replacing)
  {
  }

  /** At any time, crash or not, at most one effect on the issue is in doubt. */
  lemma AtMostOneEffectInDoubt(es: seq<Event>)
    requires Legal(es)
    ensures OneWriter(After(es).disk) && OneWriter(After(es).memory)
  {
    RunKeepsInv(es);
  }

  /** Labels that may have been written and were not seen complete keep their intent open: no abort,
      of this attempt or of a later one, ever clears it. */
  lemma LabelIntentOutlivesAborts(es: seq<Event>, k: Key)
    requires Legal(es) && k in After(es).labelled
    ensures k in After(es).disk.gens && After(es).disk.gens[k].labelsIntent
    ensures !After(es).disk.gens[k].labelsDone ==> Unresolved(After(es).disk.gens[k])
  {
    RunKeepsInv(es);
  }

  /** Each auxiliary comment is created at most once, whatever its evidence does afterwards. */
  lemma AuxiliaryCommentOnce(es: seq<Event>)
    requires Legal(es)
    ensures forall i, j :: 0 <= i < j < |After(es).auxCreates| ==> After(es).auxCreates[i] != After(es).auxCreates[j]
    ensures forall k :: k in After(es).auxCreates ==> Check(After(es).disk, k) in {CommentIntent, Done}
  {
    RunKeepsInv(es);
  }

  /** A generation is published, on disk too, only with its labels and its comment seen, and then the
      canonical comment's id is journaled. */
  lemma {:induction false} PublishedMeansObserved(es: seq<Event>)
    requires Legal(es)
    ensures forall b, k :: b in {After(es).disk, After(es).memory} && k in b.gens && b.gens[k].status == Published ==>
              b.gens[k].labelsDone && b.gens[k].commentDone && b.commentId != None
  {
    RunKeepsInv(es);
    ObservedSoFar(es);
  }

  ghost predicate PublishedDone(b: Book) {
    forall k :: k in b.gens && b.gens[k].status == Published ==> b.gens[k].labelsDone && b.gens[k].commentDone
  }

  lemma {:induction false} ObservedSoFar(es: seq<Event>)
    requires Legal(es)
    ensures PublishedDone(After(es).disk) && PublishedDone(After(es).memory)
  {
    if es != [] {
      ObservedSoFar(es[..|es| - 1]);
      EventKeepsPublished(After(es[..|es| - 1]), es[|es| - 1]);
    }
  }

  lemma EventKeepsPublished(s: State, e: Event)
    requires Enabled(s, e) && PublishedDone(s.disk) && PublishedDone(s.memory)
    ensures PublishedDone(Apply(s, e).disk) && PublishedDone(NewBook(s, e))
  {
    var b := NewBook(s, e);
    forall k | k in b.gens && b.gens[k].status == Published ensures b.gens[k].labelsDone && b.gens[k].commentDone {
      PublishedBefore(s, e, k);
    }
  }

  lemma PublishedBefore(s: State, e: Event, k: Key)
    requires Enabled(s, e) && k in NewBook(s, e).gens && NewBook(s, e).gens[k].status == Published
    ensures e == Crashed || e == Publish(k) || (k in s.memory.gens && s.memory.gens[k].status == Published)
  {
  }

  // --- The fence of an edit, which an abort can clear. ------------------------------------------

  /** An edit that may have landed and was not seen keeps its intent open. */
  ghost predicate EditsKnown(b: Book, edits: set<Key>) {
    forall k :: k in edits ==> k in b.gens && b.gens[k].commentIntent
  }

  /** No abort of the run clears a comment intent that was open before its attempt began. */
  ghost predicate AbortsOnlyOwn(es: seq<Event>)
    requires Legal(es)
    decreases |es|
  {
    es == [] || (AbortsOnlyOwn(es[..|es| - 1])
                 && (es[|es| - 1].AbortComment? ==> !After(es[..|es| - 1]).armed.before))
  }

  ghost predicate EditInv(s: State) {
    && EditsKnown(s.memory, s.edits) && EditsKnown(s.disk, s.edits)
    && (s.armed.Comment? && !s.armed.before ==> s.armed.k !in s.edits)
  }

  lemma EventKeepsEdits(s: State, e: Event)
    requires Inv(s) && EditInv(s) && Enabled(s, e) && (e.AbortComment? ==> !s.armed.before)
    ensures EditInv(Apply(s, e))
  {
    var t := Apply(s, e);
    forall k | k in t.edits ensures k in t.memory.gens && t.memory.gens[k].commentIntent {
      if k in s.edits && e != Crashed {
        CommentIntentKept(s, e, k);
      }
    }
  }

  /** Only its own abort clears a comment intent. */
  lemma CommentIntentKept(s: State, e: Event, k: Key)
    requires Enabled(s, e) && e != Crashed && k in s.memory.gens && s.memory.gens[k].commentIntent
    requires e != AbortComment(k)
    ensures k in NewBook(s, e).gens && NewBook(s, e).gens[k].commentIntent
  {
  }

  /** What the label phase checks, that its intent was not open before, would keep the fence of an edit
      too. */
  lemma {:induction false} CarefulAbortsKeepEditFence(es: seq<Event>)
    requires Legal(es) && AbortsOnlyOwn(es)
    ensures EditInv(After(es))
  {
    if es != [] {
      CarefulAbortsKeepEditFence(es[..|es| - 1]);
      RunKeepsInv(es[..|es| - 1]);
      EventKeepsEdits(After(es[..|es| - 1]), es[|es| - 1]);
    }
  }

  lemma Extend(es: seq<Event>, e: Event) returns (fs: seq<Event>)
    requires Legal(es) && Enabled(After(es), e)
    ensures fs == es + [e] && Legal(fs) && After(fs) == Apply(After(es), e)
  {
    fs := es + [e];
    assert fs[..|es|] == es;
  }

  /** Under that check, an intent that the attempt opened itself covers no edit. */
  lemma OwnIntentCoversNoEdit(es: seq<Event>, k: Key)
    requires Legal(es) && AbortsOnlyOwn(es) && After(es).armed == Comment(k, false)
    ensures k !in After(es).edits
  {
    CarefulAbortsKeepEditFence(es);
  }

  /** And no weaker check does: whenever the intent was open before, the journal and the process may look
      exactly as they do and the edit may have been sent. An abort then loses its fence. */
  lemma OpenedBeforeMayCoverAnEdit(es: seq<Event>, k: Key) returns (fs: seq<Event>)
    requires Legal(es) && After(es).armed == Comment(k, true) && After(es).disk == After(es).memory
    requires After(es).memory.commentId != None && Enabled(After(es), OpenComment(k))
    ensures Legal(fs) && After(fs).disk == After(es).disk && After(fs).memory == After(es).memory
    ensures After(fs).armed == After(es).armed && k in After(fs).edits
    ensures AbortsOnlyOwn(es) ==> AbortsOnlyOwn(fs)
    ensures !EditsKnown(Apply(After(fs), AbortComment(k)).memory, After(fs).edits)
  {
    RunKeepsInv(es);
    var s := After(es);
    var sent := Extend(es, SendComment(k));
    fs := Extend(sent, OpenComment(k));
    Reopened(s.memory, k);
    assert sent[..|sent| - 1] == es && fs[..|fs| - 1] == sent;
  }

  lemma Reopened(b: Book, k: Key)
    requires k in b.gens && b.gens[k].commentIntent
    ensures SetGen(b, k, b.gens[k].(commentIntent := true)) == b
  {
    assert b.gens[k := b.gens[k].(commentIntent := true)] == b.gens;
  }

  // --- Proposals of a dry run. ------------------------------------------------------------------

  /** Event `i` ends proposal `k`: its own publication, or its retirement by a replacement that is
      published with all its effects complete. */
  ghost predicate Ends(es: seq<Event>, i: int, k: Key) {
    && 0 <= i < |es| && Legal(es[..i]) && k in After(es[..i]).memory.gens
    && After(es[..i]).memory.gens[k].status == DryRun
    && (es[i] == Publish(k) || (es[i] == Retire(k) && Superseded(After(es[..i]).memory, k)))
  }

  /** In the book, `k` is a proposal still, or has been ended in the run. */
  ghost predicate StillOrEnded(b: Book, es: seq<Event>, k: Key) {
    k in b.gens && (b.gens[k].status == DryRun || exists i :: Ends(es, i, k))
  }

  /** Over any crashes, a proposal that is on disk stays there as one until its own publication or its
      replacement's ends it. */
  lemma {:induction false} ProposalsEndByPublication(es: seq<Event>, more: seq<Event>, k: Key)
    requires Legal(es) && Legal(es + more)
    requires k in After(es).disk.gens && After(es).disk.gens[k].status == DryRun
    ensures StillOrEnded(After(es + more).disk, es + more, k) && StillOrEnded(After(es + more).memory, es + more, k)
  {
    if more == [] {
      assert es + more == es;
      MemoryFollows(es, k);
    } else {
      var all := es + more;
      var before := es + more[..|more| - 1];
      assert all[..|all| - 1] == before;
      ProposalsEndByPublication(es, more[..|more| - 1], k);
      OneMoreEvent(before, all, k);
    }
  }

  lemma {:induction false} MemoryFollows(es: seq<Event>, k: Key)
    requires Legal(es) && k in After(es).disk.gens && After(es).disk.gens[k].status == DryRun
    ensures StillOrEnded(After(es).memory, es, k)
  {
    if es != [] {
      var before, e := es[..|es| - 1], es[|es| - 1];
      if e != Saved && e != Crashed {
        MemoryFollows(before, k);
        OneMoreEvent(before, es, k);
      }
    }
  }

  /** One more event, of whose two books the run so far says so. */
  lemma OneMoreEvent(before: seq<Event>, all: seq<Event>, k: Key)
    requires Legal(all) && |all| == |before| + 1 && before == all[..|all| - 1]
    requires StillOrEnded(After(before).memory, before, k)
    ensures all[|before|] != Crashed ==> StillOrEnded(After(all).memory, all, k)
    ensures StillOrEnded(After(before).disk, before, k) ==>
              StillOrEnded(After(all).disk, all, k) && StillOrEnded(After(all).memory, all, k)
  {
    var s, e := After(before), all[|before|];
    EndsStay(before, all, k);
    if e != Crashed {
      GensStay(s, e, k);
      if s.memory.gens[k].status == DryRun && NewBook(s, e).gens[k].status != DryRun {
        ProposalStep(s, e, k);
        assert Ends(all, |before|, k);
      } else if s.memory.gens[k].status != DryRun {
        assert exists i :: Ends(all, i, k);
      }
    }
  }

  lemma EndsStay(before: seq<Event>, all: seq<Event>, k: Key)
    requires before <= all
    ensures (exists i :: Ends(before, i, k)) ==> exists i :: Ends(all, i, k)
  {
    if i :| Ends(before, i, k) {
      assert all[..i] == before[..i];
      assert Ends(all, i, k);
    }
  }

  lemma GensStay(s: State, e: Event, k: Key)
    requires Enabled(s, e) && e != Crashed && k in s.memory.gens
    ensures k in NewBook(s, e).gens
  {
  }

  lemma ProposalStep(s: State, e: Event, k: Key)
    requires Enabled(s, e) && k in s.memory.gens && s.memory.gens[k].status == DryRun && e != Crashed
    requires k in NewBook(s, e).gens && NewBook(s, e).gens[k].status != DryRun
    ensures e == Publish(k) || (e == Retire(k) && Superseded(s.memory, k))
  {
    if !e.Publish? && !e.Retire? {
      StatusKept(s, e, k);
    }
  }

  lemma StatusKept(s: State, e: Event, k: Key)
    requires Enabled(s, e) && k in s.memory.gens && s.memory.gens[k].status == DryRun
    requires !e.Publish? && !e.Retire? && e != Crashed
    ensures k in NewBook(s, e).gens && NewBook(s, e).gens[k].status == DryRun
  {
  }
}
