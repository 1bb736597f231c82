/**
 The journal of the GitHub Scenario adapter (scripts/scenario-github-adapter.py) as a protocol: what
 can become durable, what can reach GitHub, and in which order. A run is any sequence of its events;
 the lemmas hold of every run.
 */
module AdapterJournal {
  import opened Basics

  const STATE_LIMIT := 16_777_216
  const MAX_RECORDS := 4096
  const COMPLETION := 1024
  const MAX_ID := 9_007_199_254_740_991
  const EVIDENCE_LIMIT := 1000
  const EMPTY_BYTES := 227

  datatype Operation = PublishPr | PublishPerformancePr | Followup | Notify

  predicate IsPublication(op: Operation) {
    op == PublishPr || op == PublishPerformancePr
  }

  /** `sha256:` and 64 hexadecimal digits. */
  type Digest = s: string | |s| == 71 witness seq(71, i => '0')

  /** What is to be published; a follow-up has no branches, a notification no text. */
  datatype Payload = Payload(title: string, body: string, head: string, base: string)

  /** The identity of a request: everything but its method. `digest` is the digest of all of it;
      `publication` is the pull request a follow-up or a notification is about; `bytes` is the encoded
      length of all that a record keeps unchanged, its key and separators included. */
  datatype Request = Request(intent: Digest, digest: Digest, operation: Operation, subject: nat, revision: nat,
                             publication: nat, payload: Payload, bytes: nat)

  datatype Phase = Prepared | Dispatched | Done | Failed

  datatype Receipt = Receipt(id: nat, number: nat)

  datatype Record = Record(request: Request, phase: Phase, receipt: Option<Receipt>, evidence: Option<string>)

  function Key(q: Request): (nat, nat) {
    (q.subject, q.revision)
  }

  function Fresh(q: Request): Record {
    Record(q, Prepared, None, None)
  }

  predicate Unsettled(r: Record) {
    r.phase == Prepared || r.phase == Dispatched
  }

  // --- What `load` admits. ----------------------------------------------------------------------

  predicate ReceiptOk(o: Receipt) {
    0 < o.id <= MAX_ID && 0 < o.number <= MAX_ID
  }

  predicate EvidenceOk(e: string) {
    0 < |e| <= EVIDENCE_LIMIT
  }

  predicate RecordOk(r: Record) {
    && (r.receipt != None ==> ReceiptOk(r.receipt.value))
    && (r.phase == Prepared ==> r.receipt == None && r.evidence == None)
    && (r.phase == Dispatched ==> r.evidence == None)
    && (r.phase == Done ==> r.receipt != None && r.evidence != None && EvidenceOk(r.evidence.value))
    && (r.phase == Failed ==> r.receipt == None && r.evidence != None && EvidenceOk(r.evidence.value))
  }

  /** Two records stand in each other's way: the same intent, or the same object and neither failed. */
  predicate Clash(a: Record, b: Record) {
    a.request.intent == b.request.intent
    || (a.phase != Failed && b.phase != Failed && Key(a.request) == Key(b.request))
  }

  predicate Loadable(rs: seq<Record>) {
    && |rs| <= MAX_RECORDS
    && (forall i :: 0 <= i < |rs| ==> RecordOk(rs[i]))
    && (forall i, j :: 0 <= i < j < |rs| ==> !Clash(rs[i], rs[j]))
  }

  // --- The encoded size. ------------------------------------------------------------------------

  function OperationText(op: Operation): string {
    match op
    case PublishPr => "publish_pr"
    case PublishPerformancePr => "publish_performance_pr_v1"
    case Followup => "followup"
    case Notify => "notify"
  }

  function PhaseText(p: Phase): string {
    match p
    case Prepared => "prepared"
    case Dispatched => "dispatched"
    case Done => "done"
    case Failed => "failed"
  }

  function ObjectText(o: Option<Receipt>): string {
    match o
    case None => "null"
    case Some(r) => "{\"id\":" + Decimal(r.id) + ",\"number\":" + Decimal(r.number) + "}"
  }

  /** Evidence is plain ASCII without quotes or backslashes, so quoting adds two bytes. */
  function EvidenceText(e: Option<string>): string {
    match e
    case None => "null"
    case Some(text) => "\"" + text + "\""
  }

  function RecordBytes(r: Record): nat {
    r.request.bytes + |PhaseText(r.phase)| + |ObjectText(r.receipt)| + |EvidenceText(r.evidence)|
  }

  function Bytes(rs: seq<Record>): nat {
    if rs == [] then EMPTY_BYTES else Bytes(rs[..|rs| - 1]) + RecordBytes(rs[|rs| - 1])
  }

  function Outstanding(rs: seq<Record>): nat {
    if rs == [] then 0
    else Outstanding(rs[..|rs| - 1]) + (if Unsettled(rs[|rs| - 1]) then 1 else 0)
  }

  function DoneEvidence(q: Request, o: Receipt): string {
    "GitHub " + OperationText(q.operation) + " receipt " + Decimal(o.id) + "/" + Decimal(o.number)
  }

  // --- What GitHub holds. -----------------------------------------------------------------------

  /** An account: the configured actor's, by its id and login, or another. */
  datatype Account = Actor | Other(id: nat)

  /** A pull request or an issue of the configured repository, as a read of it shows it. `home`: its branches
      are that repository's own. */
  datatype Object = Object(receipt: Receipt, author: Account, pull: bool, title: string, body: string,
                           head: string, base: string, home: bool, sha: nat)

  /** An object, and the mutation GitHub created it for, if it was one of the adapter's. */
  datatype Landed = Landed(shown: Object, post: Option<nat>)

  const MARKER_HEAD := "\n\n<!-- af-github:"
  const MARKER_BYTES := 164

  function Marker(q: Request): string {
    MARKER_HEAD + q.intent + ":" + q.digest + " -->"
  }

  function MarkedBody(q: Request): string {
    q.payload.body + Marker(q)
  }

  /** The body ends in what looks like a marker, whosoever it may be. */
  predicate LooksMarked(body: string) {
    && |body| >= MARKER_BYTES
    && body[|body| - MARKER_BYTES..|body| - MARKER_BYTES + |MARKER_HEAD|] == MARKER_HEAD
  }

  /** What a mutation of `q` creates. */
  function Published(q: Request, o: Receipt, sha: nat): Object {
    Object(o, Actor, IsPublication(q.operation), q.payload.title, MarkedBody(q),
           q.payload.head, q.payload.base, true, sha)
  }

  /** The comparison `validate_remote` makes of what it is shown. */
  predicate Validates(r: Record, o: Object) {
    var q := r.request;
    && ReceiptOk(o.receipt) && (r.receipt != None ==> r.receipt == Some(o.receipt))
    && o.pull == IsPublication(q.operation)
    && o.author == Actor && o.title == q.payload.title && o.body == MarkedBody(q)
    && (o.pull ==> o.head == q.payload.head && o.base == q.payload.base && o.home && o.sha == q.revision)
  }

  // --- The protocol. ----------------------------------------------------------------------------

  /** `armed`: the record whose dispatch the running process has just made durable and not yet sent.
      `sent`: the record whose mutation it has sent. `seen`: the record whose object it has read back.
      `posts`: the mutations sent to GitHub, whatever became of them. `objects`: all that GitHub holds. */
  datatype State = State(disk: seq<Record>, armed: Option<nat>, sent: Option<nat>, seen: Option<nat>,
                         posts: seq<Request>, objects: seq<Landed>)

  datatype Event =
    | Admit(request: Request)
    | Reject(i: nat, why: string)
    | Arm(i: nat)
    | Post(i: nat)
    | Note(i: nat, receipt: Receipt)
    | Seen(i: nat, k: nat)
    | Settle(i: nat)
    | Crash
    | Create(p: nat, receipt: Receipt, sha: nat)
    | Appear(shown: Object)
    | Edit(k: nat, title: string, body: string, base: string, sha: nat)

  const START := State([], None, None, None, [], [])

  predicate Admissible(rs: seq<Record>, q: Request) {
    && |rs| < MAX_RECORDS
    && (forall i :: 0 <= i < |rs| ==> !Clash(rs[i], Fresh(q)))
    && Bytes(rs + [Fresh(q)]) + COMPLETION * Outstanding(rs + [Fresh(q)]) <= STATE_LIMIT
  }

  /** The completed publication that `q` is about. */
  predicate IsSource(r: Record, q: Request) {
    IsPublication(r.request.operation) && r.phase == Done && Key(r.request) == (q.publication, q.revision)
  }

  predicate Unused(objects: seq<Landed>, o: Receipt) {
    forall k :: 0 <= k < |objects| ==>
      objects[k].shown.receipt.id != o.id && objects[k].shown.receipt.number != o.number
  }

  /** The events that are not the adapter's. */
  predicate IsAct(e: Event) {
    e.Create? || e.Appear? || e.Edit?
  }

  /** Only admission asks for room. Nothing but the process that armed a record can send it. The receipt of
      a publication or a follow-up is kept as the reply names it, whatever that is, and settles nothing
      before an object is read back under it; that of a notification is its publication's.

      GitHub may create an object for a mutation it was sent, at any later time and once; anybody may
      create and edit anything, but for the account of the actor, under which only the mutations write
      markers. */
  predicate Enabled(s: State, e: Event) {
    match e
    case Admit(q) => Admissible(s.disk, q)
    case Reject(i, why) => i < |s.disk| && s.disk[i].phase == Prepared && EvidenceOk(why)
    case Arm(i) => i < |s.disk| && s.disk[i].phase == Prepared
    case Post(i) => i < |s.disk| && s.armed == Some(i)
    case Note(i, o) =>
      && i < |s.disk| && s.disk[i].phase == Dispatched && s.disk[i].receipt == None && ReceiptOk(o)
      && (s.disk[i].request.operation == Notify ==>
            && s.sent == Some(i)
            && exists j :: 0 <= j < |s.disk| && IsSource(s.disk[j], s.disk[i].request) && s.disk[j].receipt == Some(o))
    case Seen(i, k) =>
      && i < |s.disk| && k < |s.objects| && s.disk[i].phase == Dispatched
      && s.disk[i].receipt != None && Validates(s.disk[i], s.objects[k].shown)
    case Settle(i) =>
      && i < |s.disk| && s.disk[i].phase == Dispatched && s.disk[i].receipt != None
      && (s.disk[i].request.operation == Notify || s.seen == Some(i))
    case Crash => true
    case Create(p, o, _) =>
      && p < |s.posts| && s.posts[p].operation != Notify && ReceiptOk(o) && Unused(s.objects, o)
      && (forall k :: 0 <= k < |s.objects| ==> s.objects[k].post != Some(p))
    case Appear(o) => Unused(s.objects, o.receipt) && (o.author == Actor ==> !LooksMarked(o.body))
    case Edit(k, _, body, _, _) =>
      && k < |s.objects|
      && (s.objects[k].shown.author == Actor && LooksMarked(body) ==>
            var p := s.objects[k].post; p != None && p.value < |s.posts| && body == MarkedBody(s.posts[p.value]))
  }

  function Apply(s: State, e: Event): State
    requires Enabled(s, e)
  {
    match e
    case Admit(q) => s.(disk := s.disk + [Fresh(q)], armed := None)
    case Reject(i, why) =>
      s.(disk := s.disk[i := s.disk[i].(phase := Failed, evidence := Some(why))], armed := None)
    case Arm(i) => s.(disk := s.disk[i := s.disk[i].(phase := Dispatched)], armed := Some(i))
    case Post(i) => s.(posts := s.posts + [s.disk[i].request], armed := None, sent := Some(i))
    case Note(i, o) => s.(disk := s.disk[i := s.disk[i].(receipt := Some(o))], armed := None)
    case Seen(i, k) => s.(seen := Some(i))
    case Settle(i) =>
      var r := s.disk[i];
      s.(disk := s.disk[i := r.(phase := Done, evidence := Some(DoneEvidence(r.request, r.receipt.value)))],
         armed := None)
    case Crash => s.(armed := None, sent := None, seen := None)
    case Create(p, o, sha) => s.(objects := s.objects + [Landed(Published(s.posts[p], o, sha), Some(p))])
    case Appear(o) => s.(objects := s.objects + [Landed(o, None)])
    case Edit(k, title, body, base, sha) =>
      var o := s.objects[k].shown.(title := title, body := body, base := base, sha := sha);
      s.(objects := s.objects[k := s.objects[k].(shown := o)])
  }

  /** A run: events each enabled after the ones before it. */
  ghost predicate Legal(es: seq<Event>)
    decreases |es|, 0
  {
    es == [] || (Legal(es[..|es| - 1]) && Enabled(After(es[..|es| - 1]), es[|es| - 1]))
  }

  ghost function After(es: seq<Event>): State
    requires Legal(es)
    decreases |es|, 1
  {
    if es == [] then START else Apply(After(es[..|es| - 1]), es[|es| - 1])
  }

  /** `es` is a run and leads to `s`: said of whatever equals `es`, so that a proof about one more step
      does not unfold the run. */
  ghost predicate LeadsTo(es: seq<Event>, s: State) {
    forall fs :: fs == es ==> Legal(fs) && After(fs) == s
  }

  lemma OneMore(es: seq<Event>, s: State, e: Event)
    requires LeadsTo(es, s) && Enabled(s, e)
    ensures LeadsTo(es + [e], Apply(s, e))
  {
    assert Legal(es) && After(es) == s;
    forall fs | fs == es + [e] ensures Legal(fs) && After(fs) == Apply(s, e) {
      assert fs[..|fs| - 1] == es;
    }
  }

  // --- The completion reservation. --------------------------------------------------------------

  /** The room a record may come to need: its own size once settled, and while it is not, its size
      when prepared plus the completion allowance. */
  function Room(r: Record): nat {
    if Unsettled(r) then RecordBytes(Fresh(r.request)) + COMPLETION else RecordBytes(r)
  }

  function AllRoom(rs: seq<Record>): nat {
    if rs == [] then EMPTY_BYTES else AllRoom(rs[..|rs| - 1]) + Room(rs[|rs| - 1])
  }

  lemma ReceiptLength(o: Receipt)
    requires ReceiptOk(o)
    ensures |Decimal(o.id)| <= 16 && |Decimal(o.number)| <= 16
  {
    assert Pow10(16) == 10_000_000_000_000_000 by {
      assert Pow10(8) == 100_000_000;
      assert Pow10(12) == 10_000 * Pow10(8);
      assert Pow10(16) == 10_000 * Pow10(12);
    }
    DecimalLength(o.id, 16);
    DecimalLength(o.number, 16);
  }

  lemma DoneEvidenceOk(q: Request, o: Receipt)
    requires ReceiptOk(o)
    ensures EvidenceOk(DoneEvidence(q, o)) && |DoneEvidence(q, o)| <= 74
  {
    ReceiptLength(o);
  }

  /** A completed record holds its receipt and names it in its evidence. */
  ghost predicate Witnessed(r: Record) {
    r.phase == Done ==> r.receipt != None && r.evidence == Some(DoneEvidence(r.request, r.receipt.value))
  }

  /** Whatever becomes of a record, it needs no more than the room kept for it. */
  lemma RecordFits(r: Record)
    requires RecordOk(r) && Witnessed(r)
    ensures RecordBytes(r) <= RecordBytes(Fresh(r.request)) + COMPLETION
    ensures RecordBytes(r) <= Room(r)
  {
    if r.receipt != None {
      ReceiptLength(r.receipt.value);
      if r.phase == Done { DoneEvidenceOk(r.request, r.receipt.value); }
    }
  }

  lemma {:induction false} ChangeOne(rs: seq<Record>, i: nat, r: Record)
    requires i < |rs|
    ensures AllRoom(rs[i := r]) == AllRoom(rs) - Room(rs[i]) + Room(r)
  {
    var n := |rs| - 1;
    if i == n {
      assert rs[i := r][..n] == rs[..n];
    } else {
      assert rs[i := r][..n] == rs[..n][i := r];
      ChangeOne(rs[..n], i, r);
    }
  }

  /** What a saved journal always is: room is kept, records are as `load` wants them. */
  ghost predicate Sound(rs: seq<Record>) {
    && Loadable(rs)
    && AllRoom(rs) <= STATE_LIMIT
    && (forall i :: 0 <= i < |rs| ==> Witnessed(rs[i]))
  }

  /** Every record within its room, the journal within its limit. */
  lemma {:induction false} WithinRoom(rs: seq<Record>)
    requires forall i :: 0 <= i < |rs| ==> RecordOk(rs[i]) && Witnessed(rs[i])
    ensures Bytes(rs) <= AllRoom(rs)
  {
    if rs != [] {
      WithinRoom(rs[..|rs| - 1]);
      RecordFits(rs[|rs| - 1]);
    }
  }

  /** The check at admission, on actual sizes, covers the room of every record admitted so far. */
  lemma {:induction false} AdmissionKeepsRoom(rs: seq<Record>)
    requires forall i :: 0 <= i < |rs| ==> RecordOk(rs[i])
    ensures AllRoom(rs) <= Bytes(rs) + COMPLETION * Outstanding(rs)
  {
    if rs != [] {
      AdmissionKeepsRoom(rs[..|rs| - 1]);
      PreparedIsSmallest(rs[|rs| - 1]);
    }
  }

  lemma PreparedIsSmallest(r: Record)
    requires RecordOk(r)
    ensures Unsettled(r) ==> RecordBytes(Fresh(r.request)) <= RecordBytes(r)
  {
    assert r.receipt != None ==> |ObjectText(r.receipt)| >= 17;
  }

  /** Changing one record into another with no more room, and no new clash, keeps a journal sound. */
  lemma ReplaceKeepsSound(rs: seq<Record>, i: nat, r: Record)
    requires Sound(rs) && i < |rs| && RecordOk(r) && r.request == rs[i].request
    requires rs[i].phase == Failed ==> r.phase == Failed
    requires Witnessed(r) && Room(r) <= Room(rs[i])
    ensures Sound(rs[i := r])
  {
    ChangeOne(rs, i, r);
    ReplaceMeetsNoClash(rs, i, r);
  }

  lemma ReplaceMeetsNoClash(rs: seq<Record>, i: nat, r: Record)
    requires Loadable(rs) && i < |rs| && RecordOk(r) && r.request == rs[i].request
    requires rs[i].phase == Failed ==> r.phase == Failed
    ensures Loadable(rs[i := r])
  {
    var after := rs[i := r];
    forall a, b | 0 <= a < b < |rs| ensures !Clash(after[a], after[b]) {
      assert !Clash(rs[a], rs[b]);
      ClashOnlyShrinks(rs[a], rs[b], after[a], after[b]);
    }
  }

  lemma ClashOnlyShrinks(a: Record, b: Record, x: Record, y: Record)
    requires !Clash(a, b) && x.request == a.request && y.request == b.request
    requires (a.phase == Failed ==> x.phase == Failed) && (b.phase == Failed ==> y.phase == Failed)
    ensures !Clash(x, y)
  {
  }

  /** Settling never takes more room than was reserved: no phase change can fail for size. */
  lemma SettlingFits(r: Record, o: Receipt, why: string)
    requires RecordOk(r) && Unsettled(r)
    ensures EvidenceOk(why) ==> Room(r.(phase := Failed, evidence := Some(why), receipt := None)) <= Room(r)
    ensures ReceiptOk(o) ==>
              Room(r.(phase := Done, receipt := Some(o), evidence := Some(DoneEvidence(r.request, o)))) <= Room(r)
    ensures Room(r.(phase := Dispatched)) == Room(r)
    ensures r.phase == Dispatched ==> Room(r.(receipt := Some(o))) == Room(r)
  {
    if ReceiptOk(o) {
      DoneEvidenceOk(r.request, o);
      RecordFits(r.(phase := Done, receipt := Some(o), evidence := Some(DoneEvidence(r.request, o))));
    }
    if EvidenceOk(why) {
      RecordFits(r.(phase := Failed, evidence := Some(why), receipt := None));
    }
  }

  // --- What every run keeps. --------------------------------------------------------------------

  /** The record of a request that was sent: its dispatch is durable. */
  ghost predicate Recorded(rs: seq<Record>, q: Request) {
    exists i :: 0 <= i < |rs| && rs[i].request == q && (rs[i].phase == Dispatched || rs[i].phase == Done)
  }

  ghost predicate PostsInv(s: State) {
    && (forall k :: 0 <= k < |s.posts| ==> Recorded(s.disk, s.posts[k]))
    && (forall j, k :: 0 <= j < k < |s.posts| ==> s.posts[j].intent != s.posts[k].intent)
    && (s.armed != None ==> s.armed.value < |s.disk| && s.disk[s.armed.value].phase == Dispatched
                            && s.disk[s.armed.value].request !in s.posts)
  }

  /** Object `k` was created for a mutation of `q`. */
  ghost predicate MadeFor(s: State, k: int, q: Request) {
    && 0 <= k < |s.objects| && s.objects[k].post != None
    && s.objects[k].post.value < |s.posts| && s.posts[s.objects[k].post.value] == q
  }

  /** An object of the actor that looks marked is one of the mutations', with the body it was given; no
      mutation has two objects, and no two objects share an id or a number. */
  ghost predicate ObjectsInv(s: State) {
    && (forall k :: 0 <= k < |s.objects| ==> Genuine(s, s.objects[k]))
    && (forall j, k :: 0 <= j < k < |s.objects| ==> Apart(s.objects[j], s.objects[k]))
  }

  ghost predicate Genuine(s: State, l: Landed) {
    && (l.post != None ==> l.post.value < |s.posts| && l.shown.author == Actor)
    && (l.shown.author == Actor && LooksMarked(l.shown.body) ==>
          l.post != None && l.shown.body == MarkedBody(s.posts[l.post.value]))
  }

  ghost predicate Apart(a: Landed, b: Landed) {
    && a.shown.receipt.id != b.shown.receipt.id && a.shown.receipt.number != b.shown.receipt.number
    && (a.post != None ==> a.post != b.post)
  }

  /** What was read back, or completed, is the record's own object. */
  ghost predicate Owns(s: State, r: Record) {
    exists k :: MadeFor(s, k, r.request) && r.receipt == Some(s.objects[k].shown.receipt)
  }

  ghost predicate ReceiptsInv(s: State) {
    && (s.sent != None ==> s.sent.value < |s.disk| && s.disk[s.sent.value].request in s.posts)
    && (s.seen != None ==> s.seen.value < |s.disk| && s.disk[s.seen.value].receipt != None
                           && Owns(s, s.disk[s.seen.value]))
    && (forall i :: 0 <= i < |s.disk| ==> OwnReceipt(s, s.disk[i]))
  }

  ghost predicate OwnReceipt(s: State, r: Record) {
    if r.request.operation == Notify then
      r.receipt != None ==>
        && r.request in s.posts
        && exists j :: 0 <= j < |s.disk| && IsSource(s.disk[j], r.request) && s.disk[j].receipt == r.receipt
    else
      r.phase == Done ==> Owns(s, r)
  }

  ghost predicate Inv(s: State) {
    Sound(s.disk) && PostsInv(s) && ObjectsInv(s) && ReceiptsInv(s)
  }

  lemma AdmitKeepsSound(rs: seq<Record>, q: Request)
    requires Sound(rs) && Admissible(rs, q)
    ensures Sound(rs + [Fresh(q)])
  {
    AdmissionKeepsRoom(rs + [Fresh(q)]);
  }

  lemma SettleKeepsSound(rs: seq<Record>, i: nat)
    requires Sound(rs) && i < |rs| && rs[i].phase == Dispatched && rs[i].receipt != None
    ensures var r := rs[i];
            Sound(rs[i := r.(phase := Done, evidence := Some(DoneEvidence(r.request, r.receipt.value)))])
  {
    var r := rs[i];
    SettlingFits(r, r.receipt.value, "");
    DoneEvidenceOk(r.request, r.receipt.value);
    ReplaceKeepsSound(rs, i, r.(phase := Done, evidence := Some(DoneEvidence(r.request, r.receipt.value))));
  }

  lemma EventKeepsSound(s: State, e: Event)
    requires Sound(s.disk) && Enabled(s, e)
    ensures Sound(Apply(s, e).disk)
  {
    match e
    case Admit(q) =>
      AdmitKeepsSound(s.disk, q);
    case Reject(i, why) =>
      SettlingFits(s.disk[i], Receipt(1, 1), why);
      ReplaceKeepsSound(s.disk, i, s.disk[i].(phase := Failed, evidence := Some(why)));
    case Arm(i) =>
      SettlingFits(s.disk[i], Receipt(1, 1), "");
      ReplaceKeepsSound(s.disk, i, s.disk[i].(phase := Dispatched));
    case Note(i, o) =>
      SettlingFits(s.disk[i], o, "");
      ReplaceKeepsSound(s.disk, i, s.disk[i].(receipt := Some(o)));
    case Settle(i) =>
      SettleKeepsSound(s.disk, i);
    case _ =>
  }

  lemma OneRecordPerIntent(rs: seq<Record>, i: nat)
    requires Loadable(rs) && i < |rs|
    ensures forall j :: 0 <= j < |rs| && rs[j].request.intent == rs[i].request.intent ==> j == i
  {
    forall j | 0 <= j < |rs| && j != i ensures rs[j].request.intent != rs[i].request.intent {
      assert if i < j then !Clash(rs[i], rs[j]) else !Clash(rs[j], rs[i]);
    }
  }

  /** A dispatched record stays where it is and stays dispatched or done. */
  lemma RecordedStays(s: State, e: Event, q: Request)
    requires Loadable(s.disk) && Enabled(s, e) && Recorded(s.disk, q)
    ensures Recorded(Apply(s, e).disk, q)
  {
    var i :| 0 <= i < |s.disk| && s.disk[i].request == q && (s.disk[i].phase == Dispatched || s.disk[i].phase == Done);
    var d := Apply(s, e).disk;
    assert d[i].request == q && (d[i].phase == Dispatched || d[i].phase == Done);
  }

  lemma NotSentWhilePrepared(s: State, i: nat)
    requires Loadable(s.disk) && PostsInv(s) && i < |s.disk|
    requires s.disk[i].phase == Prepared || s.disk[i].phase == Failed
    ensures s.disk[i].request !in s.posts
  {
    OneRecordPerIntent(s.disk, i);
  }

  lemma PostIsNew(s: State, i: nat, k: nat)
    requires Loadable(s.disk) && PostsInv(s) && s.armed == Some(i) && k < |s.posts|
    ensures s.posts[k].intent != s.disk[i].request.intent
  {
    OneRecordPerIntent(s.disk, i);
    assert Recorded(s.disk, s.posts[k]);
  }

  lemma EventKeepsPosts(s: State, e: Event)
    requires Loadable(s.disk) && PostsInv(s) && Enabled(s, e)
    ensures PostsInv(Apply(s, e))
  {
    var t := Apply(s, e);
    forall k | 0 <= k < |s.posts| ensures Recorded(t.disk, s.posts[k]) {
      RecordedStays(s, e, s.posts[k]);
    }
    match e
    case Arm(i) => NotSentWhilePrepared(s, i);
    case Post(i) =>
      forall k | 0 <= k < |s.posts| ensures s.posts[k].intent != s.disk[i].request.intent {
        PostIsNew(s, i, k);
      }
      assert Recorded(t.disk, s.disk[i].request);
    case _ =>
  }

  lemma MarkedLooksMarked(q: Request)
    ensures LooksMarked(MarkedBody(q))
  {
    var b := MarkedBody(q);
    assert b[|b| - MARKER_BYTES..] == Marker(q);
  }

  /** The exact body tells the intent. */
  lemma BodyTellsIntent(q: Request, p: Request)
    requires MarkedBody(q) == MarkedBody(p)
    ensures q.intent == p.intent && q.digest == p.digest
  {
    IntentInBody(q);
    IntentInBody(p);
  }

  lemma IntentInBody(q: Request)
    ensures var b := MarkedBody(q);
            && |b| >= MARKER_BYTES
            && q.intent == b[|b| - 147..|b| - 76] && q.digest == b[|b| - 75..|b| - 4]
  {
    var b, m := MarkedBody(q), Marker(q);
    assert b[|b| - MARKER_BYTES..] == m;
    assert m[17..88] == q.intent && m[89..160] == q.digest;
  }

  /** Genuine objects stay so while the mutations only grow. */
  lemma StaysGenuine(s: State, t: State, l: Landed)
    requires Genuine(s, l) && s.posts <= t.posts
    ensures Genuine(t, l)
  {
  }

  lemma EventKeepsObjects(s: State, e: Event)
    requires ObjectsInv(s) && Enabled(s, e)
    ensures ObjectsInv(Apply(s, e))
  {
    var t := Apply(s, e);
    assert s.posts <= t.posts;
    match e
    case Create(p, o, sha) =>
      MarkedLooksMarked(s.posts[p]);
      assert Genuine(t, Landed(Published(s.posts[p], o, sha), Some(p)));
      OneMoreObject(s, t);
    case Appear(o) =>
      OneMoreObject(s, t);
    case Edit(k, _, _, _, _) =>
      forall j | 0 <= j < |t.objects| ensures Genuine(t, t.objects[j]) {
        assert j != k ==> Genuine(s, s.objects[j]);
      }
      forall i, j | 0 <= i < j < |t.objects| ensures Apart(t.objects[i], t.objects[j]) {
        assert Apart(s.objects[i], s.objects[j]);
      }
    case _ =>
      forall j | 0 <= j < |t.objects| ensures Genuine(t, t.objects[j]) {
        StaysGenuine(s, t, s.objects[j]);
      }
  }

  lemma OneMoreObject(s: State, t: State)
    requires ObjectsInv(s) && |t.objects| == |s.objects| + 1 && t.objects[..|s.objects|] == s.objects
    requires t.posts == s.posts
    requires var l := t.objects[|s.objects|];
             Genuine(t, l) && (forall k :: 0 <= k < |s.objects| ==> Apart(s.objects[k], l))
    ensures ObjectsInv(t)
  {
    forall k | 0 <= k < |s.objects| ensures t.objects[k] == s.objects[k] {
      assert t.objects[..|s.objects|][k] == s.objects[k];
    }
  }

  /** Only an own object passes the comparison: what it shows names the intent, an intent has one record,
      and the record's mutation is sent once. */
  lemma OnlyOwnPasses(s: State, i: nat, k: nat)
    requires Loadable(s.disk) && PostsInv(s) && ObjectsInv(s) && i < |s.disk| && k < |s.objects|
    requires Validates(s.disk[i], s.objects[k].shown)
    ensures MadeFor(s, k, s.disk[i].request)
  {
    var q := s.disk[i].request;
    MarkedLooksMarked(q);
    assert Genuine(s, s.objects[k]);
    var p := s.posts[s.objects[k].post.value];
    BodyTellsIntent(q, p);
    assert Recorded(s.disk, p);
    OneRecordPerIntent(s.disk, i);
  }

  /** An own object that nobody has edited, at the approved revision, does pass. */
  lemma OwnPasses(q: Request, o: Receipt)
    requires ReceiptOk(o)
    ensures Validates(Fresh(q), Published(q, o, q.revision))
    ensures Validates(Fresh(q).(receipt := Some(o)), Published(q, o, q.revision))
  {
  }

  lemma OwnsStays(s: State, e: Event, r: Record)
    requires Enabled(s, e) && Owns(s, r)
    ensures Owns(Apply(s, e), r)
  {
    var k :| MadeFor(s, k, r.request) && r.receipt == Some(s.objects[k].shown.receipt);
    assert MadeFor(Apply(s, e), k, r.request);
    assert Apply(s, e).objects[k].shown.receipt == s.objects[k].shown.receipt;
  }

  /** A source stays one, with its receipt. */
  lemma SourceStays(s: State, e: Event, q: Request, o: Option<Receipt>)
    requires Enabled(s, e)
    requires exists j :: 0 <= j < |s.disk| && IsSource(s.disk[j], q) && s.disk[j].receipt == o
    ensures var t := Apply(s, e);
            exists j :: 0 <= j < |t.disk| && IsSource(t.disk[j], q) && t.disk[j].receipt == o
  {
    var j :| 0 <= j < |s.disk| && IsSource(s.disk[j], q) && s.disk[j].receipt == o;
    assert Apply(s, e).disk[j] == s.disk[j];
  }

  /** A record that the event leaves alone keeps what is known of its receipt. */
  lemma ReceiptStays(s: State, e: Event, r: Record)
    requires Enabled(s, e) && OwnReceipt(s, r)
    ensures OwnReceipt(Apply(s, e), r)
  {
    if r.request.operation != Notify {
      if r.phase == Done { OwnsStays(s, e, r); }
    } else if r.receipt != None {
      SourceStays(s, e, r.request, r.receipt);
    }
  }

  /** The records an event changes. */
  predicate Touches(e: Event, i: nat) {
    match e
    case Reject(j, _) => i == j
    case Arm(j) => i == j
    case Note(j, _) => i == j
    case Settle(j) => i == j
    case _ => false
  }

  lemma ChangedReceipt(s: State, e: Event, i: nat)
    requires Enabled(s, e) && i < |s.disk| && Touches(e, i) && Loadable(s.disk) && ReceiptsInv(s)
    ensures OwnReceipt(Apply(s, e), Apply(s, e).disk[i])
  {
    var t, r := Apply(s, e), s.disk[i];
    assert RecordOk(r) && OwnReceipt(s, r);
    if r.request.operation == Notify {
      if t.disk[i].receipt != None {
        SourceStays(s, e, r.request, t.disk[i].receipt);
      }
    } else if e.Settle? {
      OwnsStays(s, e, r);
      SameOwns(t, r, t.disk[i]);
    }
  }

  lemma EventKeepsReceipts(s: State, e: Event)
    requires Loadable(s.disk) && PostsInv(s) && ObjectsInv(s) && ReceiptsInv(s) && Enabled(s, e)
    ensures ReceiptsInv(Apply(s, e))
  {
    var t := Apply(s, e);
    forall i | 0 <= i < |t.disk| ensures OwnReceipt(t, t.disk[i]) {
      if i < |s.disk| && Touches(e, i) {
        ChangedReceipt(s, e, i);
      } else if i < |s.disk| {
        assert t.disk[i] == s.disk[i];
        ReceiptStays(s, e, s.disk[i]);
      }
    }
    SentStays(s, e);
    SeenStays(s, e);
  }

  lemma SentStays(s: State, e: Event)
    requires s.sent != None ==> s.sent.value < |s.disk| && s.disk[s.sent.value].request in s.posts
    requires Enabled(s, e)
    ensures var t := Apply(s, e);
            t.sent != None ==> t.sent.value < |t.disk| && t.disk[t.sent.value].request in t.posts
  {
    if e.Post? {
      assert Apply(s, e).posts[|s.posts|] == s.disk[e.i].request;
    }
  }

  lemma SeenStays(s: State, e: Event)
    requires Loadable(s.disk) && PostsInv(s) && ObjectsInv(s) && ReceiptsInv(s) && Enabled(s, e)
    ensures var t := Apply(s, e);
            t.seen != None ==> t.seen.value < |t.disk| && t.disk[t.seen.value].receipt != None
                               && Owns(t, t.disk[t.seen.value])
  {
    var t := Apply(s, e);
    if e.Seen? {
      OnlyOwnPasses(s, e.i, e.k);
      assert MadeFor(t, e.k, t.disk[e.i].request);
    } else if t.seen != None {
      var i := s.seen.value;
      assert RecordOk(s.disk[i]);
      OwnsStays(s, e, s.disk[i]);
      assert t.disk[i].request == s.disk[i].request && t.disk[i].receipt == s.disk[i].receipt;
      SameOwns(t, s.disk[i], t.disk[i]);
    }
  }

  lemma SameOwns(s: State, a: Record, b: Record)
    requires Owns(s, a) && b.request == a.request && b.receipt == a.receipt
    ensures Owns(s, b)
  {
    var k :| MadeFor(s, k, a.request) && a.receipt == Some(s.objects[k].shown.receipt);
    assert MadeFor(s, k, b.request);
  }

  lemma {:induction false} RunKeepsInv(es: seq<Event>)
    requires Legal(es)
    ensures Inv(After(es))
  {
    if es != [] {
      var before, e := es[..|es| - 1], es[|es| - 1];
      RunKeepsInv(before);
      EventKeepsSound(After(before), e);
      EventKeepsPosts(After(before), e);
      EventKeepsObjects(After(before), e);
      EventKeepsReceipts(After(before), e);
    }
  }

  lemma Reached(es: seq<Event>, s: State)
    requires LeadsTo(es, s)
    ensures Inv(s)
  {
    assert Legal(es) && After(es) == s;
    RunKeepsInv(es);
  }

  // --- The theorems about whole runs. -----------------------------------------------------------

  /** At most one mutation is ever dispatched per (subject, revision), over any crashes, lost replies,
      refusals and intents; and per intent. */
  lemma AtMostOneMutationPerObject(es: seq<Event>)
    requires Legal(es)
    ensures forall j, k :: 0 <= j < k < |After(es).posts| ==>
              Key(After(es).posts[j]) != Key(After(es).posts[k])
              && After(es).posts[j].intent != After(es).posts[k].intent
  {
    RunKeepsInv(es);
    var s := After(es);
    forall j, k | 0 <= j < k < |s.posts| ensures Key(s.posts[j]) != Key(s.posts[k]) {
      assert Recorded(s.disk, s.posts[j]) && Recorded(s.disk, s.posts[k]);
      var a :| 0 <= a < |s.disk| && s.disk[a].request == s.posts[j] && s.disk[a].phase in {Dispatched, Done};
      var b :| 0 <= b < |s.disk| && s.disk[b].request == s.posts[k] && s.disk[b].phase in {Dispatched, Done};
      assert a < b ==> !Clash(s.disk[a], s.disk[b]);
      assert b < a ==> !Clash(s.disk[b], s.disk[a]);
    }
  }

  /** A record that ends failed, or is still prepared, never reached GitHub; one that is done did. */
  lemma PhaseTellsDispatch(es: seq<Event>, i: nat)
    requires Legal(es) && i < |After(es).disk|
    ensures After(es).disk[i].phase in {Prepared, Failed} ==> After(es).disk[i].request !in After(es).posts
    ensures After(es).disk[i].phase == Done ==> After(es).disk[i].request in After(es).posts
  {
    RunKeepsInv(es);
    var s := After(es);
    if s.disk[i].phase in {Prepared, Failed} {
      NotSentWhilePrepared(s, i);
    } else if s.disk[i].phase == Done {
      assert RecordOk(s.disk[i]) && OwnReceipt(s, s.disk[i]);
    }
  }

  /** What may follow a phase: nothing returns to prepared, and only a prepared record may fail. */
  predicate MayFollow(p: Phase, q: Phase) {
    p == q || p == Prepared || (p == Dispatched && q == Done)
  }

  /** Each record keeps its place, its request and its receipt, its phase only advances; what was sent stays
      sent, and what GitHub holds keeps its name and its origin. */
  ghost predicate Advances(s: State, t: State) {
    && |s.disk| <= |t.disk| && s.posts <= t.posts && |s.objects| <= |t.objects|
    && (forall i :: 0 <= i < |s.disk| ==> Later(s.disk[i], t.disk[i]))
    && (forall k :: 0 <= k < |s.objects| ==>
          t.objects[k].shown.receipt == s.objects[k].shown.receipt && t.objects[k].post == s.objects[k].post)
  }

  ghost predicate Later(r: Record, x: Record) {
    && x.request == r.request && MayFollow(r.phase, x.phase)
    && (r.receipt != None ==> x.receipt == r.receipt)
  }

  lemma EventAdvances(s: State, e: Event)
    requires Enabled(s, e)
    ensures Advances(s, Apply(s, e))
  {
  }

  lemma AdvancesTransitive(s: State, t: State, u: State)
    requires Advances(s, t) && Advances(t, u)
    ensures Advances(s, u)
  {
  }

  /** From any point of a run to any later one: a durably dispatched record never returns to prepared
      or failed, a settled one never changes its outcome. */
  lemma {:induction false} RunsOnlyAdvance(es: seq<Event>, n: nat)
    requires Legal(es) && n <= |es|
    ensures Legal(es[..n]) && Advances(After(es[..n]), After(es))
    decreases |es|
  {
    if n == |es| {
      assert es[..n] == es;
    } else {
      var before := es[..|es| - 1];
      assert before[..n] == es[..n];
      RunsOnlyAdvance(before, n);
      EventAdvances(After(before), es[|es| - 1]);
      AdvancesTransitive(After(before[..n]), After(before), After(es));
    }
  }

  /** Every journal that can ever be saved is one `load` accepts and fits its limit, so that once a
      record is admitted no later phase change of any record fails for size. */
  lemma SavedJournalsLoadAndFit(es: seq<Event>)
    requires Legal(es)
    ensures Loadable(After(es).disk) && Bytes(After(es).disk) <= STATE_LIMIT
  {
    RunKeepsInv(es);
    WithinRoom(After(es).disk);
  }

  /** Read before an event: whatever it saves fits. */
  lemma NextSaveFits(es: seq<Event>, e: Event)
    requires Legal(es) && Enabled(After(es), e)
    ensures Bytes(Apply(After(es), e).disk) <= STATE_LIMIT
  {
    assert (es + [e])[..|es|] == es;
    SavedJournalsLoadAndFit(es + [e]);
  }

  /** No request ever has two objects: it is sent once, and GitHub creates one object for one mutation. */
  lemma OneObjectPerRequest(es: seq<Event>, m: nat, k: nat, q: Request)
    requires Legal(es) && MadeFor(After(es), m, q) && MadeFor(After(es), k, q)
    ensures m == k
  {
    RunKeepsInv(es);
    var s := After(es);
    var a, b := s.objects[m].post.value, s.objects[k].post.value;
    assert s.posts[a] == q && s.posts[b] == q;
    assert a == b;
    ApartUnlessSame(s, m, k);
  }

  lemma ApartUnlessSame(s: State, m: nat, k: nat)
    requires ObjectsInv(s) && m < |s.objects| && k < |s.objects|
    requires (s.objects[m].post != None && s.objects[m].post == s.objects[k].post)
             || s.objects[m].shown.receipt.number == s.objects[k].shown.receipt.number
    ensures m == k
  {
  }

  /** Whatever others have put on GitHub, a search for the object of a record accepts its own and no other,
      so it never accepts two. */
  lemma SearchAcceptsOneAtMost(es: seq<Event>, i: nat, m: nat, k: nat)
    requires Legal(es) && i < |After(es).disk| && m < |After(es).objects| && k < |After(es).objects|
    requires Validates(After(es).disk[i], After(es).objects[m].shown)
    requires Validates(After(es).disk[i], After(es).objects[k].shown)
    ensures m == k && MadeFor(After(es), m, After(es).disk[i].request)
  {
    RunKeepsInv(es);
    OnlyOwnPasses(After(es), i, m);
    OnlyOwnPasses(After(es), i, k);
    OneObjectPerRequest(es, m, k, After(es).disk[i].request);
  }

  /** The receipt of a completed publication or follow-up names the one object its own mutation created,
      and nothing else on GitHub. */
  lemma ReceiptIsOwnObject(es: seq<Event>, i: nat)
    requires Legal(es) && i < |After(es).disk| && After(es).disk[i].phase == Done
    requires After(es).disk[i].request.operation != Notify
    ensures var s := After(es);
            && (exists k :: MadeFor(s, k, s.disk[i].request) && s.disk[i].receipt == Some(s.objects[k].shown.receipt))
            && (forall k :: 0 <= k < |s.objects| ==>
                  (MadeFor(s, k, s.disk[i].request)
                   <==> s.objects[k].shown.receipt.number == s.disk[i].receipt.value.number))
  {
    RunKeepsInv(es);
    var s := After(es);
    assert OwnReceipt(s, s.disk[i]);
    var m :| MadeFor(s, m, s.disk[i].request) && s.disk[i].receipt == Some(s.objects[m].shown.receipt);
    forall k | 0 <= k < |s.objects|
      ensures MadeFor(s, k, s.disk[i].request)
              <==> s.objects[k].shown.receipt.number == s.disk[i].receipt.value.number
    {
      if MadeFor(s, k, s.disk[i].request) {
        OneObjectPerRequest(es, m, k, s.disk[i].request);
      } else if s.objects[k].shown.receipt.number == s.disk[i].receipt.value.number {
        ApartUnlessSame(s, m, k);
      }
    }
  }

  /** The receipt of a completed notification is that of a completed publication with its subject. */
  lemma NotificationIsOfItsPublication(es: seq<Event>, i: nat)
    requires Legal(es) && i < |After(es).disk| && After(es).disk[i].phase == Done
    requires After(es).disk[i].request.operation == Notify
    ensures var s := After(es);
            exists j :: 0 <= j < |s.disk| && IsSource(s.disk[j], s.disk[i].request)
                        && s.disk[j].receipt == s.disk[i].receipt
  {
    RunKeepsInv(es);
    assert OwnReceipt(After(es), After(es).disk[i]) && RecordOk(After(es).disk[i]);
  }

  /** A reply that names another object is kept, and that record is never completed. */
  lemma MisnamedIsNeverDone(es: seq<Event>, n: nat, i: nat, k: nat)
    requires Legal(es) && n <= |es| && Legal(es[..n])
    requires var s := After(es[..n]);
             && i < |s.disk| && s.disk[i].request.operation != Notify
             && k < |s.objects| && s.disk[i].receipt == Some(s.objects[k].shown.receipt)
             && !MadeFor(s, k, s.disk[i].request)
    ensures i < |After(es).disk| && After(es).disk[i].phase == Dispatched
  {
    RunsOnlyAdvance(es, n);
    RunKeepsInv(es[..n]);
    RunKeepsInv(es);
    var s, t := After(es[..n]), After(es);
    assert RecordOk(s.disk[i]) && RecordOk(t.disk[i]) && Later(s.disk[i], t.disk[i]);
    if t.disk[i].phase == Done {
      assert Genuine(s, s.objects[k]);
      ReceiptIsOwnObject(es, i);
    }
  }
}
