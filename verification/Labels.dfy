/**
 From two triage documents to an issue's labels (scripts/backlog-check-triage.py and
 scripts/backlog-triage.py): the owner's overrides, the merge of the documents, the labels wanted, and
 the single edits that lead there.
 */
module Labels {
  import opened Basics
  import opened Names

  datatype Namespace = Class | Size | Pipeline | Triage

  /** A label of a runner namespace, or any other one: an unknown value in a familiar namespace too. */
  datatype Label = Managed(ns: Namespace, value: string) | Other(name: string)

  function Values(ns: Namespace): set<string> {
    match ns
    case Class => {"bug", "perf", "feature", "aix", "uix", "sdlc", "security", "docs", "research", "decision"}
    case Size => {"S", "M", "L", "XL"}
    case Pipeline => {"light", "default", "design", "hand"}
    case Triage => {"pending", "needs-info", "disputed", "maybe-fixed", "duplicate", "held"}
  }

  predicate IsManaged(l: Label) { l.Managed? && l.value in Values(l.ns) }

  const DECISION := Managed(Class, "decision")
  const SECURITY := Managed(Class, "security")
  const HELD := Managed(Triage, "held")
  const PROTECTED := {DECISION, SECURITY, HELD}
  const HINTS := {Managed(Triage, "pending"), Other("bug"), Other("enhancement")}
  const HOLD := {SECURITY, HELD}

  /** What the runner may take off an issue, and all it ever touches. */
  predicate Removable(l: Label) { (IsManaged(l) && l !in PROTECTED) || l in HINTS }
  predicate Controlled(l: Label) { IsManaged(l) || l in HINTS }

  // --- The owner's overrides. -------------------------------------------------------------------

  /** `owner_overrides`: one label for each namespace, or a refusal: exactly when a label is not of a
      runner namespace, or two differ within one. */
  method OwnerOverrides(labels: seq<Label>) returns (r: Option<map<Namespace, Label>>)
    ensures r == None <==> !(forall l :: l in labels ==> IsManaged(l)) || !OnePerNamespace(set l | l in labels)
    ensures r != None ==> Overrides(r.value, set l | l in labels)
  {
    var override: map<Namespace, Label> := map[];
    for i := 0 to |labels|
      invariant forall k :: 0 <= k < i ==>
                  IsManaged(labels[k]) && labels[k].ns in override && override[labels[k].ns] == labels[k]
      invariant forall ns :: ns in override ==>
                  IsManaged(override[ns]) && override[ns].ns == ns && override[ns] in labels[..i]
    {
      var l := labels[i];
      assert l in labels;
      if !IsManaged(l) {
        return None;
      }
      if l.ns in override && override[l.ns] != l {
        assert override[l.ns] in labels;
        return None;
      }
      override := override[l.ns := l];
    }
    assert labels[..|labels|] == labels;
    r := Some(override);
  }

  ghost predicate OnePerNamespace(ls: set<Label>) {
    forall a, b :: a in ls && b in ls && IsManaged(a) && IsManaged(b) && a.ns == b.ns ==> a == b
  }

  /** The overrides are these labels, each under its namespace. */
  ghost predicate Overrides(o: map<Namespace, Label>, ls: set<Label>) {
    && (forall ns :: ns in o ==> IsManaged(o[ns]) && o[ns].ns == ns && o[ns] in ls)
    && (forall l :: l in ls ==> IsManaged(l) && l.ns in o && o[l.ns] == l)
  }

  /** A labelling or unlabelling, in the order of its identity. */
  datatype Event = Event(subject: Label, labeled: bool, actor: Option<string>)

  /** The last event about a label. */
  function Last(events: seq<Event>, l: Label): Option<Event> {
    if events == [] then None
    else if events[|events| - 1].subject == l then Some(events[|events| - 1])
    else Last(events[..|events| - 1], l)
  }

  predicate Owned(events: seq<Event>, owner: string, l: Label) {
    var e := Last(events, l);
    e != None && e.value.labeled && e.value.actor == Some(owner)
  }

  /** It is known who put the label there. */
  predicate Provenance(events: seq<Event>, l: Label) {
    var e := Last(events, l);
    e != None && e.value.labeled && e.value.actor != None
  }

  /** The labels that count as the owner's: those the owner set last, and a decision by whomever. */
  ghost function OwnersLabels(labels: set<Label>, events: seq<Event>, owner: string): set<Label> {
    set l | l in labels && IsManaged(l) && (Owned(events, owner, l) || l == DECISION)
  }

  /** `owner_labels`: refused when it is unknown who set a label, or when the owner's labels conflict. */
  method OwnerLabels(labels: set<Label>, events: seq<Event>, owner: string) returns (r: Option<map<Namespace, Label>>)
    ensures r == None <==>
            (exists l :: l in labels && IsManaged(l) && l !in PROTECTED && l !in HINTS && !Provenance(events, l))
            || !OnePerNamespace(OwnersLabels(labels, events, owner))
    ensures r != None ==> Overrides(r.value, OwnersLabels(labels, events, owner))
  {
    if exists l :: l in labels && IsManaged(l) && l !in PROTECTED && l !in HINTS && !Provenance(events, l) {
      return None;
    }
    var own := Listed(labels, events, owner);
    assert (set l | l in own) == OwnersLabels(labels, events, owner);
    r := OwnerOverrides(own);
  }

  method Listed(labels: set<Label>, events: seq<Event>, owner: string) returns (own: seq<Label>)
    ensures forall l :: l in own <==> l in OwnersLabels(labels, events, owner)
  {
    own := [];
    var pending := labels;
    while pending != {}
      invariant pending <= labels
      invariant forall l :: l in own <==> l in OwnersLabels(labels, events, owner) && l !in pending
      decreases pending
    {
      var l :| l in pending;
      pending := pending - {l};
      if IsManaged(l) && (Owned(events, owner, l) || l == DECISION) {
        own := own + [l];
      }
    }
  }

  // --- The merge. -------------------------------------------------------------------------------

  /** What a triager found about the state of an issue. */
  datatype Resolution = Resolution(state: string, evidence: seq<string>, addressed: seq<string>, remaining: seq<string>)

  datatype Doc = Doc(needsInfo: seq<string>, confidence: real, cls: string, size: string, resolution: Resolution,
                     duplicates: multiset<nat>, adr: Option<string>)

  datatype Outcome = Passed | Failed | Inconclusive
  datatype Verdict = NeedsInfo | Dispute | Duplicate | Agreed

  datatype Reason = OpenQuestions | LowConfidence | Insufficient
                  | ClassDiffers | SizeDiffers | StateDiffers | DuplicatesDiffer | ReportFailed

  datatype Record = Record(verdict: Verdict, cls: Option<string>, size: Option<string>, pipeline: Option<string>,
                           adr: Option<string>, resolution: Option<Resolution>, duplicates: multiset<nat>,
                           needsInfo: seq<string>, reasons: seq<Reason>, labels: map<Namespace, Label>)

  const CONFIDENCE_FLOOR := 0.6

  function PipelineFor(size: string): string {
    if size == "S" then "light" else if size == "M" then "default" else "design"
  }

  function Effective(o: map<Namespace, Label>, ns: Namespace): Option<string> {
    if ns in o && o[ns].Managed? then Some(o[ns].value) else None
  }

  function Or(a: Option<string>, b: string): string { if a == None then b else a.value }

  /** `_union`: what either says, each once. */
  function Union(a: seq<string>, b: seq<string>): seq<string> { AddNew(AddNew([], a), b) }

  function If(b: bool, r: Reason): seq<Reason> { if b then [r] else [] }

  /** Why the issue cannot be decided yet. */
  function Doubts(a: Doc, v: Doc, outcome: Outcome): seq<Reason> {
    If(Union(a.needsInfo, v.needsInfo) != [], OpenQuestions) + If(a.confidence < CONFIDENCE_FLOOR, LowConfidence)
    + If(outcome == Inconclusive, Insufficient)
  }

  /** Where the triagers differ; only if they do not, that the report failed. */
  function Disputes(a: Doc, v: Doc, outcome: Outcome): seq<Reason> {
    var differences := If(a.cls != v.cls, ClassDiffers) + If(a.size != v.size, SizeDiffers)
                       + If(a.resolution.state != v.resolution.state, StateDiffers)
                       + If(a.duplicates != v.duplicates, DuplicatesDiffer);
    differences + If(outcome == Failed && differences == [], ReportFailed)
  }

  function Merge(a: Doc, v: Doc, outcome: Outcome, o: map<Namespace, Label>): Record {
    var empty := Record(NeedsInfo, Effective(o, Class), Effective(o, Size), Effective(o, Pipeline),
                        None, None, multiset{},
                        [], [], map[]);
    if Doubts(a, v, outcome) != [] then
      Labelled(empty.(needsInfo := Union(a.needsInfo, v.needsInfo), reasons := Doubts(a, v, outcome)), o)
    else if Disputes(a, v, outcome) != [] then
      Labelled(empty.(verdict := Dispute, reasons := Disputes(a, v, outcome)), o)
    else
      Labelled(Decided(a, v, o), o)
  }

  /** What two documents that agree decide, the owner first. */
  function Decided(a: Doc, v: Doc, o: map<Namespace, Label>): Record {
    var size := Or(Effective(o, Size), a.size);
    var found := Resolution(a.resolution.state, Union(a.resolution.evidence, v.resolution.evidence),
                            Union(a.resolution.addressed, v.resolution.addressed),
                            Union(a.resolution.remaining, v.resolution.remaining));
    Record(if a.duplicates != multiset{} then Duplicate else Agreed, Some(Or(Effective(o, Class), a.cls)), Some(size),
           Some(Or(Effective(o, Pipeline), PipelineFor(size))), if a.adr != None then a.adr else v.adr, Some(found),
           a.duplicates, [], [], map[])
  }

  function VerdictLabel(v: Verdict): Label {
    Managed(Triage, match v
                    case NeedsInfo => "needs-info"
                    case Dispute => "disputed"
                    case Duplicate => "duplicate"
                    case Agreed => "maybe-fixed")
  }

  predicate MaybeFixed(r: Record) { r.resolution != None && r.resolution.value.state == "fixed_candidate" }

  /** The labels of a record by itself. */
  function OwnLabels(r: Record): map<Namespace, Label> {
    if r.verdict == Agreed then
      map[Class := Managed(Class, Or(r.cls, "")), Size := Managed(Size, Or(r.size, "")),
          Pipeline := Managed(Pipeline, Or(r.pipeline, ""))]
      + if MaybeFixed(r) then map[Triage := VerdictLabel(Agreed)] else map[]
    else map[Triage := VerdictLabel(r.verdict)]
  }

  function Labelled(r: Record, o: map<Namespace, Label>): Record {
    r.(labels := OwnLabels(r) + o)
  }

  lemma {:induction false} UnionMeans(a: seq<string>, b: seq<string>)
    ensures Distinct(Union(a, b)) && forall x :: x in Union(a, b) <==> x in a || x in b
  {
    AddNewIsUnion([], a);
    AddNewIsUnion(AddNew([], a), b);
    forall x ensures x in Union(a, b) <==> x in a || x in b {
      OneMoreName(a, x);
      OneMoreName(b, x);
      OneMoreName(Union(a, b), x);
    }
  }

  ghost predicate Agree(a: Doc, v: Doc) {
    a.cls == v.cls && a.size == v.size && a.resolution.state == v.resolution.state && a.duplicates == v.duplicates
  }

  /** No triager has a question, the author is confident, and the verifier found the evidence sufficient. */
  ghost predicate Decidable(a: Doc, v: Doc, outcome: Outcome) {
    a.needsInfo == [] && v.needsInfo == [] && a.confidence >= CONFIDENCE_FLOOR && outcome != Inconclusive
  }

  lemma NoQuestions(a: Doc, v: Doc)
    ensures Union(a.needsInfo, v.needsInfo) == [] <==> a.needsInfo == [] && v.needsInfo == []
  {
    UnionMeans(a.needsInfo, v.needsInfo);
    if a.needsInfo != [] {
      assert a.needsInfo[0] in Union(a.needsInfo, v.needsInfo);
    } else if v.needsInfo != [] {
      assert v.needsInfo[0] in Union(a.needsInfo, v.needsInfo);
    }
  }

  /** Every doubt that is given holds, and all that hold are given. */
  lemma DoubtsMean(a: Doc, v: Doc, outcome: Outcome)
    ensures Doubts(a, v, outcome) == [] <==> Decidable(a, v, outcome)
    ensures OpenQuestions in Doubts(a, v, outcome) <==> !(a.needsInfo == [] && v.needsInfo == [])
    ensures LowConfidence in Doubts(a, v, outcome) <==> a.confidence < CONFIDENCE_FLOOR
    ensures Insufficient in Doubts(a, v, outcome) <==> outcome == Inconclusive
  {
    NoQuestions(a, v);
  }

  /** And so for the disputes. */
  lemma DisputesMean(a: Doc, v: Doc, outcome: Outcome)
    ensures Disputes(a, v, outcome) == [] <==> Agree(a, v) && outcome != Failed
    ensures ReportFailed in Disputes(a, v, outcome) <==> outcome == Failed && Agree(a, v)
    ensures ClassDiffers in Disputes(a, v, outcome) <==> a.cls != v.cls
    ensures SizeDiffers in Disputes(a, v, outcome) <==> a.size != v.size
    ensures StateDiffers in Disputes(a, v, outcome) <==> a.resolution.state != v.resolution.state
    ensures DuplicatesDiffer in Disputes(a, v, outcome) <==> a.duplicates != v.duplicates
  {
  }

  /** The verdict depends on the two documents and the verifier's outcome alone: the owner's labels decide
      what is effective, never whether the triagers agree. The reasons are those that hold at that stage,
      the questions those of either triager, each once. */
  lemma VerdictMeans(a: Doc, v: Doc, outcome: Outcome, o: map<Namespace, Label>)
    ensures Merge(a, v, outcome, o).verdict ==
            if !Decidable(a, v, outcome) then NeedsInfo
            else if !Agree(a, v) || outcome == Failed then Dispute
            else if a.duplicates != multiset{} then Duplicate else Agreed
    ensures Merge(a, v, outcome, o).reasons ==
            if !Decidable(a, v, outcome) then Doubts(a, v, outcome) else Disputes(a, v, outcome)
    ensures var q := Merge(a, v, outcome, o).needsInfo;
            Distinct(q) && forall x :: x in q <==> x in a.needsInfo || x in v.needsInfo
  {
    DoubtsMean(a, v, outcome);
    DisputesMean(a, v, outcome);
    UnionMeans(a.needsInfo, v.needsInfo);
  }

  /** An agreement keeps the evidence of both, each piece once, and the author's decision record first. */
  lemma AgreementKeepsEvidence(a: Doc, v: Doc, outcome: Outcome, o: map<Namespace, Label>)
    requires Merge(a, v, outcome, o).verdict in {Agreed, Duplicate}
    ensures var r := Merge(a, v, outcome, o);
            && r.resolution != None && r.resolution.value.state == a.resolution.state == v.resolution.state
            && (forall x :: x in r.resolution.value.evidence
                   <==> x in a.resolution.evidence || x in v.resolution.evidence)
            && (forall x :: x in r.resolution.value.addressed
                   <==> x in a.resolution.addressed || x in v.resolution.addressed)
            && (forall x :: x in r.resolution.value.remaining
                   <==> x in a.resolution.remaining || x in v.resolution.remaining)
            && Distinct(r.resolution.value.evidence) && r.duplicates == a.duplicates == v.duplicates
            && r.adr == if a.adr != None then a.adr else v.adr
  {
    VerdictMeans(a, v, outcome, o);
    UnionMeans(a.resolution.evidence, v.resolution.evidence);
    UnionMeans(a.resolution.addressed, v.resolution.addressed);
    UnionMeans(a.resolution.remaining, v.resolution.remaining);
  }

  /** The documents' own values are of the runner's namespaces, and none of them is a hold. */
  predicate Sound(d: Doc) { d.cls in Values(Class) && d.cls != "security" && d.size in Values(Size) }

  /** What an agreement decides, an override first. */
  lemma AgreedFields(a: Doc, v: Doc, outcome: Outcome, o: map<Namespace, Label>)
    requires Sound(a) && ByNamespace(o) && Merge(a, v, outcome, o).verdict == Agreed
    ensures var r := Merge(a, v, outcome, o);
            && r.cls == Some(if Class in o then o[Class].value else a.cls) && r.cls.value in Values(Class)
            && r.size == Some(if Size in o then o[Size].value else a.size) && r.size.value in Values(Size)
            && r.pipeline == Some(if Pipeline in o then o[Pipeline].value else PipelineFor(r.size.value))
            && r.pipeline.value in Values(Pipeline)
  {
    assert Class in o ==> IsManaged(o[Class]);
    assert Size in o ==> IsManaged(o[Size]);
    assert Pipeline in o ==> IsManaged(o[Pipeline]);
  }

  ghost predicate ByNamespace(o: map<Namespace, Label>) { forall ns :: ns in o ==> IsManaged(o[ns]) && o[ns].ns == ns }

  lemma OwnLabelsManaged(r: Record)
    requires r.verdict == Agreed ==>
               r.cls != None && r.cls.value in Values(Class) && r.size != None && r.size.value in Values(Size)
               && r.pipeline != None && r.pipeline.value in Values(Pipeline)
    ensures ByNamespace(OwnLabels(r)) && HELD !in OwnLabels(r).Values
    ensures Class in OwnLabels(r) <==> r.verdict == Agreed
    ensures Class in OwnLabels(r) ==> OwnLabels(r)[Class] == Managed(Class, r.cls.value)
  {
  }

  /** A merged record has one managed label to a namespace, the owner's where there is one; a hold only
      from the owner; and a class label exactly if the triagers agree or the owner set it. */
  lemma RecordLabels(a: Doc, v: Doc, outcome: Outcome, o: map<Namespace, Label>)
    requires Sound(a) && ByNamespace(o)
    ensures var labels := Merge(a, v, outcome, o).labels;
            && ByNamespace(labels)
            && (forall ns :: ns in o ==> ns in labels && labels[ns] == o[ns])
            && (forall ns :: ns in labels && labels[ns] in HOLD ==> ns in o)
            && (Class in labels <==> Class in o || Merge(a, v, outcome, o).verdict == Agreed)
  {
    var r := Merge(a, v, outcome, o);
    if r.verdict == Agreed {
      AgreedFields(a, v, outcome, o);
    }
    OwnLabelsManaged(r);
    OwnerFirst(OwnLabels(r), o);
    MergedLabels(a, v, outcome, o);
  }

  lemma MergedLabels(a: Doc, v: Doc, outcome: Outcome, o: map<Namespace, Label>)
    ensures Merge(a, v, outcome, o).labels == OwnLabels(Merge(a, v, outcome, o)) + o
  {
  }

  /** Of two sets of labels by namespace, the second where it has one. */
  lemma OwnerFirst(own: map<Namespace, Label>, o: map<Namespace, Label>)
    requires ByNamespace(own) && ByNamespace(o) && HELD !in own.Values
    requires Class in own && Class !in o ==> own[Class] != SECURITY
    ensures ByNamespace(own + o)
    ensures forall ns :: ns in o ==> ns in own + o && (own + o)[ns] == o[ns]
    ensures forall ns :: ns in own + o && (own + o)[ns] in HOLD ==> ns in o
    ensures Class in own + o <==> Class in o || Class in own
  {
  }

  // --- The labels wanted. -----------------------------------------------------------------------

  /** `labels_for`. */
  function LabelsFor(current: set<Label>, record: set<Label>): set<Label> {
    (set l | l in current && !Removable(l)) + record
  }

  /** For an issue without a hold, and whatever the triagers said: the labels wanted hold at most one
      label of each managed namespace, all of the owner's labels, every label that is none of the
      runner's business and nothing else but what the record names; the edits that lead there are
      authorized; and wanting them again changes nothing. */
  lemma DesiredLabels(current: set<Label>, events: seq<Event>, owner: string,
                      a: Doc, v: Doc, outcome: Outcome, o: map<Namespace, Label>)
    requires current !! HOLD && Sound(a) && Overrides(o, OwnersLabels(current, events, owner))
    ensures var record := Merge(a, v, outcome, o).labels.Values;
            var desired := LabelsFor(current, record);
            && OnePerNamespace(desired) && desired !! HOLD
            && (forall ns :: ns in o ==> o[ns] in desired)
            && (forall l :: l in current && !Controlled(l) ==> l in desired)
            && (forall l :: l in desired ==> l in record || (l in current && !Removable(l)))
            && Authorized(current, desired)
            && LabelsFor(desired, record) == desired
  {
    RecordLabels(a, v, outcome, o);
    var labels := Merge(a, v, outcome, o).labels;
    var record := labels.Values;
    forall l | l in record ensures IsManaged(l) && l.ns in labels && labels[l.ns] == l {
      var ns :| ns in labels && labels[ns] == l;
    }
    forall ns | ns in o ensures o[ns] in record {
      assert labels[ns] == o[ns];
    }
    DesiredFrom(current, events, owner, labels, o);
  }

  /** Removals and additions that the runner may make. */
  ghost predicate Authorized(current: set<Label>, desired: set<Label>) {
    && (forall l :: l in current && l !in desired ==> Removable(l))
    && (forall l :: l in desired && l !in current ==> IsManaged(l))
  }

  lemma DesiredFrom(current: set<Label>, events: seq<Event>, owner: string,
                    labels: map<Namespace, Label>, o: map<Namespace, Label>)
    requires current !! HOLD && Overrides(o, OwnersLabels(current, events, owner))
    requires forall l :: l in labels.Values ==> IsManaged(l) && l.ns in labels && labels[l.ns] == l
    requires forall ns :: ns in o ==> ns in labels && labels[ns] == o[ns]
    requires forall ns :: ns in labels && labels[ns] in HOLD ==> ns in o
    ensures var desired := LabelsFor(current, labels.Values);
            && OnePerNamespace(desired) && desired !! HOLD && Authorized(current, desired)
            && LabelsFor(desired, labels.Values) == desired
  {
    var desired := LabelsFor(current, labels.Values);
    forall l | l in desired && IsManaged(l) ensures l in labels.Values {
      if l in current && !Removable(l) {
        assert l in OwnersLabels(current, events, owner);
      }
    }
    forall ns | ns in o ensures o[ns] !in HOLD {
      assert o[ns] in current;
    }
    assert forall l :: l in labels.Values ==> l !in HOLD;
  }

  // --- The edits. -------------------------------------------------------------------------------

  /** What `fresh` accepts while a publication is under way. */
  ghost predicate Between(before: set<Label>, after: set<Label>, current: set<Label>) {
    before * after <= current <= before + after
  }

  /** Before a call others may add and take labels; then the call goes through, or it does not. */
  datatype Turn = Turn(added: set<Label>, taken: set<Label>, goes: bool)

  function Step(labels: set<Label>, t: Turn): set<Label> { labels - t.taken + t.added }

  /** What the labels would be by the doing of others alone. */
  function Theirs(labels: set<Label>, turns: seq<Turn>): set<Label> {
    if turns == [] then labels else Step(Theirs(labels, turns[..|turns| - 1]), turns[|turns| - 1])
  }

  /** What others have touched. */
  function Touched(turns: seq<Turn>): set<Label> {
    if turns == [] then {} else Touched(turns[..|turns| - 1]) + turns[|turns| - 1].added + turns[|turns| - 1].taken
  }

  /** How many calls the edits take, and that they all go through. */
  function CallsFor(seen: set<Label>, desired: set<Label>): nat { |seen - desired| + if desired <= seen then 0 else 1 }

  predicate AllGo(turns: seq<Turn>, n: nat) { n <= |turns| && forall i :: 0 <= i < n ==> turns[i].goes }

  /** How far the edits have come: labels that are in both or in neither are as others left them; those
      that others have not touched are there unless they were taken off, and not yet if they are to be
      added. */
  ghost predicate Removing(labels: set<Label>, seen: set<Label>, desired: set<Label>,
                           left: set<Label>, turns: seq<Turn>) {
    && left <= seen - desired
    && (forall l :: l !in seen - desired ==> (l in labels <==> l in Theirs(seen, turns)))
    && (forall l :: l !in Touched(turns) ==> (l in labels <==> l in seen * desired + left))
  }

  /** `set_labels`: one call for each removal, then one for all additions, while others edit the labels too.
      Every label that is to be neither taken off nor added ends as the others left it, and so does every
      label that is none of the runner's business: none is replaced by what the runner saw earlier. What
      others do not touch stays in the interval that `fresh` accepts, however the edits are interrupted;
      uninterrupted, it ends as wanted. */
  method SetLabels(before: set<Label>, desired: set<Label>, seen: set<Label>, turns: seq<Turn>)
    returns (ok: bool, labels: set<Label>, used: nat)
    requires Between(before, desired, seen)
    ensures used <= |turns| && (!Authorized(seen, desired) ==> used == 0)
    ensures forall l :: l !in seen - desired && l !in desired - seen ==>
              (l in labels <==> l in Theirs(seen, turns[..used]))
    ensures forall l :: !Controlled(l) && Authorized(seen, desired) ==>
              (l in labels <==> l in Theirs(seen, turns[..used]))
    ensures forall l :: l !in Touched(turns[..used]) ==>
              (l in before * desired ==> l in labels) && (l in labels ==> l in before + desired)
    ensures ok ==> forall l :: l !in Touched(turns[..used]) ==> (l in labels <==> l in desired)
    ensures ok <==> Authorized(seen, desired) && AllGo(turns, CallsFor(seen, desired))
  {
    labels, used := seen, 0;
    ok := (forall l :: l in seen && l !in desired ==> Removable(l))
          && (forall l :: l in desired && l !in seen ==> IsManaged(l));
    if ok {
      ok, labels, used := Edit(seen, desired, turns);
    }
  }

  method Edit(seen: set<Label>, desired: set<Label>, turns: seq<Turn>) returns (ok: bool, labels: set<Label>, used: nat)
    ensures used <= |turns|
    ensures forall l :: l !in seen - desired && l !in desired - seen ==>
              (l in labels <==> l in Theirs(seen, turns[..used]))
    ensures forall l :: l !in Touched(turns[..used]) ==>
              (l in seen * desired ==> l in labels) && (l in labels ==> l in seen + desired)
    ensures ok ==> forall l :: l !in Touched(turns[..used]) ==> (l in labels <==> l in desired)
    ensures ok <==> AllGo(turns, CallsFor(seen, desired))
  {
    ghost var left;
    ok, labels, used, left := Remove(seen, desired, turns);
    if ok && !(desired <= seen) {
      ok := used < |turns|;
      if ok {
        ok, labels := Add(seen, desired, turns, used, labels);
        used := used + 1;
      }
    }
  }

  /** The call that adds. */
  method Add(seen: set<Label>, desired: set<Label>, turns: seq<Turn>, used: nat, before: set<Label>)
    returns (ok: bool, labels: set<Label>)
    requires used < |turns| && Removing(before, seen, desired, {}, turns[..used])
    ensures ok == turns[used].goes
    ensures forall l :: l !in seen - desired && l !in desired - seen ==>
              (l in labels <==> l in Theirs(seen, turns[..used + 1]))
    ensures forall l :: l !in Touched(turns[..used + 1]) ==>
              (l in labels <==> l in seen * desired || (ok && l in desired))
  {
    assert turns[..used + 1][..used] == turns[..used];
    labels, ok := Step(before, turns[used]), turns[used].goes;
    if ok {
      labels := labels + (desired - seen);
    }
  }

  method Remove(seen: set<Label>, desired: set<Label>, turns: seq<Turn>)
    returns (ok: bool, labels: set<Label>, used: nat, ghost left: set<Label>)
    ensures used <= |turns| && Removing(labels, seen, desired, left, turns[..used])
    ensures ok <==> AllGo(turns, |seen - desired|)
    ensures ok ==> left == {} && used == |seen - desired|
  {
    var removals := seen - desired;
    labels, used := seen, 0;
    while removals != {}
      invariant used <= |turns| && Removing(labels, seen, desired, removals, turns[..used])
      invariant used + |removals| == |seen - desired| && AllGo(turns, used)
      decreases removals
    {
      if used == |turns| {
        return false, labels, used, removals;
      }
      var l :| l in removals;
      labels, used := Step(labels, turns[used]), used + 1;
      assert turns[..used][..used - 1] == turns[..used - 1];
      if !turns[used - 1].goes {
        return false, labels, used, removals;
      }
      labels, removals := labels - {l}, removals - {l};
    }
    ok, left := true, {};
  }

  /** So what `reconcile_labels` compares, the labels it controls, tells whether all are as wanted. */
  lemma ObservedIsDone(before: set<Label>, desired: set<Label>, current: set<Label>)
    requires Authorized(before, desired) && Between(before, desired, current)
    ensures (forall l | Controlled(l) :: l in current <==> l in desired) <==> current == desired
  {
    if forall l | Controlled(l) :: l in current <==> l in desired {
      forall l ensures l in current <==> l in desired {
      }
    }
  }
}
