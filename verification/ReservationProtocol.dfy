/**
 How the workspace adapter reserves one directory (`reserve_directory` of
 scripts/scenario-git-workspace.py) as a protocol: staging slots, a journaled identity and an
 exclusive rename, beside any number of crashes and of other actors on the same paths.
 */
module ReservationProtocol {
  import opened Basics

  const SLOTS := 4

  datatype Path = Stage(slot: nat) | Destination

  /** What is found at a path; `pristine`: empty and with the permissions it was made with. An inode
      stands for a device and inode pair. */
  datatype Node = Node(inode: nat, directory: bool, pristine: bool)

  /** The journal's record of one reservation. */
  datatype Record = Record(slot: nat, identity: Option<nat>, published: bool)

  const RESERVED := Record(0, None, false)

  /** `justMade`: the directory this process has made and not looked at yet. `made`: all directories
      made for the reservation. `strange`: what others put in place. `lost`: how often others took a
      staging directory away. `filled`: what was seen at the destination when it was declared
      published. `clear`: in this turn the destination was seen free. `vetted`: the staged directory was
      seen to be the one on record, untouched. */
  datatype State = State(disk: Record, memory: Record, files: map<Path, Node>, justMade: Option<nat>,
                         made: seq<nat>, strange: set<nat>, lost: nat, filled: Option<nat>,
                         clear: bool, vetted: bool)

  const START := State(RESERVED, RESERVED, map[], None, [], {}, 0, None, false, false)

  datatype Event =
    | Crashed
    | Saved
    | SawFree
    | NextSlot
    | Made(inode: nat)
    | Identified
    | SawOwn
    | Renamed
    | Published
    | Put(path: Path, node: Node)           // by somebody else
    | Taken(path: Path)                     // by somebody else
    | Moved(source: Path, target: Path)     // by somebody else

  predicate Unused(s: State, inode: nat) {
    inode !in s.made && inode !in s.strange && forall p :: p in s.files ==> s.files[p].inode != inode
  }

  predicate Enabled(s: State, e: Event) {
    var r := s.memory;
    match e
    case Crashed => true
    case Saved => true
    case SawFree => Destination !in s.files
    case NextSlot =>
      r.identity == None && s.clear && s.justMade == None && r.slot + 1 < SLOTS
      && Stage(r.slot) in s.files && s.files[Stage(r.slot)].directory && s.files[Stage(r.slot)].pristine
    case Made(inode) =>
      r.identity == None && s.clear && Stage(r.slot) !in s.files && s.disk == r
      && s.justMade == None && Unused(s, inode)
    case Identified => s.justMade != None && Stage(r.slot) in s.files
    case SawOwn =>
      r.identity != None && Stage(r.slot) in s.files && s.files[Stage(r.slot)] == Node(r.identity.value, true, true)
    case Renamed => r.identity != None && s.disk == r && s.vetted && Stage(r.slot) in s.files && Destination !in s.files
    case Published =>
      r.identity != None && Destination in s.files
      && s.files[Destination].inode == r.identity.value
      && s.files[Destination].directory && s.files[Destination].pristine
    case Put(p, node) => node.inode !in s.made
    case Taken(p) => p in s.files
    case Moved(p, q) => p in s.files && q !in s.files
  }

  function Apply(s: State, e: Event): State
    requires Enabled(s, e)
  {
    var r := s.memory;
    match e
    case Crashed => s.(memory := s.disk, justMade := None, clear := false, vetted := false)
    case Saved => s.(disk := r)
    case SawFree => s.(clear := true)
    case NextSlot => s.(memory := r.(slot := r.slot + 1), clear := false)
    case Made(inode) =>
      s.(files := s.files[Stage(r.slot) := Node(inode, true, true)], made := s.made + [inode],
         justMade := Some(inode), clear := false)
    case Identified => s.(memory := r.(identity := Some(s.files[Stage(r.slot)].inode)), justMade := None)
    case SawOwn => s.(vetted := true)
    case Renamed => s.(files := (s.files - {Stage(r.slot)})[Destination := s.files[Stage(r.slot)]], vetted := false)
    case Published => s.(memory := r.(published := true), filled := r.identity)
    case Put(p, node) => s.(files := s.files[p := node], strange := s.strange + {node.inode})
    case Taken(p) => s.(files := s.files - {p}, lost := s.lost + if p.Stage? then 1 else 0)
    case Moved(p, q) =>
      s.(files := (s.files - {p})[q := s.files[p]], lost := s.lost + if p.Stage? then 1 else 0)
  }

  ghost predicate Legal(es: seq<Event>)
    decreases |es|, 0
  {
    es == [] || (Legal(es[..|es| - 1]) && Enabled(After(es[..|es| - 1]), es[|es| - 1]))
  }

  ghost function After(es: seq<Event>): State
    requires Legal(es)
    decreases |es|, 1
  {
    if es == [] then START else Apply(After(es[..|es| - 1]), es[|es| - 1])
  }

  /** `es` is a run and leads to `s`: said of whatever equals `es`, so that a proof about one more step
      does not unfold the run. */
  ghost predicate LeadsTo(es: seq<Event>, s: State) {
    forall fs :: fs == es ==> Legal(fs) && After(fs) == s
  }

  lemma OneMore(es: seq<Event>, s: State, e: Event)
    requires LeadsTo(es, s) && Enabled(s, e)
    ensures LeadsTo(es + [e], Apply(s, e))
  {
    assert Legal(es) && After(es) == s;
    forall fs | fs == es + [e] ensures Legal(fs) && After(fs) == Apply(s, e) {
      assert fs[..|fs| - 1] == es;
    }
  }

  // --- What every run keeps. --------------------------------------------------------------------

  /** The disk is behind memory, never apart from it. */
  ghost predicate Behind(d: Record, m: Record) {
    && d.slot <= m.slot < SLOTS
    && (d.identity != None ==> m.identity == d.identity && m.slot == d.slot)
    && (d.published ==> m.published)
  }

  ghost predicate PublishedAsFilled(r: Record, filled: Option<nat>) {
    r.published ==> r.identity != None && filled == r.identity
  }

  /** A slot is used up when something is staged there, or what was staged there is the one. */
  ghost function Used(s: State): nat {
    s.disk.slot + if Stage(s.disk.slot) in s.files || s.disk.identity != None then 1 else 0
  }

  ghost predicate Inv(s: State) {
    && Behind(s.disk, s.memory)
    && PublishedAsFilled(s.disk, s.filled) && PublishedAsFilled(s.memory, s.filled)
    && (s.justMade != None ==> s.memory.identity == None && s.justMade.value in s.made && s.disk == s.memory)
    && |s.made| <= s.lost + Used(s)
    && (forall i :: i in s.made ==> i !in s.strange)
    && (forall p :: p in s.files ==> s.files[p].inode in s.made || s.files[p].inode in s.strange)
  }

  lemma EventKeepsInv(s: State, e: Event)
    requires Inv(s) && Enabled(s, e)
    ensures Inv(Apply(s, e))
  {
    if e.Moved? {
      assert e.target in Apply(s, e).files;
    }
  }

  lemma {:induction false} RunKeepsInv(es: seq<Event>)
    requires Legal(es)
    ensures Inv(After(es))
  {
    if es != [] {
      RunKeepsInv(es[..|es| - 1]);
      EventKeepsInv(After(es[..|es| - 1]), es[|es| - 1]);
    }
  }

  lemma Reached(es: seq<Event>, s: State)
    requires LeadsTo(es, s)
    ensures Inv(s)
  {
    assert Legal(es) && After(es) == s;
    RunKeepsInv(es);
  }

  // --- The theorems about whole runs. -----------------------------------------------------------

  /** However often the process dies, it makes at most four directories, and one more for each staging
      directory that somebody else takes away. */
  lemma AtMostFourDirectories(es: seq<Event>)
    requires Legal(es)
    ensures |After(es).made| <= SLOTS + After(es).lost
  {
    RunKeepsInv(es);
  }

  /** What the journal has recorded stands: an identity is never replaced, and nothing is made any more; a
      publication is never withdrawn, a slot never taken back. */
  ghost predicate Keeps(s: State, t: State) {
    && s.disk.slot <= t.disk.slot
    && (s.disk.identity != None ==> t.disk.identity == s.disk.identity && t.made == s.made)
    && (s.disk.published ==> t.disk.published)
  }

  lemma {:induction false} JournalOnlyAdvances(es: seq<Event>, more: seq<Event>)
    requires Legal(es) && Legal(es + more)
    ensures Keeps(After(es), After(es + more))
  {
    if more == [] {
      assert es + more == es;
    } else {
      var shorter := more[..|more| - 1];
      assert (es + more)[..|es + more| - 1] == es + shorter;
      JournalOnlyAdvances(es, shorter);
      RunKeepsInv(es + shorter);
      JournalStep(After(es + shorter), more[|more| - 1]);
    }
  }

  lemma JournalStep(s: State, e: Event)
    requires Inv(s) && Enabled(s, e)
    ensures Keeps(s, Apply(s, e))
  {
  }

  // --- Whose directory is journaled. ------------------------------------------------------------

  /** Somebody else acts on the path. */
  predicate Touches(e: Event, p: Path) {
    || (e.Put? && e.path == p) || (e.Taken? && e.path == p)
    || (e.Moved? && (e.source == p || e.target == p))
  }

  /** At the end of `es` the directory that event `m` made has not been looked at. */
  ghost predicate OpenWindow(es: seq<Event>, m: int) {
    0 <= m < |es| && es[m].Made? && forall j :: m < j < |es| ==> es[j] != Crashed && es[j] != Identified
  }

  /** Event `j` is the last by which others touched the path since event `m`. */
  ghost predicate LastTouch(es: seq<Event>, m: int, j: int, p: Path) {
    0 <= m < j < |es| && Touches(es[j], p) && forall k :: j < k < |es| ==> !Touches(es[k], p)
  }

  /** Since event `m` others have left the path alone, or their last act there left a directory that this
      reservation made. */
  ghost predicate LeftOwn(es: seq<Event>, m: int, p: Path)
    requires Legal(es)
  {
    forall j :: LastTouch(es, m, j, p) ==>
      Legal(es[..j + 1]) && p in After(es[..j + 1]).files && After(es[..j + 1]).files[p].inode in After(es).made
  }

  /** The path at which the process will look. */
  ghost function Looked(es: seq<Event>): Path
    requires Legal(es)
  {
    Stage(After(es).memory.slot)
  }

  predicate AgreeAt(f: map<Path, Node>, g: map<Path, Node>, p: Path) {
    if p in f then p in g && f[p] == g[p] else p !in g
  }

  lemma WindowStep(s: State, e: Event, p: Path)
    requires Inv(s) && Enabled(s, e) && s.justMade != None && e != Crashed && e != Identified
    ensures Apply(s, e).justMade == s.justMade && Apply(s, e).memory == s.memory
    ensures !Touches(e, p) ==> AgreeAt(s.files, Apply(s, e).files, p)
  {
  }

  /** Until the look, the stage holds what was made, or what the last act of others left there. */
  lemma {:induction false} InWindow(es: seq<Event>, m: int)
    requires Legal(es) && OpenWindow(es, m)
    ensures After(es).justMade == Some(es[m].inode)
    ensures (forall j :: m < j < |es| ==> !Touches(es[j], Looked(es))) ==>
              Looked(es) in After(es).files && After(es).files[Looked(es)].inode == es[m].inode
    ensures forall j :: LastTouch(es, m, j, Looked(es)) ==>
              Legal(es[..j + 1]) && AgreeAt(After(es[..j + 1]).files, After(es).files, Looked(es))
  {
    var last := |es| - 1;
    var before, p := es[..last], Looked(es);
    RunKeepsInv(before);
    if m < last {
      InWindow(before, m);
      WindowStep(After(before), es[last], p);
      forall j | LastTouch(es, m, j, p)
        ensures Legal(es[..j + 1]) && AgreeAt(After(es[..j + 1]).files, After(es).files, p) {
        if j == last {
          assert es[..j + 1] == es;
        } else {
          assert LastTouch(before, m, j, p);
          assert es[..j + 1] == before[..j + 1];
        }
      }
      if forall j :: m < j < |es| ==> !Touches(es[j], p) {
        assert forall j :: m < j < |before| ==> !Touches(before[j], p);
      }
    }
  }

  /** What the first look finds is own exactly when others left the stage alone, or left an own directory
      there last. */
  lemma LooksAtOwnExactly(es: seq<Event>, m: int)
    requires Legal(es) && OpenWindow(es, m) && Enabled(After(es), Identified)
    ensures After(es).files[Looked(es)].inode in After(es).made <==> LeftOwn(es, m, Looked(es))
  {
    InWindow(es, m);
    RunKeepsInv(es);
    var p := Looked(es);
    if j :| m < j < |es| && Touches(es[j], p) {
      var k := Latest(es, j, p);
      assert LastTouch(es, m, k, p);
    }
  }

  lemma {:induction false} Latest(es: seq<Event>, j: nat, p: Path) returns (k: nat)
    requires j < |es| && Touches(es[j], p)
    ensures j <= k < |es| && Touches(es[k], p) && forall i :: k < i < |es| ==> !Touches(es[i], p)
    decreases |es| - j
  {
    k := j;
    if i :| j < i < |es| && Touches(es[i], p) {
      k := Latest(es, i, p);
    }
  }

  /** An identity, in memory or on disk, comes from a look. */
  lemma {:induction false} ComesFromALook(es: seq<Event>, x: nat) returns (i: nat)
    requires Legal(es) && (After(es).disk.identity == Some(x) || After(es).memory.identity == Some(x))
    ensures i < |es| && es[i] == Identified && Legal(es[..i]) && Enabled(After(es[..i]), Identified)
    ensures After(es[..i]).files[Looked(es[..i])].inode == x
  {
    var last := |es| - 1;
    var before := es[..last];
    if After(before).disk.identity == Some(x) || After(before).memory.identity == Some(x) {
      i := ComesFromALook(before, x);
      assert es[..i] == before[..i];
    } else {
      i := last;
    }
  }

  /** And the look at a directory that was just made. */
  lemma {:induction false} WindowStart(es: seq<Event>) returns (m: nat)
    requires Legal(es) && After(es).justMade != None
    ensures OpenWindow(es, m)
  {
    var last := |es| - 1;
    if es[last].Made? {
      m := last;
    } else {
      m := WindowStart(es[..last]);
    }
  }

  /** What is own and what is not stays so. */
  lemma {:induction false} OwnStays(es: seq<Event>, n: nat)
    requires Legal(es) && n <= |es|
    ensures Legal(es[..n]) && After(es[..n]).made <= After(es).made && After(es[..n]).strange <= After(es).strange
    decreases |es|
  {
    if n == |es| {
      assert es[..n] == es;
    } else {
      var before := es[..|es| - 1];
      assert before[..n] == es[..n];
      OwnStays(before, n);
      OwnStep(After(before), es[|es| - 1]);
    }
  }

  lemma OwnStep(s: State, e: Event)
    requires Enabled(s, e)
    ensures Apply(s, e).made == if e.Made? then s.made + [e.inode] else s.made
    ensures Apply(s, e).strange == if e.Put? then s.strange + {e.node.inode} else s.strange
  {
  }

  /** Event `i` is the look that the journaled identity comes from, at the directory that event `m` made. */
  ghost predicate JournaledBy(es: seq<Event>, m: int, i: int)
    requires Legal(es)
  {
    && 0 <= i < |es| && es[i] == Identified && Legal(es[..i]) && OpenWindow(es[..i], m)
    && Looked(es[..i]) in After(es[..i]).files
    && After(es).disk.identity == Some(After(es[..i]).files[Looked(es[..i])].inode)
  }

  /** The journaled identity is one that this reservation made, and nobody else's, exactly when between its
      making and the first look at it others left the stage alone, or left an own directory there
      last. */
  lemma JournaledIsOwnExactly(es: seq<Event>) returns (m: nat, i: nat)
    requires Legal(es) && After(es).disk.identity != None
    ensures JournaledBy(es, m, i)
    ensures After(es).disk.identity.value in After(es).made <==> LeftOwn(es[..i], m, Looked(es[..i]))
    ensures After(es).disk.identity.value in After(es).made <==> After(es).disk.identity.value !in After(es).strange
  {
    var x := After(es).disk.identity.value;
    i := ComesFromALook(es, x);
    m := WindowStart(es[..i]);
    LooksAtOwnExactly(es[..i], m);
    OwnStays(es, i);
    RunKeepsInv(es[..i]);
    RunKeepsInv(es);
  }

  /** A directory that is durably published was found at the destination under the journaled identity. */
  lemma PublishedUnderIdentity(es: seq<Event>)
    requires Legal(es) && After(es).disk.published
    ensures After(es).disk.identity != None && After(es).filled == After(es).disk.identity
  {
    RunKeepsInv(es);
  }
}
