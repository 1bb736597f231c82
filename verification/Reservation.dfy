/**
 `reserve_directory` of the workspace adapter (scripts/scenario-git-workspace.py) over a file system
 that others use too. `script` says, for each step, what the others do just before it and how the step
 itself goes; where it ends the process dies. Whatever it says, the whole is a run of
 ReservationProtocol.
 */
module Reservation {
  import opened Basics
  import opened ReservationProtocol

  /** `late`: a save that raises after the file was replaced. `inode`: for a directory being made. */
  datatype Turn = Turn(others: seq<Event>, good: bool, late: bool, inode: nat)

  datatype Result = Ok | Refused | Dead

  /** The step goes well and others do nothing. */
  predicate Quiet(script: seq<Turn>, n: nat) { n < |script| && script[n].others == [] && script[n].good }

  /** The step goes well, and just before it somebody puts their own empty directory at the path. */
  predicate Swap(script: seq<Turn>, n: nat, p: Path, x: nat) {
    n < |script| && script[n].others == [Put(p, Node(x, true, true))] && script[n].good
  }

  /** A directory is made under inode `i`, and `x` is put in its place before the first look at it. */
  predicate SwapCourse(script: seq<Turn>, n: nat, slot: nat, i: nat, x: nat) {
    && Quiet(script, n) && Quiet(script, n + 1) && Quiet(script, n + 2) && script[n + 2].inode == i
    && Swap(script, n + 3, Stage(slot), x) && Quiet(script, n + 4)
  }

  /** And nothing else goes wrong. */
  predicate PublishCourse(script: seq<Turn>, n: nat) {
    Quiet(script, n) && Quiet(script, n + 1) && Quiet(script, n + 2) && Quiet(script, n + 3)
  }

  /** What was on the stage is at the destination, which was free, and nothing else has changed. */
  ghost predicate Moves(f: map<Path, Node>, slot: nat, g: map<Path, Node>) {
    Stage(slot) in f && Destination !in f && g == (f - {Stage(slot)})[Destination := f[Stage(slot)]]
  }

  /** An untouched directory of this identity is staged, and the destination is free. */
  ghost predicate Staged(r: Record, files: map<Path, Node>, x: nat) {
    && r.identity == Some(x) && Stage(r.slot) in files && Destination !in files
    && files[Stage(r.slot)] == Node(x, true, true)
  }

  /** A reservation that is still to make its directory, with nothing in its way. */
  ghost predicate Open(r: Record, files: map<Path, Node>, made: seq<nat>, strange: set<nat>, i: nat, x: nat) {
    && r.identity == None && !r.published && Destination !in files && Stage(r.slot) !in files
    && i !in made && i !in strange && (forall p :: p in files ==> files[p].inode != i) && x !in made && x != i
  }

  class Reserver {
    var disk: Record
    var memory: Record
    var files: map<Path, Node>
    var made: seq<nat>
    var strange: set<nat>
    var script: seq<Turn>
    var at: nat
    ghost var state: State
    ghost var events: seq<Event>

    ghost predicate Valid()
      reads this
    {
      && LeadsTo(events, state)
      && state.disk == disk && state.memory == memory && state.files == files
      && state.made == made && state.strange == strange
    }

    constructor ()
      ensures Valid() && disk == memory == RESERVED && state == START
    {
      disk, memory, files, made, strange, script, at := RESERVED, RESERVED, map[], [], {}, [], 0;
      state, events := START, [];
    }

    ghost method Happen(e: Event)
      requires LeadsTo(events, state) && Enabled(state, e)
      modifies this`events, this`state
      ensures events == old(events) + [e] && LeadsTo(events, state) && state == Apply(old(state), e)
    {
      OneMore(events, state, e);
      events, state := events + [e], Apply(state, e);
    }

    /** Everything but the files, and what others did to them, is as before. */
    ghost predicate SameProcess(s: State, t: State) {
      t.disk == s.disk && t.memory == s.memory && t.justMade == s.justMade && t.filled == s.filled && t.made == s.made
      && t.clear == s.clear && t.vetted == s.vetted
    }

    /** Others put, take and move what they like. */
    method Others(es: seq<Event>)
      requires Valid()
      modifies this`files, this`strange, this`events, this`state
      ensures Valid() && old(events) <= events && SameProcess(old(state), state)
      ensures es == [] ==> files == old(files) && strange == old(strange)
      ensures |es| == 1 && es[0].Put? && es[0].node.inode !in made ==>
                files == old(files)[es[0].path := es[0].node] && strange == old(strange) + {es[0].node.inode}
    {
      for i := 0 to |es|
        invariant Valid() && old(events) <= events && SameProcess(old(state), state)
        invariant i == 0 ==> files == old(files) && strange == old(strange)
        invariant i == 1 && es[0].Put? && es[0].node.inode !in made ==>
                    files == old(files)[es[0].path := es[0].node] && strange == old(strange) + {es[0].node.inode}
      {
        Other(es[i]);
      }
    }

    method Other(e: Event)
      requires Valid()
      modifies this`files, this`strange, this`events, this`state
      ensures Valid() && old(events) <= events && SameProcess(old(state), state)
      ensures e.Put? && e.node.inode !in made ==>
                files == old(files)[e.path := e.node] && strange == old(strange) + {e.node.inode}
    {
      if e.Put? && e.node.inode !in made {
        // A device and inode pair identifies one directory for as long as the record lives.
        Happen(e);
        files, strange := files[e.path := e.node], strange + {e.node.inode};
      } else if e.Taken? && e.path in files {
        Happen(e);
        files := files - {e.path};
      } else if e.Moved? && e.source in files && e.target !in files {
        Happen(e);
        files := (files - {e.source})[e.target := files[e.source]];
      }
    }

    method Next() returns (t: Option<Turn>)
      requires Valid()
      modifies this`files, this`strange, this`at, this`events, this`state
      ensures Valid() && old(events) <= events && SameProcess(old(state), state)
      ensures t == if old(at) < |script| then Some(script[old(at)]) else None
      ensures old(at) < |script| ==> at == old(at) + 1
      ensures Quiet(script, old(at)) ==> files == old(files) && strange == old(strange)
      ensures forall p, x: nat :: Swap(script, old(at), p, x) && x !in made ==>
                files == old(files)[p := Node(x, true, true)] && strange == old(strange) + {x}
    {
      t := None;
      if at < |script| {
        Others(script[at].others);
        t, at := Some(script[at]), at + 1;
      }
    }

    method Save() returns (r: Result)
      requires Valid()
      modifies this`disk, this`files, this`strange, this`at, this`events, this`state
      ensures Valid() && old(events) <= events && state.justMade == old(state).justMade
      ensures r == Ok ==> disk == memory
      ensures Quiet(script, old(at)) ==>
                r == Ok && at == old(at) + 1 && files == old(files) && strange == old(strange)
    {
      var t := Next();
      if t != None && (t.value.good || t.value.late) {
        Happen(Saved);
        disk := memory;
      }
      r := if t == None then Dead else if t.value.good then Ok else Refused;
    }

    /** Look at a path: others may have been there first. */
    method Look(p: Path) returns (r: Result, node: Option<Node>)
      requires Valid()
      modifies this`files, this`strange, this`at, this`events, this`state
      ensures Valid() && old(events) <= events && SameProcess(old(state), state)
      ensures r == Ok ==> node == if p in files then Some(files[p]) else None
      ensures Quiet(script, old(at)) ==>
                r == Ok && at == old(at) + 1 && files == old(files) && strange == old(strange)
      ensures forall q, x: nat :: Swap(script, old(at), q, x) && x !in made ==>
                && r == Ok && at == old(at) + 1
                && files == old(files)[q := Node(x, true, true)] && strange == old(strange) + {x}
    {
      node := None;
      var t := Next();
      r := if t == None then Dead else if t.value.good then Ok else Refused;
      if r == Ok && p in files {
        node := Some(files[p]);
      }
    }

    /** An occupied slot is bypassed, never adopted; the last one never. */
    method BypassSlot() returns (r: Result)
      requires Valid() && disk == memory && memory.identity == None && state.justMade == None
      requires state.clear && Stage(memory.slot) in files && files[Stage(memory.slot)].directory
      requires files[Stage(memory.slot)].pristine
      modifies this`disk, this`memory, this`files, this`strange, this`at, this`events, this`state
      ensures Valid() && old(events) <= events && state.justMade == None
      ensures r == Ok ==> disk == memory == old(memory).(slot := old(memory).slot + 1) && memory.slot < SLOTS
    {
      if memory.slot + 1 >= SLOTS {
        return Refused;
      }
      Happen(NextSlot);
      memory := memory.(slot := memory.slot + 1);
      r := Save();
    }

    /** Make the staging directory. `mkdir` fails where something has appeared. */
    method MakeStage() returns (r: Result)
      requires Valid() && disk == memory && memory.identity == None && state.justMade == None && state.clear
      modifies this`files, this`strange, this`made, this`at, this`events, this`state
      ensures Valid() && old(events) <= events
      ensures r == Ok ==> state.justMade != None
      ensures r != Ok ==> state.justMade == None
      ensures Quiet(script, old(at)) && Stage(memory.slot) !in old(files) && old(Free(script[at].inode)) ==>
                && r == Ok && at == old(at) + 1 && strange == old(strange)
                && made == old(made) + [script[old(at)].inode]
                && files == old(files)[Stage(memory.slot) := Node(script[old(at)].inode, true, true)]
    {
      var t := Next();
      if t == None || !t.value.good || Stage(memory.slot) in files || !Free(t.value.inode) {
        return if t == None then Dead else Refused;
      }
      Happen(Made(t.value.inode));
      files := files[Stage(memory.slot) := Node(t.value.inode, true, true)];
      made := made + [t.value.inode];
      r := Ok;
    }

    /** The file system hands out an inode nobody has. */
    predicate Free(inode: nat)
      reads this
    {
      inode !in made && inode !in strange && forall p :: p in files ==> files[p].inode != inode
    }

    /** The identity of the directory just made, durable before anything is published. */
    method Identify() returns (r: Result)
      requires Valid() && state.justMade != None
      modifies this`disk, this`memory, this`files, this`strange, this`at, this`events, this`state
      ensures Valid() && old(events) <= events
      ensures r == Ok ==> disk == memory && memory.identity != None && state.justMade == None
      ensures memory.slot == old(memory).slot
      ensures forall x: nat :: (Swap(script, old(at), Stage(memory.slot), x) && Quiet(script, old(at) + 1)
                                && x !in made) ==>
                && r == Ok && at == old(at) + 2 && memory == old(memory).(identity := Some(x)) && x in strange
                && files == old(files)[Stage(memory.slot) := Node(x, true, true)]
    {
      var node;
      r, node := Look(Stage(memory.slot));
      if r == Ok && node == None {
        r := Refused;
      }
      if r == Ok {
        Happen(Identified);
        memory := memory.(identity := Some(node.value.inode));
        r := Save();
      }
    }

    /** Move the staged directory, just seen to be the one on record, to its destination. `there`: what stands
        where at that moment. The move needs the destination free, takes what is on the stage there, and
        changes nothing else; it reports success exactly when it has happened and no error follows. */
    method Rename() returns (r: Result, ghost there: map<Path, Node>)
      requires Valid() && disk == memory && memory.identity != None && state.vetted
      requires Stage(memory.slot) in files && files[Stage(memory.slot)] == Node(memory.identity.value, true, true)
      modifies this`files, this`strange, this`at, this`events, this`state
      ensures Valid() && old(events) <= events && state.memory == old(state).memory && state.disk == old(state).disk
      ensures state.justMade == old(state).justMade
      ensures files == there || Moves(there, memory.slot, files)
      ensures r == Ok ==> Moves(there, memory.slot, files)
      ensures Destination in there ==> r != Ok && files == there
      ensures Quiet(script, old(at)) ==>
                && there == old(files) && at == old(at) + 1 && strange == old(strange)
                && (r == Ok <==> Destination !in there)
                && (r == Ok ==> Destination in files && files[Destination] == Node(memory.identity.value, true, true))
    {
      var t := Next();
      there := files;
      if t == None || !(t.value.good || t.value.late) || Stage(memory.slot) !in files || Destination in files {
        r := if t == None then Dead else Refused;
        return;
      }
      Happen(Renamed);
      files := (files - {Stage(memory.slot)})[Destination := files[Stage(memory.slot)]];
      r := if t.value.good then Ok else Refused;
    }

    /** From a durable identity to a durable publication. */
    method Finish() returns (r: Result)
      requires Valid() && disk == memory && memory.identity != None && state.justMade == None
      modifies this`disk, this`memory, this`files, this`strange, this`at, this`events, this`state
      ensures Valid() && old(events) <= events && state.justMade == None
      ensures r == Ok ==> disk == memory && memory.published && memory.identity == old(memory).identity
      ensures PublishCourse(script, old(at)) && Staged(old(memory), old(files), old(memory).identity.value) ==>
                r == Ok && strange == old(strange)
    {
      var node;
      r, node := Look(Stage(memory.slot));
      if r == Ok && node != None {
        if node.value != Node(memory.identity.value, true, true) {
          return Refused;
        }
        Happen(SawOwn);
        ghost var there;
        r, there := Rename();
      }
      if r == Ok {
        r := Declare();
      }
    }

    method Declare() returns (r: Result)
      requires Valid() && memory.identity != None && state.justMade == None
      modifies this`disk, this`memory, this`files, this`strange, this`at, this`events, this`state
      ensures Valid() && old(events) <= events && state.justMade == None
      ensures r == Ok ==> disk == memory && memory.published && memory.identity == old(memory).identity
      ensures (Quiet(script, old(at)) && Quiet(script, old(at) + 1) && Destination in old(files)
               && old(files)[Destination] == Node(old(memory).identity.value, true, true)) ==>
                r == Ok && strange == old(strange)
    {
      var node;
      r, node := Look(Destination);
      if r == Ok && node != Some(Node(memory.identity.value, true, true)) {
        r := Refused;
      }
      if r == Ok {
        Happen(Published);
        memory := memory.(published := true);
        r := Save();
      }
    }

    /** The directory published earlier must still be there. */
    method Recheck(build: bool) returns (r: Result)
      requires Valid() && memory.identity != None
      modifies this`files, this`strange, this`at, this`events, this`state
      ensures Valid() && old(events) <= events && SameProcess(old(state), state)
      ensures r == Ok ==> Destination in files && files[Destination].inode == memory.identity.value
    {
      var node;
      r, node := Look(Destination);
      if r == Ok && (node == None || node.value.inode != memory.identity.value || !node.value.directory
                     || (build && !node.value.pristine)) {
        r := Refused;
      }
    }

    /** Find a free slot, stage a directory there and journal its identity. */
    method Acquire() returns (r: Result)
      requires Valid() && disk == memory && state.justMade == None
      modifies this`disk, this`memory, this`files, this`strange, this`made, this`at, this`events, this`state
      ensures Valid() && old(events) <= events
      ensures r == Ok ==> disk == memory && memory.identity != None && state.justMade == None
      ensures forall i: nat, x: nat :: (SwapCourse(script, old(at), old(memory).slot, i, x)
                                        && Open(old(memory), old(files), old(made), old(strange), i, x)) ==>
                r == Ok && at == old(at) + 5 && Staged(memory, files, x) && x in strange && !memory.published
    {
      r := Ok;
      while memory.identity == None
        invariant Valid() && old(events) <= events && disk == memory && state.justMade == None && r == Ok
        invariant forall i: nat, x: nat :: (SwapCourse(script, old(at), old(memory).slot, i, x)
                                            && Open(old(memory), old(files), old(made), old(strange), i, x)) ==>
                    if memory.identity == None then
                      Open(memory, files, made, strange, i, x) && at == old(at) && memory.slot == old(memory).slot
                    else at == old(at) + 5 && Staged(memory, files, x) && x in strange && !memory.published
        decreases SLOTS - memory.slot, memory.identity == None
      {
        var bypassed;
        r, bypassed := TrySlot();
        if r != Ok {
          return;
        }
      }
    }

    /** One turn of the loop: stage a directory in the slot, or go on to the next. */
    method TrySlot() returns (r: Result, bypassed: bool)
      requires Valid() && disk == memory && state.justMade == None && memory.identity == None
      modifies this`disk, this`memory, this`files, this`strange, this`made, this`at, this`events, this`state
      ensures Valid() && old(events) <= events
      ensures r == Ok ==> disk == memory && state.justMade == None && memory.slot < SLOTS
      ensures r == Ok ==> if bypassed then memory.slot == old(memory).slot + 1 && memory.identity == None
                          else memory.slot == old(memory).slot && memory.identity != None
      ensures forall i: nat, x: nat :: (SwapCourse(script, old(at), old(memory).slot, i, x)
                                        && Open(old(memory), old(files), old(made), old(strange), i, x)) ==>
                r == Ok && at == old(at) + 5 && Staged(memory, files, x) && x in strange && !memory.published
    {
      Reached(events, state);
      bypassed := false;
      var node;
      r, node := Look(Destination);
      if r != Ok || node != None {
        r := if r == Dead then Dead else Refused;
        return;
      }
      Happen(SawFree);
      r, node := Look(Stage(memory.slot));
      if r != Ok {
        return;
      }
      if node != None {
        if !node.value.directory || !node.value.pristine {
          return Refused, false;
        }
        bypassed := true;
        r := BypassSlot();
        return;
      }
      r := StageOne();
    }

    /** Make the directory and look at it. */
    method StageOne() returns (r: Result)
      requires Valid() && disk == memory && memory.identity == None && state.justMade == None && state.clear
      modifies this`disk, this`memory, this`files, this`strange, this`made, this`at, this`events, this`state
      ensures Valid() && old(events) <= events && memory.slot == old(memory).slot
      ensures r == Ok ==> disk == memory && memory.identity != None && state.justMade == None
      ensures forall i: nat, x: nat :: (Quiet(script, old(at)) && script[old(at)].inode == i
                                        && Swap(script, old(at) + 1, Stage(old(memory).slot), x)
                                        && Quiet(script, old(at) + 2)
                                        && Open(old(memory), old(files), old(made), old(strange), i, x)) ==>
                r == Ok && at == old(at) + 3 && Staged(memory, files, x) && x in strange && !memory.published
    {
      r := MakeStage();
      if r == Ok {
        r := Identify();
      }
    }

    /** `reserve_directory`. */
    method Reserve(build: bool) returns (r: Result)
      requires Valid() && disk == memory && state.justMade == None
      modifies this`disk, this`memory, this`files, this`strange, this`made, this`at, this`events, this`state
      ensures Valid() && old(events) <= events
      ensures r == Ok ==> disk == memory && memory.published && memory.identity != None && state.justMade == None
      ensures forall i: nat, x: nat :: (SwapCourse(script, old(at), old(memory).slot, i, x)
                                        && Open(old(memory), old(files), old(made), old(strange), i, x)
                                        && PublishCourse(script, old(at) + 5)) ==>
                r == Ok && memory.identity == Some(x) && x in strange
    {
      r := Acquire();
      if r == Ok {
        if memory.published {
          r := Recheck(build);
        } else {
          r := Finish();
        }
      }
    }

    method Restart()
      requires Valid()
      modifies this`memory, this`events, this`state
      ensures Valid() && old(events) <= events && disk == memory && state.justMade == None
    {
      Happen(Crashed);
      memory := disk;
    }
  }

  /** Any number of attempts, each ending where its script does. A published directory was found under the
      journaled identity, which is own exactly when others did not leave another directory on the stage
      before the first look. */
  method Lifetime(build: bool, attempts: seq<seq<Turn>>) returns (reserver: Reserver)
    ensures reserver.Valid() && |reserver.made| <= SLOTS + reserver.state.lost
    ensures reserver.disk.published ==>
              reserver.disk.identity != None && reserver.state.filled == reserver.disk.identity
    ensures reserver.disk.identity != None ==>
              exists m, i :: JournaledBy(reserver.events, m, i)
                             && (reserver.disk.identity.value in reserver.made
                                 <==> LeftOwn(reserver.events[..i], m, Looked(reserver.events[..i])))
  {
    reserver := new Reserver();
    for i := 0 to |attempts|
      invariant reserver.Valid() && reserver.disk == reserver.memory && reserver.state.justMade == None
      invariant fresh(reserver)
    {
      reserver.script, reserver.at := attempts[i], 0;
      var r := reserver.Reserve(build);
      if r != Ok {
        reserver.Restart();
      }
    }
    assert Legal(reserver.events) && After(reserver.events) == reserver.state;
    AtMostFourDirectories(reserver.events);
    if reserver.disk.published {
      PublishedUnderIdentity(reserver.events);
    }
    if reserver.disk.identity != None {
      ghost var m, i := JournaledIsOwnExactly(reserver.events);
    }
  }

  /** The one gap: somebody who replaces the directory between its making and the first look at it gets their
      own directory journaled and published, from every state in which one is still to be made. */
  method SwappedBeforeLook(reserver: Reserver, inode: nat, x: nat)
    requires reserver.Valid() && reserver.disk == reserver.memory && reserver.state.justMade == None
    requires Open(reserver.memory, reserver.files, reserver.made, reserver.strange, inode, x)
    modifies reserver
    ensures reserver.Valid() && reserver.disk == reserver.memory && reserver.disk.published
    ensures reserver.disk.identity == Some(x) && x in reserver.strange && x !in reserver.made
  {
    var go := Turn([], true, false, inode);
    var swap := Turn([Put(Stage(reserver.memory.slot), Node(x, true, true))], true, false, inode);
    reserver.script, reserver.at := [go, go, go, swap, go, go, go, go, go], 0;
    assert SwapCourse(reserver.script, 0, reserver.memory.slot, inode, x) && PublishCourse(reserver.script, 5);
    var r := reserver.Reserve(true);
    Reached(reserver.events, reserver.state);
  }

  /** A fresh reservation is in such a state. */
  method ForeignDirectoryPublished() returns (reserver: Reserver)
    ensures fresh(reserver) && reserver.Valid() && reserver.disk.published
    ensures reserver.disk.identity == Some(2) && 2 in reserver.strange && 2 !in reserver.made
  {
    reserver := new Reserver();
    SwappedBeforeLook(reserver, 1, 2);
  }
}
