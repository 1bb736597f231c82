/**
 The GitHub Scenario adapter of scripts/scenario-github-adapter.py: one request at a time, against a
 private journal and a service whose every call may be refused, lost or cut short. `script` holds, call by
 call, what happens on GitHub before the call is answered and what the answer is; where it ends, the
 process dies. Whatever it says, what the adapter does to its journal and to GitHub is a run of the
 protocol of AdapterJournal.
 */
module Adapter {
  import opened Basics
  import opened AdapterJournal

  datatype Answer =
    | Good                  // the call succeeds; a save is durable
    | Refuses               // it raises before it has any effect
    | RefusesLate           // a save raises after the file was replaced
    | Posted(reply: Object) // the mutation answers, whatever it names
    | Shows(k: nat)         // a read is answered with this object, as it stands
    | Lists(rows: seq<nat>) // a listing holds these objects, as they stand

  /** What others and GitHub itself do, and then the answer. */
  datatype Turn = Turn(acts: seq<Event>, answer: Answer)

  datatype Mode = Execute | Reconcile

  /** A raised refusal carries its diagnostic, a short fixed text. */
  datatype Result = Absent | Pending | Completed | Rejected | Raised | Dead

  const WHY := "refused before dispatch"

  /** This call is answered so, and nothing happens meanwhile. */
  predicate Says(script: seq<Turn>, n: nat, a: Answer) {
    n < |script| && script[n] == Turn([], a)
  }

  /** An environment that answers every call of a publication of `q`: the mutation is the `p`-th and creates
      the `k`-th object, under the name `o`. */
  predicate Cooperates(script: seq<Turn>, n: nat, q: Request, p: nat, k: nat, o: Receipt) {
    && Says(script, n, Good) && Says(script, n + 1, Good) && Lands(script, n + 2, q, p, o)
    && Says(script, n + 3, Good) && Says(script, n + 4, Shows(k)) && Says(script, n + 5, Good)
    && Says(script, n + 6, Good)
  }

  predicate Lands(script: seq<Turn>, n: nat, q: Request, p: nat, o: Receipt) {
    && ReceiptOk(o) && n < |script|
    && script[n] == Turn([Create(p, o, q.revision)], Posted(Published(q, o, q.revision)))
  }

  predicate Saves(e: Event) {
    e.Admit? || e.Reject? || e.Arm? || e.Note? || e.Settle?
  }

  /** What happens on GitHub does not bear on what is saved. */
  lemma ActsLeaveSaves(s: State, e: Event, objects: seq<Landed>)
    requires Saves(e) && Enabled(s, e)
    ensures Enabled(s.(objects := objects), e)
    ensures Apply(s.(objects := objects), e) == Apply(s, e).(objects := objects)
  {
  }

  class Adapter {
    var disk: seq<Record>
    var memory: seq<Record>
    var posts: seq<Request>
    var objects: seq<Landed>
    var script: seq<Turn>
    var at: nat
    ghost var state: State
    ghost var events: seq<Event>

    ghost predicate Valid()
      reads this
    {
      && LeadsTo(events, state)
      && state.disk == disk && state.posts == posts && state.objects == objects
    }

    constructor ()
      ensures Valid() && disk == [] && posts == [] && objects == []
    {
      disk, memory, posts, objects, script, at := [], [], [], [], [], 0;
      state, events := START, [];
    }

    ghost method Happen(e: Event)
      requires LeadsTo(events, state) && Enabled(state, e)
      modifies this`events, this`state
      ensures events == old(events) + [e] && LeadsTo(events, state) && state == Apply(old(state), e)
    {
      OneMore(events, state, e);
      events, state := events + [e], Apply(state, e);
    }

    /** The service and its other users act; what cannot happen does not. */
    method Meanwhile(e: Event)
      requires Valid()
      modifies this`objects, this`state, this`events
      ensures Valid() && old(events) <= events && state == old(state).(objects := objects)
      ensures |old(objects)| <= |objects|
      ensures e.Create? && Enabled(old(state), e) ==>
                objects == old(objects) + [Landed(Published(posts[e.p], e.receipt, e.sha), Some(e.p))]
    {
      if IsAct(e) && Enabled(State(disk, None, None, None, posts, objects), e) {
        objects := Apply(State(disk, None, None, None, posts, objects), e).objects;
        Happen(e);
      }
    }

    /** What the environment answers next. */
    method Next() returns (a: Option<Answer>)
      requires Valid()
      modifies this`at, this`objects, this`state, this`events
      ensures Valid() && old(events) <= events && state == old(state).(objects := objects)
      ensures |old(objects)| <= |objects|
      ensures a == if old(at) < |script| then Some(script[old(at)].answer) else None
      ensures at == old(at) + if old(at) < |script| then 1 else 0
      ensures old(at) < |script| && script[old(at)].acts == [] ==> objects == old(objects)
      ensures (old(at) < |script| && |script[old(at)].acts| == 1 && script[old(at)].acts[0].Create?
               && Enabled(old(state), script[old(at)].acts[0])) ==>
                var e := script[old(at)].acts[0];
                objects == old(objects) + [Landed(Published(posts[e.p], e.receipt, e.sha), Some(e.p))]
    {
      a := None;
      if at < |script| {
        var turn := script[at];
        for n := 0 to |turn.acts|
          invariant Valid() && old(events) <= events && state == old(state).(objects := objects)
          invariant |old(objects)| <= |objects| && at == old(at)
          invariant n == 0 ==> objects == old(objects)
          invariant (n == 1 && turn.acts[0].Create? && Enabled(old(state), turn.acts[0])) ==>
                      var e := turn.acts[0];
                      objects == old(objects) + [Landed(Published(posts[e.p], e.receipt, e.sha), Some(e.p))]
        {
          Meanwhile(turn.acts[n]);
        }
        a, at := Some(turn.answer), at + 1;
      }
    }

    /** A read of the service that refuses or not. */
    method Ask() returns (r: Result)
      requires Valid()
      modifies this`at, this`objects, this`state, this`events
      ensures Valid() && old(events) <= events && state == old(state).(objects := objects)
      ensures r in {Completed, Raised, Dead}
      ensures r == Completed <==> old(at) < |script| && script[old(at)].answer == Good
      ensures Says(script, old(at), Good) ==> r == Completed && at == old(at) + 1 && objects == old(objects)
    {
      var a := Next();
      r := if a == None then Dead else if a == Some(Good) then Completed else Raised;
    }

    /** Read the object of record `i` and compare it with the record. What passes for a dispatched record is
        its own object, and may settle it. */
    method ReadObject(i: nat) returns (r: Result)
      requires Valid() && memory == disk && i < |disk|
      modifies this`at, this`objects, this`state, this`events
      ensures Valid() && old(events) <= events
      ensures r in {Completed, Raised, Dead}
      ensures state == if r == Completed && disk[i].phase == Dispatched
                       then old(state).(objects := objects, seen := Some(i)) else old(state).(objects := objects)
      ensures r == Completed ==> Owns(state, disk[i]) && disk[i].receipt != None
      ensures forall k: nat :: (Says(script, old(at), Shows(k)) && k < |old(objects)| && disk[i].receipt != None
                                && Validates(disk[i], old(objects)[k].shown)) ==>
                r == Completed && at == old(at) + 1 && objects == old(objects)
    {
      if memory[i].receipt == None {
        return Raised;
      }
      var a := Next();
      if a == None {
        return Dead;
      }
      if !a.value.Shows? || a.value.k >= |objects| || !Validates(memory[i], objects[a.value.k].shown) {
        return Raised;
      }
      Recognised(i, a.value.k);
      assert Owns(state, disk[i]);
      if memory[i].phase == Dispatched {
        Happen(Seen(i, a.value.k));
        assert MadeFor(state, a.value.k, disk[i].request);
      }
      r := Completed;
    }

    /** What passes the comparison is the record's own object. */
    lemma Recognised(i: nat, k: nat)
      requires Valid() && i < |disk| && k < |objects| && Validates(disk[i], objects[k].shown)
      ensures MadeFor(state, k, disk[i].request)
    {
      Reached(events, state);
      OnlyOwnPasses(state, i, k);
    }

    /** Write the journal in memory through to disk, as event `e`. It cannot fail for size: whoever
        calls it owes only that the event is enabled. */
    method Save(ghost e: Event) returns (r: Result)
      requires Valid() && Saves(e) && Enabled(state, e) && memory == Apply(state, e).disk
      modifies this`disk, this`at, this`objects, this`state, this`events
      ensures Valid() && Bytes(memory) <= STATE_LIMIT && old(events) <= events
      ensures r in {Completed, Raised, Dead}
      ensures state == old(state).(objects := objects) || state == Apply(old(state), e).(objects := objects)
      ensures r == Completed ==> state == Apply(old(state), e).(objects := objects)
      ensures r == Completed <==> old(at) < |script| && script[old(at)].answer == Good
      ensures Says(script, old(at), Good) ==> r == Completed && at == old(at) + 1 && objects == old(objects)
    {
      SaveFits(e);
      var a := Next();
      ActsLeaveSaves(old(state), e, objects);
      if a == Some(Good) || a == Some(RefusesLate) {
        Happen(e);
        disk := memory;
      }
      r := if a == None then Dead else if a == Some(Good) then Completed else Raised;
    }

    lemma SaveFits(e: Event)
      requires Valid() && Enabled(state, e)
      ensures Bytes(Apply(state, e).disk) <= STATE_LIMIT
    {
      assert Legal(events) && After(events) == state;
      NextSaveFits(events, e);
    }

    /** The index of the record of `q.intent`, or why there is none. */
    method Find(q: Request) returns (i: nat)
      ensures i <= |memory|
      ensures i < |memory| ==> memory[i].request.intent == q.intent
      ensures i == |memory| ==> forall k :: 0 <= k < |memory| ==> memory[k].request.intent != q.intent
    {
      i := 0;
      while i < |memory| && memory[i].request.intent != q.intent
        invariant i <= |memory|
        invariant forall k :: 0 <= k < i ==> memory[k].request.intent != q.intent
      {
        i := i + 1;
      }
    }

    /** Whether another intent, not failed, already stands for the same object. */
    method Reserved(q: Request) returns (taken: bool)
      ensures taken <==> exists k :: 0 <= k < |memory| && memory[k].phase != Failed && Key(memory[k].request) == Key(q)
    {
      taken := false;
      for k := 0 to |memory|
        invariant !taken
        invariant forall j :: 0 <= j < k ==> memory[j].phase == Failed || Key(memory[j].request) != Key(q)
      {
        if memory[k].phase != Failed && Key(memory[k].request) == Key(q) {
          return true;
        }
      }
    }

    /** The record of a request: the one it has, or a new one if there is room for its completion. */
    method RecordFor(q: Request) returns (r: Result, i: nat)
      requires Valid() && memory == disk
      modifies this`disk, this`memory, this`at, this`objects, this`state, this`events
      ensures Valid() && old(events) <= events
      ensures r in {Completed, Raised, Dead}
      ensures r == Completed ==> memory == disk && i < |disk| && disk[i].request == q
      ensures r == Completed && Admissible(old(disk), q) ==> i == |old(disk)| && disk == old(disk) + [Fresh(q)]
      ensures Admissible(old(disk), q) && Says(script, old(at), Good) ==>
                r == Completed && at == old(at) + 1 && objects == old(objects)
    {
      i := Find(q);
      if i < |memory| {
        assert Clash(memory[i], Fresh(q));
        r := if memory[i].request == q then Completed else Raised;
        return;
      }
      var taken := Reserved(q);
      NoClash(memory, q, taken);
      if taken || |memory| >= MAX_RECORDS {
        r := Raised;
        return;
      }
      memory := memory + [Fresh(q)];
      if Bytes(memory) + COMPLETION * Outstanding(memory) > STATE_LIMIT {
        r := Raised;
        return;
      }
      r := Save(Admit(q));
    }

    /** The completed publication that `q` is about, unless there is none. */
    method Publication(q: Request) returns (j: Option<nat>)
      ensures j != None ==> j.value < |memory| && IsSource(memory[j.value], q)
      ensures j == None ==> forall k :: 0 <= k < |memory| ==> !IsSource(memory[k], q)
    {
      j := None;
      for k := 0 to |memory|
        invariant j == None
        invariant forall m :: 0 <= m < k ==> !IsSource(memory[m], q)
      {
        if IsSource(memory[k], q) {
          return Some(k);
        }
      }
    }

    /** The completed publication that `q` is about, read back. */
    method ReadSource(q: Request) returns (r: Result, j: nat)
      requires Valid() && memory == disk
      modifies this`at, this`objects, this`state, this`events
      ensures Valid() && old(events) <= events && state == old(state).(objects := objects)
      ensures r in {Completed, Raised, Dead}
      ensures r == Completed ==>
                j < |disk| && IsSource(disk[j], q) && disk[j].receipt != None && Owns(state, disk[j])
    {
      var found := Publication(q);
      if found == None {
        return Raised, 0;
      }
      j := found.value;
      r := ReadObject(j);
    }

    /** The at-most-once boundary: the dispatch is durable before the mutation is sent, and the
        mutation is sent only by the process that made it durable. */
    method Dispatch(i: nat) returns (r: Result, reply: Option<Object>)
      requires Valid() && memory == disk && i < |disk| && disk[i].phase == Prepared
      modifies this`disk, this`memory, this`posts, this`at, this`objects, this`state, this`events
      ensures Valid() && old(events) <= events && memory == old(memory)[i := old(memory)[i].(phase := Dispatched)]
      ensures r in {Completed, Raised, Dead}
      ensures posts == old(posts) || posts == old(posts) + [memory[i].request]
      ensures r == Completed ==> disk == memory && state.sent == Some(i) && reply != None
      ensures forall o :: (Says(script, old(at), Good) && IsPublication(memory[i].request.operation)
                           && Lands(script, old(at) + 1, memory[i].request, |old(posts)|, o)
                           && Unused(old(objects), o)) ==>
                r == Completed && at == old(at) + 2 && Landing(i, o, old(posts), old(objects), reply)
    {
      reply := None;
      r := ArmRecord(i);
      if r == Completed {
        r, reply := Send(i);
      }
    }

    method ArmRecord(i: nat) returns (r: Result)
      requires Valid() && memory == disk && i < |disk| && disk[i].phase == Prepared
      modifies this`disk, this`memory, this`at, this`objects, this`state, this`events
      ensures Valid() && old(events) <= events && memory == old(memory)[i := old(memory)[i].(phase := Dispatched)]
      ensures r in {Completed, Raised, Dead}
      ensures r == Completed ==> disk == memory && state.armed == Some(i)
      ensures Says(script, old(at), Good) ==> r == Completed && at == old(at) + 1 && objects == old(objects)
    {
      memory := memory[i := memory[i].(phase := Dispatched)];
      r := Save(Arm(i));
    }

    /** The mutation of record `i` has created the object `o` and nothing else has happened. */
    ghost predicate Landing(i: nat, o: Receipt, sent: seq<Request>, there: seq<Landed>, reply: Option<Object>)
      requires i < |memory|
      reads this
    {
      var q := memory[i].request;
      && posts == sent + [q] && reply == Some(Published(q, o, q.revision))
      && objects == there + [Landed(Published(q, o, q.revision), Some(|sent|))]
    }

    method Send(i: nat) returns (r: Result, reply: Option<Object>)
      requires Valid() && memory == disk && state.armed == Some(i) && i < |disk|
      modifies this`posts, this`at, this`objects, this`state, this`events
      ensures Valid() && old(events) <= events && posts == old(posts) + [memory[i].request]
      ensures r in {Completed, Raised, Dead}
      ensures r == Completed ==> state.sent == Some(i) && reply != None
      ensures forall o :: (IsPublication(memory[i].request.operation)
                           && Lands(script, old(at), memory[i].request, |old(posts)|, o)
                           && Unused(old(objects), o)) ==>
                r == Completed && at == old(at) + 1 && Landing(i, o, old(posts), old(objects), reply)
    {
      reply := None;
      NothingLanded();
      Happen(Post(i));
      posts := posts + [memory[i].request];
      var a := Next();
      r := if a == None then Dead else if a.value.Posted? then Completed else Raised;
      if r == Completed {
        reply := Some(a.value.reply);
      }
    }

    /** No object is there for a mutation that is yet to be sent. */
    lemma NothingLanded()
      requires Valid()
      ensures forall k :: 0 <= k < |objects| ==> objects[k].post != Some(|posts|)
    {
      Reached(events, state);
      forall k | 0 <= k < |objects| ensures objects[k].post != Some(|posts|) {
        assert Genuine(state, objects[k]);
      }
    }

    /** Keep the receipt as the reply names it, compare the reply, read the object back, and only then
        complete the record. */
    method Complete(i: nat, reply: Object) returns (r: Result)
      requires Valid() && memory == disk && i < |disk| && disk[i].phase == Dispatched && disk[i].receipt == None
      requires disk[i].request.operation != Notify
      modifies this`disk, this`memory, this`at, this`objects, this`state, this`events
      ensures Valid() && old(events) <= events && i < |memory| && memory[i].phase != Prepared
      ensures r in {Completed, Raised, Dead}
      ensures r == Completed ==> disk == memory && disk[i].phase == Done && disk[i].request == old(disk)[i].request
      ensures r == Completed ==> disk[i].receipt == Some(reply.receipt)
      ensures forall k: nat :: (IsPublication(old(disk)[i].request.operation) && Validates(old(disk)[i], reply)
                           && k < |old(objects)| && old(objects)[k].shown == reply
                           && Says(script, old(at), Good) && Says(script, old(at) + 1, Shows(k))
                           && Says(script, old(at) + 2, Good) && Says(script, old(at) + 3, Good)) ==>
                r == Completed
    {
      if !ReceiptOk(reply.receipt) {
        return Raised;
      }
      r := Keep(i, reply.receipt);
      if r != Completed {
        return;
      }
      if !Validates(memory[i], reply) {
        return Raised;
      }
      r := Resume(i);
    }

    method Keep(i: nat, o: Receipt) returns (r: Result)
      requires Valid() && memory == disk && Enabled(state, Note(i, o))
      modifies this`disk, this`memory, this`at, this`objects, this`state, this`events
      ensures Valid() && old(events) <= events && memory == old(memory)[i := old(memory)[i].(receipt := Some(o))]
      ensures r in {Completed, Raised, Dead}
      ensures r == Completed ==> disk == memory
      ensures Says(script, old(at), Good) ==> r == Completed && at == old(at) + 1 && objects == old(objects)
    {
      memory := memory[i := memory[i].(receipt := Some(o))];
      r := Save(Note(i, o));
    }

    /** The last read, of the locked head or of the source publication, and the settlement. */
    method Finish(i: nat) returns (r: Result)
      requires Valid() && memory == disk && Enabled(state, Settle(i))
      modifies this`disk, this`memory, this`at, this`objects, this`state, this`events
      ensures Valid() && old(events) <= events && i < |memory| && |memory| == |old(memory)|
      ensures memory[i].phase != Prepared
      ensures r in {Completed, Raised, Dead}
      ensures r == Completed ==> disk == memory && disk[i].phase == Done && disk[i].request == old(disk)[i].request
      ensures r == Completed ==> disk[i].receipt == old(disk)[i].receipt
      ensures (IsPublication(old(disk)[i].request.operation)
               && Says(script, old(at), Good) && Says(script, old(at) + 1, Good)) ==> r == Completed
    {
      r := LastRead(memory[i].request);
      if r == Completed {
        r := Settled(i);
      }
    }

    method LastRead(q: Request) returns (r: Result)
      requires Valid() && memory == disk
      modifies this`at, this`objects, this`state, this`events
      ensures Valid() && old(events) <= events && state == old(state).(objects := objects)
      ensures r in {Completed, Raised, Dead}
      ensures IsPublication(q.operation) && Says(script, old(at), Good) ==> r == Completed && at == old(at) + 1
    {
      if q.operation == Followup {
        var j;
        r, j := ReadSource(q);
      } else {
        r := Ask();
      }
    }

    method Settled(i: nat) returns (r: Result)
      requires Valid() && memory == disk && Enabled(state, Settle(i))
      modifies this`disk, this`memory, this`at, this`objects, this`state, this`events
      ensures Valid() && old(events) <= events && r in {Completed, Raised, Dead}
      ensures var rec := old(disk)[i];
              memory == old(disk)[i := rec.(phase := Done,
                                            evidence := Some(DoneEvidence(rec.request, rec.receipt.value)))]
      ensures r == Completed ==> disk == memory
      ensures Says(script, old(at), Good) ==> r == Completed
    {
      var rec := memory[i];
      memory := memory[i := rec.(phase := Done, evidence := Some(DoneEvidence(rec.request, rec.receipt.value)))];
      r := Save(Settle(i));
    }

    /** What has to hold before a mutation of record `i` may be armed: `j` is the publication it is
        about, for a follow-up or a notification, just read back. */
    method Preconditions(i: nat) returns (r: Result, j: nat)
      requires Valid() && memory == disk && i < |memory|
      modifies this`at, this`objects, this`state, this`events
      ensures Valid() && old(events) <= events && state == old(state).(objects := objects)
      ensures r in {Completed, Raised, Dead}
      ensures r == Completed && !IsPublication(memory[i].request.operation) ==>
                j < |memory| && IsSource(memory[j], memory[i].request) && memory[j].receipt != None
      ensures IsPublication(memory[i].request.operation) && Says(script, old(at), Good) ==>
                r == Completed && at == old(at) + 1 && objects == old(objects)
    {
      j := 0;
      if IsPublication(memory[i].request.operation) {
        r := Ask();  // the head is locked at the approved revision
        return;
      }
      r, j := ReadSource(memory[i].request);
      if r == Completed && memory[i].request.operation == Notify {
        r := Ask();  // it is open, its head locked and green, its reviewers who they were
      }
    }

    /** `execute` of a record that is still prepared. */
    method ExecutePrepared(i: nat) returns (r: Result)
      requires Valid() && memory == disk && i < |disk| && disk[i].phase == Prepared
      modifies this`disk, this`memory, this`posts, this`at, this`objects, this`state, this`events
      ensures Valid() && old(events) <= events && i < |memory|
      ensures r in {Completed, Raised, Dead}
      ensures r == Raised && memory[i].phase == Prepared ==> memory == disk == old(disk)
      ensures r == Completed ==> disk == memory && disk[i].phase == Done && disk[i].request == old(disk)[i].request
      ensures forall o :: (IsPublication(old(disk)[i].request.operation) && Unused(old(objects), o)
                           && Cooperates(script, old(at), old(disk)[i].request, |old(posts)|, |old(objects)|, o)) ==>
                r == Completed && posts == old(posts) + [old(disk)[i].request] && disk[i].receipt == Some(o)
    {
      NothingKept(i);
      var j;
      r, j := Preconditions(i);
      if r != Completed {
        return;
      }
      var reply;
      r, reply := Dispatch(i);
      if r == Completed {
        if memory[i].request.operation == Notify {
          r := CompleteNotice(i, j, reply.value);
        } else {
          r := Complete(i, reply.value);
        }
      }
    }

    lemma NothingKept(i: nat)
      requires Valid() && i < |disk| && disk[i].phase == Prepared
      ensures disk[i].receipt == None
    {
      Reached(events, state);
      assert RecordOk(disk[i]);
    }

    /** The mutation names the pull request of record `j`; that is read back, and its receipt kept. */
    method CompleteNotice(i: nat, j: nat, reply: Object) returns (r: Result)
      requires Valid() && memory == disk && i < |disk| && disk[i].phase == Dispatched && disk[i].receipt == None
      requires disk[i].request.operation == Notify && state.sent == Some(i)
      requires j < |disk| && IsSource(disk[j], disk[i].request) && disk[j].receipt != None
      modifies this`disk, this`memory, this`at, this`objects, this`state, this`events
      ensures Valid() && old(events) <= events && i < |memory| && memory[i].phase != Prepared
      ensures r in {Completed, Raised, Dead}
      ensures r == Completed ==> disk == memory && disk[i].phase == Done && disk[i].request == old(disk)[i].request
      ensures r == Completed ==> disk[i].receipt == Some(reply.receipt) == old(disk)[j].receipt
    {
      if memory[j].receipt != Some(reply.receipt) {
        return Raised;
      }
      r := ReadObject(j);
      if r == Completed {
        SourceIsOk(j);
        r := KeepSource(i, reply.receipt);
      }
    }

    method KeepSource(i: nat, o: Receipt) returns (r: Result)
      requires Valid() && memory == disk && Enabled(state, Note(i, o)) && disk[i].request.operation == Notify
      modifies this`disk, this`memory, this`at, this`objects, this`state, this`events
      ensures Valid() && old(events) <= events && i < |memory| && memory[i].phase != Prepared
      ensures r in {Completed, Raised, Dead}
      ensures r == Completed ==> disk == memory && disk[i].phase == Done && disk[i].request == old(disk)[i].request
      ensures r == Completed ==> disk[i].receipt == Some(o)
    {
      r := Keep(i, o);
      if r != Completed {
        return;
      }
      r := Ask();  // its requested reviewers are among those read back
      if r == Completed {
        r := Finish(i);
      }
    }

    lemma SourceIsOk(j: nat)
      requires Valid() && j < |disk| && disk[j].receipt != None
      ensures ReceiptOk(disk[j].receipt.value)
    {
      Reached(events, state);
      assert RecordOk(disk[j]);
    }

    /** `reconcile`: a settled or prepared record answers for itself; a dispatched one is settled only
        by an object that is observed. */
    method ReconcileRecord(i: nat) returns (r: Result)
      requires Valid() && memory == disk && i < |disk|
      modifies this`disk, this`memory, this`at, this`objects, this`state, this`events
      ensures Valid() && old(events) <= events && i < |memory|
      ensures r == Absent <==> old(disk)[i].phase == Prepared
      ensures r == Rejected <==> old(disk)[i].phase == Failed
      ensures r in {Absent, Rejected} ==> disk == old(disk) && memory == disk
      ensures r == Completed ==> memory == disk && disk[i].phase == Done && disk[i].request == old(disk)[i].request
      ensures r != Absent ==> memory[i].phase != Prepared
    {
      var rec := memory[i];
      match rec.phase
      case Failed => r := Rejected;
      case Prepared => r := Absent;
      case Done =>
        r := ReadDone(i);
      case Dispatched =>
        if rec.request.operation == Notify {
          r := Pending;
        } else if rec.receipt != None {
          r := Resume(i);
        } else {
          r := FindObject(i);
        }
    }

    /** A completed record is confirmed by what it is about: its own object, its publication's for a
        notification, and for a follow-up the publication beside it. */
    method ReadDone(i: nat) returns (r: Result)
      requires Valid() && memory == disk && i < |disk| && disk[i].phase == Done
      modifies this`at, this`objects, this`state, this`events
      ensures Valid() && old(events) <= events && state == old(state).(objects := objects)
      ensures r in {Completed, Raised, Dead}
      ensures r == Completed ==>
                exists j :: 0 <= j < |disk| && disk[j].receipt == disk[i].receipt && Owns(state, disk[j])
    {
      var j;
      if memory[i].request.operation == Notify {
        r, j := ReadSource(memory[i].request);
        if r == Completed && memory[j].receipt != memory[i].receipt {
          r := Raised;
        }
        return;
      }
      r := ReadObject(i);
      if r == Completed && memory[i].request.operation == Followup {
        r, j := ReadSource(memory[i].request);
        if r == Completed { StillOwns(i); }
      }
    }

    /** A completed record owns its object whatever happens. */
    lemma StillOwns(i: nat)
      requires Valid() && i < |disk| && disk[i].phase == Done && disk[i].request.operation != Notify
      ensures Owns(state, disk[i])
    {
      Reached(events, state);
      assert OwnReceipt(state, disk[i]);
    }

    /** Look for the object by its marker: no row proves nothing. */
    method FindObject(i: nat) returns (r: Result)
      requires Valid() && memory == disk && i < |disk| && disk[i].phase == Dispatched && disk[i].receipt == None
      requires disk[i].request.operation != Notify
      modifies this`disk, this`memory, this`at, this`objects, this`state, this`events
      ensures Valid() && old(events) <= events && i < |memory| && memory[i].phase != Prepared
      ensures r in {Completed, Pending, Raised, Dead}
      ensures r == Completed ==> memory == disk && disk[i].phase == Done && disk[i].request == old(disk)[i].request
      ensures r == Pending ==> disk == old(disk)
    {
      var a := Next();
      if a == None {
        return Dead;
      }
      if !a.value.Lists? {
        return Raised;
      }
      var found;
      r, found := Search(i, a.value.rows);
      if r != Completed {
        return;
      }
      if found == [] {
        return Pending;
      }
      assert found[0] in found;
      r := Keep(i, objects[found[0]].shown.receipt);
      if r == Completed {
        r := Resume(i);
      }
    }

    /** A dispatched record with a receipt is settled once its object reads back. */
    method Resume(i: nat) returns (r: Result)
      requires Valid() && memory == disk && i < |disk| && disk[i].phase == Dispatched && disk[i].receipt != None
      modifies this`disk, this`memory, this`at, this`objects, this`state, this`events
      ensures Valid() && old(events) <= events && i < |memory| && memory[i].phase != Prepared
      ensures r in {Completed, Raised, Dead}
      ensures r == Completed ==> disk == memory && disk[i].phase == Done && disk[i].request == old(disk)[i].request
      ensures r == Completed ==> disk[i].receipt == old(disk)[i].receipt
      ensures forall k: nat :: (IsPublication(old(disk)[i].request.operation) && k < |old(objects)|
                                && Validates(old(disk)[i], old(objects)[k].shown) && Says(script, old(at), Shows(k))
                                && Says(script, old(at) + 1, Good) && Says(script, old(at) + 2, Good)) ==>
                r == Completed
    {
      r := ReadObject(i);
      if r == Completed {
        r := Finish(i);
      }
    }

    /** The rows that hold the marker of record `i`. Every one of them has to pass the comparison, so there is
        never more than one: the refusal of several markers is not needed. */
    method Search(i: nat, rows: seq<nat>) returns (r: Result, found: seq<nat>)
      requires Valid() && memory == disk && i < |disk|
      ensures r in {Completed, Raised}
      ensures r == Completed ==>
                && |found| <= 1
                && (forall k :: k in rows ==> k < |objects|)
                && (forall k :: k in found <==> k in rows && Contains(objects[k].shown.body, Marker(disk[i].request)))
                && (forall k :: k in found ==>
                      Validates(disk[i], objects[k].shown) && MadeFor(state, k, disk[i].request))
    {
      found := [];
      var ids: set<nat> := {};
      for n := 0 to |rows|
        invariant forall m :: 0 <= m < n ==> rows[m] < |objects| && objects[rows[m]].shown.receipt.id in ids
        invariant |found| <= 1
        invariant forall k :: k in found <==>
                    exists m :: 0 <= m < n && rows[m] == k && Contains(objects[k].shown.body, Marker(disk[i].request))
        invariant forall k :: k in found ==> Validates(disk[i], objects[k].shown) && MadeFor(state, k, disk[i].request)
      {
        var k := rows[n];
        if k >= |objects| || objects[k].shown.receipt.id in ids {
          return Raised, [];
        }
        ids := ids + {objects[k].shown.receipt.id};
        if Contains(objects[k].shown.body, Marker(memory[i].request)) {
          if !Validates(memory[i], objects[k].shown) {
            return Raised, [];
          }
          Recognised(i, k);
          if found != [] {
            OneMatch(i, k, found[0]);
          }
          found := found + [k];
        }
      }
      r := Completed;
    }

    lemma OneMatch(i: nat, k: nat, m: nat)
      requires Valid() && i < |disk| && MadeFor(state, k, disk[i].request) && MadeFor(state, m, disk[i].request)
      ensures k == m
    {
      assert Legal(events) && After(events) == state;
      OneObjectPerRequest(events, k, m, disk[i].request);
    }

    /** One request, on a journal freshly loaded under its lock. Only a record that is still prepared
        when something refuses is failed; whatever happened after its dispatch leaves it pending. */
    method Handle(q: Request, mode: Mode, answers: seq<Turn>) returns (r: Result, i: nat)
      requires Valid()
      modifies this
      ensures Valid() && old(events) <= events
      ensures r != Raised
      ensures r in {Absent, Completed, Rejected} ==> i < |disk| && disk[i].request == q
      ensures r == Absent ==> disk[i].phase == Prepared
      ensures r == Rejected ==> disk[i].phase == Failed
      ensures r == Completed ==> disk[i].phase == Done
      ensures mode == Reconcile ==> posts == old(posts)
      ensures forall o :: (mode == Execute && IsPublication(q.operation) && Admissible(old(disk), q)
                           && Says(answers, 0, Good) && Says(answers, 1, Good) && Unused(old(objects), o)
                           && Cooperates(answers, 2, q, |old(posts)|, |old(objects)|, o)) ==>
                r == Completed && posts == old(posts) + [q] && disk[i].receipt == Some(o)
    {
      r, i := Admitted(q, answers);
      if r == Completed {
        r := Serve(i, mode);
      } else if r == Raised {
        r := Pending;
      }
    }

    /** Load the journal, check the actor and take up the record. */
    method Admitted(q: Request, answers: seq<Turn>) returns (r: Result, i: nat)
      requires Valid()
      modifies this
      ensures Valid() && old(events) <= events && posts == old(posts) && script == answers
      ensures r in {Completed, Raised, Dead}
      ensures r == Completed ==> memory == disk && i < |disk| && disk[i].request == q
      ensures Admissible(old(disk), q) && Says(answers, 0, Good) && Says(answers, 1, Good) ==>
                r == Completed && at == 2 && objects == old(objects) && disk[i].phase == Prepared
    {
      Happen(Crash);
      memory, script, at, i := disk, answers, 0, 0;
      r := Ask();  // the credential is the configured actor's, the repository the configured one
      if r == Completed {
        r, i := RecordFor(q);
      }
    }

    method Serve(i: nat, mode: Mode) returns (r: Result)
      requires Valid() && memory == disk && i < |disk|
      modifies this`disk, this`memory, this`posts, this`at, this`objects, this`state, this`events
      ensures Valid() && old(events) <= events && r != Raised
      ensures r in {Absent, Completed, Rejected} ==> i < |disk| && disk[i].request == old(disk)[i].request
      ensures r == Absent ==> disk[i].phase == Prepared
      ensures r == Rejected ==> disk[i].phase == Failed
      ensures r == Completed ==> disk[i].phase == Done
      ensures mode == Reconcile ==> posts == old(posts)
      ensures forall o :: (mode == Execute && old(disk)[i].phase == Prepared
                           && IsPublication(old(disk)[i].request.operation) && Unused(old(objects), o)
                           && Cooperates(script, old(at), old(disk)[i].request, |old(posts)|, |old(objects)|, o)) ==>
                r == Completed && posts == old(posts) + [old(disk)[i].request] && disk[i].receipt == Some(o)
    {
      if mode == Execute && memory[i].phase == Prepared {
        r := ExecutePrepared(i);
        if r == Raised && memory[i].phase == Prepared {
          r := Fail(i);
        }
      } else {
        r := ReconcileRecord(i);
      }
      if r == Raised {
        r := Pending;
      }
    }

    /** A refusal before dispatch is definite, once it is durable. */
    method Fail(i: nat) returns (r: Result)
      requires Valid() && memory == disk && i < |disk| && disk[i].phase == Prepared
      modifies this`disk, this`memory, this`at, this`objects, this`state, this`events
      ensures Valid() && old(events) <= events && r in {Rejected, Pending, Dead}
      ensures r == Rejected ==> i < |disk| && disk[i] == old(disk)[i].(phase := Failed, evidence := Some(WHY))
    {
      memory := memory[i := memory[i].(phase := Failed, evidence := Some(WHY))];
      r := Save(Reject(i, WHY));
      r := if r == Completed then Rejected else if r == Dead then Dead else Pending;
    }
  }

  predicate Contains(text: string, part: string) {
    exists n :: 0 <= n <= |text| - |part| && PartAt(text, n, part)
  }

  predicate PartAt(text: string, n: nat, part: string)
    requires n + |part| <= |text|
  {
    text[n..n + |part|] == part
  }

  datatype Call = Call(request: Request, mode: Mode, answers: seq<Turn>)

  /** The life of one installation: any calls, any answers, any deaths in between, and anything on GitHub. */
  method Lifetime(calls: seq<Call>) returns (a: Adapter)
    ensures fresh(a) && a.Valid()
    ensures forall j, k :: 0 <= j < k < |a.posts| ==> Key(a.posts[j]) != Key(a.posts[k])
    ensures Loadable(a.disk) && Bytes(a.disk) <= STATE_LIMIT
    ensures forall i :: 0 <= i < |a.disk| ==>
              && (a.disk[i].phase == Failed ==> a.disk[i].request !in a.posts)
              && (a.disk[i].phase == Done ==> a.disk[i].request in a.posts)
              && (a.disk[i].phase == Done && a.disk[i].request.operation != Notify ==> Owns(a.state, a.disk[i]))
  {
    a := new Adapter();
    for n := 0 to |calls|
      invariant fresh(a) && a.Valid()
    {
      var r, i := a.Handle(calls[n].request, calls[n].mode, calls[n].answers);
    }
    assert Legal(a.events) && After(a.events) == a.state;
    AtMostOneMutationPerObject(a.events);
    SavedJournalsLoadAndFit(a.events);
    forall i | 0 <= i < |a.disk|
      ensures a.disk[i].phase == Failed ==> a.disk[i].request !in a.posts
      ensures a.disk[i].phase == Done ==> a.disk[i].request in a.posts
      ensures a.disk[i].phase == Done && a.disk[i].request.operation != Notify ==> Owns(a.state, a.disk[i])
    {
      PhaseTellsDispatch(a.events, i);
      if a.disk[i].phase == Done && a.disk[i].request.operation != Notify { a.StillOwns(i); }
    }
  }

  lemma NoClash(rs: seq<Record>, q: Request, taken: bool)
    requires forall k :: 0 <= k < |rs| ==> rs[k].request.intent != q.intent
    requires taken <==> exists k :: 0 <= k < |rs| && rs[k].phase != Failed && Key(rs[k].request) == Key(q)
    ensures !taken <==> forall k :: 0 <= k < |rs| ==> !Clash(rs[k], Fresh(q))
  {
    if taken {
      var k :| 0 <= k < |rs| && rs[k].phase != Failed && Key(rs[k].request) == Key(q);
      assert Clash(rs[k], Fresh(q));
    }
  }
}
