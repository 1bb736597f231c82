/**
 The repair lineage of a prepared candidate (`lineage` of scripts/scenario-git-workspace.py): the walk
 from a candidate to the one it repairs, and so on, over the records of the journal.
 */
module Lineage {
  import opened Basics

  const MAX_RECORDS := 32

  /** A prepared candidate; `identity` stands for its branch, title and body. */
  datatype Prepared = Prepared(owner: nat, previous: Option<nat>, identity: string, commit: nat, snapshot: nat,
                               sourceCommit: nat, sourcePredecessor: Option<nat>)

  datatype Record = Record(done: bool, prepared: Option<Prepared>)

  /** `q` is the completed candidate that `p` repairs. */
  predicate Repairs(records: map<nat, Record>, p: Prepared, q: Prepared) {
    && p.previous != None && p.previous.value in records
    && records[p.previous.value] == Record(true, Some(q))
    && p.identity == q.identity && p.sourceCommit == q.commit && p.sourcePredecessor == Some(q.snapshot)
  }

  /** The candidates from `p` back to one that repairs nothing, all different. */
  ghost predicate IsLineage(records: map<nat, Record>, p: Prepared, chain: seq<Prepared>) {
    && 0 < |chain| <= MAX_RECORDS && chain[0] == p && chain[|chain| - 1].previous == None
    && (forall i :: 0 <= i < |chain| - 1 ==> Repairs(records, chain[i], chain[i + 1]))
    && Distinct(chain)
  }

  ghost predicate Distinct(chain: seq<Prepared>) {
    forall i, j :: 0 <= i < j < |chain| ==> chain[i].owner != chain[j].owner
  }

  ghost function Owners(chain: seq<Prepared>): set<nat> {
    set i | 0 <= i < |chain| :: chain[i].owner
  }

  lemma OwnersGrow(chain: seq<Prepared>, q: Prepared)
    ensures Owners(chain + [q]) == Owners(chain) + {q.owner}
  {
    var more := chain + [q];
    assert more[|chain|] == q;
    forall o | o in Owners(chain) ensures o in Owners(more) {
      var i :| 0 <= i < |chain| && chain[i].owner == o;
      assert more[i].owner == o;
    }
  }

  /** A walk never leaves a lineage, so there is at most one. */
  lemma {:induction false} LineagesAgree(records: map<nat, Record>, p: Prepared,
                                         a: seq<Prepared>, b: seq<Prepared>, n: nat)
    requires IsLineage(records, p, b) && 0 < |a| && a[0] == p && n < |a|
    requires forall i :: 0 <= i < |a| - 1 ==> Repairs(records, a[i], a[i + 1])
    ensures n < |b| && a[n] == b[n]
  {
    if n > 0 {
      LineagesAgree(records, p, a, b, n - 1);
      assert Repairs(records, a[n - 1], a[n - 1 + 1]);
      if n < |b| {
        assert Repairs(records, b[n - 1], b[n - 1 + 1]);
      }
    }
  }

  /** The walk finds the lineage if there is one, and refuses only if there is none. */
  method Walk(records: map<nat, Record>, p: Prepared) returns (chain: Option<seq<Prepared>>)
    ensures chain != None ==> IsLineage(records, p, chain.value)
    ensures chain == None ==> forall c :: !IsLineage(records, p, c)
  {
    var walked: seq<Prepared>, seen: set<nat>, next := [], {}, Some(p);
    while next != None
      invariant |walked| <= MAX_RECORDS
      invariant walked == [] ==> next == Some(p)
      invariant walked != [] ==> walked[0] == p
      invariant seen == Owners(walked)
      invariant Distinct(walked)
      invariant forall i :: 0 <= i < |walked| - 1 ==> Repairs(records, walked[i], walked[i + 1])
      invariant walked != [] && next != None ==> Repairs(records, walked[|walked| - 1], next.value)
      invariant walked != [] && next == None ==> walked[|walked| - 1].previous == None
      decreases MAX_RECORDS - |walked|, next != None
    {
      var q := next.value;
      var path := walked + [q];
      if q.owner in seen || |walked| >= MAX_RECORDS {
        if q.owner in seen {
          ghost var i :| 0 <= i < |walked| && walked[i].owner == q.owner;
          assert path[i].owner == path[|walked|].owner;
        }
        NoLineage(records, p, path);
        return None;
      }
      OwnersGrow(walked, q);
      walked, seen := path, seen + {q.owner};
      if q.previous == None {
        next := None;
      } else {
        if q.previous.value !in records || records[q.previous.value].prepared == None
           || !Repairs(records, q, records[q.previous.value].prepared.value)
        {
          DeadEnd(records, p, path, q);
          return None;
        }
        next := records[q.previous.value].prepared;
      }
    }
    chain := Some(walked);
  }

  /** A walk that repeats an owner or is too long is no part of a lineage. */
  lemma NoLineage(records: map<nat, Record>, p: Prepared, path: seq<Prepared>)
    requires 0 < |path| && path[0] == p
    requires forall i :: 0 <= i < |path| - 1 ==> Repairs(records, path[i], path[i + 1])
    requires !Distinct(path) || |path| > MAX_RECORDS
    ensures forall c :: !IsLineage(records, p, c)
  {
    forall c ensures !IsLineage(records, p, c) {
      if IsLineage(records, p, c) {
        LineagesAgree(records, p, path, c, |path| - 1);
        if !Distinct(path) {
          var i, j :| 0 <= i < j < |path| && path[i].owner == path[j].owner;
          LineagesAgree(records, p, path, c, i);
          LineagesAgree(records, p, path, c, j);
        }
        assert false;
      }
    }
  }

  /** Nor is one that ends at a candidate whose predecessor is missing or does not fit. */
  lemma DeadEnd(records: map<nat, Record>, p: Prepared, path: seq<Prepared>, last: Prepared)
    requires 0 < |path| && path[0] == p && last == path[|path| - 1] && last.previous != None
    requires forall i :: 0 <= i < |path| - 1 ==> Repairs(records, path[i], path[i + 1])
    requires forall q :: !Repairs(records, last, q)
    ensures forall c :: !IsLineage(records, p, c)
  {
    forall c ensures !IsLineage(records, p, c) {
      if IsLineage(records, p, c) {
        GoesOn(records, p, path, c);
        assert false;
      }
    }
  }

  lemma GoesOn(records: map<nat, Record>, p: Prepared, path: seq<Prepared>, c: seq<Prepared>)
    requires IsLineage(records, p, c)
    requires 0 < |path| && path[0] == p && path[|path| - 1].previous != None
    requires forall i :: 0 <= i < |path| - 1 ==> Repairs(records, path[i], path[i + 1])
    ensures |path| < |c| && Repairs(records, path[|path| - 1], c[|path|])
  {
    var n := |path| - 1;
    LineagesAgree(records, p, path, c, n);
    assert Repairs(records, c[n], c[n + 1]);
  }
}
