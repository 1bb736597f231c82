/** Lists of names, each name once, in the order in which they first appear. */
module Names {

  function Elements(ns: seq<string>): set<string> { set n | n in ns }

  ghost predicate Distinct(ns: seq<string>) { forall i, j :: 0 <= i < j < |ns| ==> ns[i] != ns[j] }

  /** The names added to those there already, each once, in the order they first appear. */
  function AddNew(known: seq<string>, ns: seq<string>): seq<string> {
    if ns == [] then known
    else
      var before := AddNew(known, ns[..|ns| - 1]);
      var n := ns[|ns| - 1];
      if n in before then before else before + [n]
  }

  method Append(known: seq<string>, ns: seq<string>) returns (all: seq<string>)
    ensures all == AddNew(known, ns)
  {
    all := known;
    for i := 0 to |ns|
      invariant all == AddNew(known, ns[..i])
    {
      assert ns[..i + 1][..i] == ns[..i];
      if ns[i] !in all {
        all := all + [ns[i]];
      }
    }
    assert ns[..|ns|] == ns;
  }

  lemma {:induction false} AddNewIsUnion(known: seq<string>, ns: seq<string>)
    requires Distinct(known)
    ensures Distinct(AddNew(known, ns)) && Elements(AddNew(known, ns)) == Elements(known) + Elements(ns)
  {
    if ns != [] {
      var before, n := ns[..|ns| - 1], ns[|ns| - 1];
      AddNewIsUnion(known, before);
      assert ns == before + [n];
      OneMoreName(before, n);
      OneMoreName(AddNew(known, before), n);
    }
  }

  lemma OneMoreName(ns: seq<string>, n: string)
    ensures Elements(ns + [n]) == Elements(ns) + {n} && (n in ns <==> n in Elements(ns))
  {
  }

  lemma {:induction false} DistinctCount(ns: seq<string>)
    ensures |Elements(ns)| <= |ns|
    ensures Distinct(ns) ==> |Elements(ns)| == |ns|
  {
    if ns != [] {
      var before, n := ns[..|ns| - 1], ns[|ns| - 1];
      DistinctCount(before);
      assert ns == before + [n];
      assert Elements(ns) == Elements(before) + {n};
      assert n in before ==> Elements(ns) == Elements(before);
    }
  }
}
