/**
 How the test gate settles a failed parallel run (scripts/nextest-gate.py): the failed tests run again
 alone, within bounds, and the outcome decides the gate's status and the record it reports.
 */
module NextestGate {
  import opened Basics
  import opened TestRecords

  const RERUN_MAX_TESTS := 25
  const RERUN_MAX_SECONDS := 900
  const TESTS_FAILED := 100

  datatype Test = Test(binary: string, name: string)

  function Name(t: Test): string { t.binary + " " + t.name }

  /** What happened when a test's turn came: the seconds since the reruns began, and whether it passed
      alone. */
  datatype Turn = Turn(elapsed: int, passed: bool)

  /** How many tests had their turn before the time was up. */
  function InTime(turns: seq<Turn>): (n: nat)
    ensures n <= |turns| && (forall i :: 0 <= i < n ==> turns[i].elapsed < RERUN_MAX_SECONDS)
    ensures n < |turns| ==> turns[n].elapsed >= RERUN_MAX_SECONDS
  {
    if turns == [] || turns[0].elapsed >= RERUN_MAX_SECONDS then 0 else 1 + InTime(turns[1..])
  }

  /** The tests, in order, whose mark is `want`. */
  function Marked(tests: seq<Test>, marks: seq<bool>, want: bool): seq<Test>
    requires |marks| == |tests|
  {
    if tests == [] then []
    else
      var n := |tests| - 1;
      Marked(tests[..n], marks[..n], want) + if marks[n] == want then [tests[n]] else []
  }

  /** Which tests passed when they ran alone: none beyond the bounds. */
  function PassedAlone(turns: seq<Turn>): seq<bool> {
    seq(|turns|, i requires 0 <= i < |turns| => |turns| <= RERUN_MAX_TESTS && i < InTime(turns) && turns[i].passed)
  }

  /** Nothing is lost and nothing is there twice. */
  lemma {:induction false} MarkedIsPartition(tests: seq<Test>, marks: seq<bool>)
    requires |marks| == |tests|
    ensures multiset(Marked(tests, marks, true)) + multiset(Marked(tests, marks, false)) == multiset(tests)
  {
    if tests != [] {
      var n := |tests| - 1;
      MarkedIsPartition(tests[..n], marks[..n]);
      assert tests == tests[..n] + [tests[n]];
      Appended(tests[..n], tests[n]);
      Appended(Marked(tests[..n], marks[..n], marks[n]), tests[n]);
      assert Marked(tests, marks, !marks[n]) == Marked(tests[..n], marks[..n], !marks[n]);
    }
  }

  lemma Appended(tests: seq<Test>, t: Test)
    ensures multiset(tests + [t]) == multiset(tests) + multiset{t}
  {
  }

  lemma {:induction false} MarkedCount(tests: seq<Test>, marks: seq<bool>)
    requires |marks| == |tests|
    ensures |Marked(tests, marks, true)| + |Marked(tests, marks, false)| == |tests|
  {
    if tests != [] {
      MarkedCount(tests[..|tests| - 1], marks[..|tests| - 1]);
    }
  }

  lemma {:induction false} NoneUnmarked(tests: seq<Test>, marks: seq<bool>)
    requires |marks| == |tests|
    ensures Marked(tests, marks, false) == [] <==> AllTrue(marks)
  {
    if tests != [] {
      var n := |tests| - 1;
      NoneUnmarked(tests[..n], marks[..n]);
      AllTrueBut(marks);
    }
  }

  ghost predicate AllTrue(marks: seq<bool>) { forall i :: 0 <= i < |marks| ==> marks[i] }

  lemma AllTrueBut(marks: seq<bool>)
    requires marks != []
    ensures AllTrue(marks) <==> AllTrue(marks[..|marks| - 1]) && marks[|marks| - 1]
  {
    var before := marks[..|marks| - 1];
    if AllTrue(before) && marks[|marks| - 1] {
      forall i | 0 <= i < |marks| ensures marks[i] {
        if i < |before| {
          assert before[i];
        }
      }
    }
  }

  /** What is not marked comes after all that is known. */
  lemma {:induction false} UnmarkedTail(tests: seq<Test>, marks: seq<bool>, n: nat)
    requires |marks| == |tests| && n <= |tests| && forall i :: n <= i < |marks| ==> !marks[i]
    ensures Marked(tests, marks, true) == Marked(tests[..n], marks[..n], true)
    ensures Marked(tests, marks, false) == Marked(tests[..n], marks[..n], false) + tests[n..]
    decreases |tests|
  {
    if n == |tests| {
      assert tests[..n] == tests && marks[..n] == marks;
    } else {
      var k := |tests| - 1;
      assert tests[..k][..n] == tests[..n] && marks[..k][..n] == marks[..n];
      UnmarkedTail(tests[..k], marks[..k], n);
      assert tests[n..] == tests[..k][n..] + [tests[k]];
    }
  }

  /** `rerun_alone`: an order-preserving partition of the failed tests into those that passed alone and
      the rest. */
  method RerunAlone(failed: seq<Test>, turns: seq<Turn>) returns (flaky: seq<Test>, again: seq<Test>, state: Rerun)
    requires |turns| == |failed|
    ensures flaky == Marked(failed, PassedAlone(turns), true) && again == Marked(failed, PassedAlone(turns), false)
    ensures state == if |failed| <= RERUN_MAX_TESTS && InTime(turns) == |failed| then Isolated else OverBound
  {
    var marks := PassedAlone(turns);
    if |failed| > RERUN_MAX_TESTS {
      UnmarkedTail(failed, marks, 0);
      assert failed[0..] == failed;
      return [], failed, OverBound;
    }
    flaky, again := [], [];
    for i := 0 to |failed|
      invariant i <= InTime(turns)
      invariant flaky == Marked(failed[..i], marks[..i], true) && again == Marked(failed[..i], marks[..i], false)
    {
      if turns[i].elapsed >= RERUN_MAX_SECONDS {
        UnmarkedTail(failed, marks, i);
        return flaky, again + failed[i..], OverBound;
      }
      assert failed[..i + 1][..i] == failed[..i] && marks[..i + 1][..i] == marks[..i];
      if turns[i].passed {
        flaky := flaky + [failed[i]];
      } else {
        again := again + [failed[i]];
      }
    }
    assert failed[..|failed|] == failed && marks[..|failed|] == marks;
    state := Isolated;
  }

  /** The record of `report_tests`. */
  function Reported(threads: int, failed: seq<Test>, flaky: seq<Test>, rerun: Rerun): Record {
    Record(threads, |failed|, Names(if |failed| <= NAMES then failed else failed[..NAMES]), Names(flaky), rerun)
  }

  function Names(tests: seq<Test>): seq<string> { seq(|tests|, i requires 0 <= i < |tests| => Name(tests[i])) }

  /** Every failed test passed when it ran alone, within the bounds. */
  ghost predicate AllPassedAlone(failed: seq<Test>, turns: seq<Turn>)
    requires |turns| == |failed|
  {
    |failed| <= RERUN_MAX_TESTS
    && forall i :: 0 <= i < |turns| ==> turns[i].elapsed < RERUN_MAX_SECONDS && turns[i].passed
  }

  lemma AllPassedMeansNoneLeft(failed: seq<Test>, turns: seq<Turn>)
    requires |turns| == |failed| && failed != []
    ensures Marked(failed, PassedAlone(turns), false) == [] <==> AllPassedAlone(failed, turns)
  {
    var marks := PassedAlone(turns);
    NoneUnmarked(failed, marks);
    if AllTrue(marks) {
      assert marks[|marks| - 1];
      forall i | 0 <= i < |turns| ensures turns[i].elapsed < RERUN_MAX_SECONDS && turns[i].passed {
        assert marks[i];
      }
    }
  }

  /** The names and counts the record would hold are within the bounds of `validate_tests`: the threads, the
      number of tests that did not pass alone, their first hundred names, and the names of those that did. */
  ghost predicate Reportable(threads: int, failed: seq<Test>, turns: seq<Turn>)
    requires |turns| == |failed|
  {
    var again, flaky := Marked(failed, PassedAlone(turns), false), Marked(failed, PassedAlone(turns), true);
    && 1 <= threads <= 65536 && |again| <= MAX_COUNT
    && (forall i :: 0 <= i < |again| && i < NAMES ==> ValidName(Name(again[i])))
    && (forall i :: 0 <= i < |flaky| ==> ValidName(Name(flaky[i])))
  }

  /** `settle_failures`: the gate passes exactly when the parallel run did, or when every test it saw fail
      passed alone; and the record it reports is valid exactly when what it was given is within bounds.
      `junit` is what the parallel run left of its failed tests, if anything. */
  method Settle(code: int, threads: int, junit: Option<seq<Test>>, turns: seq<Turn>)
    returns (status: int, record: Record)
    requires junit != None ==> |turns| == |junit.value|
    ensures Valid(record) <==>
            if code == TESTS_FAILED && junit != None && junit.value != [] then Reportable(threads, junit.value, turns)
            else 1 <= threads <= 65536
    ensures status == 0 <==>
            code == 0 || (code == TESTS_FAILED && junit != None && junit.value != []
                          && AllPassedAlone(junit.value, turns))
    ensures status != 0 ==> status == code
    ensures record.count > 0 ==> status != 0
  {
    if code == 0 {
      return 0, Reported(threads, [], [], NotNeeded);
    }
    if code != TESTS_FAILED || junit == None || junit.value == [] {
      return code, Reported(threads, [], [], NotRun);
    }
    var failed := junit.value;
    var flaky, again, rerun := RerunAlone(failed, turns);
    AllPassedMeansNoneLeft(failed, turns);
    RecordIsValid(threads, failed, turns);
    record := Reported(threads, again, flaky, rerun);
    status := if again == [] then 0 else code;
  }

  lemma RecordIsValid(threads: int, failed: seq<Test>, turns: seq<Turn>)
    requires |turns| == |failed| && failed != []
    ensures var marks := PassedAlone(turns);
            Valid(Reported(threads, Marked(failed, marks, false), Marked(failed, marks, true),
                           if |failed| <= RERUN_MAX_TESTS && InTime(turns) == |failed| then Isolated else OverBound))
            <==> Reportable(threads, failed, turns)
  {
    var marks := PassedAlone(turns);
    var again := Marked(failed, marks, false);
    MarkedCount(failed, marks);
    AllPassedMeansNoneLeft(failed, turns);
    FewFlaky(failed, turns);
    NamesMean(Marked(failed, marks, true), |failed|);
    NamesMean(again, NAMES);
    assert |again| <= NAMES ==> again == again[..|again|];
  }

  lemma FewFlaky(failed: seq<Test>, turns: seq<Turn>)
    requires |turns| == |failed|
    ensures |Marked(failed, PassedAlone(turns), true)| <= FLAKY
  {
    MarkedCount(failed, PassedAlone(turns));
    if |failed| > RERUN_MAX_TESTS {
      UnmarkedTail(failed, PassedAlone(turns), 0);
    }
  }

  lemma NamesMean(tests: seq<Test>, n: nat)
    ensures AllNames(Names(if |tests| <= n then tests else tests[..n]))
            <==> forall i :: 0 <= i < |tests| && i < n ==> ValidName(Name(tests[i]))
  {
    var ns := Names(if |tests| <= n then tests else tests[..n]);
    assert forall i :: 0 <= i < |tests| && i < n ==> ns[i] == Name(tests[i]);
    if AllNames(ns) {
      forall i | 0 <= i < |tests| && i < n ensures ValidName(Name(tests[i])) {
        assert ValidName(ns[i]);
      }
    }
  }
}
