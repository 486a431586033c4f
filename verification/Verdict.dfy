/** From the runs of the tests to the result of the suite: outcome flags, the retry of failures, the verdict. */
module Verdict {
  import opened Tests
  import opened Sequences
  import Scheduler
  import Safety
  import Phases

  /** How the process of a test ended. */
  datatype RunError = NoError | Exit(status: int) | NotRun

  datatype Outcome = Passed | Failed | Skipped

  function OutcomeOf(err: RunError): Outcome {
    match err
    case NoError => Passed
    case Exit(status) => if status == 3 then Skipped else Failed
    case NotRun => Failed
  }

  class TestCase {
    const test: Test
    var success: bool
    var failed: bool
    var skipped: bool
    var previous: TestCase?

    constructor (test: Test)
      ensures this.test == test && Unrun() && previous == null
    {
      this.test := test;
      success, failed, skipped, previous := false, false, false, null;
    }

    ghost predicate Unrun()
      reads this
    {
      !success && !failed && !skipped
    }

    method Retry() returns (copied: TestCase)
      ensures fresh(copied) && copied.test == test && copied.Unrun() && copied.previous == this
    {
      copied := new TestCase(test);
      copied.previous := this;
    }

    /** Sets one flag by how the process ended, and clears none: status 3 is a skip, any other error a failure. */
    method Run(err: RunError)
      modifies this`success, this`failed, this`skipped
      ensures success == (old(success) || err == NoError)
      ensures failed == (old(failed) || (err != NoError && err != Exit(3)))
      ensures skipped == (old(skipped) || err == Exit(3))
      ensures success == (old(success) || OutcomeOf(err) == Passed)
      ensures failed == (old(failed) || OutcomeOf(err) == Failed)
      ensures skipped == (old(skipped) || OutcomeOf(err) == Skipped)
    {
      if err == NoError {
        success := true;
        return;
      }
      if err.Exit? {
        if err.status == 1 {
          failed := true;
        } else if err.status == 2 {
          failed := true;
        } else if err.status == 3 {
          skipped := true;
        } else {
          failed := true;
        }
        return;
      }
      failed := true;
    }
  }

  /** The calls that returned, in the order in which they did. */
  type Runs = seq<(TestCase, RunError)>

  ghost predicate Had(runs: Runs, t: TestCase, o: Outcome) {
    exists i :: 0 <= i < |runs| && runs[i].0 == t && OutcomeOf(runs[i].1) == o
  }

  /** The flags are those the runs left. */
  ghost predicate Agrees(tests: seq<TestCase>, runs: Runs)
    reads tests
  {
    forall t :: t in tests ==>
      t.success == Had(runs, t, Passed) && t.failed == Had(runs, t, Failed) && t.skipped == Had(runs, t, Skipped)
  }

  lemma HadNext(runs: Runs, r: (TestCase, RunError), t: TestCase, o: Outcome)
    ensures Had(runs + [r], t, o) <==> Had(runs, t, o) || (r.0 == t && OutcomeOf(r.1) == o)
  {
    var more := runs + [r];
    if Had(runs, t, o) {
      var i :| 0 <= i < |runs| && runs[i].0 == t && OutcomeOf(runs[i].1) == o;
      assert more[i] == runs[i];
    }
    assert more[|runs|] == r;
  }

  method RunAll(tests: seq<TestCase>, runs: Runs)
    requires forall t :: t in tests ==> t.Unrun()
    requires forall i :: 0 <= i < |runs| ==> runs[i].0 in tests
    modifies tests
    ensures Agrees(tests, runs)
    ensures forall t :: t in tests ==> t.previous == old(t.previous)
  {
    for i := 0 to |runs|
      invariant Agrees(tests, runs[..i])
      invariant forall t :: t in tests ==> t.previous == old(t.previous)
    {
      runs[i].0.Run(runs[i].1);
      assert runs[..i + 1] == runs[..i] + [runs[i]];
      forall t, o | t in tests
        ensures Had(runs[..i + 1], t, o) <==> Had(runs[..i], t, o) || (runs[i].0 == t && OutcomeOf(runs[i].1) == o)
      {
        HadNext(runs[..i], runs[i], t, o);
      }
    }
    assert runs[..|runs|] == runs;
  }

  /** A success hides every other outcome of the test, and a failure hides a skip. */
  ghost predicate CountsAs(runs: Runs, t: TestCase, o: Outcome) {
    match o
    case Passed => Had(runs, t, Passed)
    case Failed => Had(runs, t, Failed) && !Had(runs, t, Passed)
    case Skipped => Had(runs, t, Skipped) && !Had(runs, t, Failed) && !Had(runs, t, Passed)
  }

  /** The occurrences of tests in the list that count as `o`, in list order. */
  ghost function Counted(tests: seq<TestCase>, runs: Runs, o: Outcome): seq<TestCase>
  {
    if tests == [] then [] else
    var n := |tests| - 1;
    Counted(tests[..n], runs, o) + if CountsAs(runs, tests[n], o) then [tests[n]] else []
  }

  method SummarizeTests(tests: seq<TestCase>, ghost runs: Runs)
    returns (pass: nat, fail: nat, skip: nat, failingTests: seq<TestCase>)
    requires Agrees(tests, runs)
    ensures failingTests == Counted(tests, runs, Failed) && fail == |failingTests|
    ensures pass == |Counted(tests, runs, Passed)| && skip == |Counted(tests, runs, Skipped)|
  {
    pass, fail, skip, failingTests := 0, 0, 0, [];
    for i := 0 to |tests|
      invariant failingTests == Counted(tests[..i], runs, Failed) && fail == |failingTests|
      invariant pass == |Counted(tests[..i], runs, Passed)| && skip == |Counted(tests[..i], runs, Skipped)|
    {
      var t := tests[i];
      assert tests[..i + 1][..i] == tests[..i];
      if t.success {
        pass := pass + 1;
      } else if t.failed {
        fail := fail + 1;
        failingTests := failingTests + [t];
      } else if t.skipped {
        skip := skip + 1;
      }
    }
    assert tests[..|tests|] == tests;
  }

  /** A call failed, by its exit status, of a test none of whose calls succeeded. */
  ghost predicate SomeOnlyFailed(runs: Runs) {
    exists i :: 0 <= i < |runs| && runs[i].1 != NoError && runs[i].1 != Exit(3)
      && forall j :: 0 <= j < |runs| && runs[j].0 == runs[i].0 ==> runs[j].1 != NoError
  }

  lemma FailingIff(tests: seq<TestCase>, runs: Runs)
    requires forall i :: 0 <= i < |runs| ==> runs[i].0 in tests
    ensures Counted(tests, runs, Failed) != [] <==> SomeOnlyFailed(runs)
  {
    var failing := Counted(tests, runs, Failed);
    if failing != [] {
      var t := failing[0];
      CountedIff(tests, runs, Failed, t);
      var i :| 0 <= i < |runs| && runs[i].0 == t && OutcomeOf(runs[i].1) == Failed;
      assert forall j :: 0 <= j < |runs| && runs[j].0 == t ==> OutcomeOf(runs[j].1) != Passed;
    }
    if SomeOnlyFailed(runs) {
      var i :| 0 <= i < |runs| && runs[i].1 != NoError && runs[i].1 != Exit(3)
        && forall j :: 0 <= j < |runs| && runs[j].0 == runs[i].0 ==> runs[j].1 != NoError;
      assert Had(runs, runs[i].0, Failed);
      CountedIff(tests, runs, Failed, runs[i].0);
    }
  }

  // ---- retries ----

  /** The calls that returned for the copies made for a retry, by the position of the copy. */
  type RetryRuns = seq<(nat, RunError)>

  ghost predicate Recovered(retryRuns: RetryRuns, i: nat) {
    exists k :: 0 <= k < |retryRuns| && retryRuns[k].0 == i && OutcomeOf(retryRuns[k].1) == Passed
  }

  /** The names of the tests whose retry did, or did not, succeed. */
  ghost function RetryNames(tests: seq<TestCase>, retryRuns: RetryRuns, recovered: bool): seq<string> {
    if tests == [] then [] else
    var n := |tests| - 1;
    RetryNames(tests[..n], retryRuns, recovered)
      + if Recovered(retryRuns, n) == recovered then [tests[n].test.name] else []
  }

  function Names(tests: seq<TestCase>): seq<string> {
    seq(|tests|, i requires 0 <= i < |tests| => tests[i].test.name)
  }

  datatype Result = Success | ContextError | Failures(fail: nat, pass: nat, skip: nat)

  /** Copies of the failing tests, run again. */
  method RetryAll(failing: seq<TestCase>, maximumAllowedFlakes: int, retryRuns: RetryRuns)
    returns (retries: seq<TestCase>)
    requires 0 < |failing| <= maximumAllowedFlakes
    requires forall k :: 0 <= k < |retryRuns| ==> retryRuns[k].0 < |failing|
    ensures |retries| == |failing| && fresh(retries)
    ensures forall i :: 0 <= i < |retries| ==> retries[i].test == failing[i].test && retries[i].previous == failing[i]
    ensures forall i :: 0 <= i < |retries| ==> retries[i].success == Recovered(retryRuns, i)
  {
    retries := [];
    for i := 0 to |failing|
      invariant |retries| == i && fresh(retries)
      invariant forall k :: 0 <= k < i ==> retries[k].test == failing[k].test && retries[k].previous == failing[k]
      invariant forall k :: 0 <= k < i ==> retries[k].Unrun()
      invariant forall k, l :: 0 <= k < l < i ==> retries[k] != retries[l]
    {
      var copied := failing[i].Retry();
      retries := retries + [copied];
      if |retries| > maximumAllowedFlakes {
        break;
      }
    }
    var runs := seq(|retryRuns|, k requires 0 <= k < |retryRuns| => (retries[retryRuns[k].0], retryRuns[k].1));
    RunAll(retries, runs);
    forall i | 0 <= i < |retries| ensures Had(runs, retries[i], Passed) == Recovered(retryRuns, i) {
      RecoveredIsHad(retries, retryRuns, runs, i);
    }
  }

  lemma RecoveredIsHad(retries: seq<TestCase>, retryRuns: RetryRuns, runs: Runs, i: nat)
    requires i < |retries| && forall k, l :: 0 <= k < l < |retries| ==> retries[k] != retries[l]
    requires |runs| == |retryRuns|
    requires forall k :: 0 <= k < |runs| ==>
      retryRuns[k].0 < |retries| && runs[k] == (retries[retryRuns[k].0], retryRuns[k].1)
    ensures Had(runs, retries[i], Passed) == Recovered(retryRuns, i)
  {
  }

  lemma NextRetryName(failing: seq<TestCase>, retryRuns: RetryRuns, i: nat, recovered: bool)
    requires i < |failing|
    ensures RetryNames(failing[..i + 1], retryRuns, recovered)
      == RetryNames(failing[..i], retryRuns, recovered)
         + if Recovered(retryRuns, i) == recovered then [failing[i].test.name] else []
  {
    assert failing[..i + 1][..i] == failing[..i];
  }

  lemma NamesNext(tests: seq<TestCase>, t: TestCase)
    ensures Names(tests + [t]) == Names(tests) + [t.test.name]
  {
  }

  /** Tells the copies that succeeded from those that did not. */
  method Sift(failing: seq<TestCase>, retries: seq<TestCase>, ghost retryRuns: RetryRuns)
    returns (flaky: seq<string>, repeatFailures: seq<TestCase>)
    requires |retries| == |failing|
    requires forall i :: 0 <= i < |retries| ==> retries[i].test == failing[i].test
    requires forall i :: 0 <= i < |retries| ==> retries[i].success == Recovered(retryRuns, i)
    ensures flaky == RetryNames(failing, retryRuns, true)
    ensures Names(repeatFailures) == RetryNames(failing, retryRuns, false)
    ensures flaky == [] ==> Names(repeatFailures) == Names(failing)
    ensures repeatFailures == [] <==> forall i :: 0 <= i < |failing| ==> Recovered(retryRuns, i)
  {
    assert RetryNames(failing[..0], retryRuns, true) == RetryNames(failing[..0], retryRuns, false) == [];
    assert Names(failing[..0]) == Names([]) == [];
    hide Recovered, RetryNames, Names;
    flaky, repeatFailures := [], [];
    for i := 0 to |retries|
      invariant flaky == RetryNames(failing[..i], retryRuns, true)
      invariant Names(repeatFailures) == RetryNames(failing[..i], retryRuns, false)
      invariant flaky == [] ==> Names(repeatFailures) == Names(failing[..i])
      invariant repeatFailures == [] <==> forall k :: 0 <= k < i ==> Recovered(retryRuns, k)
    {
      NextRetryName(failing, retryRuns, i, true);
      NextRetryName(failing, retryRuns, i, false);
      NamesNext(repeatFailures, retries[i]);
      if retries[i].success {
        flaky := flaky + [retries[i].test.name];
      } else {
        repeatFailures := repeatFailures + [retries[i]];
      }
    }
    assert failing[..|failing|] == failing;
  }

  /**
   The suite, from its runs to its result. `runs` are the calls that returned, smoke tests and the others;
   `retryRuns` those of the retry, if there is one; `cancelled` is the state of the context at the end.
   */
  method SuiteVerdict(tests: seq<TestCase>, runs: Runs, maximumAllowedFlakes: int, retryRuns: RetryRuns,
                      cancelled: bool)
    returns (result: Result, flaky: seq<string>, listed: seq<string>)
    requires forall t :: t in tests ==> t.Unrun()
    requires forall i :: 0 <= i < |runs| ==> runs[i].0 in tests
    requires forall k :: 0 <= k < |retryRuns| ==> retryRuns[k].0 < |Counted(tests, runs, Failed)|
    modifies tests
    ensures Agrees(tests, runs)
    ensures var failing := Counted(tests, runs, Failed);
      var retried := 0 < |failing| <= maximumAllowedFlakes;
      && listed == (if retried then RetryNames(failing, retryRuns, false) else Names(failing))
      && flaky == (if retried then RetryNames(failing, retryRuns, true) else [])
      && result ==
         (if |failing| == 0 || (retried && forall i :: 0 <= i < |failing| ==> Recovered(retryRuns, i))
          then if cancelled then ContextError else Success
          else Failures(|failing|, |Counted(tests, runs, Passed)|, |Counted(tests, runs, Skipped)|))
    ensures maximumAllowedFlakes <= 0 ==> (result.Failures? <==> SomeOnlyFailed(runs))
  {
    hide Recovered, Counted, Agrees, RetryNames;
    RunAll(tests, runs);
    FailingIff(tests, runs);
    hide SomeOnlyFailed;
    var pass, fail, skip, failing := SummarizeTests(tests, runs);
    flaky := [];
    if fail > 0 && fail <= maximumAllowedFlakes {
      var retries := RetryAll(failing, maximumAllowedFlakes, retryRuns);
      var repeatFailures;
      flaky, repeatFailures := Sift(failing, retries, retryRuns);
      if |flaky| > 0 {
        failing := repeatFailures;
      }
    }
    listed := Names(failing);
    if fail > 0 {
      if |failing| > 0 || maximumAllowedFlakes == 0 {
        return Failures(fail, pass, skip), flaky, listed;
      }
    }
    result := if cancelled then ContextError else Success;
  }

  // ---- what the verdict means ----

  lemma LastCounted(tests: seq<TestCase>, runs: Runs, o: Outcome)
    requires tests != []
    ensures var n := |tests| - 1;
      Counted(tests, runs, o) == Counted(tests[..n], runs, o) + if CountsAs(runs, tests[n], o) then [tests[n]] else []
  {
  }

  /** A test is counted once per occurrence in the list, or not at all. */
  lemma {:induction false} CountedPerOccurrence(tests: seq<TestCase>, runs: Runs, o: Outcome, t: TestCase)
    ensures multiset(Counted(tests, runs, o))[t] == if CountsAs(runs, t, o) then multiset(tests)[t] else 0
  {
    hide CountsAs;
    if tests != [] {
      var n := |tests| - 1;
      CountedPerOccurrence(tests[..n], runs, o, t);
      LastCounted(tests, runs, o);
      hide Counted;
      assert tests == tests[..n] + [tests[n]];
    }
  }

  /** By exit status: one success makes a pass, and only skips make a skip. */
  lemma CountedByStatus(tests: seq<TestCase>, runs: Runs, t: TestCase)
    ensures t in Counted(tests, runs, Passed) <==>
      t in tests && exists i :: 0 <= i < |runs| && runs[i].0 == t && runs[i].1 == NoError
    ensures t in Counted(tests, runs, Skipped) <==>
      t in tests && Ran(runs, t) && forall i :: 0 <= i < |runs| && runs[i].0 == t ==> runs[i].1 == Exit(3)
  {
    CountedIff(tests, runs, Passed, t);
    CountedIff(tests, runs, Skipped, t);
    hide Counted;
    PassedOrSkipped(runs, t);
  }

  lemma PassedOrSkipped(runs: Runs, t: TestCase)
    ensures CountsAs(runs, t, Passed) <==> exists i :: 0 <= i < |runs| && runs[i].0 == t && runs[i].1 == NoError
    ensures CountsAs(runs, t, Skipped) <==>
      Ran(runs, t) && forall i :: 0 <= i < |runs| && runs[i].0 == t ==> runs[i].1 == Exit(3)
  {
    assert forall i :: 0 <= i < |runs| && runs[i].0 == t ==> Had(runs, t, OutcomeOf(runs[i].1));
  }

  /** Counted tests stay in the order of the list. */
  lemma {:induction false} CountedInOrder(a: seq<TestCase>, b: seq<TestCase>, runs: Runs, o: Outcome)
    ensures Counted(a + b, runs, o) == Counted(a, runs, o) + Counted(b, runs, o)
  {
    hide CountsAs;
    if b == [] {
      assert a + b == a;
    } else {
      var n := |b| - 1;
      assert (a + b)[..|a + b| - 1] == a + b[..n];
      CountedInOrder(a, b[..n], runs, o);
    }
  }

  ghost predicate Ran(runs: Runs, t: TestCase) {
    exists i :: 0 <= i < |runs| && runs[i].0 == t
  }

  /** No occurrence is counted twice, and none is left out exactly if every test has run. */
  lemma {:induction false} CountsAddUp(tests: seq<TestCase>, runs: Runs)
    ensures |Counted(tests, runs, Passed)| + |Counted(tests, runs, Failed)| + |Counted(tests, runs, Skipped)| <= |tests|
    ensures |Counted(tests, runs, Passed)| + |Counted(tests, runs, Failed)| + |Counted(tests, runs, Skipped)| == |tests|
      <==> forall k :: 0 <= k < |tests| ==> Ran(runs, tests[k])
  {
    if tests != [] {
      var n := |tests| - 1;
      CountsAddUp(tests[..n], runs);
      hide Had, Ran;
      assert (forall k :: 0 <= k < |tests| ==> Ran(runs, tests[k]))
        <==> (forall k :: 0 <= k < n ==> Ran(runs, tests[..n][k])) && Ran(runs, tests[n]);
    }
  }

  /** Workers finish in any order: the counts and the failing tests depend only on which calls returned. */
  lemma {:induction false} OrderIsIrrelevant(tests: seq<TestCase>, runs: Runs, other: Runs, o: Outcome)
    requires multiset(runs) == multiset(other)
    ensures Counted(tests, runs, o) == Counted(tests, other, o)
  {
    if tests != [] {
      var n := |tests| - 1;
      OrderIsIrrelevant(tests[..n], runs, other, o);
      HadMoves(runs, other, tests[n]);
      HadMoves(other, runs, tests[n]);
      hide Had;
    }
  }

  lemma HadMoves(runs: Runs, other: Runs, t: TestCase)
    requires multiset(runs) == multiset(other)
    ensures forall o :: Had(runs, t, o) ==> Had(other, t, o)
  {
    forall o | Had(runs, t, o) ensures Had(other, t, o) {
      var i :| 0 <= i < |runs| && runs[i].0 == t && OutcomeOf(runs[i].1) == o;
      assert runs[i] in multiset(other);
      assert runs[i] in other;
    }
  }

  /**
   Flags are never cleared, so a failed run makes its test count as failing only if no run of that test
   succeeded.
   */
  lemma FailureShowsIff(tests: seq<TestCase>, runs: Runs, i: nat)
    requires i < |runs| && runs[i].0 in tests && OutcomeOf(runs[i].1) == Failed
    ensures runs[i].0 in Counted(tests, runs, Failed) <==> !Had(runs, runs[i].0, Passed)
  {
    assert Had(runs, runs[i].0, Failed);
    CountedIff(tests, runs, Failed, runs[i].0);
  }

  lemma CountedIff(tests: seq<TestCase>, runs: Runs, o: Outcome, t: TestCase)
    ensures t in Counted(tests, runs, o) <==> t in tests && CountsAs(runs, t, o)
  {
    CountedPerOccurrence(tests, runs, o, t);
    hide Counted, CountsAs;
    assert t in tests <==> t in multiset(tests);
    assert t in Counted(tests, runs, o) <==> t in multiset(Counted(tests, runs, o));
  }

  /** If every test runs at most once, the failing tests are those whose run failed. */
  lemma OnceMeansExact(tests: seq<TestCase>, runs: Runs, t: TestCase)
    requires t in tests && forall i, j :: 0 <= i < j < |runs| ==> runs[i].0 != runs[j].0
    ensures t in Counted(tests, runs, Failed) <==> Had(runs, t, Failed)
  {
    CountedIff(tests, runs, Failed, t);
  }

  // ---- when a failure can go unnoticed ----

  function TestsOf(tests: seq<TestCase>): seq<Test> {
    seq(|tests|, i requires 0 <= i < |tests| => tests[i].test)
  }

  function Callees(runs: Runs): seq<TestCase> {
    seq(|runs|, i requires 0 <= i < |runs| => runs[i].0)
  }

  /** The calls that returned are those of a full run: one per occurrence of a test in the list. */
  ghost predicate FullRun(tests: seq<TestCase>, runs: Runs) {
    multiset(Callees(runs)) == multiset(tests)
  }

  /** Call `i` failed, and its test is not among the failing ones. */
  ghost predicate Unnoticed(tests: seq<TestCase>, runs: Runs, i: nat) {
    i < |runs| && OutcomeOf(runs[i].1) == Failed && runs[i].0 !in Counted(tests, runs, Failed)
  }

  ghost predicate Twice(tests: seq<TestCase>) {
    exists k, l :: 0 <= k < l < |tests| && tests[k] == tests[l]
  }

  /** Every test succeeds, but for the call at one position. */
  function OneFails(tests: seq<TestCase>, k: nat): Runs {
    seq(|tests|, m requires 0 <= m < |tests| => (tests[m], if m == k then Exit(1) else NoError))
  }

  lemma FailsUnnoticed(tests: seq<TestCase>, k: nat, l: nat)
    requires k < l < |tests| && tests[k] == tests[l]
    ensures FullRun(tests, OneFails(tests, k)) && Unnoticed(tests, OneFails(tests, k), k)
  {
    var runs := OneFails(tests, k);
    assert Callees(runs) == tests;
    assert runs[l].0 == tests[k] && OutcomeOf(runs[l].1) == Passed;
    assert Had(runs, tests[k], Passed);
    FailureShowsIff(tests, runs, k);
  }

  lemma UnnoticedIsTwice(tests: seq<TestCase>, runs: Runs, i: nat)
    requires FullRun(tests, runs) && Unnoticed(tests, runs, i)
    ensures Twice(tests)
  {
    var t := runs[i].0;
    assert Callees(runs)[i] == t && t in multiset(Callees(runs));
    FailureShowsIff(tests, runs, i);
    var j :| 0 <= j < |runs| && runs[j].0 == t && OutcomeOf(runs[j].1) == Passed;
    assert Callees(runs)[j] == t;
    hide Counted, Had;
    TwoPlaces(Callees(runs), if i < j then i else j, if i < j then j else i);
    CountedTwice(tests, t);
  }

  /** Among full runs of a list some failure can go unnoticed exactly if a test case stands in the list twice. */
  lemma CanGoUnnoticedIff(tests: seq<TestCase>)
    ensures (exists runs, i :: FullRun(tests, runs) && Unnoticed(tests, runs, i)) <==> Twice(tests)
  {
    hide FullRun, Unnoticed;
    if Twice(tests) {
      var k, l :| 0 <= k < l < |tests| && tests[k] == tests[l];
      FailsUnnoticed(tests, k, l);
    }
    if runs, i :| FullRun(tests, runs) && Unnoticed(tests, runs, i) {
      UnnoticedIsTwice(tests, runs, i);
    }
  }

  /** For a suite of distinct test cases that is the case exactly if it is run more than once. */
  lemma CountHidesFailuresIff(tests: seq<TestCase>, count: nat)
    requires tests != [] && !Twice(tests)
    ensures var list := if count > 1 then Phases.Times(tests, count) else tests;
      (exists runs, i :: FullRun(list, runs) && Unnoticed(list, runs, i)) <==> count > 1
  {
    hide FullRun, Unnoticed;
    var list := if count > 1 then Phases.Times(tests, count) else tests;
    CanGoUnnoticedIff(list);
    if count > 1 {
      Phases.TimesCounts(tests, count, tests[0]);
      assert tests[0] in multiset(tests);
      CountedTwice(list, tests[0]);
    }
  }

  /** A name is among the repeated failures iff some copy of a test of that name did not succeed. */
  lemma {:induction false} RetryNamesExactly(tests: seq<TestCase>, retryRuns: RetryRuns, recovered: bool, name: string)
    ensures name in RetryNames(tests, retryRuns, recovered) <==>
      exists i :: 0 <= i < |tests| && tests[i].test.name == name && Recovered(retryRuns, i) == recovered
  {
    hide Recovered;
    if tests != [] {
      RetryNamesExactly(tests[..|tests| - 1], retryRuns, recovered, name);
    }
  }

  lemma LastRetryName(tests: seq<TestCase>, retryRuns: RetryRuns)
    requires tests != []
    ensures var n := |tests| - 1; var name := tests[n].test.name;
      && Names(tests) == Names(tests[..n]) + [name]
      && (if Recovered(retryRuns, n) then
            && RetryNames(tests, retryRuns, true) == RetryNames(tests[..n], retryRuns, true) + [name]
            && RetryNames(tests, retryRuns, false) == RetryNames(tests[..n], retryRuns, false)
          else
            && RetryNames(tests, retryRuns, true) == RetryNames(tests[..n], retryRuns, true)
            && RetryNames(tests, retryRuns, false) == RetryNames(tests[..n], retryRuns, false) + [name])
  {
    hide Recovered;
    FrontNames(tests);
  }

  lemma FrontNames(tests: seq<TestCase>)
    requires tests != []
    ensures var n := |tests| - 1; Names(tests) == Names(tests[..n]) + [tests[n].test.name]
  {
  }

  /** No failing test is forgotten: each is reported as flaky or as failing. */
  lemma {:induction false} FlakyOrFailing(tests: seq<TestCase>, retryRuns: RetryRuns)
    ensures multiset(RetryNames(tests, retryRuns, true)) + multiset(RetryNames(tests, retryRuns, false))
      == multiset(Names(tests))
  {
    if tests != [] {
      hide *;
      var front, name := tests[..|tests| - 1], tests[|tests| - 1].test.name;
      FlakyOrFailing(front, retryRuns);
      LastRetryName(tests, retryRuns);
      if Recovered(retryRuns, |tests| - 1) {
        PartsGrow(RetryNames(front, retryRuns, true), RetryNames(front, retryRuns, false), Names(front), name);
      } else {
        PartsGrow(RetryNames(front, retryRuns, false), RetryNames(front, retryRuns, true), Names(front), name);
      }
    }
  }

  /**
   After an uncancelled run of the suite, whatever its schedule, pass, fail and skip add up to the number of
   tests: the calls that returned reach every test case.
   */
  lemma UncancelledSuiteAddsUp(atomic: bool, tests: seq<TestCase>, n: nat, es1: seq<Scheduler.Event>,
                               es2: seq<Scheduler.Event>, runs: Runs)
    requires n > 0
    requires forall k, l ::
      0 <= k < |tests| && 0 <= l < |tests| && tests[k].test == tests[l].test ==> tests[k] == tests[l]
    requires Phases.SuiteRun(atomic, TestsOf(tests), n, es1, es2)
    requires var end1 := Phases.SmokeEnd(atomic, TestsOf(tests), n, es1, es2);
      var end2 := Phases.SuiteEnd(atomic, TestsOf(tests), n, es1, es2);
      && end1.mode.Returned? && end2.mode.Returned? && !end1.cancelled && !end2.cancelled
      && multiset(TestsOf(Callees(runs))) == Scheduler.Ended(end1.log + end2.log)
    requires forall i :: 0 <= i < |runs| ==> runs[i].0 in tests
    ensures |Counted(tests, runs, Passed)| + |Counted(tests, runs, Failed)| + |Counted(tests, runs, Skipped)| == |tests|
  {
    Phases.SuiteRunsEverythingOnce(atomic, TestsOf(tests), n, es1, es2);
    CountsAddUp(tests, runs);
    hide Phases.SuiteRun, Counted;
    forall k | 0 <= k < |tests| ensures Ran(runs, tests[k]) {
      assert TestsOf(tests)[k] in multiset(TestsOf(tests));
      assert tests[k].test in TestsOf(Callees(runs));
      var i :| 0 <= i < |runs| && TestsOf(Callees(runs))[i] == tests[k].test;
      assert runs[i].0.test == tests[k].test;
    }
  }
}
