/** Exactly when a run of a whole suite can hang. */
module SuiteHang {
  import opened Tests
  import opened Sequences
  import opened QueueSpec
  import opened Scheduler
  import opened Safety
  import opened Termination
  import opened Hang
  import opened Phases

  // ---- an `Execute` that comes to its end ----

  /** From the join on, the main routine calls the serial tests and returns. */
  lemma {:induction false} SerialPart(s: State) returns (es: seq<Event>)
    requires s.mode.Sequential? && !s.mode.busy && s.mode.next <= |s.serial| && !s.cancelled
    ensures Legal(false, s, es) && Exec(false, s, es).mode.Returned? && !Exec(false, s, es).cancelled
    decreases |s.serial| - s.mode.next
  {
    if s.mode.next == |s.serial| {
      es := [Finish];
    } else {
      Then(s, [SerialStart], SerialEnd);
      var call := [SerialStart] + [SerialEnd];
      var rest := SerialPart(Exec(false, s, call));
      ExecConcat(false, s, call, rest);
      es := call + rest;
    }
  }

  /** One worker serves every test, all leave, and the main routine finishes. */
  lemma CanReturn(tests: seq<Test>, n: nat) returns (es: seq<Event>)
    requires n > 0
    ensures Legal(false, Init(tests, n), es)
    ensures Exec(false, Init(tests, n), es).mode.Returned? && !Exec(false, Init(tests, n), es).cancelled
  {
    hide Step, RemoveAt, KeyBag;
    var s := Init(tests, n);
    var drain := Drain(s, 0);
    var s1 := Exec(false, s, drain);
    var leave := LeaveAll(s1, 0, n);
    var s2 := Exec(false, s1, leave);
    ExecConcat(false, s, drain, leave);
    var rest := Closing(s2);
    ExecConcat(false, s, drain + leave, rest);
    es := drain + leave + rest;
  }

  lemma Closing(s: State) returns (es: seq<Event>)
    requires s.mode.Joining? && AllExited(s.workers) && !s.cancelled
    ensures Legal(false, s, es) && Exec(false, s, es).mode.Returned? && !Exec(false, s, es).cancelled
  {
    var s1 := Exec(false, s, [Join]);
    var rest := SerialPart(s1);
    ExecConcat(false, s, [Join], rest);
    es := [Join] + rest;
  }

  // ---- the suite ----

  function Smoke(tests: seq<Test>): seq<Test> {
    Filter(tests, IsSmoke, true)
  }

  function Normal(tests: seq<Test>): seq<Test> {
    Filter(tests, IsSmoke, false)
  }

  function IsIn(failed: set<Test>): Test -> bool {
    (t: Test) => t in failed
  }

  /** The tests of the list that failed, every occurrence of them. */
  function Failing(tests: seq<Test>, failed: set<Test>): seq<Test> {
    Filter(tests, IsIn(failed), true)
  }

  /** The events of the three `Execute`s and the tests that failed in the first two. */
  datatype Course = Course(smoke: seq<Event>, normal: seq<Event>, failed: set<Test>, retry: seq<Event>)

  /** The calls of the first two `Execute`s. */
  ghost function Log(tests: seq<Test>, n: nat, c: Course): seq<Entry>
    requires SuiteRun(false, tests, n, c.smoke, c.normal)
  {
    SmokeEnd(false, tests, n, c.smoke, c.normal).log + SuiteEnd(false, tests, n, c.smoke, c.normal).log
  }

  /** Copies of the failing tests, with their keys, under the context the first two `Execute`s left. */
  ghost function RetryStart(tests: seq<Test>, n: nat, c: Course): State
    requires SuiteRun(false, tests, n, c.smoke, c.normal)
  {
    Init(Failing(tests, c.failed), n).(cancelled := SuiteEnd(false, tests, n, c.smoke, c.normal).cancelled)
  }

  /** There is a retry once both have returned, for at least one failing test and at most as many as `flakes`. */
  ghost predicate Retries(tests: seq<Test>, n: nat, flakes: int, c: Course)
    requires SuiteRun(false, tests, n, c.smoke, c.normal)
  {
    && SmokeEnd(false, tests, n, c.smoke, c.normal).mode.Returned?
    && SuiteEnd(false, tests, n, c.smoke, c.normal).mode.Returned?
    && 0 < |Failing(tests, c.failed)| <= flakes
    && forall t :: t in Failing(tests, c.failed) ==> t in Ended(Log(tests, n, c))
  }

  /** A run of the suite up to some moment: smoke tests, the others, and the retry. */
  ghost predicate WholeRun(tests: seq<Test>, n: nat, flakes: int, c: Course) {
    && SuiteRun(false, tests, n, c.smoke, c.normal)
    && (c.retry != [] ==> Retries(tests, n, flakes, c))
    && Legal(false, RetryStart(tests, n, c), c.retry)
  }

  /** One of the three `Execute`s hangs. */
  ghost predicate SuiteHangs(tests: seq<Test>, n: nat, flakes: int, c: Course) {
    && WholeRun(tests, n, flakes, c)
    && (|| Hung(SmokeEnd(false, tests, n, c.smoke, c.normal))
        || Hung(SuiteEnd(false, tests, n, c.smoke, c.normal))
        || Hung(Exec(false, RetryStart(tests, n, c), c.retry)))
  }

  lemma NothingYet(s: State)
    ensures Legal(false, s, []) && Exec(false, s, []) == s
  {
  }

  lemma HangsInSmoke(tests: seq<Test>, n: nat, flakes: int) returns (c: Course)
    requires n >= 2 && SharesKey(Smoke(tests))
    ensures SuiteHangs(tests, n, flakes, c)
  {
    hide Exec, Legal, Hung, SharesKey, Filter;
    var es := HangExists(Smoke(tests), n);
    c := Course(es, [], {}, []);
    NothingYet(SecondState(tests, n, Exec(false, FirstState(tests, n), es).cancelled));
    NothingYet(RetryStart(tests, n, c));
  }

  lemma HangsInNormal(tests: seq<Test>, n: nat, flakes: int) returns (c: Course)
    requires n >= 2 && SharesKey(Normal(tests))
    ensures SuiteHangs(tests, n, flakes, c)
  {
    hide Exec, Legal, Hung, SharesKey, Filter;
    var first := CanReturn(Smoke(tests), n);
    var es := HangExists(Normal(tests), n);
    assert SecondState(tests, n, false) == Init(Normal(tests), n);
    c := Course(first, es, {}, []);
    NothingYet(RetryStart(tests, n, c));
  }

  /** Two tests that share a key fail, one of them possibly a smoke test, and meet in the retry. */
  lemma HangsInRetry(tests: seq<Test>, n: nat, flakes: int, failed: set<Test>) returns (c: Course)
    requires n >= 2 && 0 < |Failing(tests, failed)| <= flakes && SharesKey(Failing(tests, failed))
    ensures SuiteHangs(tests, n, flakes, c)
  {
    hide Exec, Legal, Hung, SharesKey, Filter;
    var first := CanReturn(Smoke(tests), n);
    var second := CanReturn(Normal(tests), n);
    var es := HangExists(Failing(tests, failed), n);
    assert SecondState(tests, n, false) == Init(Normal(tests), n);
    c := Course(first, second, failed, es);
    assert RetryStart(tests, n, c) == Init(Failing(tests, failed), n);
    SuiteRunsEverythingOnce(false, tests, n, first, second);
    forall t | t in Failing(tests, failed) ensures t in Ended(Log(tests, n, c)) {
      FilterSound(tests, IsIn(failed), true, t);
      assert t in multiset(tests);
    }
  }

  /** A test that stands twice in a list with its key shares the key with itself. */
  lemma SharesWithItself(tests: seq<Test>, t: Test)
    requires multiset(tests)[t] >= 2 && t.exclusion != ""
    ensures SharesKey(tests)
  {
    CountedTwice(tests, t);
  }

  lemma TwiceInPart(tests: seq<Test>, t: Test)
    requires multiset(tests)[t] >= 2 && t.exclusion != ""
    ensures SharesKey(Smoke(tests)) || SharesKey(Normal(tests))
  {
    hide SharesKey, Filter;
    FilterCounts(tests, IsSmoke, IsSmoke(t), t);
    SharesWithItself(if IsSmoke(t) then Smoke(tests) else Normal(tests), t);
  }

  /** Two different tests that stand once each: the two may be all that fails. */
  lemma TwoFail(tests: seq<Test>, a: Test, b: Test)
    requires multiset(tests)[a] == 1 == multiset(tests)[b] && a != b && a.exclusion == b.exclusion != ""
    ensures |Failing(tests, {a, b})| == 2 && SharesKey(Failing(tests, {a, b}))
  {
    hide Filter;
    var failing := Failing(tests, {a, b});
    forall t ensures multiset(failing)[t] == multiset{a, b}[t] {
      FilterCounts(tests, IsIn({a, b}), true, t);
    }
    assert multiset(failing) == multiset{a, b};
    assert |failing| == |multiset(failing)| == 2;
    assert a in failing && b in failing;
    var i :| 0 <= i < 2 && failing[i] == a;
    var j :| 0 <= j < 2 && failing[j] == b;
    assert i < j || j < i;
  }

  lemma HangingSuite(tests: seq<Test>, n: nat, flakes: int) returns (c: Course)
    requires n >= 2
    requires SharesKey(Smoke(tests)) || SharesKey(Normal(tests)) || (flakes >= 2 && SharesKey(tests))
    ensures SuiteHangs(tests, n, flakes, c)
  {
    hide SuiteHangs, Filter;
    if SharesKey(Smoke(tests)) {
      c := HangsInSmoke(tests, n, flakes);
    } else if SharesKey(Normal(tests)) {
      c := HangsInNormal(tests, n, flakes);
    } else {
      var i, j :| 0 <= i < j < |tests| && tests[i].exclusion == tests[j].exclusion != "";
      var a, b := tests[i], tests[j];
      OnceEach(tests, i, j);
      TwoFail(tests, a, b);
      c := HangsInRetry(tests, n, flakes, {a, b});
    }
  }

  /** Two tests that share a key only across the parts are different and stand once each. */
  lemma OnceEach(tests: seq<Test>, i: nat, j: nat)
    requires i < j < |tests| && tests[i].exclusion == tests[j].exclusion != ""
    requires !SharesKey(Smoke(tests)) && !SharesKey(Normal(tests))
    ensures tests[i] != tests[j] && multiset(tests)[tests[i]] == 1 == multiset(tests)[tests[j]]
  {
    hide SharesKey, Filter;
    assert tests[i] in multiset(tests) && tests[j] in multiset(tests);
    if multiset(tests)[tests[i]] >= 2 {
      TwiceInPart(tests, tests[i]);
    }
    if multiset(tests)[tests[j]] >= 2 {
      TwiceInPart(tests, tests[j]);
    }
    if tests[i] == tests[j] {
      TwoPlaces(tests, i, j);
    }
  }

  /** A hang under a context that was cancelled or not before the start. */
  lemma HangNeedsSharedKey(tests: seq<Test>, n: nat, cancelled: bool, es: seq<Event>)
    requires Legal(false, Init(tests, n).(cancelled := cancelled), es)
    requires Hung(Exec(false, Init(tests, n).(cancelled := cancelled), es))
    ensures n >= 2 && SharesKey(tests)
  {
    hide Exec, Legal, Hung, SharesKey;
    var full := CancelledStart(false, tests, n, cancelled, es);
    CanHangIff(tests, n);
  }

  lemma {:induction false} FilterShares(tests: seq<Test>, fn: Test -> bool, want: bool)
    requires SharesKey(Filter(tests, fn, want))
    ensures SharesKey(tests) && |Filter(tests, fn, want)| >= 2
  {
    var n := |tests| - 1;
    var front, part := Filter(tests[..n], fn, want), Filter(tests, fn, want);
    var i, j :| 0 <= i < j < |part| && part[i].exclusion == part[j].exclusion != "";
    if j < |front| {
      assert front[i] == part[i] && front[j] == part[j];
      FilterShares(tests[..n], fn, want);
      var k, l :| 0 <= k < l < n && tests[..n][k].exclusion == tests[..n][l].exclusion != "";
      assert tests[k].exclusion == tests[l].exclusion != "";
    } else {
      FilterSound(tests[..n], fn, want, front[i]);
      var k :| 0 <= k < n && tests[..n][k] == front[i];
      assert tests[k].exclusion == tests[n].exclusion != "";
    }
  }

  lemma SuiteHangsOnSharedKey(tests: seq<Test>, n: nat, flakes: int, c: Course)
    requires SuiteHangs(tests, n, flakes, c)
    ensures n >= 2
    ensures SharesKey(Smoke(tests)) || SharesKey(Normal(tests)) || (flakes >= 2 && SharesKey(tests))
  {
    hide Exec, Legal, Hung, SharesKey, Filter;
    var s1 := SmokeEnd(false, tests, n, c.smoke, c.normal);
    if Hung(s1) {
      assert FirstState(tests, n) == Init(Smoke(tests), n).(cancelled := false);
      HangNeedsSharedKey(Smoke(tests), n, false, c.smoke);
    } else if Hung(SuiteEnd(false, tests, n, c.smoke, c.normal)) {
      HangNeedsSharedKey(Normal(tests), n, s1.cancelled, c.normal);
    } else {
      HangNeedsSharedKey(Failing(tests, c.failed), n, RetryStart(tests, n, c).cancelled, c.retry);
      FilterShares(tests, IsIn(c.failed), true);
      if c.retry == [] {
        NothingYet(RetryStart(tests, n, c));
        FreshIsNotHung(Failing(tests, c.failed), n, RetryStart(tests, n, c).cancelled);
      }
    }
  }

  lemma FreshIsNotHung(tests: seq<Test>, n: nat, cancelled: bool)
    ensures !Hung(Init(tests, n).(cancelled := cancelled))
  {
  }

  /**
   A suite can hang exactly if it has two workers or more, and two smoke tests share a key, or two others, or
   any two tests and both may fail without the retry being called off.
   */
  lemma SuiteCanHangIff(tests: seq<Test>, n: nat, flakes: int)
    ensures (exists c :: SuiteHangs(tests, n, flakes, c)) <==>
      n >= 2 && (SharesKey(Smoke(tests)) || SharesKey(Normal(tests)) || (flakes >= 2 && SharesKey(tests)))
  {
    hide SuiteHangs, SharesKey, Filter;
    if n >= 2 && (SharesKey(Smoke(tests)) || SharesKey(Normal(tests)) || (flakes >= 2 && SharesKey(tests))) {
      var c := HangingSuite(tests, n, flakes);
    }
    if c :| SuiteHangs(tests, n, flakes, c) {
      SuiteHangsOnSharedKey(tests, n, flakes, c);
    }
  }

  // ---- repetition ----

  ghost predicate Keyed(tests: seq<Test>) {
    exists i :: 0 <= i < |tests| && tests[i].exclusion != ""
  }

  /** Splitting a repeated list is repeating the parts. */
  lemma {:induction false} FilterTimes(tests: seq<Test>, count: nat, fn: Test -> bool, want: bool)
    ensures Filter(Times(tests, count), fn, want) == Times(Filter(tests, fn, want), count)
  {
    if count > 0 {
      FilterTimes(tests, count - 1, fn, want);
      FilterConcat(Times(tests, count - 1), tests, fn, want);
    }
  }

  /** In a repeated list a test shares its key with its own copy. */
  lemma SharedWithCopy(tests: seq<Test>, count: nat)
    requires count >= 2
    ensures SharesKey(Times(tests, count)) <==> Keyed(tests)
  {
    if i :| 0 <= i < |tests| && tests[i].exclusion != "" {
      var front := Times(tests, count - 2);
      var all := Times(tests, count);
      assert Times(tests, count - 1) == front + tests && all == Times(tests, count - 1) + tests;
      assert all[|front| + i] == all[|front| + |tests| + i] == tests[i];
    }
    if SharesKey(Times(tests, count)) {
      var i, j :| 0 <= i < j < |Times(tests, count)|
        && Times(tests, count)[i].exclusion == Times(tests, count)[j].exclusion != "";
      InOneCopy(tests, count, i);
    }
  }

  lemma {:induction false} InOneCopy(tests: seq<Test>, count: nat, i: nat)
    requires i < |Times(tests, count)|
    ensures Times(tests, count)[i] in tests
  {
    if i < |Times(tests, count - 1)| {
      InOneCopy(tests, count - 1, i);
    }
  }

  lemma {:induction false} KeyedParts(tests: seq<Test>)
    ensures Keyed(tests) <==> Keyed(Smoke(tests)) || Keyed(Normal(tests))
  {
    FilterPartitions(tests, IsSmoke);
    var a, b := Smoke(tests), Normal(tests);
    hide Filter, IsSmoke;
    KeyedBag(tests);
    KeyedBag(a);
    KeyedBag(b);
    assert multiset(a) + multiset(b) == multiset(tests);
  }

  lemma KeyedBag(tests: seq<Test>)
    ensures Keyed(tests) <==> exists t :: t in multiset(tests) && t.exclusion != ""
  {
    if i :| 0 <= i < |tests| && tests[i].exclusion != "" {
      assert tests[i] in multiset(tests);
    }
    if t :| t in multiset(tests) && t.exclusion != "" {
      assert t in tests;
    }
  }

  /** A suite run more than once can hang exactly if it has two workers or more and any test with a key. */
  lemma RepeatedSuiteCanHangIff(tests: seq<Test>, count: nat, n: nat, flakes: int)
    requires count >= 2
    ensures (exists c :: SuiteHangs(Times(tests, count), n, flakes, c)) <==> n >= 2 && Keyed(tests)
  {
    hide SuiteHangs, SharesKey, Keyed, Filter, Times, IsSmoke;
    SuiteCanHangIff(Times(tests, count), n, flakes);
    FilterTimes(tests, count, IsSmoke, true);
    FilterTimes(tests, count, IsSmoke, false);
    SharedWithCopy(Smoke(tests), count);
    SharedWithCopy(Normal(tests), count);
    SharedWithCopy(tests, count);
    KeyedParts(tests);
  }
}
