/** How a suite strings its tests together: repetition, the smoke/normal split, and two `Execute`s in a row. */
module Phases {
  import opened Tests
  import opened Scheduler
  import opened Safety
  import opened Execution

  /** The tests for which `fn` answers `want`, in order. */
  function Filter(tests: seq<Test>, fn: Test -> bool, want: bool): seq<Test> {
    if tests == [] then [] else
    var last := tests[|tests| - 1];
    Filter(tests[..|tests| - 1], fn, want) + if fn(last) == want then [last] else []
  }

  /** Splits a list in one pass. */
  method SplitTests(tests: seq<Test>, fn: Test -> bool) returns (a: seq<Test>, b: seq<Test>)
    ensures a == Filter(tests, fn, true) && b == Filter(tests, fn, false)
    ensures multiset(a) + multiset(b) == multiset(tests)
  {
    a, b := [], [];
    for i := 0 to |tests|
      invariant a == Filter(tests[..i], fn, true) && b == Filter(tests[..i], fn, false)
    {
      assert tests[..i + 1][..i] == tests[..i];
      if fn(tests[i]) {
        a := a + [tests[i]];
      } else {
        b := b + [tests[i]];
      }
    }
    assert tests[..|tests|] == tests;
    FilterPartitions(tests, fn);
  }

  lemma FilterNext(tests: seq<Test>, fn: Test -> bool, want: bool)
    requires tests != []
    ensures var last := tests[|tests| - 1];
      Filter(tests, fn, want) == Filter(tests[..|tests| - 1], fn, want) + if fn(last) == want then [last] else []
  {
  }

  lemma {:induction false} FilterPartitions(tests: seq<Test>, fn: Test -> bool)
    ensures multiset(Filter(tests, fn, true)) + multiset(Filter(tests, fn, false)) == multiset(tests)
  {
    if tests != [] {
      var front, last := tests[..|tests| - 1], tests[|tests| - 1];
      FilterPartitions(front, fn);
      assert tests == front + [last];
      hide Filter;
      FilterNext(tests, fn, true);
      FilterNext(tests, fn, false);
    }
  }

  lemma {:induction false} FilterSound(tests: seq<Test>, fn: Test -> bool, want: bool, t: Test)
    requires t in Filter(tests, fn, want)
    ensures t in tests && fn(t) == want
  {
    var front := tests[..|tests| - 1];
    if t in Filter(front, fn, want) {
      FilterSound(front, fn, want, t);
    }
  }

  /** Both parts keep the order of the list. */
  lemma {:induction false} FilterConcat(a: seq<Test>, b: seq<Test>, fn: Test -> bool, want: bool)
    ensures Filter(a + b, fn, want) == Filter(a, fn, want) + Filter(b, fn, want)
  {
    if b == [] {
      assert a + b == a;
    } else {
      assert (a + b)[..|a + b| - 1] == a + b[..|b| - 1];
      FilterConcat(a, b[..|b| - 1], fn, want);
    }
  }

  lemma {:induction false} FilterCounts(tests: seq<Test>, fn: Test -> bool, want: bool, t: Test)
    ensures multiset(Filter(tests, fn, want))[t] == if fn(t) == want then multiset(tests)[t] else 0
  {
    if tests != [] {
      hide Filter;
      var n := |tests| - 1;
      FilterCounts(tests[..n], fn, want, t);
      FilterNext(tests, fn, want);
      FilterNothing(tests[..0], fn, want);
      assert tests == tests[..n] + [tests[n]];
    } else {
      FilterNothing(tests, fn, want);
    }
  }

  lemma FilterNothing(tests: seq<Test>, fn: Test -> bool, want: bool)
    requires tests == []
    ensures Filter(tests, fn, want) == []
  {
  }

  /** A count above one repeats the whole list that many times. */
  method Repeat(tests: seq<Test>, count: int) returns (r: seq<Test>)
    ensures r == if count > 1 then Times(tests, count) else tests
  {
    if count <= 1 {
      return tests;
    }
    r := [];
    for i := 0 to count
      invariant r == Times(tests, i)
    {
      r := r + tests;
    }
  }

  function Times<T>(tests: seq<T>, count: nat): seq<T> {
    if count == 0 then [] else Times(tests, count - 1) + tests
  }

  /** Repetition multiplies the number of occurrences of every test. */
  lemma {:induction false} TimesCounts<T>(tests: seq<T>, count: nat, t: T)
    ensures multiset(Times(tests, count))[t] == count * multiset(tests)[t]
  {
    if count > 0 {
      TimesCounts(tests, count - 1, t);
      assert (count - 1) * multiset(tests)[t] + multiset(tests)[t] == count * multiset(tests)[t];
    }
  }

  /** Repetition goes through the list in order, again and again. */
  lemma {:induction false} TimesAt<T>(tests: seq<T>, count: nat, k: nat, i: nat)
    requires k < count && i < |tests|
    ensures |Times(tests, k)| + i < |Times(tests, count)|
    ensures Times(tests, count)[|Times(tests, k)| + i] == tests[i] && |Times(tests, k)| == k * |tests|
  {
    TimesLength(tests, k);
    if k < count - 1 {
      TimesAt(tests, count - 1, k, i);
    }
  }

  lemma {:induction false} TimesLength<T>(tests: seq<T>, count: nat)
    ensures |Times(tests, count)| == count * |tests|
  {
    if count > 0 {
      TimesLength(tests, count - 1);
      assert (count - 1) * |tests| + |tests| == count * |tests|;
    }
  }

  function FirstState(tests: seq<Test>, n: nat): State {
    Init(Filter(tests, IsSmoke, true), n)
  }

  /** The second `Execute` runs under the same context, cancelled or not. */
  function SecondState(tests: seq<Test>, n: nat, cancelled: bool): State {
    Init(Filter(tests, IsSmoke, false), n).(cancelled := cancelled)
  }

  /** A run of the suite: a schedule of the smoke tests and, once that `Execute` returned, one of the others. */
  ghost predicate SuiteRun(atomic: bool, tests: seq<Test>, n: nat, es1: seq<Event>, es2: seq<Event>) {
    && Legal(atomic, FirstState(tests, n), es1)
    && var s1 := Exec(atomic, FirstState(tests, n), es1);
       && (es2 != [] ==> s1.mode.Returned?)
       && Legal(atomic, SecondState(tests, n, s1.cancelled), es2)
  }

  ghost function SmokeEnd(atomic: bool, tests: seq<Test>, n: nat, es1: seq<Event>, es2: seq<Event>): State
    requires SuiteRun(atomic, tests, n, es1, es2)
  {
    Exec(atomic, FirstState(tests, n), es1)
  }

  ghost function SuiteEnd(atomic: bool, tests: seq<Test>, n: nat, es1: seq<Event>, es2: seq<Event>): State
    requires SuiteRun(atomic, tests, n, es1, es2)
  {
    Exec(atomic, SecondState(tests, n, SmokeEnd(atomic, tests, n, es1, es2).cancelled), es2)
  }

  /** A start under a cancelled context is what a cancellation as first step leads to. */
  lemma CancelledStart(atomic: bool, tests: seq<Test>, n: nat, cancelled: bool, es: seq<Event>)
    returns (full: seq<Event>)
    requires Legal(atomic, Init(tests, n).(cancelled := cancelled), es)
    ensures Legal(atomic, Init(tests, n), full)
    ensures Exec(atomic, Init(tests, n), full) == Exec(atomic, Init(tests, n).(cancelled := cancelled), es)
  {
    full := if cancelled then [Cancel] + es else es;
    if cancelled {
      assert full[0] == Cancel && full[1..] == es;
      assert Step(atomic, Init(tests, n), Cancel) == Init(tests, n).(cancelled := true);
    } else {
      assert Init(tests, n).(cancelled := false) == Init(tests, n);
    }
  }

  lemma {:induction false} LoggedIsStarted(log: seq<Entry>, i: nat)
    requires i < |log|
    ensures log[i].t in Started(log) || log[i].t in Ended(log)
  {
    if i < |log| - 1 {
      LoggedIsStarted(log[..|log| - 1], i);
    }
  }

  /** Whatever an `Execute` calls is one of its tests. */
  lemma CallsOwnTests(atomic: bool, tests: seq<Test>, n: nat, es: seq<Event>, i: nat)
    requires Legal(atomic, Init(tests, n), es) && i < |Exec(atomic, Init(tests, n), es).log|
    ensures Exec(atomic, Init(tests, n), es).log[i].t in tests
  {
    Conservation(atomic, tests, n, es);
    LoggedIsStarted(Exec(atomic, Init(tests, n), es).log, i);
    assert forall t :: t in multiset(tests) ==> t in tests;
  }

  /**
   Over every run, cancelled or not: the calls of the first `Execute` are smoke tests, those of the second
   are not, and when the second makes its first call the first has returned with all its calls ended.
   */
  lemma SmokeComesFirst(atomic: bool, tests: seq<Test>, n: nat, es1: seq<Event>, es2: seq<Event>)
    requires SuiteRun(atomic, tests, n, es1, es2)
    ensures var log1 := SmokeEnd(atomic, tests, n, es1, es2).log;
            var log2 := SuiteEnd(atomic, tests, n, es1, es2).log;
      && (forall i :: 0 <= i < |log1| ==> IsSmoke(log1[i].t))
      && (forall i :: 0 <= i < |log2| ==> !IsSmoke(log2[i].t))
      && (log2 != [] ==> SmokeEnd(atomic, tests, n, es1, es2).mode.Returned? && Started(log1) == Ended(log1))
  {
    var smoke, normal := Filter(tests, IsSmoke, true), Filter(tests, IsSmoke, false);
    var s1 := SmokeEnd(atomic, tests, n, es1, es2);
    var s2 := SuiteEnd(atomic, tests, n, es1, es2);
    var full := CancelledStart(atomic, normal, n, s1.cancelled, es2);
    assert s1 == Exec(atomic, Init(smoke, n), es1) && s2 == Exec(atomic, Init(normal, n), full);
    hide Exec, Legal, Filter, IsSmoke, SmokeEnd, SuiteEnd;
    forall i | 0 <= i < |s1.log| ensures IsSmoke(s1.log[i].t) {
      CallsOwnTests(atomic, smoke, n, es1, i);
      FilterSound(tests, IsSmoke, true, s1.log[i].t);
    }
    forall i | 0 <= i < |s2.log| ensures !IsSmoke(s2.log[i].t) {
      CallsOwnTests(atomic, normal, n, full, i);
      FilterSound(tests, IsSmoke, false, s2.log[i].t);
    }
    if es2 != [] {
      AllCallsEnded(atomic, smoke, n, es1);
    }
  }

  /** Once an `Execute` returns, cancelled or not, no call is left running. */
  lemma AllCallsEnded(atomic: bool, tests: seq<Test>, n: nat, es: seq<Event>)
    requires Legal(atomic, Init(tests, n), es) && Exec(atomic, Init(tests, n), es).mode.Returned?
    ensures var log := Exec(atomic, Init(tests, n), es).log; Started(log) == Ended(log)
  {
    Always(atomic, tests, n, es);
    BagEmpty(Exec(atomic, Init(tests, n), es).workers, InCall);
  }

  /** An uncancelled run that returns calls every test of the suite once per occurrence. */
  lemma SuiteRunsEverythingOnce(atomic: bool, tests: seq<Test>, n: nat, es1: seq<Event>, es2: seq<Event>)
    requires n > 0 && SuiteRun(atomic, tests, n, es1, es2)
    requires SmokeEnd(atomic, tests, n, es1, es2).mode.Returned?
    requires SuiteEnd(atomic, tests, n, es1, es2).mode.Returned?
    requires !SmokeEnd(atomic, tests, n, es1, es2).cancelled && !SuiteEnd(atomic, tests, n, es1, es2).cancelled
    ensures var log := SmokeEnd(atomic, tests, n, es1, es2).log + SuiteEnd(atomic, tests, n, es1, es2).log;
      Started(log) == multiset(tests) && Ended(log) == multiset(tests)
  {
    var smoke, normal := Filter(tests, IsSmoke, true), Filter(tests, IsSmoke, false);
    assert SecondState(tests, n, false) == Init(normal, n);
    ExactlyOnce(atomic, smoke, n, es1);
    ExactlyOnce(atomic, normal, n, es2);
    LogConcat(SmokeEnd(atomic, tests, n, es1, es2).log, SuiteEnd(atomic, tests, n, es1, es2).log);
    FilterPartitions(tests, IsSmoke);
  }
}
