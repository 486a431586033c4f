/**
 The wakeup that gets lost: `cond.Wait` is not atomic with the blocked `pop` before it. This module decides
 for which inputs an `Execute` can hang.
 */
module Hang {
  import opened Tests
  import opened QueueSpec
  import opened Scheduler
  import opened Safety
  import opened Termination

  ghost function KeyOf(t: Test): multiset<string> {
    if t.exclusion == "" then multiset{} else multiset{t.exclusion}
  }

  /** The non-empty keys of a list of tests. */
  ghost function KeyBag(ring: seq<Test>): multiset<string> {
    if ring == [] then multiset{} else KeyOf(ring[0]) + KeyBag(ring[1..])
  }

  lemma {:induction false} KeyBagConcat(a: seq<Test>, b: seq<Test>)
    ensures KeyBag(a + b) == KeyBag(a) + KeyBag(b)
  {
    if a == [] {
      assert a + b == b;
    } else {
      assert (a + b)[1..] == a[1..] + b;
      KeyBagConcat(a[1..], b);
    }
  }

  lemma KeyBagRemove(ring: seq<Test>, k: nat)
    requires k < |ring|
    ensures KeyBag(RemoveAt(ring, k)) + KeyOf(ring[k]) == KeyBag(ring)
  {
    hide KeyBag, KeyOf, RemoveAt, Rest, Rotate;
    KeyBagRest(ring, k);
    RestLacksOne(ring, k);
    RemoveAtIsCyclicRemoval(ring, k);
    if |ring| > 1 {
      KeyBagRotate(Rest(ring, k), if k == 0 then |ring| - 2 else k - 1);
    } else {
      assert Rest(ring, k) == [] == RemoveAt(ring, k);
    }
  }

  lemma KeyBagRest(ring: seq<Test>, k: nat)
    requires k < |ring|
    ensures KeyBag(Rest(ring, k)) + KeyOf(ring[k]) == KeyBag(ring)
  {
    hide KeyBag, KeyOf;
    var front, behind := ring[..k], ring[k + 1..];
    KeyBagConcat(front, behind);
    KeyBagConcat(front, ring[k..]);
    KeyBagFirst(ring[k..]);
    assert ring == front + ring[k..] && ring[k..][1..] == behind;
  }

  lemma KeyBagFirst(ring: seq<Test>)
    requires ring != []
    ensures KeyBag(ring) == KeyOf(ring[0]) + KeyBag(ring[1..])
  {
  }

  lemma HasTests(ring: seq<Test>, k: string)
    requires KeyBag(ring)[k] > 0
    ensures ring != []
  {
  }

  lemma KeyBagRotate(s: seq<Test>, k: nat)
    requires k <= |s|
    ensures KeyBag(Rotate(s, k)) == KeyBag(s)
  {
    hide KeyBag;
    KeyBagConcat(s[k..], s[..k]);
    KeyBagConcat(s[..k], s[k..]);
    assert s == s[..k] + s[k..];
  }

  lemma {:induction false} KeyBagHas(ring: seq<Test>, i: nat)
    requires i < |ring| && ring[i].exclusion != ""
    ensures ring[i].exclusion in KeyBag(ring)
  {
    if i > 0 {
      KeyBagHas(ring[1..], i - 1);
    }
  }

  lemma {:induction false} KeyBagFind(ring: seq<Test>, k: string) returns (i: nat)
    requires k in KeyBag(ring)
    ensures i < |ring| && ring[i].exclusion == k != ""
  {
    if k in KeyOf(ring[0]) {
      i := 0;
    } else {
      i := KeyBagFind(ring[1..], k);
      i := i + 1;
    }
  }

  lemma {:induction false} SharedTwice(ring: seq<Test>, i: nat, j: nat)
    requires i < j < |ring| && ring[i].exclusion == ring[j].exclusion != ""
    ensures KeyBag(ring)[ring[i].exclusion] >= 2
  {
    if i == 0 {
      KeyBagHas(ring[1..], j - 1);
    } else {
      SharedTwice(ring[1..], i - 1, j - 1);
    }
  }

  lemma {:induction false} TwiceIsShared(ring: seq<Test>, k: string)
    requires KeyBag(ring)[k] >= 2
    ensures SharesKey(ring)
  {
    if k in KeyOf(ring[0]) {
      var j := KeyBagFind(ring[1..], k);
      assert ring[0].exclusion == ring[j + 1].exclusion != "";
    } else {
      TwiceIsShared(ring[1..], k);
      var i, j :| 0 <= i < j < |ring[1..]| && ring[1..][i].exclusion == ring[1..][j].exclusion != "";
      assert ring[i + 1].exclusion == ring[j + 1].exclusion != "";
    }
  }

  // ---- when nothing can block ----

  /** One worker alone, or no key that two tests have. */
  ghost predicate CannotBlock(tests: seq<Test>, n: nat) {
    n <= 1 || !SharesKey(tests)
  }

  ghost predicate Sleepless(ws: seq<Phase>) {
    forall w :: 0 <= w < |ws| ==> !ws[w].Parking? && !ws[w].Parked?
  }

  /** Keys are only moved from queued tests to workers and given up. */
  ghost predicate Roomy(tests: seq<Test>, s: State) {
    KeySum(s.q.ring, s.workers) <= KeyBag(tests)
  }

  ghost function KeySum(ring: seq<Test>, ws: seq<Phase>): multiset<string> {
    KeyBag(ring) + Bag(ws, HeldKey)
  }

  lemma NeverBlocked(tests: seq<Test>, n: nat, s: State, w: nat)
    requires CannotBlock(tests, n) && |s.workers| == n && Keys(s) && Roomy(tests, s)
    requires Enabled(s, Event.Pop(w))
    ensures !QueueSpec.Pop(s.q).1.Blocked?
  {
    hide Bag, KeyBag, RemoveAt, SharesKey;
    if QueueSpec.Pop(s.q).1.Blocked? {
      var k := s.q.ring[0].exclusion;
      assert k in s.q.active;
      assert k in multiset(s.q.active);
      var holder := HolderExists(s.workers, k);
      KeyBagHas(s.q.ring, 0);
      assert KeyBag(tests)[k] >= 2;
      TwiceIsShared(tests, k);
      assert false;
    }
  }

  lemma RoomyKept(tests: seq<Test>, s: State, e: Event)
    requires Roomy(tests, s) && Enabled(s, e)
    ensures Roomy(tests, Step(false, s, e))
  {
    hide KeySum, KeyBag, Bag, RemoveAt;
    match e
    case Pop(w) => RoomyPop(tests, s, w);
    case Park(w) => KeySumIdle(s.q.ring, s.workers, w, Parked);
    case Return(w) => KeySumIdle(s.q.ring, s.workers, w, Releasing(s.workers[w].t));
    case Done(w) => KeySumDone(s.q.ring, s.workers, w);
    case Close => KeySumClose(s.q.ring, s.workers);
    case _ =>
  }

  lemma RoomyPop(tests: seq<Test>, s: State, w: nat)
    requires Roomy(tests, s) && Enabled(s, Event.Pop(w))
    ensures Roomy(tests, Step(false, s, Event.Pop(w)))
  {
    hide KeySum, KeyBag, Bag, RemoveAt;
    var (q, outcome) := QueueSpec.Pop(s.q);
    match outcome
    case Empty => KeySumIdle(s.q.ring, s.workers, w, Exited);
    case Blocked => KeySumIdle(s.q.ring, s.workers, w, Parking);
    case Got(t) => KeySumPop(s.q.ring, FirstFree(s.q.ring, s.q.active), s.workers, w);
  }

  lemma KeySumIdle(ring: seq<Test>, ws: seq<Phase>, w: nat, p: Phase)
    requires w < |ws| && HeldKey(p) == HeldKey(ws[w])
    ensures KeySum(ring, ws[w := p]) == KeySum(ring, ws) == KeySum(ring, Wake(ws[w := p]))
  {
    Keeps(ws, w, p, HeldKey);
  }

  lemma KeySumPop(ring: seq<Test>, k: nat, ws: seq<Phase>, w: nat)
    requires k < |ring| && w < |ws| && ws[w].Ready?
    ensures KeySum(RemoveAt(ring, k), ws[w := Running(ring[k])]) == KeySum(ring, ws)
  {
    hide KeyBag, Bag, RemoveAt;
    KeyBagRemove(ring, k);
    Gains(ws, w, Running(ring[k]), HeldKey);
    assert HeldKey(Running(ring[k])) == KeyOf(ring[k]);
  }

  lemma KeySumDone(ring: seq<Test>, ws: seq<Phase>, w: nat)
    requires w < |ws|
    ensures KeySum(ring, Wake(ws[w := Ready])) <= KeySum(ring, ws)
  {
    hide KeyBag, Bag;
    Loses(ws, w, Ready, HeldKey);
  }

  lemma KeySumClose(ring: seq<Test>, ws: seq<Phase>)
    ensures KeySum([], Wake(ws)) <= KeySum(ring, ws)
  {
    BagWake(ws, HeldKey);
  }

  lemma SleeplessKept(s: State, e: Event)
    requires Sleepless(s.workers) && Enabled(s, e)
    requires e.Pop? ==> !QueueSpec.Pop(s.q).1.Blocked?
    ensures Sleepless(Step(false, s, e).workers)
  {
    hide RemoveAt, FirstFree;
  }

  lemma {:induction false} NobodySleeps(tests: seq<Test>, n: nat, s: State, es: seq<Event>)
    requires CannotBlock(tests, n) && Shape(n, s) && Keys(s) && Roomy(tests, s) && Sleepless(s.workers)
    requires Legal(false, s, es)
    ensures Sleepless(Exec(false, s, es).workers)
    decreases |es|
  {
    hide CannotBlock, Keys, Roomy, Sleepless, Step, Enabled;
    if es != [] {
      var e := es[0];
      if e.Pop? {
        NeverBlocked(tests, n, s, e.w);
      }
      SleeplessKept(s, e);
      ShapeKept(false, n, s, e);
      KeysKept(false, s, e);
      RoomyKept(tests, s, e);
      NobodySleeps(tests, n, Step(false, s, e), es[1..]);
    }
  }

  /** Without two tests that share a key, or with a single worker, no schedule hangs. */
  lemma NoHang(tests: seq<Test>, n: nat, es: seq<Event>)
    requires CannotBlock(tests, n) && Legal(false, Init(tests, n), es)
    ensures !Hung(Exec(false, Init(tests, n), es))
  {
    var s := Init(tests, n);
    StartsRoomy(tests, n);
    hide CannotBlock, Shape, Keys, Roomy, Legal, Exec;
    NobodySleeps(tests, n, s, es);
  }

  lemma StartsRoomy(tests: seq<Test>, n: nat)
    ensures var s := Init(tests, n); Shape(n, s) && Keys(s) && Roomy(tests, s) && Sleepless(s.workers)
  {
    hide Bag;
    InitHolds(false, tests, n);
    BagEmpty(Init(tests, n).workers, HeldKey);
    hide Keys, Shape, Books, Calls, LogShape, Lively;
  }

  // ---- a schedule that hangs ----

  /** Everything but the queue's ring and the bookkeeping of finished calls. */
  predicate SameControl(s: State, s': State) {
    s'.workers == s.workers && s'.q.active == s.q.active && s'.mode == s.mode
    && s'.cancelled == s.cancelled && s'.closed == s.closed
  }

  predicate NoneParked(ws: seq<Phase>) {
    forall w :: 0 <= w < |ws| ==> !ws[w].Parked?
  }

  lemma Then(s: State, es: seq<Event>, e: Event)
    requires Legal(false, s, es) && Enabled(Exec(false, s, es), e)
    ensures Legal(false, s, es + [e]) && Exec(false, s, es + [e]) == Step(false, Exec(false, s, es), e)
  {
    ExecConcat(false, s, es, [e]);
  }

  /** A worker takes the first free test. */
  lemma Take(s: State, w: nat) returns (s': State)
    requires Enabled(s, Event.Pop(w)) && FirstFree(s.q.ring, s.q.active) < |s.q.ring|
    ensures s' == Step(false, s, Event.Pop(w))
    ensures var k := FirstFree(s.q.ring, s.q.active); var t := s.q.ring[k];
      && SameControl(s.(workers := s.workers[w := Running(t)], q := s.q.(active := s.q.active + Key(t))), s')
      && s'.q.ring == RemoveAt(s.q.ring, k)
  {
    hide RemoveAt;
    s' := Step(false, s, Event.Pop(w));
  }

  /** A worker finishes the test it is running and gives back its key. */
  lemma GiveBack(s: State, w: nat) returns (s': State)
    requires Enabled(s, Return(w)) && NoneParked(s.workers)
    ensures Legal(false, s, [Return(w), Done(w)]) && s' == Exec(false, s, [Return(w), Done(w)])
    ensures var t := s.workers[w].t;
      && SameControl(s.(workers := s.workers[w := Ready], q := s.q.(active := s.q.active - {t.exclusion})), s')
      && s'.q.ring == s.q.ring
  {
    var mid := Step(false, s, Return(w));
    Then(s, [Return(w)], Done(w));
    assert [Return(w)] + [Done(w)] == [Return(w), Done(w)];
    s' := Step(false, mid, Done(w));
    assert mid.workers[w := Ready] == s.workers[w := Ready];
  }

  /** One worker serves one test from pop to done. */
  lemma ServeOne(s: State, w: nat) returns (es: seq<Event>)
    requires Enabled(s, Event.Pop(w)) && FirstFree(s.q.ring, s.q.active) < |s.q.ring|
    requires "" !in s.q.active && NoneParked(s.workers)
    ensures Legal(false, s, es) && SameControl(s, Exec(false, s, es))
    ensures Exec(false, s, es).q.ring == RemoveAt(s.q.ring, FirstFree(s.q.ring, s.q.active))
  {
    hide RemoveAt, Step;
    var s1 := Take(s, w);
    var s2 := GiveBack(s1, w);
    ExecConcat(false, s, [Event.Pop(w)], [Return(w), Done(w)]);
    es := [Event.Pop(w)] + [Return(w), Done(w)];
    assert s2.workers == s.workers;
    assert s2.q.active == s.q.active;
  }

  /** One worker serves tests until every queued test is blocked; the blocked ones stay queued. */
  lemma {:induction false} Drain(s: State, w: nat) returns (es: seq<Event>)
    requires Enabled(s, Event.Pop(w)) && "" !in s.q.active && NoneParked(s.workers)
    ensures Legal(false, s, es) && SameControl(s, Exec(false, s, es))
    ensures var ring := Exec(false, s, es).q.ring;
      && FirstFree(ring, s.q.active) == |ring|
      && forall k :: k in s.q.active ==> KeyBag(ring)[k] == KeyBag(s.q.ring)[k]
    decreases |s.q.ring|
  {
    hide RemoveAt, Step;
    var k := FirstFree(s.q.ring, s.q.active);
    if k == |s.q.ring| {
      es := [];
    } else {
      var first := ServeOne(s, w);
      var mid := Exec(false, s, first);
      RemoveAtIsCyclicRemoval(s.q.ring, k);
      KeyBagRemove(s.q.ring, k);
      var rest := Drain(mid, w);
      ExecConcat(false, s, first, rest);
      es := first + rest;
    }
  }

  predicate AllReady(ws: seq<Phase>) {
    forall w :: 0 <= w < |ws| ==> ws[w].Ready?
  }

  lemma FirstIsFree(ring: seq<Test>)
    ensures FirstFree(ring, {}) == 0
  {
  }

  /** A worker takes the first test and keeps it. */
  lemma HoldFirst(s: State, w: nat) returns (es: seq<Event>)
    requires w < |s.workers| && AllReady(s.workers) && s.q.active == {}
    requires s.q.ring != [] && s.q.ring[0].exclusion != ""
    ensures var t := s.q.ring[0];
      && Legal(false, s, es) && Exec(false, s, es).q.ring == RemoveAt(s.q.ring, 0)
      && SameControl(s.(workers := s.workers[w := Running(t)], q := s.q.(active := {t.exclusion})), Exec(false, s, es))
  {
    hide RemoveAt, Step, IsSerial;
    FirstIsFree(s.q.ring);
    var s' := Take(s, w);
    es := [Event.Pop(w)];
  }

  /** One worker serves tests until it holds a key that a queued test also has. */
  lemma {:induction false} HoldShared(s: State, w: nat, k: string) returns (es: seq<Event>, t: Test)
    requires w < |s.workers| && AllReady(s.workers) && s.q.active == {}
    requires KeyBag(s.q.ring)[k] >= 2
    ensures Legal(false, s, es) && t.exclusion != "" && t.exclusion in KeyBag(Exec(false, s, es).q.ring)
    ensures var held := s.(workers := s.workers[w := Running(t)], q := s.q.(active := {t.exclusion}));
      SameControl(held, Exec(false, s, es))
    decreases |s.q.ring|
  {
    hide RemoveAt, Step, KeyBag, IsSerial, FirstFree, Exec, Legal;
    FirstIsFree(s.q.ring);
    HasTests(s.q.ring, k);
    t := s.q.ring[0];
    KeyBagRemove(s.q.ring, 0);
    RemoveAtIsCyclicRemoval(s.q.ring, 0);
    if t.exclusion != "" && t.exclusion in KeyBag(RemoveAt(s.q.ring, 0)) {
      es := HoldFirst(s, w);
    } else {
      var first := ServeOne(s, w);
      var rest;
      rest, t := HoldShared(Exec(false, s, first), w, k);
      ExecConcat(false, s, first, rest);
      es := first + rest;
    }
  }

  /** The first `i` workers have left, but for one that is about to park, if there is one. */
  predicate ExitedBut(ws: seq<Phase>, i: nat, sleeper: nat) {
    && i <= |ws| && sleeper <= |ws| && (sleeper < |ws| ==> ws[sleeper].Parking?)
    && (forall w :: 0 <= w < i && w != sleeper ==> ws[w].Exited?)
    && (forall w :: i <= w < |ws| && w != sleeper ==> ws[w].Ready?)
  }

  /** With the queue empty, every worker but the one about to park leaves. */
  lemma {:induction false} LeaveAll(s: State, i: nat, sleeper: nat) returns (es: seq<Event>)
    requires s.q.ring == [] && ExitedBut(s.workers, i, sleeper)
    ensures Legal(false, s, es)
    ensures SameControl(s.(workers := Exec(false, s, es).workers), Exec(false, s, es))
    ensures ExitedBut(Exec(false, s, es).workers, |s.workers|, sleeper)
    ensures |Exec(false, s, es).workers| == |s.workers|
    decreases |s.workers| - i
  {
    if i == |s.workers| {
      es := [];
    } else if i == sleeper {
      es := LeaveAll(s, i + 1, sleeper);
    } else {
      var s' := Step(false, s, Event.Pop(i));
      assert s' == s.(workers := s.workers[i := Exited]);
      hide Step;
      var rest := LeaveAll(s', i + 1, sleeper);
      ExecConcat(false, s, [Event.Pop(i)], rest);
      es := [Event.Pop(i)] + rest;
    }
  }

  /** A worker finds every test blocked and is about to park. */
  lemma GetBlocked(s: State, w: nat)
    requires Enabled(s, Event.Pop(w)) && s.q.ring != [] && FirstFree(s.q.ring, s.q.active) == |s.q.ring|
    ensures Legal(false, s, [Event.Pop(w)])
    ensures Exec(false, s, [Event.Pop(w)]) == s.(workers := s.workers[w := Parking])
  {
    hide RemoveAt, FirstFree;
  }

  /** First half: worker 0 holds a key, worker 1 has been blocked by it and has not parked yet. */
  lemma BlockOne(tests: seq<Test>, n: nat) returns (es: seq<Event>, t: Test)
    requires n >= 2 && SharesKey(tests)
    ensures Legal(false, Init(tests, n), es)
    ensures var s := Init(tests, n);
      SameControl(s.(workers := s.workers[0 := Running(t)][1 := Parking], q := s.q.(active := {t.exclusion})),
                  Exec(false, s, es))
  {
    hide Step, RemoveAt, KeyBag, FirstFree, Exec, Legal;
    var i, j :| 0 <= i < j < |tests| && tests[i].exclusion == tests[j].exclusion != "";
    SharedTwice(tests, i, j);
    var s := Init(tests, n);
    var hold;
    hold, t := HoldShared(s, 0, tests[i].exclusion);
    var s1 := Exec(false, s, hold);
    var drain := Drain(s1, 1);
    var s2 := Exec(false, s1, drain);
    var _ := KeyBagFind(s2.q.ring, t.exclusion);
    GetBlocked(s2, 1);
    ExecConcat(false, s, hold, drain);
    ExecConcat(false, s, hold + drain, [Event.Pop(1)]);
    es := hold + drain + [Event.Pop(1)];
  }

  /** Everybody has left but worker 1, which has been blocked and not parked yet. */
  predicate OneToPark(s: State) {
    s.mode.Joining? && !s.cancelled && !s.closed && |s.workers| >= 2 && ExitedBut(s.workers, |s.workers|, 1)
  }

  /** Second half: everybody else finishes and leaves. */
  lemma OthersLeave(s: State, t: Test) returns (es: seq<Event>)
    requires |s.workers| >= 2 && s.workers[0] == Running(t) && s.workers[1].Parking? && s.q.active == {t.exclusion}
    requires forall w :: 2 <= w < |s.workers| ==> s.workers[w].Ready?
    requires s.mode.Joining? && !s.cancelled && !s.closed
    ensures Legal(false, s, es) && OneToPark(Exec(false, s, es))
  {
    hide Step, RemoveAt, KeyBag;
    var s1 := GiveBack(s, 0);
    var give := [Return(0), Done(0)];
    var drain := Drain(s1, 0);
    var s2 := Exec(false, s1, drain);
    assert s2.q.ring == [];
    var leave := LeaveAll(s2, 0, 1);
    ExecConcat(false, s, give, drain);
    ExecConcat(false, s, give + drain, leave);
    es := give + drain + leave;
  }

  lemma ReachOneToPark(tests: seq<Test>, n: nat) returns (es: seq<Event>)
    requires n >= 2 && SharesKey(tests)
    ensures Legal(false, Init(tests, n), es) && OneToPark(Exec(false, Init(tests, n), es))
  {
    hide Step, OneToPark;
    var s := Init(tests, n);
    var first, t := BlockOne(tests, n);
    var rest := OthersLeave(Exec(false, s, first), t);
    ExecConcat(false, s, first, rest);
    es := first + rest;
  }

  lemma HangExists(tests: seq<Test>, n: nat) returns (es: seq<Event>)
    requires n >= 2 && SharesKey(tests)
    ensures Legal(false, Init(tests, n), es)
    ensures Hung(Exec(false, Init(tests, n), es)) && !Exec(false, Init(tests, n), es).cancelled
  {
    var first := ReachOneToPark(tests, n);
    var s := Exec(false, Init(tests, n), first);
    Parks(s);
    hide Step, Hung, OneToPark;
    Then(Init(tests, n), first, Park(1));
    es := first + [Park(1)];
  }

  lemma Parks(s: State)
    requires OneToPark(s)
    ensures Enabled(s, Park(1)) && Hung(Step(false, s, Park(1))) && !Step(false, s, Park(1)).cancelled
  {
    assert Step(false, s, Park(1)).workers[1].Parked?;
  }

  /**
   Exactly when an `Execute` can hang: two workers or more, and two queued tests with one non-empty key.
   The hang needs no cancellation, and no cancellation elsewhere can cause it.
   */
  lemma CanHangIff(tests: seq<Test>, n: nat)
    ensures (exists es :: Legal(false, Init(tests, n), es) && Hung(Exec(false, Init(tests, n), es)))
            <==> n >= 2 && SharesKey(tests)
  {
    hide Hung, Exec, Legal, SharesKey;
    if n >= 2 && SharesKey(tests) {
      var es := HangExists(tests, n);
      assert Legal(false, Init(tests, n), es) && Hung(Exec(false, Init(tests, n), es));
    } else {
      forall es | Legal(false, Init(tests, n), es) ensures !Hung(Exec(false, Init(tests, n), es)) {
        NoHang(tests, n, es);
      }
    }
  }

  /** The same after a cancellation and a close, whose broadcast the last worker misses as well. */
  lemma ParksAfterClose(s: State)
    requires OneToPark(s)
    ensures Legal(false, s, [Cancel, Close, Park(1)])
    ensures var end := Exec(false, s, [Cancel, Close, Park(1)]); Hung(end) && end.cancelled
  {
    var s1 := Step(false, s, Cancel);
    var s2 := Step(false, s1, Close);
    WakeNobody(s.workers);
    assert s2.workers == s.workers;
    var s3 := Step(false, s2, Park(1));
    assert s3.workers[1].Parked?;
    assert [Cancel, Close, Park(1)][1..] == [Close, Park(1)] && [Close, Park(1)][1..] == [Park(1)];
    assert [Park(1)][1..] == [];
    hide Hung, Step, Enabled;
  }

  lemma WakeNobody(ws: seq<Phase>)
    requires NoneParked(ws)
    ensures Wake(ws) == ws
  {
  }

  /** A hang under a cancelled context is the end: no event is enabled any more. */
  lemma CancelledHangIsDead(s: State)
    requires Hung(s) && s.cancelled
    ensures forall e :: !Enabled(s, e)
  {
  }

  /** A cancellation does not rule the hang out: under the same condition there is one that nothing ever ends. */
  lemma CanHangForeverIff(tests: seq<Test>, n: nat)
    ensures (exists es :: Legal(false, Init(tests, n), es)
              && var s := Exec(false, Init(tests, n), es); Hung(s) && s.cancelled && forall e :: !Enabled(s, e))
            <==> n >= 2 && SharesKey(tests)
  {
    hide Hung, Exec, Legal, SharesKey, Enabled, OneToPark;
    var s := Init(tests, n);
    if n >= 2 && SharesKey(tests) {
      var first := ReachOneToPark(tests, n);
      var rest := [Cancel, Close, Park(1)];
      ParksAfterClose(Exec(false, s, first));
      ExecConcat(false, s, first, rest);
      CancelledHangIsDead(Exec(false, s, first + rest));
    } else {
      CanHangIff(tests, n);
    }
  }

  lemma HungSkips(tests: seq<Test>, n: nat, s: State)
    requires Inv(false, tests, n, s) && Hung(s) && !s.cancelled
    ensures s.q.ring == [] && !s.closed
    ensures Ended(s.log) + multiset(s.serial) == multiset(tests)
    ensures forall i :: 0 <= i < |s.log| ==> !IsSerial(s.log[i].t)
  {
    hide Bag, Ended, Started, Keys, IsSerial;
    BagEmpty(s.workers, Taken);
    assert s.q.ring == [];
    assert Pending(s) == s.serial;
  }

  /** In an uncancelled hang all parallel tests have run and no serial test has been called. */
  lemma HangSkipsSerialTests(tests: seq<Test>, n: nat, es: seq<Event>)
    requires Legal(false, Init(tests, n), es)
    ensures var s := Exec(false, Init(tests, n), es);
      Hung(s) && !s.cancelled ==>
        Ended(s.log) + multiset(s.serial) == multiset(tests) && forall i :: 0 <= i < |s.log| ==> !IsSerial(s.log[i].t)
  {
    hide *;
    Always(false, tests, n, es);
    var s := Exec(false, Init(tests, n), es);
    if Hung(s) && !s.cancelled {
      HungSkips(tests, n, s);
    }
  }

  // ---- after a hang ----

  /**
   What stays true after an uncancelled hang: nothing is queued or running, and until the close everybody
   is parked or gone; from then on the context is cancelled, so the main routine calls nothing.
   */
  ghost predicate Over(s: State) {
    && s.q.ring == [] && !Busy(s)
    && (forall w :: 0 <= w < |s.workers| ==>
          s.workers[w].Parked? || s.workers[w].Exited? || (s.closed && s.workers[w].Ready?))
    && (s.closed ==> s.cancelled && NoneParked(s.workers))
    && (!s.closed ==> s.mode.Joining? && SomeParked(s.workers))
  }

  lemma HungIsOver(s: State)
    requires Hung(s) && !s.cancelled && s.q.ring == [] && !s.closed
    ensures Over(s)
  {
  }

  lemma NeverHungOver(s: State)
    requires Over(s)
    ensures s.closed ==> !Hung(s)
    ensures s.mode.Returned? ==> s.closed && s.cancelled
  {
  }

  lemma StaysOver(s: State, e: Event)
    requires Over(s) && Enabled(s, e)
    ensures var s' := Step(false, s, e);
      && Over(s') && s'.log == s.log && s'.serial == s.serial
      && (s'.cancelled ==> s.cancelled || e == Cancel) && (s'.closed <==> s.closed || e == Close)
  {
    hide RemoveAt, FirstFree;
    if !s.closed && e == Cancel {
      assert s.workers == Step(false, s, e).workers;
    }
  }

  lemma {:induction false} RunsOver(s: State, more: seq<Event>)
    requires Over(s) && Legal(false, s, more)
    ensures var s' := Exec(false, s, more);
      && Over(s') && s'.log == s.log && s'.serial == s.serial
      && (s'.cancelled ==> s.cancelled || Cancel in more) && (s'.closed <==> s.closed || Close in more)
    decreases |more|
  {
    hide Over, Step, Enabled;
    if more != [] {
      StaysOver(s, more[0]);
      RunsOver(Step(false, s, more[0]), more[1..]);
    }
  }

  /**
   What an uncancelled hang costs, whatever happens afterwards: nothing is called any more, so no deferred
   serial test ever is, and `Execute` returns only if the context is cancelled and the canceller closes.
   The close ends the hang.
   */
  lemma HungForGood(tests: seq<Test>, n: nat, es: seq<Event>, more: seq<Event>)
    requires Legal(false, Init(tests, n), es)
    ensures var s := Exec(false, Init(tests, n), es);
      Hung(s) && !s.cancelled && Legal(false, s, more) ==>
        && Exec(false, s, more).log == s.log && Exec(false, s, more).serial == s.serial
        && (Exec(false, s, more).mode.Returned? ==> Cancel in more && Close in more)
        && (Close in more ==> !Hung(Exec(false, s, more)))
  {
    Always(false, tests, n, es);
    var s := Exec(false, Init(tests, n), es);
    hide *;
    if Hung(s) && !s.cancelled && Legal(false, s, more) {
      HungSkips(tests, n, s);
      HungIsOver(s);
      RunsOver(s, more);
      NeverHungOver(Exec(false, s, more));
    }
  }
}
