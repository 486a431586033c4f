/** Every schedule of an `Execute` ends, and what it ends in. */
module Termination {
  import opened Tests
  import opened QueueSpec
  import opened Scheduler
  import opened Safety

  /** Work left for a worker that no broadcast can give back. */
  function Burden(p: Phase): nat {
    match p
    case Running(_) => 6
    case Releasing(_) => 2
    case Exited => 0
    case _ => 1
  }

  /** How far a worker is from being parked; a broadcast resets it. */
  function Alertness(p: Phase): nat {
    match p
    case Ready => 2
    case Parking => 1
    case _ => 0
  }

  /** Falls on every step that is not a worker going to sleep. */
  ghost function Load(s: State): nat {
    6 * |s.q.ring| + Total(s.workers, Burden) + 3 * |Pending(s)| + ModeLoad(s.mode)
    + (if s.cancelled then 0 else 1) + (if s.closed then 0 else 1)
  }

  function ModeLoad(m: Mode): nat {
    match m
    case Joining => 3
    case Sequential(_, busy) => if busy then 1 else 2
    case Returned(_) => 0
  }

  ghost function Measure(s: State): nat {
    Load(s) * (2 * |s.workers| + 1) + Total(s.workers, Alertness)
  }

  /** Going to sleep: everything else lowers the load. */
  predicate FallsAsleep(s: State, e: Event) {
    e.Park? || (e.Pop? && QueueSpec.Pop(s.q).1.Blocked?)
  }

  lemma LoadFalls(atomic: bool, n: nat, s: State, e: Event)
    requires Shape(n, s) && Enabled(s, e) && !FallsAsleep(s, e)
    ensures Load(Step(atomic, s, e)) < Load(s)
  {
    hide Load, Step;
    match e
    case Pop(w) => LoadPop(atomic, s, w);
    case Return(w) => LoadReturn(atomic, n, s, w);
    case Done(w) => LoadDone(atomic, s, w);
    case Close => LoadClose(atomic, s);
    case _ => LoadMain(atomic, n, s, e);
  }

  lemma LoadPop(atomic: bool, s: State, w: nat)
    requires Enabled(s, Event.Pop(w)) && !FallsAsleep(s, Event.Pop(w))
    ensures Load(Step(atomic, s, Event.Pop(w))) < Load(s)
  {
    hide Total, RemoveAt;
    var (q, outcome) := QueueSpec.Pop(s.q);
    if outcome.Got? {
      RemoveAtIsCyclicRemoval(s.q.ring, FirstFree(s.q.ring, s.q.active));
      TotalUpdate(s.workers, w, Running(outcome.t), Burden);
    } else {
      TotalUpdate(s.workers, w, Exited, Burden);
      TotalWake(s.workers[w := Exited], Burden);
    }
  }

  lemma LoadReturn(atomic: bool, n: nat, s: State, w: nat)
    requires Shape(n, s) && Enabled(s, Return(w))
    ensures Load(Step(atomic, s, Return(w))) < Load(s)
  {
    hide Total;
    TotalUpdate(s.workers, w, Releasing(s.workers[w].t), Burden);
  }

  lemma LoadDone(atomic: bool, s: State, w: nat)
    requires Enabled(s, Done(w))
    ensures Load(Step(atomic, s, Done(w))) < Load(s)
  {
    hide Total;
    TotalUpdate(s.workers, w, Ready, Burden);
    TotalWake(s.workers[w := Ready], Burden);
  }

  lemma LoadClose(atomic: bool, s: State)
    requires Enabled(s, Close)
    ensures Load(Step(atomic, s, Close)) < Load(s)
  {
    hide Total;
    TotalWake(s.workers, Burden);
  }

  lemma LoadMain(atomic: bool, n: nat, s: State, e: Event)
    requires Shape(n, s) && Enabled(s, e)
    requires e.Cancel? || e.Join? || e.SerialStart? || e.SerialEnd? || e.Finish?
    ensures Load(Step(atomic, s, e)) < Load(s)
  {
    hide Total;
  }

  lemma AlertnessFalls(atomic: bool, s: State, e: Event)
    requires Enabled(s, e) && FallsAsleep(s, e)
    ensures var s' := Step(atomic, s, e);
      Load(s') == Load(s) && Total(s'.workers, Alertness) < Total(s.workers, Alertness)
  {
    hide Total;
    var p := SleepStep(atomic, s, e);
    hide Step;
    TotalUpdate(s.workers, e.w, p, Burden);
    TotalUpdate(s.workers, e.w, p, Alertness);
  }

  lemma SleepStep(atomic: bool, s: State, e: Event) returns (p: Phase)
    requires Enabled(s, e) && FallsAsleep(s, e)
    ensures e.w < |s.workers| && Step(atomic, s, e) == s.(workers := s.workers[e.w := p])
    ensures Burden(p) == Burden(s.workers[e.w]) && Alertness(p) < Alertness(s.workers[e.w])
  {
    hide RemoveAt, FirstFree;
    p := if e.Park? || atomic then Parked else Parking;
  }

  lemma MeasureFalls(atomic: bool, n: nat, s: State, e: Event)
    requires Shape(n, s) && Enabled(s, e)
    ensures Measure(Step(atomic, s, e)) < Measure(s)
  {
    var s' := Step(atomic, s, e);
    ShapeKept(atomic, n, s, e);
    hide Load, Total, Step, Shape;
    if FallsAsleep(s, e) {
      AlertnessFalls(atomic, s, e);
    } else {
      LoadFalls(atomic, n, s, e);
      TotalBound(s'.workers, Alertness, 2);
      Scaled(Load(s'), Load(s), 2 * n + 1);
    }
  }

  lemma {:induction false} Scaled(a: nat, b: nat, k: nat)
    requires a < b
    ensures a * k + k <= b * k
    decreases b
  {
    assert (b - 1) * k + k == b * k;
    if a < b - 1 {
      Scaled(a, b - 1, k);
    }
  }

  lemma {:induction false} LengthBounded(atomic: bool, n: nat, s: State, es: seq<Event>)
    requires Shape(n, s) && Legal(atomic, s, es)
    ensures |es| <= Measure(s)
    decreases |es|
  {
    hide Shape, Measure, Step, Enabled;
    if es != [] {
      MeasureFalls(atomic, n, s, es[0]);
      ShapeKept(atomic, n, s, es[0]);
      LengthBounded(atomic, n, Step(atomic, s, es[0]), es[1..]);
    }
  }

  /** No schedule is longer than a bound linear in the number of tests, whoever is woken how often. */
  lemma EveryScheduleEnds(atomic: bool, tests: seq<Test>, n: nat, es: seq<Event>)
    requires Legal(atomic, Init(tests, n), es)
    ensures |es| <= (6 * |tests| + n + 5) * (2 * n + 1) + 2 * n
  {
    var s := Init(tests, n);
    LengthBounded(atomic, n, s, es);
    TotalBound(s.workers, Alertness, 2);
    AllReady(s.workers);
    assert Load(s) == 6 * |tests| + n + 5;
  }

  lemma {:induction false} AllReady(ws: seq<Phase>)
    requires forall i :: 0 <= i < |ws| ==> ws[i].Ready?
    ensures Total(ws, Burden) == |ws|
  {
    if ws != [] {
      AllReady(ws[1..]);
    }
  }

  /** The workers that have not exited are all parked, and no broadcast is to come unless somebody cancels. */
  ghost predicate Hung(s: State) {
    && s.mode.Joining? && SomeParked(s.workers)
    && (forall w :: 0 <= w < |s.workers| ==> s.workers[w].Parked? || s.workers[w].Exited?)
    && (s.cancelled ==> s.closed)
  }

  /** Nothing can happen any more except a cancellation, or its `Close` after `Execute` has returned. */
  ghost predicate Quiet(s: State) {
    forall e :: Enabled(s, e) ==> e.Cancel? || (e.Close? && s.mode.Returned?)
  }

  lemma ReturnedIsQuiet(n: nat, s: State)
    requires Shape(n, s) && s.mode.Returned?
    ensures Quiet(s)
  {
  }

  lemma QuietIsOver(s: State)
    requires Quiet(s) && Called(s) <= |s.serial| && (Busy(s) ==> Called(s) < |s.serial|)
    ensures s.mode.Returned? || Hung(s)
  {
    if !s.mode.Returned? {
      assert !Enabled(s, Close) && !Enabled(s, SerialStart) && !Enabled(s, SerialEnd) && !Enabled(s, Finish);
      assert !Enabled(s, Join);
      forall w | 0 <= w < |s.workers| ensures s.workers[w].Parked? || s.workers[w].Exited? {
        assert !Enabled(s, Event.Pop(w)) && !Enabled(s, Park(w)) && !Enabled(s, Return(w)) && !Enabled(s, Done(w));
      }
    }
  }

  /** A schedule can be continued without a new cancellation unless it has returned or hangs. */
  lemma StuckMeansHung(atomic: bool, tests: seq<Test>, n: nat, es: seq<Event>)
    requires Legal(atomic, Init(tests, n), es)
    ensures var s := Exec(atomic, Init(tests, n), es);
      Quiet(s) <==> s.mode.Returned? || Hung(s)
  {
    Always(atomic, tests, n, es);
    var s := Exec(atomic, Init(tests, n), es);
    hide Exec, Legal, Books, Calls, LogShape, Keys, Lively, Enabled;
    if Quiet(s) {
      QuietIsOver(s);
    } else if s.mode.Returned? {
      ReturnedIsQuiet(n, s);
    }
  }

  /** With a park that is atomic with the pop, nothing ever hangs: whatever cannot continue has returned. */
  lemma AtomicParkingNeverHangs(tests: seq<Test>, n: nat, es: seq<Event>)
    requires Legal(true, Init(tests, n), es)
    ensures !Hung(Exec(true, Init(tests, n), es))
  {
    Always(true, tests, n, es);
  }
}
