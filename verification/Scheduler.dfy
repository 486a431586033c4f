/**
 One `Execute` of the exclusion queue as a transition system. Every section under a lock is one step,
 and the steps of the workers, the canceller and the main routine interleave freely.
 */
module Scheduler {
  import opened Tests
  import opened QueueSpec

  /**
   `Running(t)`: `t` was popped and its function has not returned. `Releasing(t)`: it has returned and
   `done(t)` is still to come. `Parking`: a pop was blocked and the worker has not yet reached `cond.Wait`.
   */
  datatype Phase = Ready | Running(t: Test) | Releasing(t: Test) | Parking | Parked | Exited

  /** The main routine: waiting for the workers, in the sequential loop at index `next`, or
      back at its caller after `next` sequential calls. */
  datatype Mode = Joining | Sequential(next: nat, busy: bool) | Returned(next: nat)

  /** The calls of the caller's function, in time order. */
  datatype Entry = Start(t: Test) | End(t: Test)

  /** `mark` is the length of the log when the workers were joined. */
  datatype State = State(q: QState, workers: seq<Phase>, serial: seq<Test>, mode: Mode,
                         cancelled: bool, closed: bool, log: seq<Entry>, mark: nat)

  datatype Event =
    | Pop(w: nat) | Park(w: nat) | Return(w: nat) | Done(w: nat)
    | Cancel | Close
    | Join | SerialStart | SerialEnd | Finish

  function Init(tests: seq<Test>, workers: nat): State {
    State(QState(tests, {}), seq(workers, _ => Ready), [], Joining, false, false, [], 0)
  }

  /** `cond.Broadcast`: wakes the parked workers and nobody else. */
  function Wake(ws: seq<Phase>): (r: seq<Phase>)
    ensures |r| == |ws|
  {
    seq(|ws|, i requires 0 <= i < |ws| => if ws[i].Parked? then Ready else ws[i])
  }

  predicate Enabled(s: State, e: Event) {
    match e
    case Pop(w) => w < |s.workers| && s.workers[w].Ready?
    case Park(w) => w < |s.workers| && s.workers[w].Parking?
    case Return(w) => w < |s.workers| && s.workers[w].Running?
    case Done(w) => w < |s.workers| && s.workers[w].Releasing?
    case Cancel => !s.cancelled
    case Close => s.cancelled && !s.closed
    case Join => s.mode.Joining? && forall i :: 0 <= i < |s.workers| ==> s.workers[i].Exited?
    case SerialStart => s.mode.Sequential? && !s.mode.busy && s.mode.next < |s.serial| && !s.cancelled
    case SerialEnd => s.mode.Sequential? && s.mode.busy && s.mode.next < |s.serial|
    case Finish => s.mode.Sequential? && !s.mode.busy && (s.mode.next >= |s.serial| || s.cancelled)
  }

  /** With `atomic`, a blocked pop parks in the same step; the code needs a second step for it. */
  function Step(atomic: bool, s: State, e: Event): State
    requires Enabled(s, e)
  {
    match e
    case Pop(w) =>
      var (q, outcome) := QueueSpec.Pop(s.q);
      (match outcome
       case Empty => s.(workers := Wake(s.workers[w := Exited]))
       case Blocked => s.(workers := s.workers[w := if atomic then Parked else Parking])
       case Got(t) => s.(q := q, workers := s.workers[w := Running(t)],
                         log := if IsSerial(t) then s.log else s.log + [Start(t)]))
    case Park(w) => s.(workers := s.workers[w := Parked])
    case Return(w) =>
      var t := s.workers[w].t;
      var s' := s.(workers := s.workers[w := Releasing(t)]);
      if IsSerial(t) then s'.(serial := s.serial + [t]) else s'.(log := s.log + [End(t)])
    case Done(w) =>
      s.(q := QueueSpec.Done(s.q, s.workers[w].t), workers := Wake(s.workers[w := Ready]))
    case Cancel => s.(cancelled := true)
    case Close => s.(q := Closed(s.q), workers := Wake(s.workers), closed := true)
    case Join => s.(mode := Sequential(0, false), mark := |s.log|)
    case SerialStart => s.(mode := Sequential(s.mode.next, true), log := s.log + [Start(s.serial[s.mode.next])])
    case SerialEnd => s.(mode := Sequential(s.mode.next + 1, false), log := s.log + [End(s.serial[s.mode.next])])
    case Finish => s.(mode := Returned(s.mode.next))
  }

  /** `es` is a schedule from `s`: each event is enabled where it occurs. */
  predicate Legal(atomic: bool, s: State, es: seq<Event>)
    decreases |es|
  {
    es == [] || (Enabled(s, es[0]) && Legal(atomic, Step(atomic, s, es[0]), es[1..]))
  }

  function Exec(atomic: bool, s: State, es: seq<Event>): State
    requires Legal(atomic, s, es)
    decreases |es|
  {
    if es == [] then s else Exec(atomic, Step(atomic, s, es[0]), es[1..])
  }

  // ---- sums over the workers ----

  ghost function Bag<T>(ws: seq<Phase>, f: Phase -> multiset<T>): multiset<T> {
    if ws == [] then multiset{} else f(ws[0]) + Bag(ws[1..], f)
  }

  ghost function Total(ws: seq<Phase>, f: Phase -> nat): nat {
    if ws == [] then 0 else f(ws[0]) + Total(ws[1..], f)
  }

  lemma {:induction false} BagUpdate<T>(ws: seq<Phase>, w: nat, p: Phase, f: Phase -> multiset<T>)
    requires w < |ws|
    ensures Bag(ws[w := p], f) + f(ws[w]) == Bag(ws, f) + f(p)
  {
    if w == 0 {
      assert ws[w := p][1..] == ws[1..];
    } else {
      assert ws[w := p][1..] == ws[1..][w - 1 := p];
      BagUpdate(ws[1..], w - 1, p, f);
      var rest, rest' := Bag(ws[1..], f), Bag(ws[1..][w - 1 := p], f);
      assert Bag(ws[w := p], f) == f(ws[0]) + rest';
      assert rest' + f(ws[w]) == rest + f(p);
      assert (f(ws[0]) + rest') + f(ws[w]) == f(ws[0]) + (rest' + f(ws[w]));
      assert (f(ws[0]) + rest) + f(p) == f(ws[0]) + (rest + f(p));
    }
  }

  lemma {:induction false} TotalUpdate(ws: seq<Phase>, w: nat, p: Phase, f: Phase -> nat)
    requires w < |ws|
    ensures Total(ws[w := p], f) + f(ws[w]) == Total(ws, f) + f(p)
  {
    if w == 0 {
      assert ws[w := p][1..] == ws[1..];
    } else {
      assert ws[w := p][1..] == ws[1..][w - 1 := p];
      TotalUpdate(ws[1..], w - 1, p, f);
    }
  }

  lemma {:induction false} BagWake<T>(ws: seq<Phase>, f: Phase -> multiset<T>)
    requires f(Parked) == f(Ready)
    ensures Bag(Wake(ws), f) == Bag(ws, f)
  {
    if ws != [] {
      assert Wake(ws)[1..] == Wake(ws[1..]);
      BagWake(ws[1..], f);
    }
  }

  lemma {:induction false} TotalWake(ws: seq<Phase>, f: Phase -> nat)
    requires f(Parked) == f(Ready)
    ensures Total(Wake(ws), f) == Total(ws, f)
  {
    if ws != [] {
      assert Wake(ws)[1..] == Wake(ws[1..]);
      TotalWake(ws[1..], f);
    }
  }

  lemma {:induction false} BagEmpty<T>(ws: seq<Phase>, f: Phase -> multiset<T>)
    requires forall i :: 0 <= i < |ws| ==> f(ws[i]) == multiset{}
    ensures Bag(ws, f) == multiset{}
  {
    if ws != [] {
      assert forall i :: 0 <= i < |ws[1..]| ==> ws[1..][i] == ws[i + 1];
      BagEmpty(ws[1..], f);
    }
  }

  lemma {:induction false} TotalBound(ws: seq<Phase>, f: Phase -> nat, bound: nat)
    requires forall p :: f(p) <= bound
    ensures Total(ws, f) <= bound * |ws|
  {
    if ws != [] {
      TotalBound(ws[1..], f, bound);
    }
  }

  /** The non-empty key a worker holds. */
  ghost function HeldKey(p: Phase): multiset<string> {
    if (p.Running? || p.Releasing?) && p.t.exclusion != "" then multiset{p.t.exclusion} else multiset{}
  }

  /** The test whose call by a worker has started and not ended. */
  ghost function InCall(p: Phase): multiset<Test> {
    if p.Running? && !IsSerial(p.t) then multiset{p.t} else multiset{}
  }

  /** The test a worker has popped and whose function has not returned. */
  ghost function Taken(p: Phase): multiset<Test> {
    if p.Running? then multiset{p.t} else multiset{}
  }

  /** A worker that will take another step without being woken. */
  predicate Awake(p: Phase) {
    p.Ready? || p.Running? || p.Releasing?
  }

  // ---- the log ----

  ghost function Started(log: seq<Entry>): multiset<Test> {
    if log == [] then multiset{} else
    var e := log[|log| - 1];
    Started(log[..|log| - 1]) + if e.Start? then multiset{e.t} else multiset{}
  }

  ghost function Ended(log: seq<Entry>): multiset<Test> {
    if log == [] then multiset{} else
    var e := log[|log| - 1];
    Ended(log[..|log| - 1]) + if e.End? then multiset{e.t} else multiset{}
  }

  lemma LogAppend(log: seq<Entry>, e: Entry)
    ensures Started(log + [e]) == Started(log) + if e.Start? then multiset{e.t} else multiset{}
    ensures Ended(log + [e]) == Ended(log) + if e.End? then multiset{e.t} else multiset{}
  {
    assert (log + [e])[..|log|] == log;
  }

  lemma {:induction false} LogConcat(a: seq<Entry>, b: seq<Entry>)
    ensures Started(a + b) == Started(a) + Started(b)
    ensures Ended(a + b) == Ended(a) + Ended(b)
  {
    if b == [] {
      assert a + b == a;
    } else {
      assert (a + b)[..|a + b| - 1] == a + b[..|b| - 1];
      LogConcat(a, b[..|b| - 1]);
    }
  }

  /** Calls made one after another, none overlapping the next. */
  function OneByOne(tests: seq<Test>): seq<Entry> {
    if tests == [] then [] else
    OneByOne(tests[..|tests| - 1]) + [Start(tests[|tests| - 1]), End(tests[|tests| - 1])]
  }

  lemma {:induction false} OneByOneCounts(tests: seq<Test>)
    ensures Started(OneByOne(tests)) == multiset(tests)
    ensures Ended(OneByOne(tests)) == multiset(tests)
  {
    if tests != [] {
      var n := |tests|;
      OneByOneCounts(tests[..n - 1]);
      OneCall(OneByOne(tests[..n - 1]), tests[n - 1]);
      assert tests == tests[..n - 1] + [tests[n - 1]];
    }
  }

  lemma OneCall(log: seq<Entry>, t: Test)
    ensures Started(log + [Start(t), End(t)]) == Started(log) + multiset{t}
    ensures Ended(log + [Start(t), End(t)]) == Ended(log) + multiset{t}
  {
    LogAppend(log, Start(t));
    LogAppend(log + [Start(t)], End(t));
    assert log + [Start(t)] + [End(t)] == log + [Start(t), End(t)];
  }

  // ---- schedules ----

  lemma {:induction false} ExecConcat(atomic: bool, s: State, a: seq<Event>, b: seq<Event>)
    requires Legal(atomic, s, a) && Legal(atomic, Exec(atomic, s, a), b)
    ensures Legal(atomic, s, a + b) && Exec(atomic, s, a + b) == Exec(atomic, Exec(atomic, s, a), b)
    decreases |a|
  {
    hide Step, Enabled;
    if a == [] {
      assert a + b == b;
    } else {
      assert (a + b)[1..] == a[1..] + b;
      ExecConcat(atomic, Step(atomic, s, a[0]), a[1..], b);
    }
  }
}
