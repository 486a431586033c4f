/** The promises of one `Execute`, for every schedule. */
module Execution {
  import opened Tests
  import opened QueueSpec
  import opened Scheduler
  import opened Safety

  predicate Holds(p: Phase, k: string) {
    (p.Running? || p.Releasing?) && p.t.exclusion == k
  }

  lemma {:induction false} HolderCounts(ws: seq<Phase>, i: nat, k: string)
    requires i < |ws| && k != "" && Holds(ws[i], k)
    ensures k in Bag(ws, HeldKey)
  {
    if i > 0 {
      HolderCounts(ws[1..], i - 1, k);
    }
  }

  lemma {:induction false} TwoHoldersCountTwice(ws: seq<Phase>, i: nat, j: nat, k: string)
    requires i < j < |ws| && k != "" && Holds(ws[i], k) && Holds(ws[j], k)
    ensures Bag(ws, HeldKey)[k] >= 2
  {
    if i == 0 {
      HolderCounts(ws[1..], j - 1, k);
    } else {
      TwoHoldersCountTwice(ws[1..], i - 1, j - 1, k);
    }
  }

  /**
   No two workers ever hold one non-empty key, and while tests are queued `active` is exactly the keys
   held. Cancellation is allowed anywhere, also between a `Close` and the `done` of a holder.
   */
  lemma MutualExclusion(atomic: bool, tests: seq<Test>, n: nat, es: seq<Event>, k: string)
    requires Legal(atomic, Init(tests, n), es)
    ensures var s := Exec(atomic, Init(tests, n), es);
      && (k != "" ==> forall i, j :: 0 <= i < j < |s.workers| ==> !(Holds(s.workers[i], k) && Holds(s.workers[j], k)))
      && (s.q.ring != [] ==>
            (k in s.q.active <==> k != "" && exists i :: 0 <= i < |s.workers| && Holds(s.workers[i], k)))
  {
    Always(atomic, tests, n, es);
    var s := Exec(atomic, Init(tests, n), es);
    if k != "" {
      forall i, j | 0 <= i < j < |s.workers|
        ensures !(Holds(s.workers[i], k) && Holds(s.workers[j], k))
      {
        if Holds(s.workers[i], k) && Holds(s.workers[j], k) {
          TwoHoldersCountTwice(s.workers, i, j, k);
        }
      }
    }
    if s.q.ring != [] {
      assert k in s.q.active <==> k in multiset(s.q.active);
      if k in s.q.active {
        var w := HolderExists(s.workers, k);
        assert Holds(s.workers[w], k);
      }
      if i :| 0 <= i < |s.workers| && k != "" && Holds(s.workers[i], k) {
        HolderCounts(s.workers, i, k);
      }
    }
  }

  predicate Idle(p: Phase) {
    p.Parking? || p.Parked? || p.Exited?
  }

  /** Even with lost wakeups no queued test is left behind: idle workers mean an empty queue. */
  lemma NothingStranded(atomic: bool, tests: seq<Test>, n: nat, es: seq<Event>)
    requires n > 0 && Legal(atomic, Init(tests, n), es)
    ensures var s := Exec(atomic, Init(tests, n), es);
      (forall i :: 0 <= i < |s.workers| ==> Idle(s.workers[i])) ==> s.q.ring == []
  {
    Always(atomic, tests, n, es);
  }

  /**
   Conservation. `Ended(log)` counts the calls that returned: without a `Close`, whatever has not been
   called to the end is queued, taken, or waiting for the sequential loop; with one, nothing is called twice.
   */
  lemma Conservation(atomic: bool, tests: seq<Test>, n: nat, es: seq<Event>)
    requires Legal(atomic, Init(tests, n), es)
    ensures var s := Exec(atomic, Init(tests, n), es);
      && (!s.closed ==>
            multiset(s.q.ring) + Bag(s.workers, Taken) + (multiset(Pending(s)) + Ended(s.log)) == multiset(tests))
      && Ended(s.log) <= Started(s.log) <= multiset(tests)
  {
    Always(atomic, tests, n, es);
    var s := Exec(atomic, Init(tests, n), es);
    InCallIsTaken(s.workers);
    assert Called(s) <= |s.serial|;
    assert SequentialCall(s) <= multiset(Pending(s));
    hide Bag, Started, Ended, Exec;
    var sum := multiset(s.q.ring) + Bag(s.workers, Taken) + (multiset(Pending(s)) + Ended(s.log));
    assert sum == Accounted(s);
    assert Started(s.log) <= sum;
  }

  lemma {:induction false} InCallIsTaken(ws: seq<Phase>)
    ensures Bag(ws, InCall) <= Bag(ws, Taken)
  {
    if ws != [] {
      InCallIsTaken(ws[1..]);
    }
  }

  /** When an uncancelled `Execute` returns, every occurrence of every test was called exactly once. */
  lemma ExactlyOnce(atomic: bool, tests: seq<Test>, n: nat, es: seq<Event>)
    requires n > 0 && Legal(atomic, Init(tests, n), es)
    requires var s := Exec(atomic, Init(tests, n), es); s.mode.Returned? && !s.cancelled
    ensures var s := Exec(atomic, Init(tests, n), es);
      Started(s.log) == multiset(tests) && Ended(s.log) == multiset(tests)
  {
    Always(atomic, tests, n, es);
    var s := Exec(atomic, Init(tests, n), es);
    BagEmpty(s.workers, Taken);
    BagEmpty(s.workers, InCall);
    assert Pending(s) == [];
    assert s.q.ring == [];
  }

  /**
   Phase order. Up to `mark` the log holds only calls of parallel tests; from there on it holds calls
   of serial tests, one at a time in the order they were deferred, and by then every worker has exited.
   */
  lemma PhaseOrder(atomic: bool, tests: seq<Test>, n: nat, es: seq<Event>)
    requires Legal(atomic, Init(tests, n), es)
    ensures var s := Exec(atomic, Init(tests, n), es);
      && (exists i :: 0 <= i < |s.log| && IsSerial(s.log[i].t)) ==> AllExited(s.workers) && !s.mode.Joining?
    ensures var s := Exec(atomic, Init(tests, n), es);
      s.mode.Returned? ==>
        && s.mark <= |s.log| && Called(s) <= |s.serial|
        && NoSerial(s.log[..s.mark]) && Started(s.log[..s.mark]) == Ended(s.log[..s.mark])
        && s.log[s.mark..] == OneByOne(s.serial[..Called(s)])
        && forall i :: 0 <= i < |s.serial| ==> IsSerial(s.serial[i])
  {
    Always(atomic, tests, n, es);
    var s := Exec(atomic, Init(tests, n), es);
    hide Exec, Legal;
    if s.mode.Returned? {
      BagEmpty(s.workers, InCall);
      hide Bag, Started, Ended, OneByOne;
      Balanced(s.log[..s.mark], s.serial[..Called(s)], s.log);
    }
  }

  lemma Balanced(a: seq<Entry>, serial: seq<Test>, log: seq<Entry>)
    requires |a| <= |log| && log[..|a|] == a && log[|a|..] == OneByOne(serial)
    requires Started(log) == Ended(log)
    ensures Started(a) == Ended(a)
  {
    hide Started, Ended;
    var b := log[|a|..];
    assert log == a + b;
    OneByOneCounts(serial);
    LogConcat(a, b);
    assert Started(a) == (Started(a) + Started(b)) - Started(b);
    assert Ended(a) == (Ended(a) + Ended(b)) - Ended(b);
  }

  // ---- the serial tests, over every continuation of every state ----

  /** The serial test that a worker hands over in a step, if it does. */
  function HandedOver(s: State, e: Event): seq<Test>
    requires Enabled(s, e)
  {
    if e.Return? && IsSerial(s.workers[e.w].t) then [s.workers[e.w].t] else []
  }

  /** The serial tests handed over, in the order of the events. */
  ghost function Deferred(atomic: bool, s: State, es: seq<Event>): seq<Test>
    requires Legal(atomic, s, es)
    decreases |es|
  {
    if es == [] then [] else HandedOver(s, es[0]) + Deferred(atomic, Step(atomic, s, es[0]), es[1..])
  }

  lemma SerialStep(atomic: bool, s: State, e: Event)
    requires Enabled(s, e)
    ensures Step(atomic, s, e).serial == s.serial + HandedOver(s, e)
  {
    hide RemoveAt, FirstFree, IsSerial;
  }

  /** Each hand-over goes to the end of the list, and nothing else touches the list. */
  lemma {:induction false} SerialIsDeferralOrder(atomic: bool, s: State, more: seq<Event>)
    requires Legal(atomic, s, more)
    ensures Exec(atomic, s, more).serial == s.serial + Deferred(atomic, s, more)
    ensures s.serial <= Exec(atomic, s, more).serial
    decreases |more|
  {
    hide Step, Enabled, HandedOver;
    if more != [] {
      SerialIsDeferralOrder(atomic, Step(atomic, s, more[0]), more[1..]);
      SerialStep(atomic, s, more[0]);
    }
  }

  /** Under a cancelled context no serial test is started any more, and the log only grows. */
  lemma {:induction false} NoSerialStartAfterCancel(atomic: bool, s: State, more: seq<Event>)
    requires Legal(atomic, s, more) && s.cancelled
    ensures var log := Exec(atomic, s, more).log;
      && s.log <= log
      && forall i :: |s.log| <= i < |log| && log[i].Start? ==> !IsSerial(log[i].t)
    decreases |more|
  {
    if more != [] {
      CancelledStep(atomic, s, more[0]);
      hide Step, Enabled, IsSerial;
      NoSerialStartAfterCancel(atomic, Step(atomic, s, more[0]), more[1..]);
    }
  }

  lemma CancelledStep(atomic: bool, s: State, e: Event)
    requires Enabled(s, e) && s.cancelled
    ensures var s' := Step(atomic, s, e);
      && s'.cancelled && s.log <= s'.log
      && forall i :: |s.log| <= i < |s'.log| && s'.log[i].Start? ==> !IsSerial(s'.log[i].t)
  {
    hide RemoveAt, FirstFree, IsSerial;
  }
}
