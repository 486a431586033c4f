/** What holds in every state every schedule reaches: exclusion, conservation, phase order, nothing stranded. */
module Safety {
  import opened Tests
  import opened QueueSpec
  import opened Scheduler

  ghost predicate SomeAwake(ws: seq<Phase>) {
    exists w :: 0 <= w < |ws| && Awake(ws[w])
  }

  ghost predicate SomeParked(ws: seq<Phase>) {
    exists w :: 0 <= w < |ws| && ws[w].Parked?
  }

  predicate AllExited(ws: seq<Phase>) {
    forall w :: 0 <= w < |ws| ==> ws[w].Exited?
  }

  /** How many serial tests have been called. */
  function Called(s: State): nat {
    if s.mode.Joining? then 0 else s.mode.next
  }

  predicate Busy(s: State) {
    s.mode.Sequential? && s.mode.busy
  }

  ghost predicate Shape(n: nat, s: State) {
    && |s.workers| == n
    && (s.closed ==> s.cancelled && s.q.ring == [])
    && (!s.mode.Joining? ==> AllExited(s.workers))
    && Called(s) <= |s.serial| && (Busy(s) ==> Called(s) < |s.serial|)
    && (s.mode.Returned? && !s.cancelled ==> Called(s) == |s.serial|)
    && (forall i :: 0 <= i < |s.serial| ==> IsSerial(s.serial[i]))
  }

  /** No key is held twice, and while tests are queued `active` is exactly the keys held. */
  ghost predicate Keys(s: State) {
    && "" !in s.q.active
    && (forall k :: Bag(s.workers, HeldKey)[k] <= 1)
    && (s.q.ring != [] ==> multiset(s.q.active) == Bag(s.workers, HeldKey))
  }

  /** The serial tests not called to the end. */
  function Pending(s: State): seq<Test> {
    if Called(s) <= |s.serial| then s.serial[Called(s)..] else []
  }

  /** Where the tests are: queued, taken by a worker, waiting for the sequential loop, or done. */
  ghost function Accounted(s: State): multiset<Test> {
    Sum(s.q.ring, s.workers, Pending(s), s.log)
  }

  ghost function Sum(ring: seq<Test>, ws: seq<Phase>, pending: seq<Test>, log: seq<Entry>): multiset<Test> {
    multiset(ring) + Bag(ws, Taken) + (multiset(pending) + Ended(log))
  }

  ghost predicate Books(tests: seq<Test>, s: State) {
    if s.closed then Accounted(s) <= multiset(tests) else Accounted(s) == multiset(tests)
  }

  ghost function SequentialCall(s: State): multiset<Test> {
    if Busy(s) && Pending(s) != [] then multiset{Pending(s)[0]} else multiset{}
  }

  /** A call that has started has ended or is under way. */
  ghost predicate Calls(s: State) {
    Started(s.log) == Ended(s.log) + (Bag(s.workers, InCall) + SequentialCall(s))
  }

  predicate NoSerial(log: seq<Entry>) {
    forall i :: 0 <= i < |log| ==> !IsSerial(log[i].t)
  }

  /** Before the join only parallel tests are called; after it serial tests, one by one, in list order. */
  ghost predicate LogShape(s: State) {
    && Called(s) <= |s.serial| && (Busy(s) ==> Called(s) < |s.serial|)
    && if s.mode.Joining? then NoSerial(s.log) else
       && s.mark <= |s.log| && NoSerial(s.log[..s.mark])
       && s.log[s.mark..] == OneByOne(s.serial[..Called(s)])
                             + if Busy(s) then [Start(s.serial[Called(s)])] else []
  }

  /** As long as there is work, or with atomic parking anybody to wake, somebody is awake. */
  ghost predicate Lively(atomic: bool, s: State) {
    && (s.q.ring != [] && s.workers != [] ==> SomeAwake(s.workers))
    && (atomic ==> forall w :: 0 <= w < |s.workers| ==> !s.workers[w].Parking?)
    && (atomic && SomeParked(s.workers) ==> SomeAwake(s.workers))
  }

  ghost predicate Inv(atomic: bool, tests: seq<Test>, n: nat, s: State) {
    Shape(n, s) && Keys(s) && Books(tests, s) && Calls(s) && LogShape(s) && Lively(atomic, s)
  }

  lemma InitHolds(atomic: bool, tests: seq<Test>, n: nat)
    ensures Inv(atomic, tests, n, Init(tests, n))
  {
    var s := Init(tests, n);
    InitBags(tests, n);
    assert n > 0 ==> Awake(s.workers[0]);
    hide Keys, Books, Calls;
  }

  lemma InitBags(tests: seq<Test>, n: nat)
    ensures Keys(Init(tests, n)) && Books(tests, Init(tests, n)) && Calls(Init(tests, n))
  {
    var ws := Init(tests, n).workers;
    BagEmpty(ws, HeldKey);
    BagEmpty(ws, Taken);
    BagEmpty(ws, InCall);
    hide Bag;
  }

  lemma ShapeKept(atomic: bool, n: nat, s: State, e: Event)
    requires Shape(n, s) && Enabled(s, e)
    ensures Shape(n, Step(atomic, s, e))
  {
  }

  // One worker changes phase, with or without a broadcast after it.

  lemma Gains<T>(ws: seq<Phase>, w: nat, p: Phase, f: Phase -> multiset<T>)
    requires w < |ws| && f(Parked) == f(Ready) && f(ws[w]) == multiset{}
    ensures Bag(ws[w := p], f) == Bag(ws, f) + f(p)
  {
    BagUpdate(ws, w, p, f);
  }

  lemma Loses<T>(ws: seq<Phase>, w: nat, p: Phase, f: Phase -> multiset<T>)
    requires w < |ws| && f(Parked) == f(Ready) && f(p) == multiset{}
    ensures Bag(ws[w := p], f) + f(ws[w]) == Bag(ws, f) == Bag(Wake(ws[w := p]), f) + f(ws[w])
  {
    BagUpdate(ws, w, p, f);
    BagWake(ws[w := p], f);
  }

  lemma Keeps<T>(ws: seq<Phase>, w: nat, p: Phase, f: Phase -> multiset<T>)
    requires w < |ws| && f(Parked) == f(Ready) && f(p) == f(ws[w])
    ensures Bag(ws[w := p], f) == Bag(ws, f) == Bag(Wake(ws[w := p]), f)
  {
    BagUpdate(ws, w, p, f);
    BagWake(ws[w := p], f);
    var a, b, c := Bag(ws[w := p], f), Bag(ws, f), f(p);
    assert a == (a + c) - c && b == (b + c) - c;
  }

  // ---- keys ----

  lemma KeysKept(atomic: bool, s: State, e: Event)
    requires Keys(s) && Enabled(s, e) && (s.closed ==> s.q.ring == [])
    ensures Keys(Step(atomic, s, e))
  {
    hide Keys, Step, Enabled;
    match e
    case Pop(w) => KeysPop(atomic, s, w);
    case Done(w) => KeysDone(atomic, s, w);
    case _ => KeysSame(atomic, s, e);
  }

  lemma KeysSame(atomic: bool, s: State, e: Event)
    requires Keys(s) && Enabled(s, e) && !e.Pop? && !e.Done?
    ensures Keys(Step(atomic, s, e))
  {
    hide Bag, HeldKey, Key, IsSerial;
    match e
    case Park(w) => KeysIdleAs(s.workers, w, Parked);
    case Return(w) => KeysIdleAs(s.workers, w, Releasing(s.workers[w].t));
    case Close => KeysAsleep(s.workers);
    case _ =>
  }

  lemma KeysIdleAs(ws: seq<Phase>, w: nat, p: Phase)
    requires w < |ws| && ((ws[w].Parking? && p.Parked?) || (ws[w].Running? && p == Releasing(ws[w].t)))
    ensures Bag(ws[w := p], HeldKey) == Bag(ws, HeldKey)
  {
    hide Bag;
    Keeps(ws, w, p, HeldKey);
  }

  lemma KeysAsleep(ws: seq<Phase>)
    ensures Bag(Wake(ws), HeldKey) == Bag(ws, HeldKey)
  {
    hide Bag;
    BagWake(ws, HeldKey);
  }

  lemma KeysPop(atomic: bool, s: State, w: nat)
    requires Keys(s) && Enabled(s, Event.Pop(w))
    ensures Keys(Step(atomic, s, Event.Pop(w)))
  {
    hide Bag, RemoveAt, FirstFree;
    var (q, outcome) := QueueSpec.Pop(s.q);
    match outcome
    case Empty => KeysIdle(s.workers, w, Exited);
    case Blocked => KeysIdle(s.workers, w, if atomic then Parked else Parking);
    case Got(t) => KeysTaken(s, w, t);
  }

  lemma KeysIdle(ws: seq<Phase>, w: nat, p: Phase)
    requires w < |ws| && HeldKey(p) == HeldKey(ws[w])
    ensures Bag(ws[w := p], HeldKey) == Bag(ws, HeldKey) == Bag(Wake(ws[w := p]), HeldKey)
  {
    Keeps(ws, w, p, HeldKey);
  }

  lemma KeysTaken(s: State, w: nat, t: Test)
    requires Keys(s) && s.q.ring != [] && w < |s.workers| && s.workers[w].Ready? && t.exclusion !in s.q.active
    ensures var active, held := s.q.active + Key(t), Bag(s.workers[w := Running(t)], HeldKey);
      "" !in active && multiset(active) == held && forall k :: held[k] <= 1
  {
    hide Bag;
    Gains(s.workers, w, Running(t), HeldKey);
    assert multiset(s.q.active + Key(t)) == multiset(s.q.active) + HeldKey(Running(t));
    assert forall k :: multiset(s.q.active + Key(t))[k] <= 1;
  }

  lemma KeysDone(atomic: bool, s: State, w: nat)
    requires Keys(s) && Enabled(s, Done(w))
    ensures Keys(Step(atomic, s, Done(w)))
  {
    hide Bag, HeldKey, RemoveAt;
    HeldRest(s.workers, w);
    var k := s.workers[w].t.exclusion;
    var rest := Bag(Wake(s.workers[w := Ready]), HeldKey);
    if k == "" {
      assert s.q.active - {k} == s.q.active;
    } else if s.q.ring != [] {
      ReleaseKey(s.q.active, rest, k);
    }
  }

  lemma HeldRest(ws: seq<Phase>, w: nat)
    requires w < |ws| && ws[w].Releasing?
    ensures var k, rest := ws[w].t.exclusion, Bag(Wake(ws[w := Ready]), HeldKey);
      && (k == "" ==> rest == Bag(ws, HeldKey)) && (k != "" ==> rest + multiset{k} == Bag(ws, HeldKey))
      && forall x :: rest[x] <= Bag(ws, HeldKey)[x]
  {
    hide Bag;
    Loses(ws, w, Ready, HeldKey);
    var rest := Bag(Wake(ws[w := Ready]), HeldKey);
    assert rest + HeldKey(ws[w]) == Bag(ws, HeldKey);
  }

  lemma ReleaseKey(active: set<string>, rest: multiset<string>, k: string)
    requires rest + multiset{k} == multiset(active)
    ensures multiset(active - {k}) == rest
  {
    assert multiset(active)[k] == rest[k] + 1;
    forall x ensures multiset(active - {k})[x] == rest[x] {
      assert x != k ==> multiset(active)[x] == rest[x];
    }
  }

  // ---- books ----

  lemma BooksKept(atomic: bool, tests: seq<Test>, s: State, e: Event)
    requires Books(tests, s) && Enabled(s, e) && Called(s) <= |s.serial|
    ensures Books(tests, Step(atomic, s, e))
  {
    hide Accounted, Step, Enabled;
    StepCloses(atomic, s, e);
    if e.Close? {
      AccountsClose(atomic, s);
    } else {
      AccountsKept(atomic, s, e);
    }
  }

  lemma StepCloses(atomic: bool, s: State, e: Event)
    requires Enabled(s, e)
    ensures Step(atomic, s, e).closed == (s.closed || e.Close?)
  {
    hide RemoveAt, FirstFree;
  }

  lemma AccountsClose(atomic: bool, s: State)
    requires Enabled(s, Close)
    ensures Accounted(Step(atomic, s, Close)) <= Accounted(s)
  {
    hide Bag, Started, Ended;
    BagWake(s.workers, Taken);
  }

  lemma AccountsKept(atomic: bool, s: State, e: Event)
    requires Enabled(s, e) && !e.Close? && Called(s) <= |s.serial|
    ensures Accounted(Step(atomic, s, e)) == Accounted(s)
  {
    hide Accounted, Step, Enabled;
    match e
    case Pop(w) => AccountsPop(atomic, s, w);
    case Return(w) => AccountsReturn(atomic, s, w);
    case SerialStart => AccountsSerial(atomic, s, e);
    case SerialEnd => AccountsSerial(atomic, s, e);
    case _ => AccountsSame(atomic, s, e);
  }

  lemma AccountsSame(atomic: bool, s: State, e: Event)
    requires Enabled(s, e) && (e.Park? || e.Done? || e.Cancel? || e.Join? || e.Finish?)
    ensures Accounted(Step(atomic, s, e)) == Accounted(s)
  {
    hide Sum;
    match e
    case Park(w) => SumIdle(s.q.ring, s.workers, w, Parked, Pending(s), s.log);
    case Done(w) => SumIdle(s.q.ring, s.workers, w, Ready, Pending(s), s.log);
    case _ =>
  }

  lemma AccountsReturn(atomic: bool, s: State, w: nat)
    requires Enabled(s, Return(w)) && Called(s) <= |s.serial|
    ensures Accounted(Step(atomic, s, Return(w))) == Accounted(s)
  {
    hide Sum;
    SumReturn(s.q.ring, s.workers, w, s.serial, Called(s), s.log);
  }

  lemma AccountsSerial(atomic: bool, s: State, e: Event)
    requires Enabled(s, e) && (e.SerialStart? || e.SerialEnd?)
    ensures Accounted(Step(atomic, s, e)) == Accounted(s)
  {
    hide Sum;
    if e.SerialStart? {
      SumStart(s.q.ring, s.workers, Pending(s), s.log, Start(s.serial[Called(s)]));
    } else {
      SumSerialEnd(s.q.ring, s.workers, s.serial, Called(s), s.log);
    }
  }

  lemma AccountsPop(atomic: bool, s: State, w: nat)
    requires Enabled(s, Event.Pop(w))
    ensures Accounted(Step(atomic, s, Event.Pop(w))) == Accounted(s)
  {
    hide Sum, RemoveAt, FirstFree;
    var (q, outcome) := QueueSpec.Pop(s.q);
    match outcome
    case Empty => SumIdle(s.q.ring, s.workers, w, Exited, Pending(s), s.log);
    case Blocked => SumIdle(s.q.ring, s.workers, w, if atomic then Parked else Parking, Pending(s), s.log);
    case Got(t) =>
      SumPop(s.q.ring, FirstFree(s.q.ring, s.q.active), s.workers, w, Pending(s), s.log);
      SumStart(q.ring, s.workers[w := Running(t)], Pending(s), s.log, Start(t));
  }

  lemma SumIdle(ring: seq<Test>, ws: seq<Phase>, w: nat, p: Phase, pending: seq<Test>, log: seq<Entry>)
    requires w < |ws| && !ws[w].Running? && !p.Running?
    ensures Sum(ring, ws[w := p], pending, log) == Sum(ring, ws, pending, log)
    ensures Sum(ring, Wake(ws[w := p]), pending, log) == Sum(ring, ws, pending, log)
  {
    Keeps(ws, w, p, Taken);
  }

  lemma SumPop(ring: seq<Test>, k: nat, ws: seq<Phase>, w: nat, pending: seq<Test>, log: seq<Entry>)
    requires k < |ring| && w < |ws| && !ws[w].Running?
    ensures Sum(RemoveAt(ring, k), ws[w := Running(ring[k])], pending, log) == Sum(ring, ws, pending, log)
  {
    hide Bag, Ended, RemoveAt;
    RemoveAtIsCyclicRemoval(ring, k);
    Gains(ws, w, Running(ring[k]), Taken);
  }

  lemma SumStart(ring: seq<Test>, ws: seq<Phase>, pending: seq<Test>, log: seq<Entry>, e: Entry)
    requires e.Start?
    ensures Sum(ring, ws, pending, log + [e]) == Sum(ring, ws, pending, log)
  {
    LogAppend(log, e);
  }

  lemma SumReturn(ring: seq<Test>, ws: seq<Phase>, w: nat, serial: seq<Test>, c: nat, log: seq<Entry>)
    requires w < |ws| && ws[w].Running? && c <= |serial|
    ensures var t := ws[w].t;
      && Sum(ring, ws[w := Releasing(t)], serial[c..], log + [End(t)]) == Sum(ring, ws, serial[c..], log)
      && Sum(ring, ws[w := Releasing(t)], (serial + [t])[c..], log) == Sum(ring, ws, serial[c..], log)
  {
    hide Bag, Ended;
    var t := ws[w].t;
    var ws' := ws[w := Releasing(t)];
    Loses(ws, w, Releasing(t), Taken);
    LogAppend(log, End(t));
    assert (serial + [t])[c..] == serial[c..] + [t];
    assert Bag(ws', Taken) + multiset{t} == Bag(ws, Taken);
  }

  lemma SumSerialEnd(ring: seq<Test>, ws: seq<Phase>, serial: seq<Test>, c: nat, log: seq<Entry>)
    requires c < |serial|
    ensures Sum(ring, ws, serial[c + 1..], log + [End(serial[c])]) == Sum(ring, ws, serial[c..], log)
  {
    hide Bag, Ended;
    LogAppend(log, End(serial[c]));
    assert serial[c..] == [serial[c]] + serial[c + 1..];
  }

  /** The calls that have started and not ended, by workers and by the sequential loop. */
  ghost predicate CallsBalance(log: seq<Entry>, ws: seq<Phase>, sequential: multiset<Test>) {
    Started(log) == Ended(log) + (Bag(ws, InCall) + sequential)
  }

  lemma CallsKept(atomic: bool, n: nat, s: State, e: Event)
    requires Shape(n, s) && Calls(s) && Enabled(s, e)
    ensures Calls(Step(atomic, s, e))
  {
    hide Calls, CallsBalance, Shape, Step, Enabled;
    BalanceIsCalls(s);
    match e {
      case Pop(w) => CallsPop(atomic, s, w);
      case Park(w) => CallsPark(atomic, s, w);
      case Return(w) => CallsReturn(atomic, n, s, w);
      case Done(w) => CallsDone(atomic, s, w);
      case Close => CallsClose(atomic, s);
      case SerialStart => CallsSerial(atomic, s, e);
      case SerialEnd => CallsSerial(atomic, s, e);
      case _ => CallsMain(atomic, n, s, e);
    }
    BalanceIsCalls(Step(atomic, s, e));
  }

  ghost predicate Counted(s: State) {
    CallsBalance(s.log, s.workers, SequentialCall(s))
  }

  lemma CallsPark(atomic: bool, s: State, w: nat)
    requires Counted(s) && Enabled(s, Park(w))
    ensures Counted(Step(atomic, s, Park(w)))
  {
    hide CallsBalance;
    BalanceIdle(s.log, s.workers, w, Parked, SequentialCall(s));
  }

  lemma CallsDone(atomic: bool, s: State, w: nat)
    requires Counted(s) && Enabled(s, Done(w))
    ensures Counted(Step(atomic, s, Done(w)))
  {
    hide CallsBalance;
    BalanceIdle(s.log, s.workers, w, Ready, SequentialCall(s));
  }

  lemma CallsClose(atomic: bool, s: State)
    requires Counted(s) && Enabled(s, Close)
    ensures Counted(Step(atomic, s, Close))
  {
    hide CallsBalance;
    BalanceWake(s.log, s.workers, SequentialCall(s));
  }

  lemma CallsSerial(atomic: bool, s: State, e: Event)
    requires Counted(s) && Enabled(s, e) && (e.SerialStart? || e.SerialEnd?)
    ensures Counted(Step(atomic, s, e))
  {
    hide CallsBalance;
    var t := s.serial[Called(s)];
    if e.SerialStart? {
      BalanceStart(s.log, s.workers, t);
    } else {
      BalanceEnd(s.log, s.workers, t);
    }
  }

  lemma CallsMain(atomic: bool, n: nat, s: State, e: Event)
    requires Shape(n, s) && Counted(s) && Enabled(s, e) && (e.Cancel? || e.Join? || e.Finish?)
    ensures Counted(Step(atomic, s, e))
  {
    hide CallsBalance;
  }

  lemma BalanceIsCalls(s: State)
    ensures Calls(s) <==> Counted(s)
  {
  }

  lemma BalanceIdle(log: seq<Entry>, ws: seq<Phase>, w: nat, p: Phase, c: multiset<Test>)
    requires CallsBalance(log, ws, c) && w < |ws| && InCall(p) == InCall(ws[w])
    ensures CallsBalance(log, ws[w := p], c) && CallsBalance(log, Wake(ws[w := p]), c)
  {
    Keeps(ws, w, p, InCall);
  }

  lemma BalanceWake(log: seq<Entry>, ws: seq<Phase>, c: multiset<Test>)
    requires CallsBalance(log, ws, c)
    ensures CallsBalance(log, Wake(ws), c)
  {
    BagWake(ws, InCall);
  }

  lemma BalanceStart(log: seq<Entry>, ws: seq<Phase>, t: Test)
    requires CallsBalance(log, ws, multiset{})
    ensures CallsBalance(log + [Start(t)], ws, multiset{t})
  {
    hide Bag, Started, Ended;
    LogAppend(log, Start(t));
  }

  lemma BalanceEnd(log: seq<Entry>, ws: seq<Phase>, t: Test)
    requires CallsBalance(log, ws, multiset{t})
    ensures CallsBalance(log + [End(t)], ws, multiset{})
  {
    hide Bag, Started, Ended;
    LogAppend(log, End(t));
  }

  lemma BalancePop(log: seq<Entry>, ws: seq<Phase>, w: nat, t: Test, c: multiset<Test>)
    requires CallsBalance(log, ws, c) && w < |ws| && ws[w].Ready? && !IsSerial(t)
    ensures CallsBalance(log + [Start(t)], ws[w := Running(t)], c)
  {
    hide Bag, Started, Ended;
    LogAppend(log, Start(t));
    Gains(ws, w, Running(t), InCall);
    assert InCall(Running(t)) == multiset{t};
  }

  lemma BalanceReturn(log: seq<Entry>, ws: seq<Phase>, w: nat, t: Test, c: multiset<Test>)
    requires CallsBalance(log, ws, c) && w < |ws| && ws[w] == Running(t) && !IsSerial(t)
    ensures CallsBalance(log + [End(t)], ws[w := Releasing(t)], c)
  {
    hide Bag, Started, Ended;
    LogAppend(log, End(t));
    Loses(ws, w, Releasing(t), InCall);
    assert InCall(ws[w]) == multiset{t};
  }

  lemma CallsPop(atomic: bool, s: State, w: nat)
    requires Counted(s) && Enabled(s, Event.Pop(w))
    ensures Counted(Step(atomic, s, Event.Pop(w)))
  {
    hide CallsBalance, RemoveAt, FirstFree;
    var (q, outcome) := QueueSpec.Pop(s.q);
    match outcome
    case Empty => BalanceIdle(s.log, s.workers, w, Exited, SequentialCall(s));
    case Blocked => BalanceIdle(s.log, s.workers, w, if atomic then Parked else Parking, SequentialCall(s));
    case Got(t) =>
      if IsSerial(t) {
        BalanceIdle(s.log, s.workers, w, Running(t), SequentialCall(s));
      } else {
        BalancePop(s.log, s.workers, w, t, SequentialCall(s));
      }
  }

  /** Workers return only before the join, when there is no sequential call. */
  lemma CallsReturn(atomic: bool, n: nat, s: State, w: nat)
    requires Shape(n, s) && Counted(s) && Enabled(s, Return(w))
    ensures Counted(Step(atomic, s, Return(w)))
  {
    hide CallsBalance;
    var t := s.workers[w].t;
    if IsSerial(t) {
      BalanceIdle(s.log, s.workers, w, Releasing(t), SequentialCall(s));
    } else {
      BalanceReturn(s.log, s.workers, w, t, SequentialCall(s));
    }
  }

  // ---- the shape of the log ----

  lemma LogShapeKept(atomic: bool, n: nat, s: State, e: Event)
    requires Shape(n, s) && LogShape(s) && Enabled(s, e)
    ensures LogShape(Step(atomic, s, e))
  {
    hide LogShape, Step, Enabled;
    if e.Join? || e.SerialStart? || e.SerialEnd? {
      LogShapeMain(atomic, n, s, e);
    } else {
      LogShapeOther(atomic, n, s, e);
    }
  }

  /** Workers write to the log only before the join. */
  lemma LogShapeOther(atomic: bool, n: nat, s: State, e: Event)
    requires Shape(n, s) && LogShape(s) && Enabled(s, e) && !e.Join? && !e.SerialStart? && !e.SerialEnd?
    ensures LogShape(Step(atomic, s, e))
  {
    hide RemoveAt, FirstFree, OneByOne;
  }

  lemma LogShapeMain(atomic: bool, n: nat, s: State, e: Event)
    requires Shape(n, s) && LogShape(s) && Enabled(s, e) && (e.Join? || e.SerialStart? || e.SerialEnd?)
    ensures LogShape(Step(atomic, s, e))
  {
    if e.Join? {
      assert s.log[..|s.log|] == s.log && s.log[|s.log|..] == [] && s.serial[..0] == [];
    } else {
      var t := s.serial[Called(s)];
      LogTail(s.log, s.mark, if e.SerialStart? then Start(t) else End(t));
      NextSerial(s.serial, Called(s));
    }
  }

  lemma LogTail(log: seq<Entry>, mark: nat, e: Entry)
    requires mark <= |log|
    ensures (log + [e])[..mark] == log[..mark] && (log + [e])[mark..] == log[mark..] + [e]
  {
  }

  lemma NextSerial(serial: seq<Test>, c: nat)
    requires c < |serial|
    ensures OneByOne(serial[..c + 1]) == OneByOne(serial[..c]) + [Start(serial[c])] + [End(serial[c])]
  {
    assert serial[..c + 1][..c] == serial[..c];
  }

  // ---- nobody is stranded ----

  lemma LivelyKept(atomic: bool, n: nat, s: State, e: Event)
    requires Shape(n, s) && Keys(s) && Lively(atomic, s) && Enabled(s, e)
    ensures Lively(atomic, Step(atomic, s, e))
  {
    hide RemoveAt, Bag;
    var s' := Step(atomic, s, e);
    match e
    case Pop(w) =>
      var (q, outcome) := QueueSpec.Pop(s.q);
      match outcome {
        case Empty => Woken(s.workers[w := Exited]);
        case Blocked =>
          assert s.q.ring[0].exclusion in s.q.active;
          var holder := HolderExists(s.workers, s.q.ring[0].exclusion);
          assert Awake(s'.workers[holder]);
        case Got(t) => assert Awake(s'.workers[w]);
      }
    case Park(w) =>
      if SomeAwake(s.workers) {
        var v :| 0 <= v < |s.workers| && Awake(s.workers[v]);
        assert Awake(s'.workers[v]);
      }
    case Return(w) => assert Awake(s'.workers[w]);
    case Done(w) => assert Awake(s'.workers[w]);
    case Close => Woken(s.workers);
    case _ =>
  }

  lemma Woken(ws: seq<Phase>)
    ensures !SomeParked(Wake(ws))
  {
  }

  /** A held key has a holder. */
  lemma {:induction false} HolderExists(ws: seq<Phase>, k: string) returns (w: nat)
    requires k in Bag(ws, HeldKey)
    ensures w < |ws| && (ws[w].Running? || ws[w].Releasing?) && ws[w].t.exclusion == k
  {
    if k in HeldKey(ws[0]) {
      w := 0;
    } else {
      w := HolderExists(ws[1..], k);
      w := w + 1;
    }
  }

  // ---- every step, every schedule ----

  lemma StepKeeps(atomic: bool, tests: seq<Test>, n: nat, s: State, e: Event)
    requires Inv(atomic, tests, n, s) && Enabled(s, e)
    ensures Inv(atomic, tests, n, Step(atomic, s, e))
  {
    hide Step, Keys, Books, Calls, LogShape, Lively;
    ShapeKept(atomic, n, s, e);
    KeysKept(atomic, s, e);
    BooksKept(atomic, tests, s, e);
    CallsKept(atomic, n, s, e);
    LogShapeKept(atomic, n, s, e);
    LivelyKept(atomic, n, s, e);
  }

  lemma {:induction false} ScheduleKeeps(atomic: bool, tests: seq<Test>, n: nat, s: State, es: seq<Event>)
    requires Inv(atomic, tests, n, s) && Legal(atomic, s, es)
    ensures Inv(atomic, tests, n, Exec(atomic, s, es))
    decreases |es|
  {
    hide Inv, Step, Enabled;
    if es != [] {
      StepKeeps(atomic, tests, n, s, es[0]);
      ScheduleKeeps(atomic, tests, n, Step(atomic, s, es[0]), es[1..]);
    }
  }

  lemma Always(atomic: bool, tests: seq<Test>, n: nat, es: seq<Event>)
    requires Legal(atomic, Init(tests, n), es)
    ensures Inv(atomic, tests, n, Exec(atomic, Init(tests, n), es))
  {
    InitHolds(atomic, tests, n);
    ScheduleKeeps(atomic, tests, n, Init(tests, n), es);
  }
}
