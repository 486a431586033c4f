/** Any interleaving of recording, sampling and polling, and what it has printed. */
module Watermark {
  import opened Timeline
  import opened Windows
  import opened Monitor
  import opened Polling
  import opened Views
  import opened Clipping

  datatype Action =
    | Record(t: Time, conditions: seq<Condition>)
    | TakeSample(t: Time, conditions: seq<Condition>)
    | Poll(out: seq<Interval>)

  /**
   The log, the printer and the clock. Two histories are kept: `late` holds the events recorded at a time
   not after the watermark, and `moments` the sampled moments printed so far.
   */
  datatype World = World(now: Time, events: seq<Event>, samples: seq<Sample>,
                         last: Time, printed: seq<Interval>,
                         late: seq<Event>, moments: multiset<Interval>)

  const Fresh := World(0, [], [], 0, [], [], multiset{})

  function Recorded(t: Time, conditions: seq<Condition>): seq<Event> {
    seq(|conditions|, k requires 0 <= k < |conditions| => Event(t, conditions[k]))
  }

  /** The clock shows a positive time that is not before the last one shown. */
  ghost predicate Possible(w: World, a: Action) {
    match a
    case Record(t, _) => t >= w.now && t > 0
    case TakeSample(t, _) => t >= w.now && t > 0
    case Poll(out) => IsTimeline(w.samples, w.events, w.last, 0, out)
  }

  ghost function After(w: World, a: Action): World {
    match a
    case Record(t, conditions) =>
      var new_ := Recorded(t, conditions);
      w.(now := t, events := w.events + new_, late := if t <= w.last then w.late + new_ else w.late)
    case TakeSample(t, conditions) =>
      w.(now := t, samples := if conditions == [] then w.samples else w.samples + [Sample(t, conditions)])
    case Poll(out) =>
      w.(printed := w.printed + PointsIn(out), last := if out == [] then w.last else out[|out| - 1].from,
         moments := w.moments + multiset(PointsIn(Coalesce(SamplesWithin(w.samples, w.last, 0)))))
  }

  ghost predicate Run(w: World, actions: seq<Action>)
    decreases |actions|
  {
    actions == [] || (Possible(w, actions[0]) && Run(After(w, actions[0]), actions[1..]))
  }

  ghost function EndOfRun(w: World, actions: seq<Action>): World
    decreases |actions|
  {
    if actions == [] then w else EndOfRun(After(w, actions[0]), actions[1..])
  }

  function UpTo(events: seq<Event>, last: Time): seq<Event> {
    Within(events, (e: Event) => e.at <= last)
  }

  ghost predicate Sound(w: World) {
    && 0 <= w.last <= w.now
    && InOrder(w.events) && Nondecreasing(w.samples)
    && (forall k :: 0 <= k < |w.events| ==> 0 < w.events[k].at <= w.now)
    && (forall k :: 0 <= k < |w.samples| ==> 0 < w.samples[k].at <= w.now)
    && ByFrom(w.printed) && (forall k :: 0 <= k < |w.printed| ==> w.printed[k].from <= w.last)
  }

  /** Every event at or before the watermark has been printed once, save the late ones. */
  ghost predicate Balanced(w: World) {
    multiset(w.printed) + multiset(PointsOf(w.late)) == multiset(PointsOf(UpTo(w.events, w.last))) + w.moments
  }

  // ---- filters and multisets ----

  /** In an ordered log the events up to a time come first. */
  lemma SplitAt(events: seq<Event>, last: Time) returns (k: nat)
    requires InOrder(events)
    ensures k <= |events| && forall i :: 0 <= i < |events| ==> (events[i].at <= last <==> i < k)
  {
    k := |events|;
    while k > 0 && events[k - 1].at > last
      invariant 0 <= k <= |events| && forall i :: k <= i < |events| ==> events[i].at > last
    {
      k := k - 1;
    }
  }

  lemma PointsOfConcat(a: seq<Event>, b: seq<Event>)
    ensures PointsOf(a + b) == PointsOf(a) + PointsOf(b)
  {
  }

  /** What a poll returns and what was seen before make up the log. */
  lemma SeenAndNew(events: seq<Event>, last: Time)
    requires InOrder(events) && last >= 0 && forall k :: 0 <= k < |events| ==> events[k].at > 0
    ensures UpTo(events, last) + EventsWithin(events, last, 0) == events
  {
    var k := SplitAt(events, last);
    WithinMiddle(events, 0, k, (e: Event) => e.at <= last);
    WithinMiddle(events, k, |events|, (e: Event) => EventInWindow(e.at, last, 0));
    assert events[0..k] + events[k..|events|] == events;
  }

  lemma PrintedOfTimeline(out: seq<Interval>, runs: seq<Interval>, events: seq<Event>)
    requires multiset(out) == multiset(runs) + multiset(PointsOf(events))
    ensures multiset(PointsIn(out)) == multiset(PointsIn(runs)) + multiset(PointsOf(events))
  {
    var moment := (x: Interval) => x.from == x.to;
    hide Within;
    forall x ensures multiset(PointsIn(out))[x] == (multiset(PointsIn(runs)) + multiset(PointsOf(events)))[x] {
      WithinExactly(out, moment, x);
      WithinExactly(runs, moment, x);
      if !moment(x) {
        assert x !in PointsOf(events);
      }
    }
  }

  // ---- the three kinds of step ----

  lemma UpToAll(events: seq<Event>, last: Time)
    requires forall k :: 0 <= k < |events| ==> events[k].at <= last
    ensures UpTo(events, last) == events
  {
    WithinMiddle(events, 0, |events|, (e: Event) => e.at <= last);
  }

  lemma RecordUpTo(events: seq<Event>, t: Time, conditions: seq<Condition>, last: Time)
    requires InOrder(events) && forall k :: 0 <= k < |events| ==> events[k].at <= t
    ensures UpTo(events + Recorded(t, conditions), last) ==
      UpTo(events, last) + if t <= last then Recorded(t, conditions) else []
  {
    var new_ := Recorded(t, conditions);
    var k := SplitAt(events, last);
    hide Within;
    WithinMiddle(events, 0, k, (e: Event) => e.at <= last);
    var all := events + new_;
    var end := if t <= last then |all| else k;
    assert t <= last ==> k == |events|;
    WithinMiddle(all, 0, end, (e: Event) => e.at <= last);
  }

  lemma RecordKeeps(w: World, t: Time, conditions: seq<Condition>)
    requires Sound(w) && Balanced(w) && Possible(w, Record(t, conditions))
    ensures Sound(After(w, Record(t, conditions))) && Balanced(After(w, Record(t, conditions)))
  {
    hide Within, UpTo;
    var new_ := Recorded(t, conditions);
    RecordUpTo(w.events, t, conditions, w.last);
    PointsOfConcat(w.late, new_);
    PointsOfConcat(UpTo(w.events, w.last), new_);
    hide PointsOf, Sound;
    if t <= w.last {
      AddLate(multiset(w.printed), multiset(PointsOf(w.late)), multiset(PointsOf(UpTo(w.events, w.last))), w.moments,
              multiset(PointsOf(new_)));
    } else {
      assert UpTo(w.events, w.last) + [] == UpTo(w.events, w.last);
    }
  }

  lemma AddLate<T>(printed: multiset<T>, late: multiset<T>, seen: multiset<T>, moments: multiset<T>, more: multiset<T>)
    requires printed + late == seen + moments
    ensures printed + (late + more) == (seen + more) + moments
  {
    assert printed + (late + more) == (printed + late) + more;
    assert (seen + more) + moments == (seen + moments) + more;
  }

  lemma {:induction false} WithinMembers<T>(xs: seq<T>, inside: T -> bool, x: T)
    ensures x in Within(xs, inside) <==> x in xs && inside(x)
  {
    if xs != [] {
      var n := |xs| - 1;
      WithinMembers(xs[..n], inside, x);
      assert xs == xs[..n] + [xs[n]];
    }
  }

  lemma {:induction false} WithinByFrom(xs: seq<Interval>, inside: Interval -> bool)
    requires ByFrom(xs)
    ensures ByFrom(Within(xs, inside))
    ensures forall x :: x in Within(xs, inside) ==> x in xs
  {
    if xs != [] {
      var n := |xs| - 1;
      WithinByFrom(xs[..n], inside);
      assert forall x :: x in xs[..n] ==> x.from <= xs[n].from;
      hide ByFrom;
    }
  }

  /** A sampled interval of the window begins at a sample after the watermark. */
  lemma RunIsNew(w: World, x: Interval)
    requires Sound(w) && x in Coalesce(SamplesWithin(w.samples, w.last, 0))
    ensures w.last < x.from <= w.now
  {
    var window := SamplesWithin(w.samples, w.last, 0);
    hide Within, Heads;
    var k :| 0 <= k < |Coalesce(window)| && Coalesce(window)[k] == x;
    var s := window[Heads(window)[k].sample];
    WithinMembers(w.samples, (s: Sample) => InWindow(s.at, w.last, 0), s);
  }

  lemma PointIsNew(w: World, x: Interval)
    requires Sound(w) && x in PointsOf(EventsWithin(w.events, w.last, 0))
    ensures w.last < x.from <= w.now
  {
    var window := EventsWithin(w.events, w.last, 0);
    hide Within;
    var k :| 0 <= k < |window| && PointOf(window[k]) == x;
    WithinMembers(w.events, (e: Event) => EventInWindow(e.at, w.last, 0), window[k]);
  }

  /** What a poll returns begins after the watermark. */
  lemma OutIsNew(w: World, out: seq<Interval>, x: Interval)
    requires Sound(w) && Possible(w, Poll(out)) && x in out
    ensures w.last < x.from <= w.now
  {
    hide Coalesce, PointsOf, Sound;
    var runs, points := Coalesce(SamplesWithin(w.samples, w.last, 0)), PointsOf(EventsWithin(w.events, w.last, 0));
    assert x in multiset(out);
    if x in multiset(runs) {
      RunIsNew(w, x);
    } else {
      assert x in multiset(points);
      PointIsNew(w, x);
    }
  }

  /** An event after the watermark is among what a poll returns. */
  lemma EventIsOut(w: World, out: seq<Interval>, e: Event)
    requires Possible(w, Poll(out)) && e in w.events && EventInWindow(e.at, w.last, 0)
    ensures PointOf(e) in out
  {
    hide Coalesce, Within;
    var window := EventsWithin(w.events, w.last, 0);
    WithinMembers(w.events, (e: Event) => EventInWindow(e.at, w.last, 0), e);
    var k :| 0 <= k < |window| && window[k] == e;
    assert PointsOf(window)[k] == PointOf(e);
    assert PointOf(e) in multiset(PointsOf(window));
    assert PointOf(e) in multiset(out);
  }

  /** The watermark passes everything the poll returned and every event of the log. */
  lemma WatermarkMoves(w: World, out: seq<Interval>)
    requires Sound(w) && Possible(w, Poll(out))
    ensures var last := After(w, Poll(out)).last;
      && w.last <= last <= w.now
      && (forall x :: x in out ==> w.last < x.from <= last)
      && (forall k :: 0 <= k < |w.events| ==> w.events[k].at <= last)
  {
    var last := After(w, Poll(out)).last;
    forall x | x in out ensures w.last < x.from <= last {
      OutIsNew(w, out, x);
      var k :| 0 <= k < |out| && out[k] == x;
    }
    if out != [] {
      OutIsNew(w, out, out[|out| - 1]);
    }
    forall k | 0 <= k < |w.events| ensures w.events[k].at <= last {
      if w.events[k].at > w.last {
        EventIsOut(w, out, w.events[k]);
      }
    }
  }

  lemma PollSound(w: World, out: seq<Interval>)
    requires Sound(w) && Possible(w, Poll(out))
    ensures Sound(After(w, Poll(out)))
  {
    var w' := After(w, Poll(out));
    assert ByFrom(w'.printed) && forall k :: 0 <= k < |w'.printed| ==> w'.printed[k].from <= w'.last by {
      PrintedInOrder(w, out);
    }
    WatermarkMoves(w, out);
    hide IsTimeline, Coalesce, Within;
  }

  lemma PrintedInOrder(w: World, out: seq<Interval>)
    requires Sound(w) && Possible(w, Poll(out))
    ensures var w' := After(w, Poll(out));
      ByFrom(w'.printed) && forall k :: 0 <= k < |w'.printed| ==> w'.printed[k].from <= w'.last
  {
    WatermarkMoves(w, out);
    WithinByFrom(out, (x: Interval) => x.from == x.to);
    hide Within, Coalesce;
  }

  lemma PollBalanced(w: World, out: seq<Interval>)
    requires Sound(w) && Balanced(w) && Possible(w, Poll(out))
    ensures Balanced(After(w, Poll(out)))
  {
    var w' := After(w, Poll(out));
    var seen, fresh_ := UpTo(w.events, w.last), EventsWithin(w.events, w.last, 0);
    var runs := Coalesce(SamplesWithin(w.samples, w.last, 0));
    WatermarkMoves(w, out);
    UpToAll(w.events, w'.last);
    SeenAndNew(w.events, w.last);
    PointsOfConcat(seen, fresh_);
    PrintedOfTimeline(out, runs, fresh_);
    hide Within, Coalesce, PointsOf, Sound, PointsIn, UpTo, EventsWithin, SamplesWithin;
    assert PointsOf(UpTo(w'.events, w'.last)) == PointsOf(seen) + PointsOf(fresh_);
    AddUp(multiset(w.printed), multiset(PointsOf(w.late)), multiset(PointsOf(seen)), w.moments,
          multiset(PointsIn(runs)), multiset(PointsOf(fresh_)));
  }

  lemma AddUp<T>(printed: multiset<T>, late: multiset<T>, seen: multiset<T>, moments: multiset<T>,
                 runs: multiset<T>, points: multiset<T>)
    requires printed + late == seen + moments
    ensures (printed + (runs + points)) + late == (seen + points) + (moments + runs)
  {
    assert (printed + (runs + points)) + late == (printed + late) + (runs + points);
    assert (seen + points) + (moments + runs) == (seen + moments) + (runs + points);
  }

  lemma ActionKeeps(w: World, a: Action)
    requires Sound(w) && Balanced(w) && Possible(w, a)
    ensures Sound(After(w, a)) && Balanced(After(w, a))
  {
    hide Sound, Balanced, After, Possible;
    match a
    case Record(t, conditions) => RecordKeeps(w, t, conditions);
    case TakeSample(t, conditions) => SampleKeeps(w, t, conditions);
    case Poll(out) =>
      PollSound(w, out);
      PollBalanced(w, out);
  }

  lemma SampleKeeps(w: World, t: Time, conditions: seq<Condition>)
    requires Sound(w) && Balanced(w) && Possible(w, TakeSample(t, conditions))
    ensures Sound(After(w, TakeSample(t, conditions))) && Balanced(After(w, TakeSample(t, conditions)))
  {
    hide UpTo, PointsOf, Within;
  }

  lemma {:induction false} RunKeeps(w: World, actions: seq<Action>)
    requires Sound(w) && Balanced(w) && Run(w, actions)
    ensures Sound(EndOfRun(w, actions)) && Balanced(EndOfRun(w, actions))
    decreases |actions|
  {
    hide Sound, Balanced, Possible, After;
    if actions != [] {
      ActionKeeps(w, actions[0]);
      RunKeeps(After(w, actions[0]), actions[1..]);
    }
  }

  lemma FreshIsFine()
    ensures Sound(Fresh) && Balanced(Fresh)
  {
    assert UpTo([], 0) == [];
    assert PointsOf([]) == [];
  }

  lemma {:induction false} RunConcat(w: World, a: seq<Action>, b: seq<Action>)
    requires Run(w, a + b)
    ensures Run(w, a) && Run(EndOfRun(w, a), b) && EndOfRun(w, a + b) == EndOfRun(EndOfRun(w, a), b)
    decreases |a|
  {
    hide Possible, After;
    if a == [] {
      assert a + b == b;
    } else {
      assert (a + b)[0] == a[0] && (a + b)[1..] == a[1..] + b;
      RunConcat(After(w, a[0]), a[1..], b);
    }
  }

  /**
   After any run that ends with a poll, under a clock that never goes back: what was printed is, in time
   order, every event recorded so far exactly once, save those recorded at or before the watermark, together
   with sampled moments. So nothing is missing if and only if no event was late.
   */
  lemma PollPrints(actions: seq<Action>, out: seq<Interval>)
    requires Run(Fresh, actions + [Poll(out)])
    ensures var w := EndOfRun(Fresh, actions + [Poll(out)]);
      && multiset(w.printed) + multiset(PointsOf(w.late)) == multiset(PointsOf(w.events)) + w.moments
      && ByFrom(w.printed)
      && (multiset(w.printed) == multiset(PointsOf(w.events)) + w.moments <==> w.late == [])
  {
    FreshIsFine();
    RunConcat(Fresh, actions, [Poll(out)]);
    RunKeeps(Fresh, actions);
    RunKeeps(Fresh, actions + [Poll(out)]);
    var before, w := EndOfRun(Fresh, actions), EndOfRun(Fresh, actions + [Poll(out)]);
    OnePoll(before, out);
    UpToAll(w.events, w.last);
    if w.late != [] {
      assert PointsOf(w.late)[0] in multiset(PointsOf(w.late));
    }
  }

  lemma OnePoll(w: World, out: seq<Interval>)
    requires Sound(w) && Run(w, [Poll(out)])
    ensures var w' := EndOfRun(w, [Poll(out)]);
      w' == After(w, Poll(out)) && forall k :: 0 <= k < |w'.events| ==> w'.events[k].at <= w'.last
  {
    assert [Poll(out)][1..] == [];
    WatermarkMoves(w, out);
  }

  /** Each recording shows a later time than everything recorded before it. */
  ghost predicate StrictClock(w: World, actions: seq<Action>)
    decreases |actions|
  {
    actions == [] ||
    ((actions[0].Record? || actions[0].TakeSample? ==> actions[0].t > w.now)
     && StrictClock(After(w, actions[0]), actions[1..]))
  }

  lemma {:induction false} NothingIsLate(w: World, actions: seq<Action>)
    requires Sound(w) && Run(w, actions) && StrictClock(w, actions) && w.late == []
    ensures EndOfRun(w, actions).late == []
    decreases |actions|
  {
    hide Possible, Balanced, Within;
    if actions != [] {
      ActionSound(w, actions[0]);
      NothingIsLate(After(w, actions[0]), actions[1..]);
    }
  }

  lemma ActionSound(w: World, a: Action)
    requires Sound(w) && Possible(w, a)
    ensures Sound(After(w, a))
  {
    if a.Poll? {
      PollSound(w, a.out);
    }
  }

  /** With a strictly advancing clock every event recorded by the last poll has been printed exactly once. */
  lemma ExactlyOncePrinted(actions: seq<Action>, out: seq<Interval>)
    requires Run(Fresh, actions + [Poll(out)]) && StrictClock(Fresh, actions + [Poll(out)])
    ensures var w := EndOfRun(Fresh, actions + [Poll(out)]);
      multiset(w.printed) == multiset(PointsOf(w.events)) + w.moments && ByFrom(w.printed)
  {
    PollPrints(actions, out);
    FreshIsFine();
    NothingIsLate(Fresh, actions + [Poll(out)]);
  }

  /**
   What a poll prints of the sampled conditions: the moments of the timeline that are later than the watermark,
   and beyond them what the watermark cuts off and what has only begun (`all` are the samples of the whole run).
   */
  lemma MomentsOfPoll(w: World, out: seq<Interval>, all: seq<Sample>, i: nat, c: Condition)
    requires Increasing(all) && i < |w.samples| <= |all| && w.samples == all[..|w.samples|]
    ensures var moment := Interval(c, all[i].at, all[i].at);
      After(w, Poll(out)).moments[moment] == w.moments[moment]
        + (if !InWindow(all[i].at, w.last, 0) then 0
           else multiset(Coalesce(all))[moment] + Beyond(all, |w.samples|, CutOff(all, w.last, i, c), i, c))
  {
    hide Coalesce, SamplesWithin, InWindow, Beyond, Increasing, Within;
    var shown := Coalesce(SamplesWithin(w.samples, w.last, 0));
    MomentsShown(all, |w.samples|, w.last, i, c);
    WithinExactly(shown, (x: Interval) => x.from == x.to, Interval(c, all[i].at, all[i].at));
  }

  /** Nothing else is a moment: whatever a poll prints of the sampled conditions is shown at one of the samples. */
  lemma MomentsAreSampled(w: World, x: Interval)
    requires x in PointsIn(Coalesce(SamplesWithin(w.samples, w.last, 0)))
    ensures x.from == x.to && exists i :: 0 <= i < |w.samples| && w.samples[i].at == x.from
  {
    var window := SamplesWithin(w.samples, w.last, 0);
    WithinMembers(Coalesce(window), (y: Interval) => y.from == y.to, x);
    hide Within, Heads;
    var k :| 0 <= k < |Coalesce(window)| && Coalesce(window)[k] == x;
    var s := window[Heads(window)[k].sample];
    WithinMembers(w.samples, (t: Sample) => InWindow(t.at, w.last, 0), s);
  }

  /** An interval that the watermark cuts is printed as a moment, although the timeline has no such moment. */
  lemma CutIntervalIsPrinted(c: Condition)
    ensures var all := [Sample(5, [c]), Sample(20, [c])]; var moment := Interval(c, 20, 20);
      var actions := [TakeSample(5, [c]), TakeSample(20, [c]), Poll([Interval(c, 5, 20)]), Poll([moment])];
      && Run(Fresh, actions) && EndOfRun(Fresh, actions).samples == all
      && EndOfRun(Fresh, actions).printed == [moment] && moment !in Coalesce(all)
  {
    var all := [Sample(5, [c]), Sample(20, [c])];
    var w2 := After(After(Fresh, TakeSample(5, [c])), TakeSample(20, [c]));
    assert [Sample(5, [c])] + [Sample(20, [c])] == all;
    assert w2 == World(20, [], all, 0, [], [], multiset{});
    TwoTimelines(c);
    hide Coalesce, Within, IsTimeline, Run, EndOfRun;
    var first, second := Poll([Interval(c, 5, 20)]), Poll([Interval(c, 20, 20)]);
    FourActions(Fresh, TakeSample(5, [c]), TakeSample(20, [c]), first, second);
  }

  lemma OneSample(at: Time, c: Condition)
    ensures Heads([Sample(at, [c])]) == [Pos(0, 0)] && Coalesce([Sample(at, [c])]) == [Interval(c, at, at)]
  {
    var ss := [Sample(at, [c])];
    HeadsOfNext(ss, 0, 1);
    assert HeadsOf(ss, 0, 0) == [] && ss[..0] == [] && Heads(ss[..0]) == [];
    hide HeadsOf;
    assert Heads(ss) == [Pos(0, 0)];
  }

  lemma TwoSamples(c: Condition)
    ensures Coalesce([Sample(5, [c]), Sample(20, [c])]) == [Interval(c, 5, 20)]
  {
    var ss := [Sample(5, [c]), Sample(20, [c])];
    OneSample(5, c);
    HeadsOfNext(ss, 1, 1);
    assert HeadsOf(ss, 1, 0) == [] && ss[..1] == [Sample(5, [c])];
    hide HeadsOf;
    assert Heads(ss) == [Pos(0, 0)];
    hide Heads;
    assert RunEnd(ss, 0, c) == 1;
  }

  lemma OneMoment(x: Interval)
    ensures PointsIn([x]) == if x.from == x.to then [x] else []
  {
    assert [x][..0] == [] && PointsIn([]) == [];
  }

  /** A view of samples alone that make one interval. */
  lemma LoneInterval(samples: seq<Sample>, last: Time, x: Interval)
    requires Coalesce(SamplesWithin(samples, last, 0)) == [x]
    ensures IsTimeline(samples, [], last, 0, [x])
  {
    assert EventsWithin([], last, 0) == [];
    assert PointsOf([]) == [];
    hide Coalesce, SamplesWithin, EventsWithin;
    assert multiset([x]) == multiset([x]) + multiset([]);
  }

  lemma TwoTimelines(c: Condition)
    ensures var all := [Sample(5, [c]), Sample(20, [c])];
      && IsTimeline(all, [], 0, 0, [Interval(c, 5, 20)]) && IsTimeline(all, [], 5, 0, [Interval(c, 20, 20)])
      && PointsIn([Interval(c, 5, 20)]) == [] && PointsIn([Interval(c, 20, 20)]) == [Interval(c, 20, 20)]
      && Interval(c, 20, 20) !in Coalesce(all)
  {
    hide Coalesce, IsTimeline, PointsIn, SamplesWithin;
    var all := [Sample(5, [c]), Sample(20, [c])];
    TwoSamples(c);
    OneSample(20, c);
    assert all[..2] == all[0..2] == all && all[1..2] == [Sample(20, [c])];
    var first := LaterThan(all, 2, 0);
    var second := LaterThan(all, 2, 5);
    assert first == 0 && second == 1 by {
      assert InWindow(all[0].at, 0, 0) && !InWindow(all[0].at, 5, 0) && InWindow(all[1].at, 5, 0);
    }
    LoneInterval(all, 0, Interval(c, 5, 20));
    LoneInterval(all, 5, Interval(c, 20, 20));
    OneMoment(Interval(c, 5, 20));
    OneMoment(Interval(c, 20, 20));
  }

  /** A clock that stands still loses events: one recorded at the watermark's own time is never printed. */
  lemma StandingClockLosesEvents(c: Condition, d: Condition)
    requires c != d
    ensures var actions := [Record(5, [c]), Poll([PointOf(Event(5, c))]), Record(5, [d]), Poll([])];
      && Run(Fresh, actions)
      && Event(5, d) in EndOfRun(Fresh, actions).events
      && PointOf(Event(5, d)) !in EndOfRun(Fresh, actions).printed
  {
    hide Run, EndOfRun, Possible, After;
    var a := Poll([PointOf(Event(5, c))]);
    FourActions(Fresh, Record(5, [c]), a, Record(5, [d]), Poll([]));
    StandingWorlds(c, d);
  }

  lemma StandingWorlds(c: Condition, d: Condition)
    requires c != d
    ensures var a := Poll([PointOf(Event(5, c))]);
            var w1 := After(Fresh, Record(5, [c]));
            var w2 := After(w1, a);
            var w3 := After(w2, Record(5, [d]));
            var w4 := After(w3, Poll([]));
      && Possible(Fresh, Record(5, [c])) && Possible(w1, a) && Possible(w2, Record(5, [d])) && Possible(w3, Poll([]))
      && Event(5, d) in w4.events && PointOf(Event(5, d)) !in w4.printed
  {
    var e, f := Event(5, c), Event(5, d);
    FirstPoll(e);
    OnlyEvents([e, f], 5, []);
    assert PointsOf([]) == [];
    var w1 := After(Fresh, Record(5, [c]));
    assert Recorded(5, [c]) == [e] && w1.events == [e];
    var w2 := After(w1, Poll([PointOf(e)]));
    assert w2.printed == [PointOf(e)] && w2.last == 5 && w2.events == [e] && w2.samples == [] && w2.now == 5;
    hide IsTimeline, PointsIn, PointsOf, Coalesce;
    SecondPoll(w2, e, f);
  }

  lemma FirstPoll(e: Event)
    requires e.at == 5
    ensures IsTimeline([], [e], 0, 0, [PointOf(e)]) && PointsIn([PointOf(e)]) == [PointOf(e)] && PointsIn([]) == []
  {
    OnlyEvents([e], 0, [e]);
    assert PointsOf([e]) == [PointOf(e)] && [PointOf(e)][..0] == [];
    hide IsTimeline;
    assert PointsIn([PointOf(e)]) == PointsIn([]) + [PointOf(e)];
  }

  lemma SecondPoll(w: World, e: Event, f: Event)
    requires w.events == [e] && w.samples == [] && w.last == 5 && w.printed == [PointOf(e)] && w.now == 5
    requires f.at == 5 && e.condition != f.condition && IsTimeline([], [e, f], 5, 0, [])
    ensures var w3 := After(w, Record(5, [f.condition])); var w4 := After(w3, Poll([]));
      && Possible(w, Record(5, [f.condition])) && Possible(w3, Poll([]))
      && f in w4.events && PointOf(f) !in w4.printed
  {
    hide IsTimeline, PointsIn, SamplesWithin, Coalesce;
    OneMoreEvent(w, f);
    PollNothing(After(w, Record(5, [f.condition])));
    assert [e] + [f] == [e, f] && w.samples == [];
  }

  lemma OneMoreEvent(w: World, e: Event)
    ensures var w' := After(w, Record(e.at, [e.condition]));
      && w'.events == w.events + [e] && w'.samples == w.samples
      && w'.printed == w.printed && w'.last == w.last && w'.now == e.at
  {
    assert Recorded(e.at, [e.condition]) == [e];
    hide Recorded;
  }

  lemma PollNothing(w: World)
    ensures After(w, Poll([])).printed == w.printed && After(w, Poll([])).events == w.events
  {
    assert PointsIn([]) == [];
  }

  lemma FourActions(w: World, a: Action, b: Action, c: Action, d: Action)
    ensures var w1 := After(w, a); var w2 := After(w1, b); var w3 := After(w2, c);
      && EndOfRun(w, [a, b, c, d]) == After(w3, d)
      && (Run(w, [a, b, c, d]) <==> Possible(w, a) && Possible(w1, b) && Possible(w2, c) && Possible(w3, d))
  {
    hide Run, EndOfRun, Possible, After;
    var w1 := After(w, a);
    var w2 := After(w1, b);
    var w3 := After(w2, c);
    assert [a] + [b, c, d] == [a, b, c, d] && [b] + [c, d] == [b, c, d] && [c] + [d] == [c, d] && [d] + [] == [d];
    RunOf(w, a, [b, c, d]);
    RunOf(w1, b, [c, d]);
    RunOf(w2, c, [d]);
    RunOf(w3, d, []);
    EmptyRun(After(w3, d));
  }

  lemma EmptyRun(w: World)
    ensures Run(w, []) && EndOfRun(w, []) == w
  {
  }

  lemma RunOf(w: World, a: Action, rest: seq<Action>)
    ensures Run(w, [a] + rest) <==> Possible(w, a) && Run(After(w, a), rest)
    ensures EndOfRun(w, [a] + rest) == EndOfRun(After(w, a), rest)
  {
    hide Possible, After;
    assert ([a] + rest)[1..] == rest;
  }

  lemma OnlyEvents(events: seq<Event>, last: Time, new_: seq<Event>)
    requires forall k :: 0 <= k < |events| ==> events[k].at == 5
    requires (last == 0 && new_ == events) || (last == 5 && new_ == [])
    ensures IsTimeline([], events, last, 0, PointsOf(new_))
  {
    WithinAll(events, (e: Event) => EventInWindow(e.at, last, 0), last == 0);
    assert Coalesce([]) == [];
  }
}
