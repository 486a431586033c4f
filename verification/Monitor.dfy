/** The monitor: an append-only log of events and of samples, and windowed views of both. */
module Monitor {
  import opened Timeline
  import opened Intervals
  import opened Ordering

  /** What a windowed view asks of a time; a zero bound is no bound. */
  predicate InWindow(at: Time, from: Time, to: Time) {
    (from == 0 || at > from) && (to == 0 || at <= to)
  }

  /** The filter of the events applies `from` even when it is zero, unless both bounds are. */
  predicate EventInWindow(at: Time, from: Time, to: Time) {
    (from == 0 && to == 0) || (at > from && (to == 0 || at <= to))
  }

  function Within<T>(xs: seq<T>, inside: T -> bool): seq<T> {
    if xs == [] then [] else
    var n := |xs| - 1;
    Within(xs[..n], inside) + if inside(xs[n]) then [xs[n]] else []
  }

  lemma {:induction false} WithinAll<T>(xs: seq<T>, inside: T -> bool, want: bool)
    requires forall x :: x in xs ==> inside(x) == want
    ensures Within(xs, inside) == if want then xs else []
  {
    if xs != [] {
      var n := |xs| - 1;
      WithinAll(xs[..n], inside, want);
      assert xs[n] in xs && xs == xs[..n] + [xs[n]];
    }
  }

  lemma {:induction false} WithinConcat<T>(a: seq<T>, b: seq<T>, inside: T -> bool)
    ensures Within(a + b, inside) == Within(a, inside) + Within(b, inside)
  {
    if b == [] {
      assert a + b == a;
    } else {
      var n := |b| - 1;
      assert (a + b)[..|a + b| - 1] == a + b[..n];
      WithinConcat(a, b[..n], inside);
    }
  }

  lemma WithinOne<T>(x: T, inside: T -> bool)
    ensures Within([x], inside) == if inside(x) then [x] else []
  {
    assert [x][..0] == [];
    assert Within([x][..0], inside) == [];
  }

  lemma {:induction false} WithinExactly<T>(xs: seq<T>, inside: T -> bool, x: T)
    ensures multiset(Within(xs, inside))[x] == if inside(x) then multiset(xs)[x] else 0
  {
    if xs != [] {
      var n := |xs| - 1;
      WithinExactly(xs[..n], inside, x);
      assert xs == xs[..n] + [xs[n]];
    }
  }

  /** A middle piece with nothing wanted around it is what a filter keeps. */
  lemma {:induction false} WithinMiddle<T>(xs: seq<T>, lo: nat, hi: nat, inside: T -> bool)
    requires lo <= hi <= |xs|
    requires forall k :: 0 <= k < |xs| ==> (inside(xs[k]) <==> lo <= k < hi)
    ensures Within(xs, inside) == xs[lo..hi]
  {
    if xs != [] {
      var n := |xs| - 1;
      var front := xs[..n];
      if hi <= n {
        WithinMiddle(front, lo, hi, inside);
        assert front[lo..hi] == xs[lo..hi];
      } else if lo <= n {
        WithinMiddle(front, lo, n, inside);
        assert xs[lo..hi] == front[lo..n] + [xs[n]];
      } else {
        WithinMiddle(front, n, n, inside);
      }
    }
  }

  /** `sort.Search` for the first element later than `x`: a boundary, whether or not `xs` is sorted. */
  method Search<T>(xs: seq<T>, at: T -> Time, x: Time) returns (first: nat)
    ensures first <= |xs|
    ensures first < |xs| ==> at(xs[first]) > x
    ensures first > 0 ==> at(xs[first - 1]) <= x
  {
    var i, j := 0, |xs|;
    while i < j
      invariant 0 <= i <= j <= |xs|
      invariant i > 0 ==> at(xs[i - 1]) <= x
      invariant j < |xs| ==> at(xs[j]) > x
    {
      var h := (i + j) / 2;
      if at(xs[h]) > x {
        j := h;
      } else {
        i := h + 1;
      }
    }
    first := i;
  }

  function SampleTime(s: Sample): Time { s.at }
  function EventTime(e: Event): Time { e.at }

  ghost predicate InOrder(events: seq<Event>) {
    forall i, j :: 0 <= i <= j < |events| ==> events[i].at <= events[j].at
  }

  function SamplesWithin(samples: seq<Sample>, from: Time, to: Time): seq<Sample> {
    Within(samples, (s: Sample) => InWindow(s.at, from, to))
  }

  function EventsWithin(events: seq<Event>, from: Time, to: Time): seq<Event> {
    Within(events, (e: Event) => EventInWindow(e.at, from, to))
  }

  /** A sample belongs to a window if it is later than `from` and not later than `to`; zero bounds do not bound. */
  lemma WhichSamples(samples: seq<Sample>, from: Time, to: Time, s: Sample)
    ensures multiset(SamplesWithin(samples, from, to))[s] ==
      if (from == 0 || from < s.at) && (to == 0 || s.at <= to) then multiset(samples)[s] else 0
  {
    WithinExactly(samples, (t: Sample) => InWindow(t.at, from, to), s);
  }

  /** For events a zero `from` bounds unless `to` is zero as well; an event at exactly `to` belongs. */
  lemma WhichEvents(events: seq<Event>, from: Time, to: Time, e: Event)
    ensures multiset(EventsWithin(events, from, to))[e] ==
      if (from < e.at || (from == 0 && to == 0)) && (to == 0 || e.at <= to) then multiset(events)[e] else 0
  {
    WithinExactly(events, (f: Event) => EventInWindow(f.at, from, to), e);
  }

  /** The samples of the window, found by a binary and a linear search. */
  method SampleWindow(samples: seq<Sample>, from: Time, to: Time) returns (window: seq<Sample>)
    requires Nondecreasing(samples)
    ensures window == SamplesWithin(samples, from, to)
  {
    var first := 0;
    if from != 0 {
      first := Search(samples, SampleTime, from);
    }
    var end := |samples|;
    if to != 0 {
      end := first;
      while end < |samples| && samples[end].at <= to
        invariant first <= end <= |samples|
        invariant forall k :: first <= k < end ==> samples[k].at <= to
      {
        end := end + 1;
      }
    }
    WithinMiddle(samples, first, end, (s: Sample) => InWindow(s.at, from, to));
    window := samples[first..end];
  }

  method FilterSamples(samples: seq<Sample>, from: Time, to: Time) returns (intervals: seq<EventInterval>)
    requires Nondecreasing(samples)
    ensures fresh(intervals) && Distinct(intervals)
    ensures Values(intervals) == Coalesce(SamplesWithin(samples, from, to))
  {
    hide Coalesce;
    var window := SampleWindow(samples, from, to);
    intervals := CoalesceSamples(window);
  }

  method FilterEvents(events: seq<Event>, from: Time, to: Time) returns (r: seq<Event>)
    requires InOrder(events)
    ensures r == EventsWithin(events, from, to)
  {
    var inside := (e: Event) => EventInWindow(e.at, from, to);
    if from == 0 && to == 0 {
      WithinAll(events, inside, true);
      return events;
    }
    var first := Search(events, EventTime, from);
    var end := |events|;
    if to != 0 {
      end := first;
      while end < |events| && events[end].at <= to
        invariant first <= end <= |events|
        invariant forall k :: first <= k < end ==> events[k].at <= to
      {
        end := end + 1;
      }
    }
    WithinMiddle(events, first, end, inside);
    r := events[first..end];
  }

  /** The interval of a single moment that stands for an event. */
  function PointOf(e: Event): Interval {
    Interval(e.condition, e.at, e.at)
  }

  function PointsOf(events: seq<Event>): seq<Interval> {
    seq(|events|, k requires 0 <= k < |events| => PointOf(events[k]))
  }

  ghost predicate ByFrom(xs: seq<Interval>) {
    forall i, j :: 0 <= i < j < |xs| ==> xs[i].from <= xs[j].from
  }

  /** A list that `Events` may return for a window, whatever the sort does with equivalent intervals. */
  ghost predicate IsTimeline(samples: seq<Sample>, events: seq<Event>, from: Time, to: Time, out: seq<Interval>) {
    && multiset(out) ==
         multiset(Coalesce(SamplesWithin(samples, from, to))) + multiset(PointsOf(EventsWithin(events, from, to)))
    && ByFrom(out)
  }

  function Gather(samplers: seq<Time -> seq<Condition>>, now: Time): seq<Condition> {
    if samplers == [] then [] else
    Gather(samplers[..|samplers| - 1], now) + samplers[|samplers| - 1](now)
  }

  lemma {:induction false} GatherConcat(a: seq<Time -> seq<Condition>>, b: seq<Time -> seq<Condition>>, now: Time)
    ensures Gather(a + b, now) == Gather(a, now) + Gather(b, now)
  {
    if b == [] {
      assert a + b == a;
    } else {
      var n := |b| - 1;
      assert (a + b)[..|a + b| - 1] == a + b[..n];
      GatherConcat(a, b[..n], now);
    }
  }

  lemma GatherOne(f: Time -> seq<Condition>, now: Time)
    ensures Gather([f], now) == f(now)
  {
    assert [f][..0] == [];
    assert Gather([f][..0], now) == [];
  }

  /** How often a condition is reported over all samplers. */
  function ReportedBy(samplers: seq<Time -> seq<Condition>>, now: Time, c: Condition): nat {
    if samplers == [] then 0
    else multiset(samplers[0](now))[c] + ReportedBy(samplers[1..], now, c)
  }

  /** Every report of every sampler is gathered, and nothing else. */
  lemma {:induction false} GatherCounts(samplers: seq<Time -> seq<Condition>>, now: Time, c: Condition)
    ensures multiset(Gather(samplers, now))[c] == ReportedBy(samplers, now, c)
  {
    if samplers != [] {
      var first, rest := samplers[0], samplers[1..];
      GatherCounts(rest, now, c);
      GatherConcat([first], rest, now);
      GatherOne(first, now);
      assert samplers == [first] + rest;
      hide Gather;
    }
  }

  class Monitor {
    var samplers: seq<Time -> seq<Condition>>
    var events: seq<Event>
    var samples: seq<Sample>

    /** The log as left by a clock that never goes back and last showed `now`. */
    ghost predicate Valid(now: Time)
      reads this
    {
      && InOrder(events) && Nondecreasing(samples)
      && (forall k :: 0 <= k < |events| ==> events[k].at <= now)
      && (forall k :: 0 <= k < |samples| ==> samples[k].at <= now)
    }

    constructor ()
      ensures samplers == [] && events == [] && samples == []
    {
      samplers, events, samples := [], [], [];
    }

    method AddSampler(fn: Time -> seq<Condition>)
      modifies this`samplers
      ensures samplers == old(samplers) + [fn]
    {
      samplers := samplers + [fn];
    }

    /** Appends the conditions at one time `t`, read under the lock. */
    method Record(conditions: seq<Condition>, ghost now: Time, t: Time)
      requires Valid(now) && now <= t
      modifies this`events
      ensures Valid(t)
      ensures events == old(events) + seq(|conditions|, k requires 0 <= k < |conditions| => Event(t, conditions[k]))
    {
      for i := 0 to |conditions|
        invariant events == old(events) + seq(i, k requires 0 <= k < i => Event(t, conditions[k]))
      {
        events := events + [Event(t, conditions[i])];
      }
    }

    /** Asks the samplers at time `s` and records their conditions at time `t`, but no empty sample. */
    method TakeSample(ghost now: Time, s: Time, t: Time)
      requires Valid(now) && now <= t
      modifies this`samples
      ensures Valid(t)
      ensures var conditions := Gather(samplers, s);
        samples == if conditions == [] then old(samples) else old(samples) + [Sample(t, conditions)]
    {
      var conditions := [];
      for i := 0 to |samplers|
        invariant conditions == Gather(samplers[..i], s)
      {
        assert samplers[..i + 1][..i] == samplers[..i];
        conditions := conditions + samplers[i](s);
      }
      assert samplers[..|samplers|] == samplers;
      if |conditions| == 0 {
        return;
      }
      samples := samples + [Sample(t, conditions)];
    }

    method Conditions(ghost now: Time, from: Time, to: Time) returns (intervals: seq<EventInterval>)
      requires Valid(now)
      ensures fresh(intervals) && Values(intervals) == Coalesce(SamplesWithin(samples, from, to))
    {
      intervals := FilterSamples(samples, from, to);
    }

    /**
     Sampled intervals and recorded events of a window, in time order: sorted if there are sampled intervals, and
     the events as they were recorded if there are none.
     */
    method Events(ghost now: Time, from: Time, to: Time) returns (r: seq<EventInterval>)
      requires Valid(now)
      ensures IsTimeline(samples, events, from, to, Values(r))
      ensures
        if Coalesce(SamplesWithin(samples, from, to)) == [] then Values(r) == PointsOf(EventsWithin(events, from, to))
        else Sorted(Values(r))
    {
      hide Coalesce, Within, Values, Gather;
      var intervals := FilterSamples(samples, from, to);
      var inside := FilterEvents(events, from, to);
      var mustSort := |intervals| > 0;
      r := AppendPoints(intervals, inside);
      if mustSort {
        r := Sort(r);
        SortedByFrom(Values(r));
      } else {
        InOrderWithin(events, from, to);
      }
    }
  }

  method AppendPoints(intervals: seq<EventInterval>, events: seq<Event>) returns (r: seq<EventInterval>)
    ensures Values(r) == Values(intervals) + PointsOf(events)
  {
    hide Values;
    r := intervals;
    for i := 0 to |events|
      invariant Values(r) == Values(intervals) + PointsOf(events[..i])
    {
      var point := new EventInterval(events[i].condition, events[i].at, events[i].at);
      r := r + [point];
    }
    assert events[..|events|] == events;
  }

  lemma InOrderWithin(events: seq<Event>, from: Time, to: Time)
    requires InOrder(events)
    ensures ByFrom(PointsOf(EventsWithin(events, from, to)))
  {
    WithinInOrder(events, (e: Event) => EventInWindow(e.at, from, to));
  }

  lemma {:induction false} WithinInOrder(events: seq<Event>, inside: Event -> bool)
    requires InOrder(events)
    ensures InOrder(Within(events, inside))
    ensures forall e :: e in Within(events, inside) ==> e in events && inside(e)
  {
    if events != [] {
      var n := |events| - 1;
      WithinInOrder(events[..n], inside);
      assert forall e :: e in events[..n] ==> e.at <= events[n].at;
      OneLater(Within(events[..n], inside), events[n]);
      hide InOrder;
    }
  }

  lemma OneLater(events: seq<Event>, e: Event)
    requires InOrder(events)
    ensures (forall f :: f in events ==> f.at <= e.at) ==> InOrder(events + [e])
  {
    assert forall i :: 0 <= i < |events| ==> events[i] in events;
  }
}
