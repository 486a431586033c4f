/** The monitor's coalescer: intervals are objects, extended through the maps that point at them. */
module Intervals {
  import opened Timeline
  import opened Coalescing

  class EventInterval {
    var condition: Condition
    var from: Time
    var to: Time

    constructor (condition: Condition, from: Time, to: Time)
      ensures Value() == Interval(condition, from, to)
    {
      this.condition, this.from, this.to := condition, from, to;
    }

    function Value(): Interval
      reads this
    {
      Interval(condition, from, to)
    }
  }

  ghost function Values(xs: seq<EventInterval>): (vs: seq<Interval>)
    reads xs
    ensures |vs| == |xs| && forall k :: 0 <= k < |xs| ==> vs[k] == xs[k].Value()
  {
    if xs == [] then [] else [xs[0].Value()] + Values(xs[1..])
  }

  /** `m` sends exactly the conditions of `conditions` to their running intervals. */
  ghost predicate Points(m: map<Condition, EventInterval>, at: map<Condition, nat>, conditions: seq<Condition>,
                         intervals: seq<EventInterval>, ss: seq<Sample>)
  {
    && m.Keys == at.Keys && (forall c :: c in m <==> c in conditions)
    && forall c :: c in m ==> at[c] < |intervals| && m[c] == intervals[at[c]] && Opens(ss, c, at[c])
  }

  lemma PointsStill(m: map<Condition, EventInterval>, at: map<Condition, nat>, conditions: seq<Condition>,
                    intervals: seq<EventInterval>, ss: seq<Sample>, intervals': seq<EventInterval>)
    requires Points(m, at, conditions, intervals, ss) && intervals <= intervals'
    ensures Points(m, at, conditions, intervals', ss)
  {
    hide Opens;
  }

  /** The conditions of the sample before `i`. */
  function Previous(ss: seq<Sample>, i: nat): seq<Condition>
    requires i <= |ss|
  {
    if i == 0 then [] else ss[i - 1].conditions
  }

  ghost predicate Distinct(intervals: seq<EventInterval>) {
    forall i, j :: 0 <= i < j < |intervals| ==> intervals[i] != intervals[j]
  }

  /** Sets the end of interval number `k`. */
  method Extend(intervals: seq<EventInterval>, ghost k: nat, interval: EventInterval, to: Time)
    requires Distinct(intervals) && k < |intervals| && intervals[k] == interval
    modifies interval`to
    ensures Values(intervals) == old(Values(intervals)[k := Values(intervals)[k].(to := to)])
  {
    interval.to := to;
  }

  /** One condition of a sample: its running interval is extended, or a new one begins. */
  method Observe(ss: seq<Sample>, i: nat, j: nat, intervals: seq<EventInterval>,
                 last: map<Condition, EventInterval>, next: map<Condition, EventInterval>,
                 ghost lastAt: map<Condition, nat>, ghost nextAt: map<Condition, nat>)
    returns (intervals': seq<EventInterval>, next': map<Condition, EventInterval>, ghost nextAt': map<Condition, nat>)
    requires i < |ss| && j < |ss[i].conditions| && Distinct(intervals)
    requires Values(intervals) == Coalesce(Partial(ss, i, j))
    requires Points(last, lastAt, Previous(ss, i), intervals, ss[..i])
    requires Points(next, nextAt, ss[i].conditions[..j], intervals, Partial(ss, i, j))
    modifies intervals
    ensures intervals <= intervals' && Distinct(intervals')
    ensures forall k :: |intervals| <= k < |intervals'| ==> fresh(intervals'[k])
    ensures Values(intervals') == Coalesce(Partial(ss, i, j + 1))
    ensures Points(next', nextAt', ss[i].conditions[..j + 1], intervals', Partial(ss, i, j + 1))
  {
    hide Coalesce, Values, Opens, Partial, Points, Previous, Distinct;
    var c := ss[i].conditions[j];
    if c in last {
      ghost var k := PointsAt(last, lastAt, Previous(ss, i), intervals, ss[..i], c);
      StepExtend(ss, i, j, k);
      PointsNext(ss, i, j, intervals, next, nextAt, k, intervals);
      Extend(intervals, k, last[c], ss[i].at);
      intervals', next', nextAt' := intervals, next[c := last[c]], nextAt[c := k];
    } else {
      PointsNowhere(ss, i, j, intervals, last, lastAt);
      var interval := new EventInterval(c, ss[i].at, ss[i].at);
      intervals' := intervals + [interval];
      StepBegin(ss, i, j);
      PointsNext(ss, i, j, intervals, next, nextAt, |intervals|, intervals');
      OneMore(intervals, interval);
      next', nextAt' := next[c := interval], nextAt[c := |intervals|];
    }
  }

  lemma OneMore(intervals: seq<EventInterval>, interval: EventInterval)
    requires Distinct(intervals) && interval !in intervals
    ensures Distinct(intervals + [interval])
    ensures Values(intervals + [interval]) == Values(intervals) + [interval.Value()]
  {
    hide Values;
  }

  lemma PointsAt(m: map<Condition, EventInterval>, at: map<Condition, nat>, conditions: seq<Condition>,
                 intervals: seq<EventInterval>, ss: seq<Sample>, c: Condition) returns (k: nat)
    requires Points(m, at, conditions, intervals, ss) && c in m
    ensures k < |intervals| && m[c] == intervals[k] && Opens(ss, c, k)
  {
    hide Opens;
    k := at[c];
  }

  lemma PointsNowhere(ss: seq<Sample>, i: nat, j: nat, intervals: seq<EventInterval>,
                      last: map<Condition, EventInterval>, lastAt: map<Condition, nat>)
    requires i < |ss| && j < |ss[i].conditions| && ss[i].conditions[j] !in last
    requires Points(last, lastAt, Previous(ss, i), intervals, ss[..i])
    ensures Begins(ss, i, ss[i].conditions[j])
  {
    hide Opens;
  }

  lemma PointsNext(ss: seq<Sample>, i: nat, j: nat, intervals: seq<EventInterval>,
                   next: map<Condition, EventInterval>, nextAt: map<Condition, nat>, k: nat,
                   intervals': seq<EventInterval>)
    requires i < |ss| && j < |ss[i].conditions| && intervals <= intervals' && k < |intervals'|
    requires Points(next, nextAt, ss[i].conditions[..j], intervals, Partial(ss, i, j))
    requires Opens(Partial(ss, i, j + 1), ss[i].conditions[j], k)
    ensures var c := ss[i].conditions[j];
      Points(next[c := intervals'[k]], nextAt[c := k], ss[i].conditions[..j + 1], intervals', Partial(ss, i, j + 1))
  {
    hide Opens, Partial;
    var t, t', c := Partial(ss, i, j), Partial(ss, i, j + 1), ss[i].conditions[j];
    forall d | d in next && d != c ensures Opens(t', d, nextAt[d]) {
      StepKeeps(ss, i, j, d, nextAt[d]);
    }
    hide Points;
  }

  /** One sample: the conditions seen become the next map. */
  method TakeIn(ss: seq<Sample>, i: nat, intervals: seq<EventInterval>, last: map<Condition, EventInterval>,
                ghost lastAt: map<Condition, nat>)
    returns (intervals': seq<EventInterval>, next: map<Condition, EventInterval>, ghost nextAt: map<Condition, nat>)
    requires i < |ss| && Distinct(intervals) && Values(intervals) == Coalesce(ss[..i])
    requires Points(last, lastAt, Previous(ss, i), intervals, ss[..i])
    modifies intervals
    ensures intervals <= intervals' && Distinct(intervals')
    ensures forall k :: |intervals| <= k < |intervals'| ==> fresh(intervals'[k])
    ensures Values(intervals') == Coalesce(ss[..i + 1])
    ensures Points(next, nextAt, Previous(ss, i + 1), intervals', ss[..i + 1])
  {
    hide Coalesce, Values, Points, Partial, Previous, Distinct;
    intervals', next, nextAt := intervals, map[], map[];
    StartOfSample(ss, i);
    NothingPointed(intervals, Partial(ss, i, 0));
    for j := 0 to |ss[i].conditions|
      invariant intervals <= intervals' && Distinct(intervals')
      invariant forall k :: |intervals| <= k < |intervals'| ==> fresh(intervals'[k])
      invariant Values(intervals') == Coalesce(Partial(ss, i, j))
      invariant Points(last, lastAt, Previous(ss, i), intervals', ss[..i])
      invariant Points(next, nextAt, ss[i].conditions[..j], intervals', Partial(ss, i, j))
    {
      var longer;
      longer, next, nextAt := Observe(ss, i, j, intervals', last, next, lastAt, nextAt);
      PointsStill(last, lastAt, Previous(ss, i), intervals', ss[..i], longer);
      intervals' := longer;
    }
    EndOfSample(ss, i);
    WholeSample(ss, i);
  }

  lemma WholeSample(ss: seq<Sample>, i: nat)
    requires i < |ss|
    ensures ss[i].conditions[..|ss[i].conditions|] == Previous(ss, i + 1)
  {
  }

  lemma NothingPointed(intervals: seq<EventInterval>, ss: seq<Sample>)
    ensures Points(map[], map[], [], intervals, ss)
  {
  }

  lemma NothingYet(ss: seq<Sample>)
    ensures Values([]) == Coalesce(ss[..0]) == [] && Previous(ss, 0) == []
  {
  }

  /** One pass over the samples; the two maps change roles after each sample. */
  method CoalesceSamples(ss: seq<Sample>) returns (intervals: seq<EventInterval>)
    ensures fresh(intervals) && Distinct(intervals)
    ensures Values(intervals) == Coalesce(ss)
  {
    hide Coalesce, Values, Points, Previous;
    intervals := [];
    var last: map<Condition, EventInterval> := map[];
    ghost var lastAt: map<Condition, nat> := map[];
    NothingYet(ss);
    NothingPointed([], ss[..0]);
    for i := 0 to |ss|
      invariant fresh(intervals) && Distinct(intervals)
      invariant Values(intervals) == Coalesce(ss[..i])
      invariant Points(last, lastAt, Previous(ss, i), intervals, ss[..i])
    {
      intervals, last, lastAt := TakeIn(ss, i, intervals, last, lastAt);
    }
    assert ss[..|ss|] == ss;
  }
}
