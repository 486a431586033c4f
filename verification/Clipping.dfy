/** Looking at a window of the samples against clipping the whole timeline to it, repeated conditions included. */
module Clipping {
  import opened Timeline
  import opened Coalescing
  import opened Windows

  function Max(a: int, b: int): int { if a < b then b else a }
  function Min(a: int, b: int): int { if a < b then a else b }

  predicate Touches(x: Interval, first: Time, last: Time) {
    Max(x.from, first) <= Min(x.to, last)
  }

  function Clip(x: Interval, first: Time, last: Time): Interval {
    Interval(x.condition, Max(x.from, first), Min(x.to, last))
  }

  /** The parts of the intervals between two sample times; empty parts are dropped. */
  function ClipAll(xs: seq<Interval>, first: Time, last: Time): seq<Interval> {
    if xs == [] then [] else
    var n := |xs| - 1;
    ClipAll(xs[..n], first, last) + if Touches(xs[n], first, last) then [Clip(xs[n], first, last)] else []
  }

  function Is(y: Interval): Interval -> bool {
    (x: Interval) => x == y
  }

  function ClipsTo(first: Time, last: Time, y: Interval): Interval -> bool {
    (x: Interval) => Touches(x, first, last) && Clip(x, first, last) == y
  }

  // ---- counting intervals sample by sample ----

  function One(b: bool): nat { if b then 1 else 0 }

  function Count(xs: seq<Interval>, want: Interval -> bool): nat {
    if xs == [] then 0 else Count(xs[..|xs| - 1], want) + One(want(xs[|xs| - 1]))
  }

  lemma {:induction false} CountConcat(xs: seq<Interval>, ys: seq<Interval>, want: Interval -> bool)
    ensures Count(xs + ys, want) == Count(xs, want) + Count(ys, want)
  {
    if ys == [] {
      assert xs + ys == xs;
    } else {
      var n := |ys| - 1;
      assert (xs + ys)[..|xs + ys| - 1] == xs + ys[..n];
      CountConcat(xs, ys[..n], want);
    }
  }

  lemma {:induction false} CountEqual(xs: seq<Interval>, y: Interval)
    ensures multiset(xs)[y] == Count(xs, Is(y))
  {
    if xs != [] {
      var n := |xs| - 1;
      CountEqual(xs[..n], y);
      assert xs == xs[..n] + [xs[n]];
    }
  }

  lemma {:induction false} CountClips(xs: seq<Interval>, first: Time, last: Time, y: Interval)
    ensures multiset(ClipAll(xs, first, last))[y] == Count(xs, ClipsTo(first, last, y))
  {
    hide Touches, Clip;
    if xs != [] {
      CountClips(xs[..|xs| - 1], first, last, y);
    }
  }

  /** The intervals begun at some positions. */
  function IntervalsAt(ss: seq<Sample>, ps: seq<Pos>): seq<Interval>
    requires forall p :: p in ps ==> IsPos(ss, p)
  {
    seq(|ps|, k requires 0 <= k < |ps| => assert ps[k] in ps; IntervalAt(ss, ps[k]))
  }

  function Times(c: Condition, conditions: seq<Condition>): nat {
    multiset(conditions)[c]
  }

  /**
   How many intervals with a property sample `i` begins for `c`: none if it does not begin a run; otherwise
   a moment for each report but the last, and the whole run for the last.
   */
  function Begun(ss: seq<Sample>, i: nat, c: Condition, want: Interval -> bool): nat
    requires i < |ss|
  {
    if c in ss[i].conditions && Begins(ss, i, c) then
      (if want(Interval(c, ss[i].at, ss[i].at)) then Times(c, ss[i].conditions) - 1 else 0)
        + One(want(Interval(c, ss[i].at, ss[RunEnd(ss, i, c)].at)))
    else 0
  }

  function BegunBefore(ss: seq<Sample>, n: nat, c: Condition, want: Interval -> bool): nat
    requires n <= |ss|
  {
    if n == 0 then 0 else BegunBefore(ss, n - 1, c, want) + Begun(ss, n - 1, c, want)
  }

  function Of(c: Condition, want: Interval -> bool): Interval -> bool {
    (x: Interval) => x.condition == c && want(x)
  }

  /** The same among the first `m` reports of the sample. */
  function BegunAmong(ss: seq<Sample>, i: nat, m: nat, c: Condition, want: Interval -> bool): nat
    requires i < |ss| && m <= |ss[i].conditions|
  {
    if c in ss[i].conditions[..m] && Begins(ss, i, c) then
      var whole := One(LastIndex(ss[i].conditions, c) < m);
      (if want(Interval(c, ss[i].at, ss[i].at)) then Times(c, ss[i].conditions[..m]) - whole else 0)
        + (if want(Interval(c, ss[i].at, ss[RunEnd(ss, i, c)].at)) then whole else 0)
    else 0
  }

  lemma NextReport(conditions: seq<Condition>, m: nat, c: Condition)
    requires 0 < m <= |conditions|
    ensures Times(c, conditions[..m]) == Times(c, conditions[..m - 1]) + One(conditions[m - 1] == c)
    ensures c in conditions[..m] <==> c in conditions[..m - 1] || conditions[m - 1] == c
  {
    assert conditions[..m] == conditions[..m - 1] + [conditions[m - 1]];
  }

  /** Whether a report begins an interval with the property. */
  function BegunBy(ss: seq<Sample>, p: Pos, c: Condition, want: Interval -> bool): nat
    requires IsPos(ss, p)
  {
    One(Begins(ss, p.sample, At(ss, p)) && Of(c, want)(IntervalAt(ss, p)))
  }

  function SumOfReports(ss: seq<Sample>, i: nat, m: nat, c: Condition, want: Interval -> bool): nat
    requires i < |ss| && m <= |ss[i].conditions|
  {
    if m == 0 then 0 else SumOfReports(ss, i, m - 1, c, want) + BegunBy(ss, Pos(i, m - 1), c, want)
  }

  lemma HeadsOfInside(ss: seq<Sample>, i: nat, m: nat)
    requires i < |ss| && m <= |ss[i].conditions|
    ensures forall p :: p in HeadsOf(ss, i, m) ==> IsPos(ss, p)
  {
    hide HeadsOf;
  }

  lemma NothingCounted(ss: seq<Sample>, want: Interval -> bool)
    ensures Count(IntervalsAt(ss, []), want) == 0
  {
  }

  lemma HeadsOfNone(ss: seq<Sample>, i: nat)
    requires i < |ss|
    ensures HeadsOf(ss, i, 0) == []
  {
  }

  lemma {:induction false} CountIsSum(ss: seq<Sample>, i: nat, m: nat, c: Condition, want: Interval -> bool)
    requires i < |ss| && m <= |ss[i].conditions|
    ensures Count(IntervalsAt(ss, HeadsOf(ss, i, m)), Of(c, want)) == SumOfReports(ss, i, m, c, want)
  {
    hide HeadsOf, IntervalAt, Of, Count, IntervalsAt;
    if m == 0 {
      HeadsOfNone(ss, i);
      NothingCounted(ss, Of(c, want));
    } else {
      CountIsSum(ss, i, m - 1, c, want);
      HeadsOfNext(ss, i, m);
      var p := Pos(i, m - 1);
      var before := HeadsOf(ss, i, m - 1);
      HeadsOfInside(ss, i, m - 1);
      CountOneMore(ss, before, p, Of(c, want));
      assert before + [] == before;
    }
  }

  lemma CountOneMore(ss: seq<Sample>, ps: seq<Pos>, p: Pos, want: Interval -> bool)
    requires IsPos(ss, p) && forall q :: q in ps ==> IsPos(ss, q)
    ensures Count(IntervalsAt(ss, ps + [p]), want) == Count(IntervalsAt(ss, ps), want) + One(want(IntervalAt(ss, p)))
  {
    hide IntervalAt;
    var xs := IntervalsAt(ss, ps + [p]);
    assert xs[..|xs| - 1] == IntervalsAt(ss, ps);
  }

  lemma {:induction false} SumIsFormula(ss: seq<Sample>, i: nat, m: nat, c: Condition, want: Interval -> bool)
    requires i < |ss| && m <= |ss[i].conditions|
    ensures SumOfReports(ss, i, m, c, want) == BegunAmong(ss, i, m, c, want)
  {
    if m > 0 {
      SumIsFormula(ss, i, m - 1, c, want);
      hide Times, SumOfReports, BegunBy, BegunAmong;
      FormulaNext(ss, i, m, c, want);
    }
  }

  lemma FormulaNext(ss: seq<Sample>, i: nat, m: nat, c: Condition, want: Interval -> bool)
    requires i < |ss| && 0 < m <= |ss[i].conditions|
    ensures BegunAmong(ss, i, m, c, want) == BegunAmong(ss, i, m - 1, c, want) + BegunBy(ss, Pos(i, m - 1), c, want)
  {
    NextReport(ss[i].conditions, m, c);
    NoneReported(ss[i].conditions, m - 1, c);
    hide LastIndex, Times;
    if ss[i].conditions[m - 1] == c {
      hide BegunBy, RunEnd;
    } else {
      hide RunEnd, IntervalAt;
    }
  }

  lemma NoneReported(conditions: seq<Condition>, m: nat, c: Condition)
    requires m <= |conditions|
    ensures c !in conditions[..m] ==>
      Times(c, conditions[..m]) == 0 && (c in conditions ==> LastIndex(conditions, c) >= m)
  {
    if c in conditions && c !in conditions[..m] {
      assert conditions[LastIndex(conditions, c)] == c;
      assert forall k :: 0 <= k < m ==> conditions[..m][k] == conditions[k];
    }
  }

  lemma CountInSample(ss: seq<Sample>, i: nat, c: Condition, want: Interval -> bool)
    requires i < |ss|
    ensures Count(IntervalsAt(ss, HeadsOf(ss, i, |ss[i].conditions|)), Of(c, want)) == Begun(ss, i, c, want)
  {
    var conditions := ss[i].conditions;
    CountIsSum(ss, i, |conditions|, c, want);
    SumIsFormula(ss, i, |conditions|, c, want);
    hide Count, HeadsOf, Of, LastIndex;
    assert conditions[..|conditions|] == conditions;
  }

  lemma HeadsInside(ss: seq<Sample>, n: nat)
    requires n <= |ss|
    ensures forall p :: p in Heads(ss[..n]) ==> IsPos(ss, p)
  {
    hide Heads;
  }

  lemma NoneBegunYet(ss: seq<Sample>, c: Condition, want: Interval -> bool)
    ensures BegunBefore(ss, 0, c, want) == 0
  {
  }

  lemma NoHeads(ss: seq<Sample>)
    ensures Heads(ss[..0]) == []
  {
  }

  lemma {:induction false} CountBefore(ss: seq<Sample>, n: nat, c: Condition, want: Interval -> bool)
    requires n <= |ss|
    ensures forall p :: p in Heads(ss[..n]) ==> IsPos(ss, p)
    ensures Count(IntervalsAt(ss, Heads(ss[..n])), Of(c, want)) == BegunBefore(ss, n, c, want)
  {
    hide *;
    HeadsInside(ss, n);
    if n == 0 {
      NoHeads(ss);
      NothingCounted(ss, Of(c, want));
      NoneBegunYet(ss, c, want);
    } else {
      CountBefore(ss, n - 1, c, want);
      CountInSample(ss, n - 1, c, want);
      HeadsNext(ss, n);
      HeadsOfInside(ss, n - 1, |ss[n - 1].conditions|);
      var before, here := Heads(ss[..n - 1]), HeadsOf(ss, n - 1, |ss[n - 1].conditions|);
      IntervalsConcat(ss, before, here);
      CountConcat(IntervalsAt(ss, before), IntervalsAt(ss, here), Of(c, want));
      NextBegun(ss, n - 1, c, want);
    }
  }

  lemma IntervalsConcat(ss: seq<Sample>, ps: seq<Pos>, qs: seq<Pos>)
    requires (forall p :: p in ps ==> IsPos(ss, p)) && (forall q :: q in qs ==> IsPos(ss, q))
    ensures IntervalsAt(ss, ps + qs) == IntervalsAt(ss, ps) + IntervalsAt(ss, qs)
  {
    hide IntervalAt, IsPos;
  }

  lemma HeadsNext(ss: seq<Sample>, n: nat)
    requires 0 < n <= |ss|
    ensures Heads(ss[..n]) == Heads(ss[..n - 1]) + HeadsOf(ss, n - 1, |ss[n - 1].conditions|)
  {
    hide HeadsOf;
    assert ss[..n][..n - 1] == ss[..n - 1];
    HeadsOfSame(ss[..n], ss, n - 1, |ss[n - 1].conditions|);
  }

  /** How often the timeline has an interval of `c` with a property. */
  lemma CountCoalesced(ss: seq<Sample>, c: Condition, want: Interval -> bool)
    ensures Count(Coalesce(ss), Of(c, want)) == BegunBefore(ss, |ss|, c, want)
  {
    CountBefore(ss, |ss|, c, want);
    hide Heads, Count, Of;
    assert ss[..|ss|] == ss;
    assert IntervalsAt(ss, Heads(ss)) == Coalesce(ss);
  }

  lemma {:induction false} CountAlike(xs: seq<Interval>, f: Interval -> bool, g: Interval -> bool)
    requires forall x :: f(x) == g(x)
    ensures Count(xs, f) == Count(xs, g)
  {
    if xs != [] {
      CountAlike(xs[..|xs| - 1], f, g);
    }
  }

  lemma CountIs(xs: seq<Interval>, y: Interval)
    ensures Count(xs, Is(y)) == Count(xs, Of(y.condition, Is(y)))
  {
    CountAlike(xs, Is(y), Of(y.condition, Is(y)));
  }

  // ---- what the timeline holds, repeats included ----

  lemma CountShown(ss: seq<Sample>, y: Interval)
    ensures multiset(Coalesce(ss))[y] == BegunBefore(ss, |ss|, y.condition, Is(y))
  {
    hide *;
    CountEqual(Coalesce(ss), y);
    CountIs(Coalesce(ss), y);
    CountCoalesced(ss, y.condition, Is(y));
  }

  lemma {:induction false} BegunAtFrom(ss: seq<Sample>, n: nat, i: nat, y: Interval)
    requires Increasing(ss) && n <= |ss| && i < |ss| && y.from == ss[i].at
    ensures BegunBefore(ss, n, y.condition, Is(y)) == if i < n then Begun(ss, i, y.condition, Is(y)) else 0
  {
    hide RunEnd, Times;
    if n > 0 {
      BegunAtFrom(ss, n - 1, i, y);
      assert n - 1 != i ==> ss[n - 1].at != ss[i].at;
    }
  }

  /**
   How often the timeline holds an interval from sample `i` to sample `e`: once if they bound a maximal run,
   and, as a moment, once more for each report too many of a condition that is new at `i`.
   */
  lemma IntervalsCounted(ss: seq<Sample>, c: Condition, i: nat, e: nat)
    requires Increasing(ss) && i <= e < |ss|
    ensures multiset(Coalesce(ss))[RunInterval(ss, c, i, e)] ==
      One(MaximalRun(ss, c, i, e))
      + if i == e && c in ss[i].conditions && Begins(ss, i, c) then Times(c, ss[i].conditions) - 1 else 0
  {
    var y := RunInterval(ss, c, i, e);
    CountShown(ss, y);
    hide Coalesce, BegunBefore, Begun;
    BegunAtFrom(ss, |ss|, i, y);
    BegunIsRun(ss, c, i, e);
  }

  lemma BegunIsRun(ss: seq<Sample>, c: Condition, i: nat, e: nat)
    requires Increasing(ss) && i <= e < |ss|
    ensures Begun(ss, i, c, Is(RunInterval(ss, c, i, e))) ==
      One(MaximalRun(ss, c, i, e))
      + if i == e && c in ss[i].conditions && Begins(ss, i, c) then Times(c, ss[i].conditions) - 1 else 0
  {
    hide Times;
    if c in ss[i].conditions && Begins(ss, i, c) {
      assert ss[RunEnd(ss, i, c)].at == ss[e].at <==> RunEnd(ss, i, c) == e;
      assert ss[i].at == ss[e].at <==> i == e;
      hide RunEnd, Increasing;
    }
  }

  // ---- a window ----

  /** The condition is reported by the last sample before the window and the first one inside. */
  predicate Carried(ss: seq<Sample>, lo: nat, c: Condition)
    requires lo < |ss|
  {
    lo > 0 && c in ss[lo - 1].conditions && c in ss[lo].conditions
  }

  /** A run that begins inside the window gives the window what its clip is. */
  lemma BegunInside(ss: seq<Sample>, lo: nat, hi: nat, i: nat, y: Interval)
    requires Increasing(ss) && lo <= i < hi <= |ss| && (i == lo ==> !Carried(ss, lo, y.condition))
    ensures var c := y.condition;
      Begun(ss, i, c, ClipsTo(ss[lo].at, ss[hi - 1].at, y)) == Begun(ss[lo..hi], i - lo, c, Is(y))
  {
    var c, w := y.condition, ss[lo..hi];
    assert w[i - lo] == ss[i] && (i > lo ==> w[i - lo - 1] == ss[i - 1]);
    if c in ss[i].conditions {
      assert Begins(ss, i, c) == Begins(w, i - lo, c);
      WindowRunEnd(ss, lo, hi, i, c);
      WantedAlike(ss, lo, hi, i, i, y);
      WantedAlike(ss, lo, hi, i, RunEnd(ss, i, c), y);
      hide RunEnd, ClipsTo, Is, Begins, Times, Increasing;
    }
  }

  lemma WantedAlike(ss: seq<Sample>, lo: nat, hi: nat, i: nat, e: nat, y: Interval)
    requires Increasing(ss) && lo <= i < hi <= |ss| && i <= e < |ss|
    ensures var c, w, last := y.condition, ss[lo..hi], Min(e, hi - 1);
      ClipsTo(ss[lo].at, ss[hi - 1].at, y)(Interval(c, ss[i].at, ss[e].at))
        == Is(y)(Interval(c, w[i - lo].at, w[last - lo].at))
  {
    ClipInside(ss, lo, hi, y.condition, i, e);
    hide Touches, Clip;
  }

  lemma ClipInside(ss: seq<Sample>, lo: nat, hi: nat, c: Condition, i: nat, e: nat)
    requires Increasing(ss) && lo <= i < hi <= |ss| && i <= e < |ss|
    ensures var x := Interval(c, ss[i].at, ss[e].at);
      Touches(x, ss[lo].at, ss[hi - 1].at)
      && Clip(x, ss[lo].at, ss[hi - 1].at) == Interval(c, ss[i].at, ss[Min(e, hi - 1)].at)
  {
  }

  lemma {:induction false} WindowRunEnd(ss: seq<Sample>, lo: nat, hi: nat, i: nat, c: Condition)
    requires lo <= i < hi <= |ss| && c in ss[i].conditions
    ensures ss[lo..hi][i - lo] == ss[i] && RunEnd(ss[lo..hi], i - lo, c) + lo == Min(RunEnd(ss, i, c), hi - 1)
    decreases hi - i
  {
    var w := ss[lo..hi];
    assert w[i - lo] == ss[i];
    if i + 1 < hi && c in ss[i + 1].conditions {
      assert w[i + 1 - lo] == ss[i + 1];
      WindowRunEnd(ss, lo, hi, i + 1, c);
    }
  }

  /** The run that a carried condition brings into the window is cut off at the first sample. */
  function Brought(ss: seq<Sample>, lo: nat, hi: nat, c: Condition): Interval
    requires lo < hi <= |ss| && c in ss[lo].conditions
  {
    Interval(c, ss[lo].at, ss[Min(RunEnd(ss, lo, c), hi - 1)].at)
  }

  /** Of the runs that begin before the window, only that one reaches it. */
  lemma BegunEarlier(ss: seq<Sample>, lo: nat, hi: nat, i: nat, y: Interval)
    requires Increasing(ss) && i < lo < hi <= |ss|
    ensures var c := y.condition;
      Begun(ss, i, c, ClipsTo(ss[lo].at, ss[hi - 1].at, y)) ==
        if Carried(ss, lo, c) && i == RunStart(ss, lo, c) then One(Brought(ss, lo, hi, c) == y) else 0
  {
    var c := y.condition;
    if c in ss[i].conditions && Begins(ss, i, c) {
      var e := RunEnd(ss, i, c);
      ClipBefore(ss, lo, hi, i, i, y);
      ClipBefore(ss, lo, hi, i, e, y);
      if e >= lo {
        RunEndFrom(ss, i, lo, c);
      }
      hide RunEnd, RunStart, ClipsTo, Increasing, Times;
    }
  }

  lemma ClipBefore(ss: seq<Sample>, lo: nat, hi: nat, i: nat, e: nat, y: Interval)
    requires Increasing(ss) && i < lo < hi <= |ss| && i <= e < |ss|
    ensures ClipsTo(ss[lo].at, ss[hi - 1].at, y)(Interval(y.condition, ss[i].at, ss[e].at))
      <==> e >= lo && Interval(y.condition, ss[lo].at, ss[Min(e, hi - 1)].at) == y
  {
  }

  lemma {:induction false} AllBegunEarlier(ss: seq<Sample>, lo: nat, hi: nat, n: nat, y: Interval)
    requires Increasing(ss) && n <= lo < hi <= |ss|
    ensures var c := y.condition;
      BegunBefore(ss, n, c, ClipsTo(ss[lo].at, ss[hi - 1].at, y)) ==
        if Carried(ss, lo, c) && RunStart(ss, lo, c) < n then One(Brought(ss, lo, hi, c) == y) else 0
  {
    hide RunStart, RunEnd, Brought, Begun, ClipsTo, Carried, Increasing, One;
    if n > 0 {
      AllBegunEarlier(ss, lo, hi, n - 1, y);
      BegunEarlier(ss, lo, hi, n - 1, y);
    }
  }

  /** Every report but the last of a carried condition in the window's first sample is a moment that no clip has. */
  function Surplus(ss: seq<Sample>, lo: nat, y: Interval): nat
    requires lo < |ss|
  {
    if Carried(ss, lo, y.condition) && y.from == y.to == ss[lo].at
    then Times(y.condition, ss[lo].conditions) - 1 else 0
  }

  lemma FirstCarried(ss: seq<Sample>, lo: nat, hi: nat, y: Interval)
    requires Increasing(ss) && lo < hi <= |ss| && Carried(ss, lo, y.condition)
    ensures var c := y.condition;
      Begun(ss[lo..hi], 0, c, Is(y)) == One(Brought(ss, lo, hi, c) == y) + Surplus(ss, lo, y)
  {
    WindowRunEnd(ss, lo, hi, lo, y.condition);
    hide RunEnd, Increasing;
    assert ss[lo..hi][0] == ss[lo];
  }

  lemma FirstOfWindow(ss: seq<Sample>, lo: nat, hi: nat, y: Interval)
    requires Increasing(ss) && lo < hi <= |ss|
    ensures BegunBefore(ss[lo..hi], 1, y.condition, Is(y)) ==
      BegunBefore(ss, lo + 1, y.condition, ClipsTo(ss[lo].at, ss[hi - 1].at, y)) + Surplus(ss, lo, y)
  {
    var c, w, want := y.condition, ss[lo..hi], ClipsTo(ss[lo].at, ss[hi - 1].at, y);
    hide ClipsTo, Is, Increasing, Begun, BegunBefore, Carried, Brought, RunStart;
    AllBegunEarlier(ss, lo, hi, lo, y);
    NextBegun(ss, lo, c, want);
    if Carried(ss, lo, c) {
      FirstCarried(ss, lo, hi, y);
    } else {
      BegunInside(ss, lo, hi, lo, y);
    }
  }

  lemma NextBegun(ss: seq<Sample>, i: nat, c: Condition, want: Interval -> bool)
    requires i < |ss|
    ensures BegunBefore(ss, i + 1, c, want) == BegunBefore(ss, i, c, want) + Begun(ss, i, c, want)
  {
  }

  lemma {:induction false} BegunInWindow(ss: seq<Sample>, lo: nat, hi: nat, n: nat, y: Interval)
    requires Increasing(ss) && lo < n <= hi <= |ss|
    ensures BegunBefore(ss[lo..hi], n - lo, y.condition, Is(y)) ==
      BegunBefore(ss, n, y.condition, ClipsTo(ss[lo].at, ss[hi - 1].at, y)) + Surplus(ss, lo, y)
    decreases n
  {
    hide BegunBefore, Begun, ClipsTo, Is, Surplus, Increasing, Carried;
    if n == lo + 1 {
      FirstOfWindow(ss, lo, hi, y);
    } else {
      BegunInWindow(ss, lo, hi, n - 1, y);
      BegunInside(ss, lo, hi, n - 1, y);
      NextBegun(ss, n - 1, y.condition, ClipsTo(ss[lo].at, ss[hi - 1].at, y));
      NextBegun(ss[lo..hi], n - 1 - lo, y.condition, Is(y));
    }
  }

  /** No interval that begins after the window touches it. */
  lemma {:induction false} BegunLater(ss: seq<Sample>, lo: nat, hi: nat, n: nat, y: Interval)
    requires Increasing(ss) && lo < hi <= n <= |ss|
    ensures var want := ClipsTo(ss[lo].at, ss[hi - 1].at, y);
      BegunBefore(ss, n, y.condition, want) == BegunBefore(ss, hi, y.condition, want)
    decreases n
  {
    if n > hi {
      BegunLater(ss, lo, hi, n - 1, y);
      assert ss[n - 1].at > ss[hi - 1].at;
      hide RunEnd, Times, Increasing;
    }
  }

  lemma CountClipsTo(xs: seq<Interval>, first: Time, last: Time, y: Interval)
    ensures Count(xs, ClipsTo(first, last, y)) == Count(xs, Of(y.condition, ClipsTo(first, last, y)))
  {
    CountAlike(xs, ClipsTo(first, last, y), Of(y.condition, ClipsTo(first, last, y)));
  }

  /**
   The intervals of a window are the clipped intervals of the whole timeline, and for every condition that
   the window's first sample carries on and reports more than once, one moment more for each report too many.
   */
  lemma WindowExceedsClip(ss: seq<Sample>, lo: nat, hi: nat, y: Interval)
    requires Increasing(ss) && lo < hi <= |ss|
    ensures multiset(Coalesce(ss[lo..hi]))[y] ==
      multiset(ClipAll(Coalesce(ss), ss[lo].at, ss[hi - 1].at))[y] + Surplus(ss, lo, y)
  {
    hide *;
    CountShown(ss[lo..hi], y);
    CountClipped(ss, ss[lo].at, ss[hi - 1].at, y);
    BegunInWindow(ss, lo, hi, hi, y);
    BegunLater(ss, lo, hi, |ss|, y);
  }

  lemma CountClipped(ss: seq<Sample>, first: Time, last: Time, y: Interval)
    ensures multiset(ClipAll(Coalesce(ss), first, last))[y]
      == BegunBefore(ss, |ss|, y.condition, ClipsTo(first, last, y))
  {
    hide *;
    CountClips(Coalesce(ss), first, last, y);
    CountClipsTo(Coalesce(ss), first, last, y);
    CountCoalesced(ss, y.condition, ClipsTo(first, last, y));
  }

  /** The first sample of the window reports what it carries on only once. */
  ghost predicate CarriesOnce(ss: seq<Sample>, lo: nat)
    requires lo < |ss|
  {
    lo == 0 || forall c :: c in ss[lo - 1].conditions ==> Times(c, ss[lo].conditions) <= 1
  }

  /**
   Coalescing the samples of a window gives the clipped intervals of the whole timeline exactly if the first
   sample of the window reports no condition twice that the sample before reported.
   */
  lemma WindowingCommutes(ss: seq<Sample>, lo: nat, hi: nat)
    requires Increasing(ss) && lo < hi <= |ss|
    ensures multiset(Coalesce(ss[lo..hi])) == multiset(ClipAll(Coalesce(ss), ss[lo].at, ss[hi - 1].at))
      <==> CarriesOnce(ss, lo)
  {
    hide Coalesce, ClipAll;
    var window, clip := multiset(Coalesce(ss[lo..hi])), multiset(ClipAll(Coalesce(ss), ss[lo].at, ss[hi - 1].at));
    if CarriesOnce(ss, lo) {
      forall y ensures window[y] == clip[y] {
        WindowExceedsClip(ss, lo, hi, y);
      }
    } else {
      var c :| c in ss[lo - 1].conditions && Times(c, ss[lo].conditions) > 1;
      var y := Interval(c, ss[lo].at, ss[lo].at);
      WindowExceedsClip(ss, lo, hi, y);
      assert Surplus(ss, lo, y) > 0;
    }
  }

  /** A window that opens on a sample repeating a carried condition shows an interval too many. */
  lemma WindowShowsTooMuch(c: Condition)
    ensures var ss := [Sample(1, [c]), Sample(2, [c, c])];
      multiset(Coalesce(ss[1..2]))[Interval(c, 2, 2)] == multiset(ClipAll(Coalesce(ss), 2, 2))[Interval(c, 2, 2)] + 1
  {
    hide Coalesce, ClipAll;
    WindowExceedsClip([Sample(1, [c]), Sample(2, [c, c])], 1, 2, Interval(c, 2, 2));
  }
}
