/** What a view of the samples between two times says about all of them. */
module Views {
  import opened Timeline
  import opened Clipping
  import opened Windows
  import opened Monitor

  /** The samples of a window stand next to each other. */
  lemma WindowIsSlice(samples: seq<Sample>, from: Time, to: Time) returns (lo: nat, hi: nat)
    requires Nondecreasing(samples)
    ensures lo <= hi <= |samples| && SamplesWithin(samples, from, to) == samples[lo..hi]
    ensures forall k :: 0 <= k < |samples| ==> (InWindow(samples[k].at, from, to) <==> lo <= k < hi)
  {
    lo := 0;
    while lo < |samples| && from != 0 && samples[lo].at <= from
      invariant lo <= |samples|
      invariant forall k :: 0 <= k < lo ==> !InWindow(samples[k].at, from, to)
    {
      lo := lo + 1;
    }
    hi := lo;
    while hi < |samples| && (to == 0 || samples[hi].at <= to)
      invariant lo <= hi <= |samples|
      invariant forall k :: lo <= k < hi ==> InWindow(samples[k].at, from, to)
    {
      hi := hi + 1;
    }
    WithinMiddle(samples, lo, hi, (s: Sample) => InWindow(s.at, from, to));
  }

  /** The sample that opens the window reports nothing twice that the sample before the window reported. */
  ghost predicate OpensClean(samples: seq<Sample>, from: Time, to: Time) {
    forall k :: 0 < k < |samples| && InWindow(samples[k].at, from, to) && !InWindow(samples[k - 1].at, from, to)
      ==> CarriesOnce(samples, k)
  }

  /**
   A view of a window holds the intervals of the whole timeline cut off at the first and the last sample
   of the window, without what lies outside, exactly if the window opens clean.
   */
  lemma ViewIsClipped(samples: seq<Sample>, from: Time, to: Time)
    requires Increasing(samples)
    ensures var w := SamplesWithin(samples, from, to);
      && (w == [] ==> Coalesce(w) == [])
      && (w != [] ==>
            (multiset(Coalesce(w)) == multiset(ClipAll(Coalesce(samples), w[0].at, w[|w| - 1].at))
             <==> OpensClean(samples, from, to)))
  {
    hide Coalesce, ClipAll, SamplesWithin, CarriesOnce, InWindow, OpensClean, Increasing;
    InOrderOnce(samples);
    var lo, hi := WindowIsSlice(samples, from, to);
    if lo < hi {
      WindowingCommutes(samples, lo, hi);
      OpensCleanIff(samples, from, to, lo, hi);
    } else {
      NothingToShow();
    }
  }

  lemma InOrderOnce(samples: seq<Sample>)
    requires Increasing(samples)
    ensures Nondecreasing(samples)
  {
  }

  lemma OpensCleanIff(samples: seq<Sample>, from: Time, to: Time, lo: nat, hi: nat)
    requires lo < hi <= |samples|
    requires forall k :: 0 <= k < |samples| ==> (InWindow(samples[k].at, from, to) <==> lo <= k < hi)
    ensures OpensClean(samples, from, to) <==> CarriesOnce(samples, lo)
  {
    hide InWindow, CarriesOnce;
    if lo == 0 {
      WholeIsClean(samples);
    } else {
      assert InWindow(samples[lo].at, from, to) && !InWindow(samples[lo - 1].at, from, to);
    }
  }

  lemma NothingToShow()
    ensures Coalesce([]) == []
  {
  }

  lemma WholeIsClean(samples: seq<Sample>)
    requires samples != []
    ensures CarriesOnce(samples, 0)
  {
  }

  /** Inside a window, too, an interval of a condition covers a sample exactly if the sample reports it. */
  lemma ViewCovers(samples: seq<Sample>, from: Time, to: Time, i: nat, c: Condition)
    requires Increasing(samples) && i < |SamplesWithin(samples, from, to)|
    ensures var w := SamplesWithin(samples, from, to);
      c in w[i].conditions <==> exists k :: 0 <= k < |Coalesce(w)| && Reports(Coalesce(w)[k], c, w[i].at)
  {
    hide Coalesce, Within;
    var lo, hi := WindowIsSlice(samples, from, to);
    Covers(samples[lo..hi], i, c);
  }

  // ---- one interval at a time ----

  /** No sample of the window reports a condition twice, unless the sample before it, in the window too, did. */
  ghost predicate ShownOnce(samples: seq<Sample>, from: Time, to: Time) {
    forall i, j, k ::
      0 <= i < |samples| && InWindow(samples[i].at, from, to)
      && 0 <= j < k < |samples[i].conditions| && samples[i].conditions[j] == samples[i].conditions[k] ==>
        i > 0 && InWindow(samples[i - 1].at, from, to) && samples[i].conditions[j] in samples[i - 1].conditions
  }

  /** Two intervals of one condition in a view are parted by one of its samples exactly under that condition. */
  lemma ViewPartedIff(samples: seq<Sample>, from: Time, to: Time)
    requires Increasing(samples)
    ensures AllParted(SamplesWithin(samples, from, to)) <==> ShownOnce(samples, from, to)
  {
    InOrderOnce(samples);
    var lo, hi := WindowIsSlice(samples, from, to);
    SliceIncreases(samples, lo, hi);
    hide AllParted, SamplesWithin, Increasing;
    PartedIff(samples[lo..hi]);
    NewInView(samples, from, to, lo, hi);
  }

  lemma SliceIncreases(samples: seq<Sample>, lo: nat, hi: nat)
    requires Increasing(samples) && lo <= hi <= |samples|
    ensures Increasing(samples[lo..hi])
  {
  }

  lemma NewInView(samples: seq<Sample>, from: Time, to: Time, lo: nat, hi: nat)
    requires lo <= hi <= |samples|
    requires forall k :: 0 <= k < |samples| ==> (InWindow(samples[k].at, from, to) <==> lo <= k < hi)
    ensures NewOnce(samples[lo..hi]) <==> ShownOnce(samples, from, to)
  {
    hide InWindow;
    var w := samples[lo..hi];
    assert forall i :: 0 <= i < |w| ==> w[i] == samples[lo + i];
    if NewOnce(w) {
      forall i, j, k |
        0 <= i < |samples| && InWindow(samples[i].at, from, to)
        && 0 <= j < k < |samples[i].conditions| && samples[i].conditions[j] == samples[i].conditions[k]
        ensures i > 0 && InWindow(samples[i - 1].at, from, to)
        ensures samples[i].conditions[j] in samples[i - 1].conditions
      {
        assert w[i - lo] == samples[i];
        assert !Begins(w, i - lo, w[i - lo].conditions[j]);
      }
    }
    if ShownOnce(samples, from, to) {
      forall i, j, k |
        0 <= i < |w| && 0 <= j < k < |w[i].conditions| && w[i].conditions[j] == w[i].conditions[k]
        ensures !Begins(w, i, w[i].conditions[j])
      {
        assert samples[lo + i] == w[i];
        assert InWindow(samples[lo + i - 1].at, from, to);
      }
    }
  }

  // ---- moments ----

  /** Sample `i` opens the window of what is later than `last`, and carries on the condition from before it. */
  predicate CutOff(all: seq<Sample>, last: Time, i: nat, c: Condition)
    requires i < |all|
  {
    Carried(all, i, c) && !InWindow(all[i - 1].at, last, 0)
  }

  /** The last of the first `n` samples begins the condition, and the next one carries it on. */
  predicate TooEarly(all: seq<Sample>, n: nat, i: nat, c: Condition)
    requires i < n <= |all|
  {
    i == n - 1 && n < |all| && c in all[i].conditions && Begins(all, i, c) && c in all[n].conditions
  }

  /** How often the view shows the moment of sample `i` beyond what the timeline of all samples holds. */
  function Beyond(all: seq<Sample>, n: nat, cut: bool, i: nat, c: Condition): int
    requires i < n <= |all|
  {
    if cut then Times(c, all[i].conditions) - One(i + 1 < n && c in all[i + 1].conditions)
    else One(TooEarly(all, n, i, c))
  }

  /**
   How often the view of the first `n` samples after `last` shows `c` at the moment of sample `i` alone, against
   the timeline of all samples, later ones included: an interval that the view cuts off shows its reports at
   the cut, unless it goes on, and an interval that has only begun shows as a moment.
   */
  lemma MomentsShown(all: seq<Sample>, n: nat, last: Time, i: nat, c: Condition)
    requires Increasing(all) && i < n <= |all|
    ensures var moment := Interval(c, all[i].at, all[i].at);
      multiset(Coalesce(SamplesWithin(all[..n], last, 0)))[moment] ==
        (if !InWindow(all[i].at, last, 0) then 0
         else multiset(Coalesce(all))[moment] + Beyond(all, n, CutOff(all, last, i, c), i, c))
  {
    hide *;
    var lo := LaterThan(all, n, last);
    if i < lo {
      NotBegunYet(all, lo, n, i, c);
    } else {
      CutAtStart(all, lo, n, last, i, c);
      SliceMoments(all, lo, n, i, c);
    }
  }

  /** What is later than `last` is a tail of the samples. */
  lemma LaterThan(all: seq<Sample>, n: nat, last: Time) returns (lo: nat)
    requires Increasing(all) && n <= |all|
    ensures lo <= n && SamplesWithin(all[..n], last, 0) == all[lo..n]
    ensures forall k :: 0 <= k < n ==> (InWindow(all[k].at, last, 0) <==> lo <= k)
  {
    var ss := all[..n];
    assert all[0..n] == ss;
    SliceIncreases(all, 0, n);
    hide SamplesWithin, Increasing;
    InOrderOnce(ss);
    var hi;
    lo, hi := WindowIsSlice(ss, last, 0);
    NoUpperBound(ss, last, lo, hi);
    hide InWindow;
    assert forall k :: 0 <= k < n ==> ss[k] == all[k];
    if lo == hi {
      lo := n;
    }
    assert ss[lo..n] == all[lo..n];
  }

  lemma CutAtStart(all: seq<Sample>, lo: nat, n: nat, last: Time, i: nat, c: Condition)
    requires lo <= i < n <= |all|
    requires forall k :: 0 <= k < n ==> (InWindow(all[k].at, last, 0) <==> lo <= k)
    ensures CutOff(all, last, i, c) <==> i == lo && Carried(all, i, c)
  {
    hide InWindow;
  }

  /** How often the timeline holds the moment of sample `i`. */
  ghost function Moments(ss: seq<Sample>, c: Condition, i: nat): int
    requires i < |ss|
  {
    One(MaximalRun(ss, c, i, i))
      + if c in ss[i].conditions && Begins(ss, i, c) then Times(c, ss[i].conditions) - 1 else 0
  }

  lemma MomentsCounted(ss: seq<Sample>, c: Condition, i: nat)
    requires Increasing(ss) && i < |ss|
    ensures multiset(Coalesce(ss))[Interval(c, ss[i].at, ss[i].at)] == Moments(ss, c, i)
  {
    hide Coalesce, MaximalRun, Begins, Times, Increasing;
    IntervalsCounted(ss, c, i, i);
  }

  lemma SliceMoments(all: seq<Sample>, lo: nat, n: nat, i: nat, c: Condition)
    requires Increasing(all) && lo <= i < n <= |all|
    ensures var moment := Interval(c, all[i].at, all[i].at);
      multiset(Coalesce(all[lo..n]))[moment]
        == multiset(Coalesce(all))[moment] + Beyond(all, n, i == lo && Carried(all, i, c), i, c)
  {
    hide *;
    SliceIncreases(all, lo, n);
    MomentsCounted(all, c, i);
    MomentsCounted(all[lo..n], c, i - lo);
    assert all[lo..n][i - lo] == all[i];
    MomentIsRun(all, lo, n, i, c);
  }

  /** A window without an upper bound reaches to the end. */
  lemma NoUpperBound(samples: seq<Sample>, last: Time, lo: nat, hi: nat)
    requires Increasing(samples) && lo <= hi <= |samples|
    requires forall k :: 0 <= k < |samples| ==> (InWindow(samples[k].at, last, 0) <==> lo <= k < hi)
    ensures lo < hi ==> hi == |samples|
  {
    assert lo < hi ==> InWindow(samples[lo].at, last, 0);
    assert hi < |samples| ==> !InWindow(samples[hi].at, last, 0);
  }

  lemma NotBegunYet(all: seq<Sample>, lo: nat, n: nat, i: nat, c: Condition)
    requires Increasing(all) && i < lo <= n <= |all|
    ensures multiset(Coalesce(all[lo..n]))[Interval(c, all[i].at, all[i].at)] == 0
  {
    var w, y := all[lo..n], Interval(c, all[i].at, all[i].at);
    hide Heads;
    forall k | 0 <= k < |Coalesce(w)| ensures Coalesce(w)[k] != y {
      assert w[Heads(w)[k].sample].at == all[lo + Heads(w)[k].sample].at;
    }
    assert y !in Coalesce(w);
  }

  /** The runs of one sample alone, in the view and in the whole. */
  lemma MomentIsRun(all: seq<Sample>, lo: nat, n: nat, i: nat, c: Condition)
    requires lo <= i < n <= |all|
    ensures Moments(all[lo..n], c, i - lo)
      == Moments(all, c, i) + Beyond(all, n, i == lo && Carried(all, i, c), i, c)
  {
    var w := all[lo..n];
    assert w[i - lo] == all[i];
    assert i > lo ==> w[i - lo - 1] == all[i - 1];
    assert i + 1 < n ==> w[i - lo + 1] == all[i + 1];
    hide Times;
  }
}
