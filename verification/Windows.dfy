/** Coalescing is lossless, and looking at a window of the samples is clipping the whole timeline to it. */
module Windows {
  import opened Timeline

  /** Samples `a` to `b` report `c` and their neighbours do not. */
  ghost predicate MaximalRun(ss: seq<Sample>, c: Condition, a: nat, b: nat) {
    && a <= b < |ss|
    && (forall k :: a <= k <= b ==> c in ss[k].conditions)
    && (a > 0 ==> c !in ss[a - 1].conditions)
    && (b + 1 < |ss| ==> c !in ss[b + 1].conditions)
  }

  function RunInterval(ss: seq<Sample>, c: Condition, a: nat, b: nat): Interval
    requires a < |ss| && b < |ss|
  {
    Interval(c, ss[a].at, ss[b].at)
  }

  lemma HeadsAreRuns(ss: seq<Sample>, k: nat)
    requires NoRepeats(ss) && k < |Coalesce(ss)|
    ensures var p := Heads(ss)[k]; IsHead(ss, p) && MaximalRun(ss, At(ss, p), p.sample, EndOf(ss, p))
    ensures var p := Heads(ss)[k]; Coalesce(ss)[k] == RunInterval(ss, At(ss, p), p.sample, EndOf(ss, p))
  {
    hide Heads;
    var p := Heads(ss)[k];
    assert !Repeated(ss, p);
  }

  lemma RunsHaveHeads(ss: seq<Sample>, c: Condition, a: nat, b: nat) returns (k: nat)
    requires MaximalRun(ss, c, a, b)
    ensures k < |Coalesce(ss)| && Coalesce(ss)[k] == RunInterval(ss, c, a, b)
  {
    hide Heads;
    var p := Pos(a, LastIndex(ss[a].conditions, c));
    HeadsComplete(ss, p);
    k :| 0 <= k < |Heads(ss)| && Heads(ss)[k] == p;
    RunEndFrom(ss, a, b, c);
    assert RunEnd(ss, b, c) == b;
  }

  lemma DistinctIntervals(ss: seq<Sample>)
    requires Increasing(ss) && NoRepeats(ss)
    ensures NoDuplicates(Coalesce(ss))
  {
    HeadsOrdered(ss);
    hide Heads;
    var r, heads := Coalesce(ss), Heads(ss);
    forall a, b | 0 <= a < b < |r| ensures r[a] != r[b] {
      var p, q := heads[a], heads[b];
      assert Before(p, q);
      assert p.sample == q.sample ==> At(ss, p) != At(ss, q);
    }
  }

  lemma {:induction false} CountDistinct<T(!new)>(xs: seq<T>, x: T)
    requires NoDuplicates(xs)
    ensures multiset(xs)[x] == if x in xs then 1 else 0
  {
    if xs != [] {
      var n := |xs| - 1;
      CountDistinct(xs[..n], x);
      assert xs == xs[..n] + [xs[n]];
    }
  }

  /** Exactly one interval per maximal run of recorded samples, and no interval that is not such a run. */
  lemma OneIntervalPerRun(ss: seq<Sample>, x: Interval)
    requires Increasing(ss) && NoRepeats(ss)
    ensures multiset(Coalesce(ss))[x] ==
      if exists a, b :: MaximalRun(ss, x.condition, a, b) && x == RunInterval(ss, x.condition, a, b) then 1 else 0
  {
    DistinctIntervals(ss);
    CountDistinct(Coalesce(ss), x);
    if x in Coalesce(ss) {
      var k :| 0 <= k < |Coalesce(ss)| && Coalesce(ss)[k] == x;
      HeadsAreRuns(ss, k);
    }
    if a, b :| MaximalRun(ss, x.condition, a, b) && x == RunInterval(ss, x.condition, a, b) {
      var _ := RunsHaveHeads(ss, x.condition, a, b);
    }
  }

  // ---- when one condition has one interval at a time ----

  /** No sample reports twice a condition that the sample before did not report. */
  ghost predicate NewOnce(ss: seq<Sample>) {
    forall i, j, k :: 0 <= i < |ss| && 0 <= j < k < |ss[i].conditions| && ss[i].conditions[j] == ss[i].conditions[k] ==>
      !Begins(ss, i, ss[i].conditions[j])
  }

  /** A sample between two intervals that does not report the condition. */
  ghost predicate Parted(ss: seq<Sample>, x: Interval, y: Interval) {
    exists k :: 0 <= k < |ss| && x.to < ss[k].at < y.from && x.condition !in ss[k].conditions
  }

  ghost predicate AllParted(ss: seq<Sample>) {
    var r := Coalesce(ss);
    forall a, b :: 0 <= a < b < |r| && r[a].condition == r[b].condition ==> Parted(ss, r[a], r[b])
  }

  lemma NextIsApart(ss: seq<Sample>, p: Pos, q: Pos)
    requires Increasing(ss) && NewOnce(ss) && IsHead(ss, p) && IsHead(ss, q) && Before(p, q) && At(ss, p) == At(ss, q)
    ensures Parted(ss, IntervalAt(ss, p), IntervalAt(ss, q))
  {
    assert p.sample < q.sample;
    assert EndOf(ss, p) < q.sample - 1;
  }

  lemma NewOnceParts(ss: seq<Sample>)
    requires Increasing(ss) && NewOnce(ss)
    ensures AllParted(ss)
  {
    HeadsOrdered(ss);
    hide Heads, NewOnce, Parted, IntervalAt;
    var r, heads := Coalesce(ss), Heads(ss);
    forall a, b | 0 <= a < b < |r| && r[a].condition == r[b].condition ensures Parted(ss, r[a], r[b]) {
      IntervalOf(ss, heads[a]);
      IntervalOf(ss, heads[b]);
      NextIsApart(ss, heads[a], heads[b]);
    }
  }

  lemma IntervalOf(ss: seq<Sample>, p: Pos)
    requires IsPos(ss, p)
    ensures IntervalAt(ss, p).condition == At(ss, p) && IntervalAt(ss, p).from == ss[p.sample].at
    ensures IntervalAt(ss, p).to == ss[EndOf(ss, p)].at
  {
  }

  lemma HeadAt(ss: seq<Sample>, p: Pos) returns (a: nat)
    requires IsHead(ss, p)
    ensures a < |Heads(ss)| && Heads(ss)[a] == p
  {
    HeadsComplete(ss, p);
    hide Heads;
    a :| 0 <= a < |Heads(ss)| && Heads(ss)[a] == p;
  }

  lemma InHeadOrder(ss: seq<Sample>, a: nat, b: nat)
    requires a < |Heads(ss)| && b < |Heads(ss)| && Before(Heads(ss)[a], Heads(ss)[b])
    ensures a < b
  {
    HeadsOrdered(ss);
    hide Heads;
  }

  /** A new condition reported at two places has two intervals that nothing parts. */
  lemma RepeatIsNotParted(ss: seq<Sample>, i: nat, j: nat, k: nat)
    requires Increasing(ss) && i < |ss| && j < k < |ss[i].conditions|
    requires ss[i].conditions[j] == ss[i].conditions[k] && Begins(ss, i, ss[i].conditions[j])
    ensures !AllParted(ss)
  {
    var p, q := Pos(i, j), Pos(i, k);
    var a := HeadAt(ss, p);
    var b := HeadAt(ss, q);
    InHeadOrder(ss, a, b);
    IntervalOf(ss, p);
    IntervalOf(ss, q);
    hide Heads, IntervalAt, EndOf, Increasing, Parted, Begins;
    assert Coalesce(ss)[a] == IntervalAt(ss, p) && Coalesce(ss)[b] == IntervalAt(ss, q);
  }

  /** Two intervals of one condition are always parted by a sample exactly if no new condition is reported twice. */
  lemma PartedIff(ss: seq<Sample>)
    requires Increasing(ss)
    ensures AllParted(ss) <==> NewOnce(ss)
  {
    hide AllParted, Begins;
    if NewOnce(ss) {
      NewOnceParts(ss);
    } else {
      var i, j, k :| 0 <= i < |ss| && 0 <= j < k < |ss[i].conditions|
        && ss[i].conditions[j] == ss[i].conditions[k] && Begins(ss, i, ss[i].conditions[j]);
      RepeatIsNotParted(ss, i, j, k);
    }
  }

  /** A new condition reported twice has two intervals with nothing between them, and only one is carried on. */
  lemma RepeatsAreNotParted(c: Condition)
    ensures var ss := [Sample(1, [c, c]), Sample(2, [c])];
      Coalesce(ss) == [Interval(c, 1, 1), Interval(c, 1, 2)] && !AllParted(ss)
  {
    var ss := [Sample(1, [c, c]), Sample(2, [c])];
    TwoHeads(c);
    assert Repeated(ss, Pos(0, 0)) && !Repeated(ss, Pos(0, 1));
    hide Heads, Repeated, AllParted;
    RepeatIsNotParted(ss, 0, 0, 1);
  }

  lemma TwoHeads(c: Condition)
    ensures Heads([Sample(1, [c, c]), Sample(2, [c])]) == [Pos(0, 0), Pos(0, 1)]
  {
    var ss := [Sample(1, [c, c]), Sample(2, [c])];
    assert ss[..1] == [Sample(1, [c, c])] && ss[..1][..0] == [];
    assert HeadsOf(ss[..1], 0, 2) == HeadsOf(ss[..1], 0, 1) + [Pos(0, 1)] == [Pos(0, 0), Pos(0, 1)];
    assert HeadsOf(ss, 1, 1) == [];
    assert Heads(ss[..1]) == [Pos(0, 0), Pos(0, 1)];
  }
}
