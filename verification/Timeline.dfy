/** What the monitor's coalescing of samples into intervals means, on values. */
module Timeline {

  /** An abstract clock; 0 is Go's zero time, which as a bound means "unbounded". */
  type Time = int

  datatype Level = Info | Warning | Error

  datatype Condition = Condition(level: Level, locator: string, message: string)

  datatype Sample = Sample(at: Time, conditions: seq<Condition>)

  datatype Event = Event(at: Time, condition: Condition)

  datatype Interval = Interval(condition: Condition, from: Time, to: Time)

  /** Position `index` in the conditions of sample number `sample`. */
  datatype Pos = Pos(sample: nat, index: nat)

  predicate IsPos(ss: seq<Sample>, p: Pos) {
    p.sample < |ss| && p.index < |ss[p.sample].conditions|
  }

  function At(ss: seq<Sample>, p: Pos): Condition
    requires IsPos(ss, p)
  {
    ss[p.sample].conditions[p.index]
  }

  /** Condition `c` was not reported by the sample before `i`. */
  predicate Begins(ss: seq<Sample>, i: nat, c: Condition)
    requires i < |ss|
  {
    i == 0 || c !in ss[i - 1].conditions
  }

  /** The positions among the first `m` conditions of sample `i` that begin an interval. */
  function HeadsOf(ss: seq<Sample>, i: nat, m: nat): (heads: seq<Pos>)
    requires i < |ss| && m <= |ss[i].conditions|
    ensures forall p :: p in heads ==>
      p.sample == i && p.index < m && Begins(ss, i, ss[i].conditions[p.index])
  {
    if m == 0 then [] else
    HeadsOf(ss, i, m - 1) + if Begins(ss, i, ss[i].conditions[m - 1]) then [Pos(i, m - 1)] else []
  }

  predicate IsHead(ss: seq<Sample>, p: Pos) {
    IsPos(ss, p) && Begins(ss, p.sample, At(ss, p))
  }

  /** All positions that begin an interval, in order of sampling. */
  function Heads(ss: seq<Sample>): (heads: seq<Pos>)
    ensures forall p :: p in heads ==> IsHead(ss, p)
  {
    if ss == [] then [] else
    var n := |ss| - 1;
    Heads(ss[..n]) + HeadsOf(ss, n, |ss[n].conditions|)
  }

  /** The last sample of the unbroken run of samples that report `c` from sample `i` on. */
  function RunEnd(ss: seq<Sample>, i: nat, c: Condition): (e: nat)
    requires i < |ss| && c in ss[i].conditions
    ensures i <= e < |ss| && forall k :: i <= k <= e ==> c in ss[k].conditions
    ensures e + 1 < |ss| ==> c !in ss[e + 1].conditions
    decreases |ss| - i
  {
    if i + 1 < |ss| && c in ss[i + 1].conditions then RunEnd(ss, i + 1, c) else i
  }

  /** The same sample reports the condition at `p` again further on. */
  predicate Repeated(ss: seq<Sample>, p: Pos)
    requires IsPos(ss, p)
  {
    At(ss, p) in ss[p.sample].conditions[p.index + 1..]
  }

  /** The last sample of the interval begun at `p`: only the last report in a sample is carried on. */
  function EndOf(ss: seq<Sample>, p: Pos): (e: nat)
    requires IsPos(ss, p)
    ensures p.sample <= e < |ss|
  {
    if Repeated(ss, p) then p.sample else RunEnd(ss, p.sample, At(ss, p))
  }

  function IntervalAt(ss: seq<Sample>, p: Pos): Interval
    requires IsPos(ss, p)
  {
    Interval(At(ss, p), ss[p.sample].at, ss[EndOf(ss, p)].at)
  }

  /** The intervals of a list of samples, in the order of their first sampling. */
  function Coalesce(ss: seq<Sample>): (r: seq<Interval>)
    ensures |r| == |Heads(ss)|
    ensures forall k :: 0 <= k < |r| ==> IsHead(ss, Heads(ss)[k]) && r[k] == IntervalAt(ss, Heads(ss)[k])
  {
    var heads := Heads(ss);
    seq(|heads|, k requires 0 <= k < |heads| => assert heads[k] in heads; IntervalAt(ss, heads[k]))
  }

  // ---- heads are complete and ordered ----

  lemma {:induction false} HeadsOfComplete(ss: seq<Sample>, i: nat, m: nat, j: nat)
    requires i < |ss| && j < m <= |ss[i].conditions| && Begins(ss, i, ss[i].conditions[j])
    ensures Pos(i, j) in HeadsOf(ss, i, m)
  {
    HeadsOfNext(ss, i, m);
    hide HeadsOf;
    if j < m - 1 {
      HeadsOfComplete(ss, i, m - 1, j);
    }
  }

  lemma HeadsOfNext(ss: seq<Sample>, i: nat, m: nat)
    requires i < |ss| && 0 < m <= |ss[i].conditions|
    ensures HeadsOf(ss, i, m)
      == HeadsOf(ss, i, m - 1) + if Begins(ss, i, ss[i].conditions[m - 1]) then [Pos(i, m - 1)] else []
  {
  }

  lemma {:induction false} HeadsComplete(ss: seq<Sample>, p: Pos)
    requires IsHead(ss, p)
    ensures p in Heads(ss)
  {
    var n := |ss| - 1;
    if p.sample == n {
      HeadsOfComplete(ss, n, |ss[n].conditions|, p.index);
    } else {
      HeadsComplete(ss[..n], p);
    }
  }

  predicate Before(p: Pos, q: Pos) {
    p.sample < q.sample || (p.sample == q.sample && p.index < q.index)
  }

  ghost predicate Ordered(ps: seq<Pos>) {
    forall a, b :: 0 <= a < b < |ps| ==> Before(ps[a], ps[b])
  }

  lemma OrderedConcat(ps: seq<Pos>, qs: seq<Pos>)
    requires Ordered(ps) && Ordered(qs) && forall p, q :: p in ps && q in qs ==> Before(p, q)
    ensures Ordered(ps + qs)
  {
    var r := ps + qs;
    forall a, b | 0 <= a < b < |r| ensures Before(r[a], r[b]) {
      if a < |ps| <= b {
        assert r[a] in ps && r[b] in qs;
      }
    }
  }

  lemma {:induction false} HeadsOfOrdered(ss: seq<Sample>, i: nat, m: nat)
    requires i < |ss| && m <= |ss[i].conditions|
    ensures Ordered(HeadsOf(ss, i, m))
  {
    if m > 0 {
      HeadsOfOrdered(ss, i, m - 1);
      HeadsOfNext(ss, i, m);
      hide HeadsOf, Begins;
      OrderedConcat(HeadsOf(ss, i, m - 1), if Begins(ss, i, ss[i].conditions[m - 1]) then [Pos(i, m - 1)] else []);
    }
  }

  lemma {:induction false} HeadsOrdered(ss: seq<Sample>)
    ensures Ordered(Heads(ss))
  {
    if ss != [] {
      var n := |ss| - 1;
      HeadsOrdered(ss[..n]);
      HeadsOfOrdered(ss, n, |ss[n].conditions|);
      OrderedConcat(Heads(ss[..n]), HeadsOf(ss, n, |ss[n].conditions|));
    }
  }

  // ---- what the intervals say about the samples ----

  ghost predicate Nondecreasing(ss: seq<Sample>) {
    forall i, j :: 0 <= i <= j < |ss| ==> ss[i].at <= ss[j].at
  }

  ghost predicate Increasing(ss: seq<Sample>) {
    forall i, j :: 0 <= i < j < |ss| ==> ss[i].at < ss[j].at
  }

  ghost predicate NoRepeats(ss: seq<Sample>) {
    forall i :: 0 <= i < |ss| ==> NoDuplicates(ss[i].conditions)
  }

  ghost predicate NoDuplicates<T(!new)>(xs: seq<T>) {
    forall i, j :: 0 <= i < j < |xs| ==> xs[i] != xs[j]
  }

  /** Intervals are listed in the order in which they begin. */
  lemma OrderedByFrom(ss: seq<Sample>)
    requires Nondecreasing(ss)
    ensures var r := Coalesce(ss); forall a, b :: 0 <= a <= b < |r| ==> r[a].from <= r[b].from
  {
    HeadsOrdered(ss);
    hide Heads;
    var r, heads := Coalesce(ss), Heads(ss);
    forall a, b | 0 <= a <= b < |r| ensures r[a].from <= r[b].from {
      assert a < b ==> Before(heads[a], heads[b]);
    }
  }

  /** The first sample of the run of samples reporting `c` around sample `i`. */
  function RunStart(ss: seq<Sample>, i: nat, c: Condition): (s: nat)
    requires i < |ss| && c in ss[i].conditions
    ensures s <= i && forall k :: s <= k <= i ==> c in ss[k].conditions
    ensures Begins(ss, s, c)
  {
    if i > 0 && c in ss[i - 1].conditions then RunStart(ss, i - 1, c) else i
  }

  function LastIndex(conditions: seq<Condition>, c: Condition): (j: nat)
    requires c in conditions
    ensures j < |conditions| && conditions[j] == c && c !in conditions[j + 1..]
  {
    var n := |conditions| - 1;
    if conditions[n] == c then n else
    var j := LastIndex(conditions[..n], c);
    assert conditions[j + 1..] == conditions[..n][j + 1..] + [conditions[n]];
    j
  }

  /** Any two runs of `c` that meet are one run. */
  lemma {:induction false} RunEndFrom(ss: seq<Sample>, s: nat, i: nat, c: Condition)
    requires s <= i < |ss| && forall k :: s <= k <= i ==> c in ss[k].conditions
    ensures RunEnd(ss, s, c) == RunEnd(ss, i, c)
    decreases i - s
  {
    if s < i {
      RunEndFrom(ss, s + 1, i, c);
    }
  }

  /** The interval of `c` that covers sample `i`. */
  lemma Covering(ss: seq<Sample>, i: nat, c: Condition) returns (k: nat)
    requires i < |ss| && c in ss[i].conditions
    ensures k < |Heads(ss)|
    ensures var p := Heads(ss)[k]; IsHead(ss, p) && At(ss, p) == c && p.sample <= i <= EndOf(ss, p)
  {
    hide Heads;
    var s := RunStart(ss, i, c);
    var p := Pos(s, LastIndex(ss[s].conditions, c));
    HeadsComplete(ss, p);
    k :| 0 <= k < |Heads(ss)| && Heads(ss)[k] == p;
    RunEndFrom(ss, s, i, c);
  }

  ghost predicate Reports(x: Interval, c: Condition, at: Time) {
    x.condition == c && x.from <= at <= x.to
  }

  /** A sample reports a condition exactly when an interval of that condition covers its time. */
  lemma Covers(ss: seq<Sample>, i: nat, c: Condition)
    requires Increasing(ss) && i < |ss|
    ensures c in ss[i].conditions <==>
      exists k :: 0 <= k < |Coalesce(ss)| && Reports(Coalesce(ss)[k], c, ss[i].at)
  {
    hide Heads;
    var r, heads := Coalesce(ss), Heads(ss);
    if c in ss[i].conditions {
      var k := Covering(ss, i, c);
      assert Reports(r[k], c, ss[i].at);
    }
    if k :| 0 <= k < |r| && Reports(r[k], c, ss[i].at) {
      var p := heads[k];
      assert p.sample <= i <= EndOf(ss, p);
    }
  }
}
