/** How the timeline changes when one more reported condition is taken in. */
module Coalescing {
  import opened Timeline

  /** The samples before `i` and the first `j` conditions of sample `i`. */
  function Partial(ss: seq<Sample>, i: nat, j: nat): (r: seq<Sample>)
    requires i < |ss| && j <= |ss[i].conditions|
    ensures |r| == i + 1 && r[..i] == ss[..i]
  {
    ss[..i] + [Sample(ss[i].at, ss[i].conditions[..j])]
  }

  /** The interval begun at `p` is still running at the last sample. */
  predicate IsOpen(ss: seq<Sample>, p: Pos) {
    IsPos(ss, p) && !Repeated(ss, p) && RunEnd(ss, p.sample, At(ss, p)) == |ss| - 1
  }

  /** Interval number `k` is the running one of condition `c`. */
  predicate Opens(ss: seq<Sample>, c: Condition, k: nat) {
    k < |Heads(ss)| && IsOpen(ss, Heads(ss)[k]) && At(ss, Heads(ss)[k]) == c
  }

  lemma {:induction false} HeadsOfSame(ss: seq<Sample>, tt: seq<Sample>, i: nat, m: nat)
    requires i < |ss| && i < |tt| && m <= |ss[i].conditions| && m <= |tt[i].conditions|
    requires ss[..i] == tt[..i] && ss[i].conditions[..m] == tt[i].conditions[..m]
    ensures HeadsOf(ss, i, m) == HeadsOf(tt, i, m)
  {
    if m > 0 {
      assert ss[i].conditions[..m][..m - 1] == ss[i].conditions[..m - 1];
      assert tt[i].conditions[..m][..m - 1] == tt[i].conditions[..m - 1];
      HeadsOfSame(ss, tt, i, m - 1);
      assert ss[i].conditions[..m][m - 1] == tt[i].conditions[..m][m - 1];
      if i > 0 {
        assert ss[..i][i - 1] == tt[..i][i - 1];
      }
    }
  }

  lemma PartialHeads(ss: seq<Sample>, i: nat, j: nat)
    requires i < |ss| && j <= |ss[i].conditions|
    ensures Heads(Partial(ss, i, j)) == Heads(ss[..i]) + HeadsOf(ss, i, j)
  {
    var t := Partial(ss, i, j);
    assert t[i].conditions[..j] == ss[i].conditions[..j];
    HeadsOfSame(ss, t, i, j);
    assert t[..i] == ss[..i];
  }

  lemma StepHeads(ss: seq<Sample>, i: nat, j: nat)
    requires i < |ss| && j < |ss[i].conditions|
    ensures Heads(Partial(ss, i, j + 1)) ==
      Heads(Partial(ss, i, j)) + if Begins(ss, i, ss[i].conditions[j]) then [Pos(i, j)] else []
  {
    hide Heads, Partial;
    PartialHeads(ss, i, j);
    PartialHeads(ss, i, j + 1);
  }

  /** An interval not running when sample `i` reports its condition stays as it is. */
  lemma StepOther(ss: seq<Sample>, i: nat, j: nat, p: Pos)
    requires i < |ss| && j < |ss[i].conditions| && IsPos(Partial(ss, i, j), p)
    requires At(Partial(ss, i, j), p) == ss[i].conditions[j] ==> !IsOpen(ss[..i], p)
    ensures IntervalAt(Partial(ss, i, j + 1), p) == IntervalAt(Partial(ss, i, j), p)
  {
    var t, t' := Partial(ss, i, j), Partial(ss, i, j + 1);
    var a := At(t, p);
    if p.sample < i && !Repeated(t, p) {
      var e := RunEnd(t, p.sample, a);
      if a == ss[i].conditions[j] {
        var e0 := RunEnd(ss[..i], p.sample, a);
      } else {
        assert a in t'[i].conditions <==> a in t[i].conditions;
      }
    }
  }

  lemma StepOpen(ss: seq<Sample>, i: nat, j: nat, p: Pos)
    requires i < |ss| && j < |ss[i].conditions| && IsOpen(ss[..i], p) && At(ss[..i], p) == ss[i].conditions[j]
    ensures IsPos(Partial(ss, i, j), p) && IsOpen(Partial(ss, i, j + 1), p)
    ensures IntervalAt(Partial(ss, i, j + 1), p) == IntervalAt(Partial(ss, i, j), p).(to := ss[i].at)
  {
    var t' := Partial(ss, i, j + 1);
    var c := ss[i].conditions[j];
    assert t'[i].conditions[j] == c;
  }

  lemma StepKeepsOpen(ss: seq<Sample>, i: nat, j: nat, p: Pos)
    requires i < |ss| && j < |ss[i].conditions| && IsOpen(Partial(ss, i, j), p)
    requires At(Partial(ss, i, j), p) != ss[i].conditions[j]
    ensures IsOpen(Partial(ss, i, j + 1), p)
  {
    var t, t' := Partial(ss, i, j), Partial(ss, i, j + 1);
    var a := At(t, p);
    assert t'[i].conditions == t[i].conditions + [ss[i].conditions[j]];
    assert forall k :: p.sample <= k < i ==> t'[k] == t[k];
    if p.sample == i {
      assert t'[i].conditions[p.index + 1..] == t[i].conditions[p.index + 1..] + [ss[i].conditions[j]];
    }
  }

  lemma OpenIsUnique(ss: seq<Sample>, p: Pos, q: Pos)
    requires IsHead(ss, p) && IsHead(ss, q) && IsOpen(ss, p) && IsOpen(ss, q) && At(ss, p) == At(ss, q)
    ensures p == q
  {
  }

  /** Nothing has been taken in of sample `i` yet. */
  lemma StartOfSample(ss: seq<Sample>, i: nat)
    requires i < |ss|
    ensures Coalesce(Partial(ss, i, 0)) == Coalesce(ss[..i])
  {
    PartialHeads(ss, i, 0);
    var t, u := Partial(ss, i, 0), ss[..i];
    assert Heads(t) == Heads(u);
    hide Heads;
    forall k | 0 <= k < |Heads(u)| ensures Coalesce(t)[k] == Coalesce(u)[k] {
      var p := Heads(u)[k];
      assert IsHead(u, p) && t[p.sample] == u[p.sample];
    }
  }

  lemma EndOfSample(ss: seq<Sample>, i: nat)
    requires i < |ss|
    ensures Partial(ss, i, |ss[i].conditions|) == ss[..i + 1]
  {
    assert ss[i].conditions[..|ss[i].conditions|] == ss[i].conditions;
  }

  /** A condition the previous sample reported too: its running interval is extended, nothing else changes. */
  lemma StepExtend(ss: seq<Sample>, i: nat, j: nat, k: nat)
    requires i < |ss| && j < |ss[i].conditions| && Opens(ss[..i], ss[i].conditions[j], k)
    ensures var t, t' := Partial(ss, i, j), Partial(ss, i, j + 1);
      && k < |Coalesce(t)| && Opens(t', ss[i].conditions[j], k)
      && Coalesce(t') == Coalesce(t)[k := Coalesce(t)[k].(to := ss[i].at)]
  {
    var t, t' := Partial(ss, i, j), Partial(ss, i, j + 1);
    PartialHeads(ss, i, j);
    SameHeads(ss, i, j, k);
    hide Heads, HeadsOf, Partial, RunEnd, IntervalAt, EndOf;
    StepOpen(ss, i, j, Heads(ss[..i])[k]);
    forall m | 0 <= m < |Heads(t)| && m != k ensures Coalesce(t')[m] == Coalesce(t)[m] {
      OtherHead(ss, i, j, k, m);
      StepOther(ss, i, j, Heads(t)[m]);
    }
  }

  lemma SameHeads(ss: seq<Sample>, i: nat, j: nat, k: nat)
    requires i < |ss| && j < |ss[i].conditions| && Opens(ss[..i], ss[i].conditions[j], k)
    ensures Heads(Partial(ss, i, j + 1)) == Heads(Partial(ss, i, j))
  {
    hide Heads;
    StepHeads(ss, i, j);
    assert !Begins(ss, i, ss[i].conditions[j]);
  }

  lemma OtherHead(ss: seq<Sample>, i: nat, j: nat, k: nat, m: nat)
    requires i < |ss| && j < |ss[i].conditions| && Opens(ss[..i], ss[i].conditions[j], k)
    requires m < |Heads(Partial(ss, i, j))| && m != k
    ensures var t := Partial(ss, i, j); var q := Heads(t)[m];
      IsPos(t, q) && (At(t, q) == ss[i].conditions[j] ==> !IsOpen(ss[..i], q))
  {
    var t := Partial(ss, i, j);
    PartialHeads(ss, i, j);
    HeadsOrdered(t);
    hide Heads;
    var p, q := Heads(t)[k], Heads(t)[m];
    assert q in Heads(t) && p in Heads(t);
    assert if k < m then Before(p, q) else Before(q, p);
    if At(t, q) == ss[i].conditions[j] && IsOpen(ss[..i], q) {
      assert IsHead(ss[..i], q);
      OpenIsUnique(ss[..i], p, q);
    }
  }

  /** A condition the previous sample did not report: a new interval of one sample. */
  lemma StepBegin(ss: seq<Sample>, i: nat, j: nat)
    requires i < |ss| && j < |ss[i].conditions| && Begins(ss, i, ss[i].conditions[j])
    ensures var t, t', c := Partial(ss, i, j), Partial(ss, i, j + 1), ss[i].conditions[j];
      Coalesce(t') == Coalesce(t) + [Interval(c, ss[i].at, ss[i].at)] && Opens(t', c, |Coalesce(t)|)
  {
    var t, t', c := Partial(ss, i, j), Partial(ss, i, j + 1), ss[i].conditions[j];
    StepHeads(ss, i, j);
    hide Heads;
    forall m | 0 <= m < |Heads(t)| ensures Coalesce(t')[m] == Coalesce(t)[m] {
      var q := Heads(t)[m];
      assert IsHead(t, q);
      StepOther(ss, i, j, q);
    }
    var p := Pos(i, j);
    assert t'[i].conditions[j + 1..] == [];
    assert At(t', p) == c;
  }

  lemma StepKeeps(ss: seq<Sample>, i: nat, j: nat, d: Condition, m: nat)
    requires i < |ss| && j < |ss[i].conditions| && Opens(Partial(ss, i, j), d, m) && d != ss[i].conditions[j]
    ensures Opens(Partial(ss, i, j + 1), d, m)
  {
    StepHeads(ss, i, j);
    hide Heads;
    StepKeepsOpen(ss, i, j, Heads(Partial(ss, i, j))[m]);
  }
}
