/** What the timeline says about the moments at which the samplers were asked, recorded or not. */
module Ticks {
  import opened Timeline
  import opened Monitor

  predicate Reported(tick: Sample) {
    tick.conditions != []
  }

  /** The samples that a sequence of ticks leaves behind: ticks without conditions leave none. */
  function Recorded(ticks: seq<Sample>): seq<Sample> {
    Within(ticks, Reported)
  }

  lemma {:induction false} RecordedConcat(a: seq<Sample>, b: seq<Sample>)
    ensures Recorded(a + b) == Recorded(a) + Recorded(b)
  {
    if b == [] {
      assert a + b == a;
    } else {
      var n := |b| - 1;
      RecordedConcat(a, b[..n]);
      assert (a + b)[..|a + b| - 1] == a + b[..n];
    }
  }

  lemma RecordedOne(tick: Sample)
    ensures Recorded([tick]) == if tick.conditions != [] then [tick] else []
  {
    assert [tick][..0] == [];
    assert Within([tick][..0], Reported) == [];
    assert Reported(tick) <==> tick.conditions != [];
  }

  lemma {:induction false} RecordedIncreasing(ticks: seq<Sample>)
    requires Increasing(ticks)
    ensures Increasing(Recorded(ticks))
    ensures forall s :: s in Recorded(ticks) ==> s in ticks
  {
    if ticks != [] {
      var n := |ticks| - 1;
      RecordedIncreasing(ticks[..n]);
      var front := Recorded(ticks[..n]);
      assert forall i :: 0 <= i < |front| ==> front[i] in front;
      assert forall s :: s in ticks[..n] ==> s.at < ticks[n].at;
    }
  }

  /** Some interval of the condition covers that time. */
  ghost predicate Shown(ss: seq<Sample>, c: Condition, at: Time) {
    exists k :: 0 <= k < |Coalesce(ss)| && Reports(Coalesce(ss)[k], c, at)
  }

  /** Between two neighbouring samples a condition is shown exactly if both report it. */
  lemma ShownBetween(ss: seq<Sample>, k: nat, c: Condition, at: Time)
    requires Increasing(ss) && k <= |ss|
    requires k > 0 ==> ss[k - 1].at < at
    requires k < |ss| ==> at < ss[k].at
    ensures Shown(ss, c, at) <==> 0 < k < |ss| && c in ss[k - 1].conditions && c in ss[k].conditions
  {
    hide Heads;
    if 0 < k < |ss| && c in ss[k - 1].conditions && c in ss[k].conditions {
      var h := Covering(ss, k, c);
      assert Reports(Coalesce(ss)[h], c, at);
    }
    if h :| 0 <= h < |Coalesce(ss)| && Reports(Coalesce(ss)[h], c, at) {
      var p := Heads(ss)[h];
      assert p.sample < k <= EndOf(ss, p);
    }
  }

  /** The ticks before and after tick `i`, and what is recorded of all of them. */
  lemma RecordedAround(ticks: seq<Sample>, i: nat)
    requires i < |ticks|
    ensures Recorded(ticks) == Recorded(ticks[..i])
      + (if ticks[i].conditions != [] then [ticks[i]] else []) + Recorded(ticks[i + 1..])
  {
    RecordedConcat(ticks[..i], [ticks[i]]);
    RecordedConcat(ticks[..i + 1], ticks[i + 1..]);
    assert ticks[..i] + [ticks[i]] == ticks[..i + 1];
    assert ticks[..i + 1] + ticks[i + 1..] == ticks;
    RecordedOne(ticks[i]);
  }

  /**
   The timeline shows a condition at a tick exactly if the tick reported it, or if the tick reported nothing
   at all and the recorded ticks next to it both reported the condition.
   */
  lemma ShownIff(ticks: seq<Sample>, i: nat, c: Condition)
    requires Increasing(ticks) && i < |ticks|
    ensures var before, after := Recorded(ticks[..i]), Recorded(ticks[i + 1..]);
      Shown(Recorded(ticks), c, ticks[i].at) <==>
        || c in ticks[i].conditions
        || (&& ticks[i].conditions == [] && before != [] && after != []
            && c in before[|before| - 1].conditions && c in after[0].conditions)
  {
    var before, after := Recorded(ticks[..i]), Recorded(ticks[i + 1..]);
    RecordedAround(ticks, i);
    RecordedIncreasing(ticks);
    RecordedIncreasing(ticks[..i]);
    RecordedIncreasing(ticks[i + 1..]);
    hide Within, Coalesce, Recorded;
    var ss, k := Recorded(ticks), |before|;
    if ticks[i].conditions != [] {
      assert ss[k] == ticks[i];
      Covers(ss, k, c);
    } else {
      assert k > 0 ==> ss[k - 1] == before[k - 1] && before[k - 1] in before;
      assert k < |ss| ==> ss[k] == after[0] && after[0] in after;
      ShownBetween(ss, k, c, ticks[i].at);
    }
  }

  /** A condition that goes away for one empty tick is shown as if it had stayed. */
  lemma EmptyTickIsLost(c: Condition, other: Condition)
    requires c != other
    ensures Shown(Recorded([Sample(1, [c]), Sample(2, []), Sample(3, [c])]), c, 2)
    ensures !Shown(Recorded([Sample(1, [c]), Sample(2, [other]), Sample(3, [c])]), c, 2)
  {
    hide Coalesce, Within, Recorded, Shown;
    var lost := [Sample(1, [c]), Sample(2, []), Sample(3, [c])];
    var seen := [Sample(1, [c]), Sample(2, [other]), Sample(3, [c])];
    ShownIff(lost, 1, c);
    ShownIff(seen, 1, c);
    RecordedOne(lost[0]);
    RecordedOne(lost[2]);
    assert lost[..1] == [Sample(1, [c])] && lost[2..] == [Sample(3, [c])];
  }
}
