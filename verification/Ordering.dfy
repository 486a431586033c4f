/** The order in which intervals are reported. */
module Ordering {
  import opened Strings
  import opened Sequences
  import opened Timeline
  import opened Intervals

  /** By start, then by end, then by message; level and locator play no part. */
  predicate Less(a: Interval, b: Interval) {
    if a.from != b.from then a.from < b.from
    else if a.to != b.to then a.to < b.to
    else StringLess(a.condition.message, b.condition.message)
  }

  predicate Equivalent(a: Interval, b: Interval) {
    !Less(a, b) && !Less(b, a)
  }

  /** `Less` is a strict weak order, so a sorted list exists and is determined up to equivalents. */
  lemma StrictWeakOrder(a: Interval, b: Interval, c: Interval)
    ensures !Less(a, a)
    ensures Less(a, b) && Less(b, c) ==> Less(a, c)
    ensures Equivalent(a, b) && Equivalent(b, c) ==> Equivalent(a, c)
    ensures Equivalent(a, b) <==> a.from == b.from && a.to == b.to && a.condition.message == b.condition.message
  {
    hide StringLess;
    var p, q, r := a.condition.message, b.condition.message, c.condition.message;
    StringsCompare(p, q, r);
    StringsCompare(r, q, p);
    StringsCompare(p, r, q);
  }

  /** An earlier start decides; of equal starts the earlier end; of equal ends the lesser message. */
  lemma LessIff(a: Interval, b: Interval)
    ensures Less(a, b) <==>
      || a.from < b.from
      || (a.from == b.from && a.to < b.to)
      || (a.from == b.from && a.to == b.to && StringLess(a.condition.message, b.condition.message))
  {
    hide StringLess;
  }

  ghost predicate Sorted(xs: seq<Interval>) {
    forall i, j :: 0 <= i < j < |xs| ==> !Less(xs[j], xs[i])
  }

  /** In a sorted list ends follow in order among equal starts, and messages among equal intervals of time. */
  lemma SortedMeans(xs: seq<Interval>, i: nat, j: nat)
    requires Sorted(xs) && i < j < |xs|
    ensures xs[i].from <= xs[j].from
    ensures xs[i].from == xs[j].from ==> xs[i].to <= xs[j].to
    ensures xs[i].from == xs[j].from && xs[i].to == xs[j].to ==>
      !StringLess(xs[j].condition.message, xs[i].condition.message)
  {
    hide StringLess;
    assert !Less(xs[j], xs[i]);
  }

  lemma SortedByFrom(xs: seq<Interval>)
    requires Sorted(xs)
    ensures forall i, j :: 0 <= i < j < |xs| ==> xs[i].from <= xs[j].from
  {
  }

  /** Stands for `sort.Sort`: some sorted permutation of the given objects, of which callers know no more. */
  method Sort(xs: seq<EventInterval>) returns (r: seq<EventInterval>)
    ensures multiset(r) == multiset(xs) && multiset(Values(r)) == multiset(Values(xs))
    ensures Sorted(Values(r))
  {
    hide Values;
    r := [];
    for i := 0 to |xs|
      invariant multiset(r) == multiset(xs[..i]) && multiset(Values(r)) == multiset(Values(xs[..i]))
      invariant Sorted(Values(r))
    {
      ValuesNext(xs, i);
      r := Insert(r, xs[i]);
    }
    assert xs[..|xs|] == xs;
  }

  lemma ValuesNext(xs: seq<EventInterval>, i: nat)
    requires i < |xs|
    ensures xs[..i + 1] == xs[..i] + [xs[i]] && Values(xs[..i + 1]) == Values(xs[..i]) + [xs[i].Value()]
  {
    hide Values;
    assert xs[..i + 1] == xs[..i] + [xs[i]];
  }

  method Insert(xs: seq<EventInterval>, x: EventInterval) returns (r: seq<EventInterval>)
    requires Sorted(Values(xs))
    ensures multiset(r) == multiset(xs + [x]) && multiset(Values(r)) == multiset(Values(xs) + [x.Value()])
    ensures Sorted(Values(r))
  {
    hide Values, Less;
    var k := |xs|;
    while k > 0 && Less(x.Value(), xs[k - 1].Value())
      invariant 0 <= k <= |xs| && forall i :: k <= i < |xs| ==> Less(x.Value(), Values(xs)[i])
    {
      k := k - 1;
    }
    r := xs[..k] + [x] + xs[k..];
    InsertSorted(Values(xs), k, x.Value());
    InsertPermutes(xs, k, x);
    InsertPermutes(Values(xs), k, x.Value());
    InsertValues(xs, k, x);
  }

  lemma InsertValues(xs: seq<EventInterval>, k: nat, x: EventInterval)
    requires k <= |xs|
    ensures Values(xs[..k] + [x] + xs[k..]) == Values(xs)[..k] + [x.Value()] + Values(xs)[k..]
  {
    hide *;
    ValuesSplit(xs, k);
    ValuesOfOne(x);
    ValuesConcat(xs[..k], [x]);
    ValuesConcat(xs[..k] + [x], xs[k..]);
  }

  lemma ValuesConcat(a: seq<EventInterval>, b: seq<EventInterval>)
    ensures Values(a + b) == Values(a) + Values(b)
  {
    hide Values;
  }

  lemma ValuesOfOne(x: EventInterval)
    ensures Values([x]) == [x.Value()]
  {
    hide Values;
  }

  lemma ValuesSplit(xs: seq<EventInterval>, k: nat)
    requires k <= |xs|
    ensures Values(xs[..k]) == Values(xs)[..k] && Values(xs[k..]) == Values(xs)[k..]
  {
    hide Values;
  }

  lemma InsertSorted(vs: seq<Interval>, k: nat, v: Interval)
    requires Sorted(vs) && k <= |vs|
    requires forall i :: k <= i < |vs| ==> Less(v, vs[i])
    requires k > 0 ==> !Less(v, vs[k - 1])
    ensures Sorted(vs[..k] + [v] + vs[k..])
  {
    hide Less;
    var r := vs[..k] + [v] + vs[k..];
    forall i, j | 0 <= i < j < |r| ensures !Less(r[j], r[i]) {
      if i < k == j {
        if i < k - 1 {
          NotLessChain(vs[i], vs[k - 1], v);
        }
      } else if i == k {
        StrictWeakOrder(v, r[j], v);
      }
    }
  }

  lemma NotLessChain(a: Interval, b: Interval, c: Interval)
    requires !Less(b, a) && !Less(c, b)
    ensures !Less(c, a)
  {
    hide StringLess;
    var p, q, r := a.condition.message, b.condition.message, c.condition.message;
    StringsCompare(p, q, r);
    StringsCompare(r, p, q);
    StringsCompare(q, r, p);
  }
}
