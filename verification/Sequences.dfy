/** Facts about sequences of any elements. */
module Sequences {

  lemma InsertPermutes<T>(xs: seq<T>, k: nat, x: T)
    requires k <= |xs|
    ensures multiset(xs[..k] + [x] + xs[k..]) == multiset(xs) + multiset{x}
  {
    assert xs == xs[..k] + xs[k..];
  }

  /** Two parts of a sequence stay parts of it when one of them and the sequence grow alike. */
  lemma PartsGrow<T>(a: seq<T>, b: seq<T>, all: seq<T>, x: T)
    requires multiset(a) + multiset(b) == multiset(all)
    ensures multiset(a + [x]) + multiset(b) == multiset(all + [x])
    ensures multiset(b) + multiset(a + [x]) == multiset(all + [x])
  {
  }

  ghost predicate StandsTwice<T>(xs: seq<T>, x: T) {
    exists i, j :: 0 <= i < j < |xs| && xs[i] == x && xs[j] == x
  }

  /** An element counted twice stands at two places. */
  lemma {:induction false} CountedTwice<T>(xs: seq<T>, x: T)
    requires multiset(xs)[x] >= 2
    ensures StandsTwice(xs, x)
  {
    var n := |xs| - 1;
    assert xs == xs[..n] + [xs[n]];
    if multiset(xs[..n])[x] >= 2 {
      CountedTwice(xs[..n], x);
      var i, j :| 0 <= i < j < n && xs[..n][i] == x && xs[..n][j] == x;
      assert xs[i] == x && xs[j] == x;
    } else {
      assert x in multiset(xs[..n]);
      var i :| 0 <= i < n && xs[..n][i] == x;
      assert xs[i] == x && xs[n] == x;
    }
  }

  lemma TwoPlaces<T>(xs: seq<T>, i: nat, j: nat)
    requires i < j < |xs| && xs[i] == xs[j]
    ensures multiset(xs)[xs[i]] >= 2
  {
    assert xs == xs[..j] + [xs[j]] + xs[j + 1..];
    assert xs[..j][i] == xs[j] && xs[j] in multiset(xs[..j]);
  }
}
