/** Searches that start where the answer is expected, against the plain ones they stand for. */
module Lookup {

  import opened Wrappers

  datatype OperandVersion = OperandVersion(name: string, version: string)

  datatype Change = Change(name: string, from: string, to: string)

  // ---- the rotated search ----

  /** The entry at step `j` of the walk that starts at entry `i` and wraps around. */
  function At(n: nat, i: nat, j: nat): (p: nat)
    requires n > 0
    ensures p < n
  {
    (j + i) % n
  }

  /** The first entry of that name at or after step `j` of that walk. */
  ghost function Walk(previous: seq<OperandVersion>, name: string, i: nat, j: nat): (w: Option<nat>)
    requires j <= |previous|
    ensures w.Some? ==> w.value < |previous| && previous[w.value].name == name
    decreases |previous| - j
  {
    if j == |previous| then None
    else if previous[At(|previous|, i, j)].name == name then Some(At(|previous|, i, j))
    else Walk(previous, name, i, j + 1)
  }

  ghost function ChangeOf(previous: seq<OperandVersion>, v: OperandVersion, found: Option<nat>): seq<Change>
    requires found.Some? ==> found.value < |previous|
  {
    if found.Some? && previous[found.value].version != v.version
    then [Change(v.name, previous[found.value].version, v.version)] else []
  }

  lemma {:induction false} WalkFinds(previous: seq<OperandVersion>, name: string, i: nat, j: nat)
    requires j <= |previous|
    ensures Walk(previous, name, i, j).None? ==>
      forall k :: j <= k < |previous| ==> previous[At(|previous|, i, k)].name != name
    decreases |previous| - j
  {
    if j < |previous| {
      WalkFinds(previous, name, i, j + 1);
    }
  }

  lemma RemainderIs(n: nat, x: int, q: int, r: int)
    requires 0 <= r < n && x == q * n + r
    ensures x % n == r
  {
    var d := x / n;
    assert x == d * n + x % n;
    assert (d - q) * n == d * n - q * n;
    Multiple(d - q, n);
  }

  lemma Multiple(d: int, n: nat)
    ensures d >= 1 ==> d * n >= n
    ensures d <= -1 ==> d * n + n <= 0
  {
  }

  /** The walk wraps around once. */
  lemma AtWraps(n: nat, i: nat, j: nat)
    requires j < n
    ensures var r: int := i % n; At(n, i, j) == if j + r < n then j + r else j + r - n
  {
    var q, r := i / n, i % n;
    assert i == q * n + r;
    if j + r < n {
      RemainderIs(n, j + i, q, j + r);
    } else {
      assert (q + 1) * n == q * n + n;
      RemainderIs(n, j + i, q + 1, j + r - n);
    }
  }

  /** Of several entries of the name the walk finds the one it comes to first. */
  lemma {:induction false} WalkFindsFirst(previous: seq<OperandVersion>, name: string, i: nat, j: nat) returns (k: nat)
    requires j <= |previous| && Walk(previous, name, i, j).Some?
    ensures j <= k < |previous| && Walk(previous, name, i, j) == Some(At(|previous|, i, k))
    ensures forall l :: j <= l < k ==> previous[At(|previous|, i, l)].name != name
    decreases |previous| - j
  {
    hide At;
    if previous[At(|previous|, i, j)].name == name {
      k := j;
    } else {
      k := WalkFindsFirst(previous, name, i, j + 1);
    }
  }

  /** Every entry is visited at exactly one step. */
  lemma WalkVisitsAll(n: nat, i: nat, p: nat) returns (j: nat)
    requires p < n
    ensures j < n && At(n, i, j) == p
    ensures forall k :: 0 <= k < n && At(n, i, k) == p ==> k == j
  {
    var r := i % n;
    j := if p >= r then p - r else p + n - r;
    hide At;
    forall k | 0 <= k < n ensures (k + r < n ==> At(n, i, k) == k + r) && (k + r >= n ==> At(n, i, k) == k + r - n) {
      AtWraps(n, i, k);
    }
  }

  /** The walk misses no entry of the name. */
  lemma WalkMissesNone(previous: seq<OperandVersion>, name: string, i: nat)
    ensures Walk(previous, name, i, 0).Some? <==> exists p :: 0 <= p < |previous| && previous[p].name == name
  {
    hide At;
    WalkFinds(previous, name, i, 0);
    if p :| 0 <= p < |previous| && previous[p].name == name {
      var j := WalkVisitsAll(|previous|, i, p);
    }
  }

  ghost function Changes(previous: seq<OperandVersion>, current: seq<OperandVersion>): seq<Change> {
    if current == [] then [] else
    var i := |current| - 1;
    Changes(previous, current[..i]) + ChangeOf(previous, current[i], Walk(previous, current[i].name, i, 0))
  }

  method FindOperatorVersionChange(previous: seq<OperandVersion>, current: seq<OperandVersion>)
    returns (changed: seq<Change>)
    ensures changed == Changes(previous, current)
    ensures Consistent(previous) ==> changed == PlainChanges(Dictionary(previous), current)
  {
    changed := [];
    for i := 0 to |current|
      invariant changed == Changes(previous, current[..i])
    {
      WalkFinds(previous, current[i].name, i, 0);
      ghost var found := Walk(previous, current[i].name, i, 0);
      ghost var before := changed;
      assert current[..i + 1][..i] == current[..i];
      var j := 0;
      while j < |previous|
        invariant 0 <= j <= |previous| && changed == before
        invariant Walk(previous, current[i].name, i, j) == found
      {
        var p := At(|previous|, i, j);
        if previous[p].name != current[i].name {
          j := j + 1;
          continue;
        }
        assert found == Some(p);
        if previous[p].version == current[i].version {
          break;
        }
        changed := changed + [Change(current[i].name, previous[p].version, current[i].version)];
        break;
      }
      assert changed == before + ChangeOf(previous, current[i], found);
    }
    assert current[..|current|] == current;
    if Consistent(previous) {
      RotatedIsPlain(previous, current);
    }
  }

  // ---- the plain form ----

  /** The old versions by name; of several entries of one name the first one. */
  ghost function Dictionary(previous: seq<OperandVersion>): map<string, string> {
    if previous == [] then map[] else Dictionary(previous[1..])[previous[0].name := previous[0].version]
  }

  ghost function PlainChange(previous: map<string, string>, v: OperandVersion): seq<Change> {
    if v.name in previous && previous[v.name] != v.version then [Change(v.name, previous[v.name], v.version)] else []
  }

  /** What changed, in the order of the new list. */
  ghost function PlainChanges(previous: map<string, string>, current: seq<OperandVersion>): seq<Change> {
    if current == [] then [] else
    PlainChanges(previous, current[..|current| - 1]) + PlainChange(previous, current[|current| - 1])
  }

  lemma {:induction false} PlainChangesInOrder(previous: map<string, string>, a: seq<OperandVersion>,
                                               b: seq<OperandVersion>)
    ensures PlainChanges(previous, a + b) == PlainChanges(previous, a) + PlainChanges(previous, b)
  {
    if b == [] {
      assert a + b == a;
    } else {
      var n := |b| - 1;
      assert (a + b)[..|a + b| - 1] == a + b[..n];
      PlainChangesInOrder(previous, a, b[..n]);
    }
  }

  /** A change is listed exactly for a new entry whose name had another version, which it is a change from. */
  lemma {:induction false} PlainChangesExactly(previous: map<string, string>, current: seq<OperandVersion>, c: Change)
    ensures c in PlainChanges(previous, current) <==>
      && c.name in previous && previous[c.name] == c.from != c.to && OperandVersion(c.name, c.to) in current
  {
    if current != [] {
      var n := |current| - 1;
      PlainChangesExactly(previous, current[..n], c);
      assert current == current[..n] + [current[n]];
    }
  }

  /** Entries of one name carry one version; unique names are a special case. */
  ghost predicate Consistent(previous: seq<OperandVersion>) {
    forall p, q :: 0 <= p < |previous| && 0 <= q < |previous| && previous[p].name == previous[q].name ==>
      previous[p].version == previous[q].version
  }

  lemma {:induction false} DictionaryHas(previous: seq<OperandVersion>, name: string)
    ensures name in Dictionary(previous) <==> exists p :: 0 <= p < |previous| && previous[p].name == name
    ensures name in Dictionary(previous) ==>
      exists p :: 0 <= p < |previous| && previous[p] == OperandVersion(name, Dictionary(previous)[name])
  {
    if previous != [] {
      var rest := previous[1..];
      DictionaryHas(rest, name);
      if p :| 0 <= p < |previous| && previous[p].name == name && previous[0].name != name {
        assert rest[p - 1] == previous[p];
      }
      if previous[0].name == name {
        assert previous[0] == OperandVersion(name, Dictionary(previous)[name]);
      } else if name in Dictionary(rest) {
        var p :| 0 <= p < |rest| && rest[p] == OperandVersion(name, Dictionary(rest)[name]);
        assert previous[p + 1] == rest[p];
      }
    }
  }

  lemma SameChange(previous: seq<OperandVersion>, v: OperandVersion, i: nat)
    requires Consistent(previous)
    ensures ChangeOf(previous, v, Walk(previous, v.name, i, 0)) == PlainChange(Dictionary(previous), v)
  {
    WalkFinds(previous, v.name, i, 0);
    WalkMissesNone(previous, v.name, i);
    DictionaryHas(previous, v.name);
  }

  lemma {:induction false} RotatedIsPlain(previous: seq<OperandVersion>, current: seq<OperandVersion>)
    requires Consistent(previous)
    ensures Changes(previous, current) == PlainChanges(Dictionary(previous), current)
  {
    if current != [] {
      var i := |current| - 1;
      RotatedIsPlain(previous, current[..i]);
      SameChange(previous, current[i], i);
    }
  }

  /** A list on which the rotation shows: as many entries as lead the walk to one the dictionary does not have. */
  lemma RotationShows(previous: seq<OperandVersion>) returns (current: seq<OperandVersion>)
    requires !Consistent(previous)
    ensures Changes(previous, current) != PlainChanges(Dictionary(previous), current)
  {
    var q := Disagrees(previous);
    var v := OperandVersion(previous[q].name, Dictionary(previous)[previous[q].name]);
    current := seq(q, _ => v);
    WalkHits(previous, q);
    ChangesNext(previous, current, v);
    hide Changes, PlainChanges, Walk, Dictionary, Consistent;
    if Changes(previous, current) == PlainChanges(Dictionary(previous), current) {
      current := current + [v];
    }
  }

  lemma ChangesNext(previous: seq<OperandVersion>, front: seq<OperandVersion>, v: OperandVersion)
    ensures Changes(previous, front + [v])
      == Changes(previous, front) + ChangeOf(previous, v, Walk(previous, v.name, |front|, 0))
    ensures PlainChanges(Dictionary(previous), front + [v])
      == PlainChanges(Dictionary(previous), front) + PlainChange(Dictionary(previous), v)
  {
    hide Walk, Dictionary, ChangeOf, PlainChange;
    assert (front + [v])[..|front|] == front;
  }

  /** The rotation makes no difference, whatever the new list, exactly if the old names are consistent. */
  lemma RotationHarmlessIff(previous: seq<OperandVersion>)
    ensures (forall current :: Changes(previous, current) == PlainChanges(Dictionary(previous), current))
      <==> Consistent(previous)
  {
    hide *;
    if Consistent(previous) {
      forall current ensures Changes(previous, current) == PlainChanges(Dictionary(previous), current) {
        RotatedIsPlain(previous, current);
      }
    } else {
      var current := RotationShows(previous);
    }
  }

  /** A walk that starts at an entry of the name stops there. */
  lemma WalkHits(previous: seq<OperandVersion>, q: nat)
    requires q < |previous|
    ensures Walk(previous, previous[q].name, q, 0) == Some(q)
  {
    RemainderIs(|previous|, q, 0, q);
    assert At(|previous|, q, 0) == q;
    hide At;
  }

  /** An entry that the dictionary does not show. */
  lemma Disagrees(previous: seq<OperandVersion>) returns (q: nat)
    requires !Consistent(previous)
    ensures q < |previous| && previous[q].name in Dictionary(previous)
    ensures previous[q].version != Dictionary(previous)[previous[q].name]
  {
    var a, b :| 0 <= a < |previous| && 0 <= b < |previous|
      && previous[a].name == previous[b].name && previous[a].version != previous[b].version;
    DictionaryHas(previous, previous[a].name);
    q := if previous[a].version != Dictionary(previous)[previous[a].name] then a else b;
  }

  // ---- the hinted search ----

  /** The first position of the name. */
  ghost predicate First(names: seq<string>, name: string, r: Option<nat>) {
    match r
    case None => name !in names
    case Some(p) => p < |names| && names[p] == name && name !in names[..p]
  }

  /**
   The lookups of container statuses by name and of node conditions by type: the entry at the hint if it
   has the name, otherwise the first that has it. The result stands for a reference to the entry.
   */
  method FindContainerStatus(names: seq<string>, name: string, position: nat) returns (r: Option<nat>)
    ensures r == Hinted(names, name, position)
  {
    if position < |names| {
      if names[position] == name {
        return Some(position);
      }
    }
    for i := 0 to |names|
      invariant FirstFrom(names, name, 0) == FirstFrom(names, name, i)
    {
      if names[i] == name {
        return Some(i);
      }
    }
    return None;
  }

  ghost function FirstFrom(names: seq<string>, name: string, i: nat): Option<nat>
    requires i <= |names|
    decreases |names| - i
  {
    if i == |names| then None else if names[i] == name then Some(i) else FirstFrom(names, name, i + 1)
  }

  ghost function Hinted(names: seq<string>, name: string, position: nat): Option<nat> {
    if position < |names| && names[position] == name then Some(position) else FirstFrom(names, name, 0)
  }

  lemma {:induction false} FirstFromIsFirst(names: seq<string>, name: string, i: nat)
    requires i <= |names| && name !in names[..i]
    ensures First(names, name, FirstFrom(names, name, i))
    decreases |names| - i
  {
    if i == |names| {
      assert names[..i] == names;
    } else if names[i] != name {
      assert names[..i + 1] == names[..i] + [names[i]];
      FirstFromIsFirst(names, name, i + 1);
    }
  }

  ghost predicate Unique(names: seq<string>) {
    forall p, q :: 0 <= p < q < |names| ==> names[p] != names[q]
  }

  /** The hint never decides whether an entry is found, and which one only if a name repeats. */
  lemma HintHarmlessIff(names: seq<string>)
    ensures forall name, position: nat :: Hinted(names, name, position).None? <==> name !in names
    ensures (forall name, position: nat :: First(names, name, Hinted(names, name, position))) <==> Unique(names)
  {
    forall name, position: nat
      ensures Hinted(names, name, position).None? <==> name !in names
      ensures Unique(names) ==> First(names, name, Hinted(names, name, position))
    {
      FirstFromIsFirst(names, name, 0);
    }
    if !Unique(names) {
      var p, q :| 0 <= p < q < |names| && names[p] == names[q];
      assert names[..q][p] == names[q];
      assert !First(names, names[q], Hinted(names, names[q], q));
    }
  }
}
