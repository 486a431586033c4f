/** What one locked section of the exclusion queue does, on values: a cyclic sequence and a set of held keys. */
module QueueSpec {
  import opened Tests

  /** `ring[0]` is the element the queue points at; the ring is read cyclically. */
  datatype QState = QState(ring: seq<Test>, active: set<string>)

  datatype PopOutcome = Empty | Blocked | Got(t: Test)

  /** The position before `k` on a ring of `n` elements. */
  function Pred(k: nat, n: nat): (p: nat)
    requires k < n
    ensures p < n
  {
    if k == 0 then n - 1 else k - 1
  }

  function Rotate<T>(s: seq<T>, k: nat): seq<T>
    requires k <= |s|
  {
    s[k..] + s[..k]
  }

  /** The ring seen from the predecessor of `k` once element `k` is unlinked. */
  function RemoveAt<T>(s: seq<T>, k: nat): (r: seq<T>)
    requires k < |s|
  {
    if |s| == 1 then [] else
    var rotated := Rotate(s, Pred(k, |s|));
    [rotated[0]] + rotated[2..]
  }

  /** The first position whose key is not held, or the length when every key is held. */
  function FirstFree(ring: seq<Test>, active: set<string>): (k: nat)
    ensures k <= |ring|
    ensures forall i :: 0 <= i < k ==> ring[i].exclusion in active
    ensures k < |ring| ==> ring[k].exclusion !in active
  {
    if ring == [] || ring[0].exclusion !in active then 0
    else
      assert forall i :: 0 < i < |ring| ==> ring[i] == ring[1..][i - 1];
      1 + FirstFree(ring[1..], active)
  }

  function Key(t: Test): set<string> {
    if t.exclusion == "" then {} else {t.exclusion}
  }

  function Pop(q: QState): (QState, PopOutcome) {
    var k := FirstFree(q.ring, q.active);
    if q.ring == [] then (q, Empty)
    else if k == |q.ring| then (q, Blocked)
    else (QState(RemoveAt(q.ring, k), q.active + Key(q.ring[k])), Got(q.ring[k]))
  }

  function Done(q: QState, t: Test): QState {
    q.(active := q.active - {t.exclusion})
  }

  function Closed(q: QState): QState {
    QState([], {})
  }

  lemma RotatePermutes<T>(s: seq<T>, k: nat)
    requires k <= |s|
    ensures multiset(Rotate(s, k)) == multiset(s) && |Rotate(s, k)| == |s|
  {
    assert s == s[..k] + s[k..];
  }

  /** The sequence without element `k`. */
  function Rest<T>(s: seq<T>, k: nat): seq<T>
    requires k < |s|
  {
    s[..k] + s[k + 1..]
  }

  lemma RestLacksOne<T>(s: seq<T>, k: nat)
    requires k < |s|
    ensures multiset(Rest(s, k)) == multiset(s) - multiset{s[k]} && |Rest(s, k)| == |s| - 1
  {
    assert s == s[..k] + [s[k]] + s[k + 1..];
  }

  /** Unlinking takes out exactly the chosen element and keeps the cyclic order of the others. */
  lemma RemoveAtIsCyclicRemoval<T>(s: seq<T>, k: nat)
    requires k < |s|
    ensures |RemoveAt(s, k)| == |s| - 1
    ensures |s| > 1 ==> RemoveAt(s, k) == Rotate(Rest(s, k), if k == 0 then |s| - 2 else k - 1)
    ensures multiset(RemoveAt(s, k)) == multiset(s) - multiset{s[k]}
  {
    hide RemoveAt, Rotate, Rest;
    RestLacksOne(s, k);
    if |s| == 1 {
      RemoveLast(s);
    } else if k == 0 {
      RemoveFirst(s);
      RotateFirst(s);
      RotatePermutes(Rest(s, 0), |s| - 2);
    } else {
      RemoveInner(s, k);
      RotateInner(s, k);
      RotatePermutes(Rest(s, k), k - 1);
    }
  }

  lemma RemoveLast<T>(s: seq<T>)
    requires |s| == 1
    ensures RemoveAt(s, 0) == [] == Rest(s, 0)
  {
  }

  lemma RemoveFirst<T>(s: seq<T>)
    requires |s| > 1
    ensures RemoveAt(s, 0) == [s[|s| - 1]] + s[1..|s| - 1]
  {
    var rotated := Rotate(s, |s| - 1);
    assert rotated[2..] == s[1..|s| - 1];
  }

  lemma RotateFirst<T>(s: seq<T>)
    requires |s| > 1
    ensures Rotate(Rest(s, 0), |s| - 2) == [s[|s| - 1]] + s[1..|s| - 1]
  {
    assert Rest(s, 0) == s[1..|s| - 1] + [s[|s| - 1]];
  }

  lemma RemoveInner<T>(s: seq<T>, k: nat)
    requires 0 < k < |s|
    ensures RemoveAt(s, k) == [s[k - 1]] + (s[k + 1..] + s[..k - 1])
  {
    var rotated := Rotate(s, k - 1);
    assert rotated[2..] == s[k + 1..] + s[..k - 1];
  }

  lemma RotateInner<T>(s: seq<T>, k: nat)
    requires 0 < k < |s|
    ensures Rotate(Rest(s, k), k - 1) == [s[k - 1]] + (s[k + 1..] + s[..k - 1])
  {
    assert Rest(s, k) == s[..k - 1] + ([s[k - 1]] + s[k + 1..]);
  }

  /** What one consumer receives that pops a test, finishes it and only then pops the next. */
  function ServeAlone(q: QState): seq<Test>
    decreases |q.ring|
  {
    var (q', outcome) := Pop(q);
    if !outcome.Got? then [] else
    RemoveAtIsCyclicRemoval(q.ring, FirstFree(q.ring, q.active));
    [outcome.t] + ServeAlone(Done(q', outcome.t))
  }

  function Reverse<T>(s: seq<T>): seq<T> {
    if s == [] then [] else [s[|s| - 1]] + Reverse(s[..|s| - 1])
  }

  /** A lone consumer is never blocked: it gets the first test first and all the others backwards. */
  lemma {:induction false} LoneConsumerOrder(q: QState)
    requires q.ring != [] && q.active == {}
    ensures ServeAlone(q) == [q.ring[0]] + Reverse(q.ring[1..])
    decreases |q.ring|
  {
    var s := q.ring;
    FirstServed(q);
    hide *;
    if |s| > 1 {
      var after := QState([s[|s| - 1]] + s[1..|s| - 1], {});
      LoneConsumerOrder(after);
      BackOne(s);
    }
  }

  lemma FirstServed(q: QState)
    requires q.ring != [] && q.active == {}
    ensures var s := q.ring;
      ServeAlone(q) == if |s| == 1 then [s[0]] + Reverse(s[1..])
                       else [s[0]] + ServeAlone(QState([s[|s| - 1]] + s[1..|s| - 1], {}))
  {
    var s := q.ring;
    var (q', outcome) := Pop(q);
    assert outcome == Got(s[0]) && q'.ring == RemoveAt(s, 0) && Done(q', s[0]).active == {};
    if |s| == 1 {
      RemoveLast(s);
      assert s[1..] == [] && ServeAlone(Done(q', s[0])) == [];
    } else {
      RemoveFirst(s);
      assert Done(q', s[0]) == QState([s[|s| - 1]] + s[1..|s| - 1], {});
    }
  }

  /** The last element in front of the others backwards is all of them backwards. */
  lemma BackOne<T>(s: seq<T>)
    requires |s| > 1
    ensures var ring := [s[|s| - 1]] + s[1..|s| - 1]; [ring[0]] + Reverse(ring[1..]) == Reverse(s[1..])
  {
    var ring := [s[|s| - 1]] + s[1..|s| - 1];
    assert ring[1..] == s[1..][..|s| - 2] && s[1..][|s| - 2] == ring[0];
  }
}
