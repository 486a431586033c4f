/** The doubly linked ring of Go's container/ring, refining a cyclic sequence of elements. */
module Ring {
  import opened Tests
  import opened QueueSpec

  class Element {
    var value: Test
    var next: Element?
    var prev: Element?
  }

  /** `nodes` lists, once each and in `next` order, all the elements of one ring. */
  ghost predicate Cycle(nodes: seq<Element>)
    reads nodes`next, nodes`prev
  {
    var n := |nodes|;
    && (forall i, j :: 0 <= i < j < n ==> nodes[i] != nodes[j])
    && (forall i :: 0 <= i < n - 1 ==> nodes[i].next == nodes[i + 1])
    && (forall i :: 1 <= i < n ==> nodes[i].prev == nodes[i - 1])
    && (n > 0 ==> nodes[n - 1].next == nodes[0] && nodes[0].prev == nodes[n - 1])
  }

  ghost function Values(nodes: seq<Element>): (vs: seq<Test>)
    reads nodes`value
    ensures |vs| == |nodes|
    ensures forall i :: 0 <= i < |nodes| ==> vs[i] == nodes[i].value
  {
    if nodes == [] then [] else [nodes[0].value] + Values(nodes[1..])
  }

  ghost function Elements(nodes: seq<Element>): (es: set<Element>)
    ensures forall i :: 0 <= i < |nodes| ==> nodes[i] in es
    ensures forall e :: e in es ==> e in nodes
  {
    set e | e in nodes
  }

  /** A ring may be read from any of its elements. */
  lemma RotateCycle(nodes: seq<Element>, k: nat)
    requires Cycle(nodes) && k < |nodes|
    ensures Cycle(Rotate(nodes, k))
  {
    var n := |nodes|;
    var r := Rotate(nodes, k);
    assert forall i :: 0 <= i < n ==> r[i] == nodes[if i < n - k then k + i else k + i - n];
  }

  lemma RotateValues(nodes: seq<Element>, k: nat)
    requires k < |nodes|
    ensures Values(Rotate(nodes, k)) == Rotate(Values(nodes), k)
  {
    hide Values;
    ValuesConcat(nodes[k..], nodes[..k]);
    ValuesDrop(nodes, k);
    assert Values(nodes[..k]) == Values(nodes)[..k];
  }

  lemma ValuesConcat(a: seq<Element>, b: seq<Element>)
    ensures Values(a + b) == Values(a) + Values(b)
  {
    hide Values;
  }

  /** The same ring read from the predecessor of element `k`, so that `k` comes second. */
  lemma RotateToPred(nodes: seq<Element>, k: nat) returns (rotated: seq<Element>)
    requires Cycle(nodes) && k < |nodes| && |nodes| >= 2
    ensures Cycle(rotated) && |rotated| == |nodes| && (forall e :: e in rotated <==> e in nodes)
    ensures rotated[0] == nodes[k].prev && rotated[1] == nodes[k]
    ensures [Values(rotated)[0]] + Values(rotated)[2..] == RemoveAt(Values(nodes), k)
  {
    var p := Pred(k, |nodes|);
    RotateCycle(nodes, p);
    RotateValues(nodes, p);
    rotated := Rotate(nodes, p);
    assert nodes[k].prev == nodes[p];
  }

  /** The ring of one element loses it and is gone. */
  lemma RemoveOnly(nodes: seq<Element>)
    requires |nodes| == 1
    ensures Cycle([]) && Values([]) == RemoveAt(Values(nodes), 0)
  {
  }

  /** Builds a ring of `n` elements with no values set. */
  method New(n: nat) returns (r: Element?, ghost nodes: seq<Element>)
    ensures |nodes| == n && Cycle(nodes) && fresh(nodes)
    ensures if n == 0 then r == null else r == nodes[0]
  {
    if n == 0 {
      return null, [];
    }
    var first := new Element;
    var p := first;
    nodes := [first];
    for i := 1 to n
      invariant |nodes| == i && nodes[0] == first && nodes[i - 1] == p && fresh(nodes)
      invariant forall a, b :: 0 <= a < b < i ==> nodes[a] != nodes[b]
      invariant forall a :: 0 <= a < i - 1 ==> nodes[a].next == nodes[a + 1]
      invariant forall a :: 1 <= a < i ==> nodes[a].prev == nodes[a - 1]
    {
      var e := new Element;
      e.prev := p;
      p.next := e;
      p := e;
      nodes := nodes + [e];
    }
    p.next := first;
    first.prev := p;
    r := first;
  }

  /** Sets the values while walking once around. */
  method Fill(first: Element?, tests: seq<Test>, ghost nodes: seq<Element>) returns (r: Element?)
    requires Cycle(nodes) && |nodes| == |tests|
    requires if nodes == [] then first == null else first == nodes[0]
    modifies nodes`value
    ensures Values(nodes) == tests && r == first
  {
    r := first;
    for i := 0 to |tests|
      modifies nodes`value
      invariant r == if i == 0 || i == |nodes| then first else nodes[i]
      invariant forall k :: 0 <= k < i ==> nodes[k].value == tests[k]
    {
      assert r == nodes[i];
      r.value := tests[i];
      r := r.next;
    }
  }

  /** A ring that holds the tests in order. */
  method Build(tests: seq<Test>) returns (r: Element?, ghost nodes: seq<Element>)
    ensures Cycle(nodes) && fresh(nodes) && Values(nodes) == tests
    ensures if nodes == [] then r == null else r == nodes[0]
  {
    r, nodes := New(|tests|);
    hide Cycle, Values;
    r := Fill(r, tests, nodes);
  }

  /** Counts the elements by walking once around. */
  method Len(r: Element?, ghost nodes: seq<Element>) returns (n: nat)
    requires Cycle(nodes)
    requires if nodes == [] then r == null else r == nodes[0]
    ensures n == |nodes|
  {
    if r == null {
      return 0;
    }
    n := 1;
    var p := r.next;
    while p != r
      invariant 1 <= n <= |nodes|
      invariant p == if n == |nodes| then nodes[0] else nodes[n]
      decreases |nodes| - n
    {
      p := p.next;
      n := n + 1;
    }
  }

  /** Takes the element after `r` out of the ring, leaving it a ring of its own. */
  method UnlinkNext(r: Element, ghost nodes: seq<Element>) returns (ghost rest: seq<Element>)
    requires Cycle(nodes) && |nodes| >= 2 && nodes[0] == r
    modifies nodes`next, nodes`prev
    ensures rest == [nodes[0]] + nodes[2..] && Cycle(rest) && Cycle([nodes[1]])
    ensures Values(rest) == [Values(nodes)[0]] + Values(nodes)[2..]
  {
    hide Values;
    ghost var n := |nodes|;
    assert nodes[0].next == nodes[0 + 1] && nodes[1].prev == nodes[1 - 1];
    assert nodes[1].next == if n == 2 then nodes[0] else nodes[1 + 1];
    var after := r.next.next;
    assert after.prev == nodes[1] by {
      if n > 2 {
        assert nodes[2].prev == nodes[2 - 1];
      }
    }
    var removed := r.next;
    var p := after.prev;
    r.next := after;
    after.prev := r;
    removed.prev := p;
    p.next := removed;
    rest := [nodes[0]] + nodes[2..];
    assert forall i :: 1 <= i < n - 1 ==> rest[i] == nodes[i + 1];
    hide Cycle;
    ValuesSkip(nodes);
  }

  lemma ValuesSkip(nodes: seq<Element>)
    requires |nodes| >= 2
    ensures Values([nodes[0]] + nodes[2..]) == [Values(nodes)[0]] + Values(nodes)[2..]
  {
    hide Values;
    ValuesDrop(nodes, 2);
  }

  lemma ValuesDrop(nodes: seq<Element>, k: nat)
    requires k <= |nodes|
    ensures Values(nodes[k..]) == Values(nodes)[k..]
  {
    hide Values;
  }
}
