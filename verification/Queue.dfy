/** The exclusion queue: every method is one section under the queue's lock. */
module Queue {
  import opened Tests
  import opened QueueSpec
  import opened Ring

  class ParallelByFileTestQueue {
    var queue: Element?
    var active: set<string>
    /** The workers parked in `cond.Wait`. */
    var waiting: set<nat>

    /** The elements of the ring, starting at `queue`. */
    ghost var nodes: seq<Element>
    /** Every element the ring was built from, unlinked ones included. */
    ghost const elements: set<Element>

    ghost predicate Valid()
      reads this, elements
    {
      && (forall i :: 0 <= i < |nodes| ==> nodes[i] in elements)
      && Cycle(nodes)
      && (if nodes == [] then queue == null else queue == nodes[0])
    }

    /** The queue as a value: the cyclic order of its tests and the held keys. */
    ghost function State(): QState
      requires Valid()
      reads this, elements
    {
      QState(Values(nodes), active)
    }

    constructor (tests: seq<Test>)
      ensures Valid() && fresh(elements)
      ensures State() == QState(tests, {}) && waiting == {}
    {
      hide Cycle, Values, Elements;
      var r, ring := Build(tests);
      queue, nodes, elements := r, ring, Elements(ring);
      active, waiting := {}, {};
    }

    /** A worker parks. Its lock is no lock, so a broadcast since its pop is lost on it. */
    method Wait(w: nat)
      modifies this`waiting
      ensures waiting == old(waiting) + {w}
    {
      waiting := waiting + {w};
    }

    method Broadcast()
      modifies this`waiting
      ensures waiting == {}
    {
      waiting := {};
    }

    /** `Empty` is a nil test and true, `Blocked` a nil test and false: try again once woken. */
    method PopNext() returns (outcome: PopOutcome)
      requires Valid()
      modifies this, elements
      ensures Valid()
      ensures (State(), outcome) == old(Pop(State()))
      ensures waiting == if outcome.Empty? then {} else old(waiting)
    {
      hide Cycle, Values, RemoveAt;
      var l := Len(queue, nodes);
      if l == 0 {
        Broadcast();
        return Empty;
      }
      var r, k := FindFree(l);
      if k == l {
        return Blocked;
      }
      var t := r.value;
      ghost var ring := State().ring;
      assert Pop(State()) == (QState(RemoveAt(ring, k), active + Key(t)), Got(t));
      TakeOut(r, k, l);
      if |t.exclusion| > 0 {
        active := active + {t.exclusion};
      }
      assert active == old(active) + Key(t);
      return Got(t);
    }

    /** Walks the ring past the tests whose key is held. */
    method FindFree(l: nat) returns (r: Element, k: nat)
      requires Valid() && l == |nodes| > 0
      ensures k == FirstFree(State().ring, active)
      ensures k < l ==> r == nodes[k]
    {
      r, k := queue, 0;
      ghost var values := Values(nodes);
      while k < l
        invariant 0 <= k <= l == |nodes|
        invariant r == if k == l then nodes[0] else nodes[k]
        invariant forall i :: 0 <= i < k ==> values[i].exclusion in active
      {
        if r.value.exclusion !in active {
          return;
        }
        assert r.next == if k + 1 == l then nodes[0] else nodes[k + 1];
        r, k := r.next, k + 1;
      }
    }

    /** Moves the queue to the predecessor of `r` and unlinks `r`. */
    method TakeOut(r: Element, ghost k: nat, l: nat)
      requires Valid() && k < l == |nodes| && nodes[k] == r
      modifies this`queue, this`nodes, elements`next, elements`prev
      ensures Valid()
      ensures Values(nodes) == RemoveAt(old(Values(nodes)), k)
    {
      hide Cycle, Values, RemoveAt;
      if l == 1 {
        RemoveOnly(nodes);
        queue, nodes := null, [];
      } else {
        ghost var rotated := RotateToPred(nodes, k);
        assert forall i :: 0 <= i < |rotated| ==> rotated[i] in nodes;
        queue := r.prev;
        nodes := UnlinkNext(queue, rotated);
      }
    }

    method Finish(t: Test)
      requires Valid()
      modifies this`active, this`waiting
      ensures Valid() && State() == old(Done(State(), t)) && waiting == {}
    {
      active := active - {t.exclusion};
      Broadcast();
    }

    method Close()
      requires Valid()
      modifies this
      ensures Valid() && State() == Closed(old(State())) && waiting == {}
    {
      queue, nodes := null, [];
      active := {};
      Broadcast();
    }
  }
}
