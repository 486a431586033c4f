/** The steps of the transition system are the calls of the queue's methods. */
module QueueSteps {
  import opened Tests
  import opened QueueSpec
  import opened Scheduler
  import opened Queue

  /** The workers in `cond.Wait`. */
  function ParkedIn(ws: seq<Phase>): set<nat> {
    set w: nat | w < |ws| && ws[w].Parked?
  }

  /** The queue object is in the state of the transition system. */
  ghost predicate Stands(q: ParallelByFileTestQueue, s: State)
    requires q.Valid()
    reads q, q.elements
  {
    q.State() == s.q && q.waiting == ParkedIn(s.workers)
  }

  lemma NobodyParked(ws: seq<Phase>)
    ensures ParkedIn(Wake(ws)) == {}
  {
  }

  lemma ParkedUpdate(ws: seq<Phase>, w: nat, p: Phase)
    requires w < |ws| && !ws[w].Parked?
    ensures ParkedIn(ws[w := p]) == if p.Parked? then ParkedIn(ws) + {w} else ParkedIn(ws)
  {
    if p.Parked? {
      assert forall v: nat :: v in ParkedIn(ws[w := p]) <==> v in ParkedIn(ws) + {w};
    } else {
      assert forall v: nat :: v in ParkedIn(ws[w := p]) <==> v in ParkedIn(ws);
    }
  }

  /** A new queue stands for the initial state. */
  method Begin(tests: seq<Test>, n: nat) returns (q: ParallelByFileTestQueue)
    ensures fresh(q) && fresh(q.elements) && q.Valid() && Stands(q, Init(tests, n))
  {
    q := new ParallelByFileTestQueue(tests);
    assert ParkedIn(Init(tests, n).workers) == {};
  }

  /** Every step of a worker or the canceller that touches the queue is one call, and keeps the correspondence. */
  method Perform(q: ParallelByFileTestQueue, ghost s: State, e: Event, t: Test)
    requires q.Valid() && Stands(q, s) && Enabled(s, e) && (e.Done? ==> t == s.workers[e.w].t)
    modifies q, q.elements
    ensures q.Valid() && Stands(q, Step(false, s, e))
  {
    ghost var ws := s.workers;
    match e {
      case Pop(w) =>
        var outcome := q.PopNext();
        if outcome.Empty? {
          NobodyParked(ws[w := Exited]);
        } else {
          ParkedUpdate(ws, w, if outcome.Blocked? then Parking else Running(outcome.t));
        }
      case Park(w) =>
        q.Wait(w);
        ParkedUpdate(ws, w, Parked);
      case Done(w) =>
        q.Finish(t);
        NobodyParked(ws[w := Ready]);
      case Close =>
        q.Close();
        NobodyParked(ws);
      case Return(w) =>
        ParkedUpdate(ws, w, Releasing(ws[w].t));
      case Cancel =>
      case Join =>
      case SerialStart =>
      case SerialEnd =>
      case Finish =>
    }
  }
}
