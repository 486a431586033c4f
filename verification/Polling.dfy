/** The printing loop of the monitor command: it polls the log by a time watermark. */
module Polling {
  import opened Timeline
  import opened Monitor
  import opened Intervals

  function PointsIn(xs: seq<Interval>): seq<Interval> {
    Within(xs, (x: Interval) => x.from == x.to)
  }

  class Printer {
    /** The watermark: the start of the last interval of the last non-empty poll. */
    var last: Time
    var printed: seq<Interval>

    constructor ()
      ensures last == 0 && printed == []
    {
      last, printed := 0, [];
    }

    /** One round of the loop: what is printed is the moments among the intervals after the watermark. */
    method Poll(m: Monitor, ghost now: Time) returns (ghost out: seq<Interval>)
      requires m.Valid(now)
      modifies this
      ensures IsTimeline(m.samples, m.events, old(last), 0, out)
      ensures printed == old(printed) + PointsIn(out)
      ensures last == if out == [] then old(last) else out[|out| - 1].from
    {
      hide IsTimeline, Values, PointsIn, Coalesce, SamplesWithin, EventsWithin, InOrder, Nondecreasing;
      var events := m.Events(now, last, 0);
      out := Values(events);
      Print(events);
      if |events| > 0 {
        last := events[|events| - 1].from;
      }
    }

    /** Prints the intervals of a single moment and skips the others. */
    method Print(events: seq<EventInterval>)
      modifies this`printed
      ensures printed == old(printed) + PointsIn(Values(events))
    {
      hide Values;
      ghost var out := Values(events);
      for i := 0 to |events|
        invariant printed == old(printed) + PointsIn(out[..i]) && out == Values(events)
      {
        PointsInNext(out, i);
        if events[i].from == events[i].to {
          printed := printed + [events[i].Value()];
        }
      }
      assert out[..|events|] == out;
    }
  }

  lemma PointsInNext(xs: seq<Interval>, i: nat)
    requires i < |xs|
    ensures PointsIn(xs[..i + 1]) == PointsIn(xs[..i]) + if xs[i].from == xs[i].to then [xs[i]] else []
  {
    assert xs[..i + 1][..i] == xs[..i];
  }
}
