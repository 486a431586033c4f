/** The actions of the monitored world are the calls of the monitor's and the printer's methods. */
module MonitorSteps {
  import opened Timeline
  import M = Monitor
  import opened Polling
  import opened Watermark

  /** The two objects are in the state of the world. */
  ghost predicate Stands(m: M.Monitor, p: Printer, w: World)
    reads m, p
  {
    && m.Valid(w.now) && m.events == w.events && m.samples == w.samples
    && p.last == w.last && p.printed == w.printed
  }

  method Begin() returns (m: M.Monitor, p: Printer)
    ensures fresh(m) && fresh(p) && Stands(m, p, Fresh)
  {
    m := new M.Monitor();
    p := new Printer();
  }

  method PerformRecord(m: M.Monitor, p: Printer, ghost w: World, t: Time, conditions: seq<Condition>)
    requires Stands(m, p, w) && Possible(w, Record(t, conditions))
    modifies m
    ensures Stands(m, p, After(w, Record(t, conditions)))
  {
    m.Record(conditions, w.now, t);
  }

  /** The samplers are asked at some time `s`; what they report together is the sample recorded at `t`. */
  method PerformSample(m: M.Monitor, p: Printer, ghost w: World, s: Time, t: Time)
    requires Stands(m, p, w) && Possible(w, TakeSample(t, M.Gather(m.samplers, s)))
    modifies m
    ensures Stands(m, p, After(w, TakeSample(t, M.Gather(old(m.samplers), s))))
  {
    m.TakeSample(w.now, s, t);
  }

  /** A poll may do with equal intervals as it likes; whatever list it saw is a step of the world. */
  method PerformPoll(m: M.Monitor, p: Printer, ghost w: World) returns (ghost out: seq<Interval>)
    requires Stands(m, p, w)
    modifies p
    ensures Possible(w, Poll(out)) && Stands(m, p, After(w, Poll(out)))
  {
    out := p.Poll(m, w.now);
  }
}
