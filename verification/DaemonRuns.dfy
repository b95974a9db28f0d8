// What is proved of every run, said of the daemon's own objects.
module DaemonRuns {
  import opened Bytes
  import opened Engine
  import opened FiringOrder
  import opened Recording
  import opened Taps
  import D = Daemons
  import PipeOwners

  /** A daemon whose clock is in range is in the state that its trace leads to, and that trace could
      happen. */
  lemma TraceIsRun(d: D.Daemon)
    requires d.Ready() && d.clk.t < TWO63
    ensures Valid(d.trace) && Run(d.trace) == d.State()
  {
    D.LeadsToIs(d.trace, d.State());
  }

  /** The file of a recorder object is the header and the records of exactly the fired frames that
      were sent between its attach and its detach. */
  lemma RecorderHolds(d: D.Daemon, b: string, r: nat)
    requires d.Ready() && d.clk.t < TWO63 && Attached(d.trace, Record, b, r)
    ensures r in d.pool.recs && d.pool.recs[r].isOpen
    ensures Holds(d.pool.recs[r].out, SentInWindow(d.trace, r, Deliveries(d.fired)))
  {
    TraceIsRun(d);
    RecordingWindow(d.trace, b, r);
    assert D.Unfold(D.OfParts, 0);
  }

  /** The SubInfo object of a bus holds the pipe of the last to subscribe to the bus, unless a write
      to it has failed since. */
  lemma SubInfoHolds(d: D.Daemon, b: string)
    requires d.Ready() && d.clk.t < TWO63 && b in d.subs
    ensures d.subs[b].pipe == PipeOwners.Subscriber(d.trace, b)
  {
    TraceIsRun(d);
    PipeOwners.HolderIsSubscriber(d.trace, b);
    assert D.Unfold(D.OfParts, 0) && D.Unfold(D.OfSubs, 0);
  }
}
