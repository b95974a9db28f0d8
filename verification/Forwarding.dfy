// The immediate-forward sinks: what a sink sends, over whole runs (vbus/src/net/udp_sink.cpp).
module Forwarding {
  import opened Capture
  import opened Engine
  import opened FiringOrder
  import opened Sends
  import opened Taps

  // The frames, in the order sent and as their sends made them, that were sent to a bus while sink k
  // was attached to it and that have a payload.
  ghost function SentThrough(tr: seq<Event>, k: nat): seq<Frame> {
    if tr == [] then []
    else
      var earlier, past, e := SentThrough(Before(tr), k), Before(tr), Last(tr);
      if e.Send? && e.frame.payload != [] && On(past, Forward, e.name, k) then earlier + [AsSent(past, e)]
      else earlier
  }

  // A sink's identity is that of an earlier step, and its log is there.
  ghost predicate SinksKnown(s: State) {
    && (forall k :: k in s.forwarded ==> k < s.step)
    && (forall b :: b in s.buses && s.buses[b].hub.fwdCb.Some? ==> s.buses[b].hub.fwdCb.value in s.forwarded)
  }

  lemma ForwardedKeys(s: State, e: Event)
    ensures NextForwarded(s, e).Keys ==
            if e.ForwardOn? && e.started && e.name in s.buses then s.forwarded.Keys + {s.step} else s.forwarded.Keys
  {}

  lemma SinksStep(s: State, e: Event)
    requires SinksKnown(s)
    ensures SinksKnown(Apply(s, e))
  {
    ForwardedKeys(s, e);
    var t := Apply(s, e);
    forall b | b in t.buses && t.buses[b].hub.fwdCb.Some? ensures t.buses[b].hub.fwdCb.value in t.forwarded {
      CallbackStep(s.buses, e, s.step, Forward, b);
    }
  }

  lemma {:induction false} SinksAlwaysKnown(tr: seq<Event>)
    ensures SinksKnown(Run(tr))
  {
    if tr != [] {
      SinksAlwaysKnown(Before(tr));
      SinksStep(Run(Before(tr)), Last(tr));
    }
  }

  lemma {:induction false} NothingThrough(tr: seq<Event>, k: nat)
    requires k >= |tr|
    ensures SentThrough(tr, k) == []
  {
    if tr != [] {
      NothingThrough(Before(tr), k);
      assert Last(tr).Send? ==> !On(Before(tr), Forward, Last(tr).name, k);
    }
  }

  lemma ForwardStep(s: State, e: Event, k: nat)
    requires k in NextForwarded(s, e)
    requires SinksKnown(s)
    ensures NextForwarded(s, e)[k] ==
            if k == s.step then []
            else s.forwarded[k] +
                 if PostedBy(s, e).Some? && e.frame.payload != [] && s.buses[e.name].hub.fwdCb == Some(k)
                 then [PostedBy(s, e).value.frame] else []
  {}

  lemma LastAsSent(tr: seq<Event>)
    requires tr != [] && PostedBy(Run(Before(tr)), Last(tr)).Some?
    ensures PostedBy(Run(Before(tr)), Last(tr)).value.frame == AsSent(Before(tr), Last(tr))
  {
    PostedLast(tr);
    PostedAsSent(tr, |tr| - 1);
    assert tr[..|tr| - 1] == Before(tr);
  }

  /** In every run a sink has sent exactly the non-empty frames that went to its bus between its
      start and its stop, once each and in the order they were sent, none of them delayed, and each
      with the tag and the payload given to its send. */
  lemma {:induction false} ForwardsInSendOrder(tr: seq<Event>, k: nat)
    requires k in Run(tr).forwarded
    ensures Run(tr).forwarded[k] == SentThrough(tr, k)
  {
    var s, e := Run(Before(tr)), Last(tr);
    SinksAlwaysKnown(Before(tr));
    ForwardStep(s, e, k);
    if k == s.step {
      NothingThrough(Before(tr), k);
    } else {
      ForwardsInSendOrder(Before(tr), k);
      if e.Send? {
        CallbackIsTap(Before(tr), Forward, e.name, k);
        if PostedBy(s, e).Some? {
          LastAsSent(tr);
        }
      }
    }
  }
}
