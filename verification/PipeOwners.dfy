// Who owns a control pipe, over whole runs (attachSub, detachSub and pipe_thread in
// vbus/src/daemon/vbusd.cpp).
module PipeOwners {
  import opened Capture
  import opened Engine
  import opened FiringOrder
  import opened Sends
  import opened Taps

  // The SubInfos that hold pipe h.
  ghost function HoldersOf(p: Pipes, h: Id): set<Id> {
    set u | u in p.held && p.held[u] == Some(h)
  }

  // How many owners pipe h has: the thread that serves it, the SubInfos that hold it, and one for
  // each time that it was closed.
  ghost function Owners(p: Pipes, h: Id): nat {
    (if h in p.served then 1 else 0) + |HoldersOf(p, h)| + p.closed[h]
  }

  ghost predicate Opened(tr: seq<Event>, h: Id) {
    h < |tr| && tr[h].OpenPipe?
  }

  // What can happen to the pipes, as in Engine.Enabled.
  ghost predicate PipesEnabled(p: Pipes, e: Event) {
    match e
    case HangUp(h) => h in p.served
    case Subscribe(_, h) => h in p.served
    case _ => true
  }

  lemma HungOwners(p: Pipes, u: Id, h: Id)
    ensures Owners(p.Hung(u), h) == Owners(p, h)
    ensures p.Hung(u).Holder(u) == None && p.Hung(u).served == p.served
    ensures u in p.Hung(u).held <==> u in p.held
  {
    if p.Holder(u) == Some(h) {
      assert HoldersOf(p.Hung(u), h) == HoldersOf(p, h) - {u};
    } else {
      assert HoldersOf(p.Hung(u), h) == HoldersOf(p, h);
    }
  }

  // A bus that holds nothing takes over a pipe from the thread that serves it.
  lemma TakenOver(p: Pipes, u: Id, h: Id, h': Id)
    requires p.Holder(u) == None && h in p.served
    ensures Owners(p.(held := p.held[u := Some(h)], served := p.served - {h}), h') == Owners(p, h')
  {
    var q := p.(held := p.held[u := Some(h)], served := p.served - {h});
    if h' == h {
      assert HoldersOf(q, h) == HoldersOf(p, h) + {u};
    } else {
      assert HoldersOf(q, h') == HoldersOf(p, h');
    }
  }

  lemma OwnersStep(p: Pipes, e: Event, bus: Option<Id>, step: Id, h: Id)
    requires PipesEnabled(p, e) && Owners(p, step) == 0
    requires p.Holder(step) == None
    ensures Owners(NextPipes(p, e, bus, step), h) == Owners(p, h) + if e.OpenPipe? && h == step then 1 else 0
  {
    match e
    case Create(_, _, _) =>
      if bus.None? {
        assert HoldersOf(p.(held := p.held[step := None]), h) == HoldersOf(p, h);
      }
    case Delete(_) =>
      if bus.Some? { HungOwners(p, bus.value, h); }
    case Subscribe(_, pipe) =>
      if bus.Some? {
        HungOwners(p, bus.value, h);
        TakenOver(p.Hung(bus.value), bus.value, pipe, h);
      }
    case Fire(_, written) =>
      if bus.Some? && !written { HungOwners(p, bus.value, h); }
    case OpenPipe(connected) =>
      assert HoldersOf(NextPipes(p, e, bus, step), h) == HoldersOf(p, h);
    case HangUp(pipe) =>
      assert HoldersOf(NextPipes(p, e, bus, step), h) == HoldersOf(p, h);
    case _ =>
  }

  /** In every run each pipe that was opened has exactly one owner: it is served by a pipe thread,
      or held by one SubInfo, or was closed once. So no pipe is closed twice, shared or leaked. */
  lemma {:induction false} OneOwner(tr: seq<Event>, h: Id)
    requires Valid(tr)
    ensures Owners(Run(tr).pipes, h) == if Opened(tr, h) then 1 else 0
  {
    if tr == [] {
      assert HoldersOf(INIT.pipes, h) == {};
    } else {
      var s, e := Run(Before(tr)), Last(tr);
      OneOwner(Before(tr), h);
      OneOwner(Before(tr), s.step);
      TapsCoherent(Before(tr));
      assert !IsBus(s.buses, s.step);
      OwnersStep(s.pipes, e, BusOf(s, e), s.step, h);
    }
  }

  // ---------- what is written to a pipe ----------

  lemma MessagesStep(s: State, e: Event, h: Id)
    requires h in NextMessages(s, e) && h < s.step
    ensures h in s.messages
    ensures NextMessages(s, e)[h] != s.messages[h] ==>
              && e.Fire? && s.sched.ready != [] && s.sched.ready[0].sub
              && s.pipes.Holder(s.sched.ready[0].bus) == Some(h)
              && NextMessages(s, e)[h] == s.messages[h] + [s.sched.ready[0].frame]
  {}

  lemma {:induction false} MessagesKeys(tr: seq<Event>, h: Id)
    ensures h in Run(tr).messages <==> Opened(tr, h)
  {
    if tr != [] {
      MessagesKeys(Before(tr), h);
      assert NextMessages(Run(Before(tr)), Last(tr)).Keys ==
             if Last(tr).OpenPipe? then Run(Before(tr)).messages.Keys + {|tr| - 1} else Run(Before(tr)).messages.Keys;
    }
  }

  lemma ClosedStays(p: Pipes, e: Event, bus: Option<Id>, step: Id, h: Id)
    requires h in p.closed
    ensures h in NextPipes(p, e, bus, step).closed
  {}

  lemma HolderCounts(p: Pipes, u: Id, h: Id)
    ensures p.Holder(u) == Some(h) ==> |HoldersOf(p, h)| >= 1
  {
    if p.Holder(u) == Some(h) {
      assert u in HoldersOf(p, h);
    }
  }

  lemma ClosedIsNotHeld(tr: seq<Event>, h: Id, u: Id)
    requires Valid(tr) && h in Run(tr).pipes.closed
    ensures Run(tr).pipes.Holder(u) != Some(h)
  {
    OneOwner(tr, h);
    HolderCounts(Run(tr).pipes, u, h);
  }

  /** A pipe that was closed, because its subscriber was replaced or detached, its bus was deleted
      or a write to it failed, stays closed, is not closed again, and is never written to again,
      not even by deliveries that were already queued. */
  lemma {:induction false} ClosedIsSilent(tr: seq<Event>, n: nat, h: Id)
    requires Valid(tr) && n <= |tr| && h in Run(tr[..n]).pipes.closed
    ensures Run(tr).pipes.closed[h] == 1
    ensures h in Run(tr[..n]).messages && h in Run(tr).messages
    ensures Run(tr).messages[h] == Run(tr[..n]).messages[h]
  {
    ValidPrefix(tr, n);
    OneOwner(tr[..n], h);
    MessagesKeys(tr[..n], h);
    if n == |tr| {
      assert tr[..n] == tr;
    } else {
      var s, e := Run(Before(tr)), Last(tr);
      assert Before(tr)[..n] == tr[..n];
      ClosedIsSilent(Before(tr), n, h);
      ClosedStays(s.pipes, e, BusOf(s, e), s.step, h);
      OneOwner(tr, h);
      MessagesKeys(tr, h);
      MessagesStep(s, e, h);
      if e.Fire? && s.sched.ready != [] {
        ClosedIsNotHeld(Before(tr), h, s.sched.ready[0].bus);
      }
    }
  }

  // ---------- which deliveries are offered to the subscriber ----------

  // Someone has subscribed to the bus that now has the name.
  ghost predicate EverSubscribed(tr: seq<Event>, b: string) {
    tr != [] && Last(tr) != Delete(b) &&
    ((Last(tr).Subscribe? && Last(tr).name == b && Live(Before(tr), b)) || EverSubscribed(Before(tr), b))
  }

  lemma SubStep(buses: map<string, Wrap>, e: Event, step: Id, b: string)
    ensures var next := NextBuses(buses, e, step);
            (b in next && next[b].hub.subCb) <==>
            e != Delete(b) && b in buses && ((e.Subscribe? && e.name == b) || buses[b].hub.subCb)
  {}

  /** A delivery is offered to whoever subscribes to its bus when it fires, if anyone had
      subscribed to the bus before it was sent. The callback is never cleared while the bus
      lives, so this includes frames sent before the present subscriber came. */
  lemma {:induction false} SubCallback(tr: seq<Event>, b: string)
    ensures (b in BusesAt(tr) && BusesAt(tr)[b].hub.subCb) <==> EverSubscribed(tr, b)
  {
    if tr != [] {
      SubCallback(Before(tr), b);
      LiveIsThere(Before(tr), b);
      BusesStep(tr);
      SubStep(BusesAt(Before(tr)), Last(tr), |tr| - 1, b);
    }
  }

  // ---------- who the subscriber is ----------

  // Delivery d, sent on the bus that now has the name, is offered to whoever subscribes to it.
  ghost predicate Offered(tr: seq<Event>, d: Delivery, b: string) {
    && d.id < |tr| && tr[d.id].Send? && tr[d.id].name == b
    && EverSubscribed(tr[..d.id], b) && Undeleted(tr, b, d.id, |tr|)
  }

  // The subscriber of a bus, read off the run: the last to subscribe to it, until it is deleted or
  // a write to the subscriber fails.
  ghost function Subscriber(tr: seq<Event>, b: string): Option<Id> {
    if tr == [] then None
    else
      var e, was, ready := Last(tr), Subscriber(Before(tr), b), SchedAt(Before(tr)).ready;
      if e.Subscribe? && e.name == b && Live(Before(tr), b) then Some(e.pipe)
      else if e == Delete(b) then None
      else if e.Fire? && !e.written && ready != [] && Offered(Before(tr), ready[0], b) then None
      else was
  }

  // Which bus a posted delivery is of.
  lemma DeliveryOf(tr: seq<Event>, j: nat, b: string)
    requires AcceptedAt(tr, j) && b in BusesAt(tr)
    ensures PostedAt(tr, j).bus == BusesAt(tr)[b].hub.id <==> tr[j].name == b && Undeleted(tr, b, j, |tr|)
  {
    assert tr[..|tr|] == tr;
    HubWasCreated(tr[..j], tr[j].name);
    HubWasCreated(tr, b);
    if tr[j].name == b {
      if Undeleted(tr, b, j, |tr|) {
        SameBus(tr, b, j, |tr|);
      } else {
        var i :| j <= i < |tr| && tr[i] == Delete(b);
        CreatedSince(tr, b, i);
      }
    }
  }

  lemma ReadyIsOffered(tr: seq<Event>, d: Delivery, b: string)
    requires Valid(tr) && d in SchedAt(tr).ready && b in BusesAt(tr)
    ensures Offered(tr, d, b) <==> d.sub && d.bus == BusesAt(tr)[b].hub.id
  {
    OnlyPosted(tr, d);
    DeliveryOf(tr, d.id, b);
    SubCallback(tr[..d.id], tr[d.id].name);
  }

  lemma HolderNext(s: State, e: Event, u: Id)
    requires u != s.step
    ensures NextPipes(s.pipes, e, BusOf(s, e), s.step).Holder(u) ==
            if e.Subscribe? && BusOf(s, e) == Some(u) then Some(e.pipe)
            else if (e.Delete? || (e.Fire? && !e.written)) && BusOf(s, e) == Some(u) then None
            else s.pipes.Holder(u)
  {}

  lemma HolderOfNew(s: State, e: Event)
    requires s.pipes.Holder(s.step) == None
    requires BusOf(s, e) != Some(s.step)
    ensures NextPipes(s.pipes, e, BusOf(s, e), s.step).Holder(s.step) == None
  {}

  // What the event is about, by names.
  lemma AboutBus(s: State, e: Event, b: string)
    requires Separate(s.buses, s.step) && b in s.buses
    ensures e.Subscribe? || e.Delete? ==> (BusOf(s, e) == Some(s.buses[b].hub.id) <==> e.name == b)
    ensures e.Fire? ==> (BusOf(s, e) == Some(s.buses[b].hub.id)
                         <==> s.sched.ready != [] && s.sched.ready[0].sub && s.sched.ready[0].bus == s.buses[b].hub.id)
  {}

  lemma HolderAfter(s: State, e: Event, b: string)
    requires Separate(s.buses, s.step) && HoldersLive(s.buses, s.pipes)
    requires b in NextBuses(s.buses, e, s.step)
    ensures NextPipes(s.pipes, e, BusOf(s, e), s.step).Holder(NextBuses(s.buses, e, s.step)[b].hub.id) ==
            if b !in s.buses then None
            else if e.Subscribe? && e.name == b then Some(e.pipe)
            else if e.Fire? && !e.written && s.sched.ready != [] && s.sched.ready[0].sub
                    && s.sched.ready[0].bus == s.buses[b].hub.id then None
            else s.pipes.Holder(s.buses[b].hub.id)
  {
    HubStep(s.buses, e, s.step, b);
    if b in s.buses {
      HolderNext(s, e, s.buses[b].hub.id);
      AboutBus(s, e, b);
      if e.Delete? {
        StaysOther(s.buses, e, s.step, b);
      }
    } else {
      assert !IsBus(s.buses, s.step);
      HolderOfNew(s, e);
    }
  }

  lemma StaysOther(buses: map<string, Wrap>, e: Event, step: Id, b: string)
    requires b in NextBuses(buses, e, step)
    ensures e != Delete(b)
  {}

  /** In every run a bus's SubInfo holds the pipe of the last to subscribe to the bus, until the bus
      is deleted or a write to that pipe fails. */
  lemma {:induction false} HolderIsSubscriber(tr: seq<Event>, b: string)
    requires Valid(tr)
    ensures Subscriber(tr, b) ==
            if b in BusesAt(tr) then Run(tr).pipes.Holder(BusesAt(tr)[b].hub.id) else None
  {
    if tr != [] {
      HolderIsSubscriber(Before(tr), b);
      SubscriberStep(tr, b);
    }
  }

  lemma SubscriberStep(tr: seq<Event>, b: string)
    requires Valid(tr) && tr != []
    requires Subscriber(Before(tr), b) ==
             if b in BusesAt(Before(tr)) then Run(Before(tr)).pipes.Holder(BusesAt(Before(tr))[b].hub.id) else None
    ensures Subscriber(tr, b) ==
            if b in BusesAt(tr) then Run(tr).pipes.Holder(BusesAt(tr)[b].hub.id) else None
  {
    var past, s, e := Before(tr), Run(Before(tr)), Last(tr);
    TapsCoherent(past);
    LiveIsThere(past, b);
    BusesStep(tr);
    if b in BusesAt(past) && e.Fire? && s.sched.ready != [] {
      ReadyIsOffered(past, s.sched.ready[0], b);
    }
    if b in BusesAt(tr) {
      HolderAfter(s, e, b);
      StaysOther(s.buses, e, s.step, b);
    } else {
      GoneIs(s.buses, e, s.step, b);
    }
  }

  lemma GoneIs(buses: map<string, Wrap>, e: Event, step: Id, b: string)
    requires b !in NextBuses(buses, e, step)
    ensures e == Delete(b) || b !in buses
  {}

  /** A replaced subscriber never hears of the bus again. When a subscription is made to a bus that
      has a subscriber, the pipe of that one is closed, once and for all: no bus's subscriber is it
      ever again, and nothing is written to it any more, in any continuation and whatever deliveries
      were queued for it. */
  lemma SubscribeReplaces(tr: seq<Event>, n: nat, b: string, h: Id, c: string)
    requires Valid(tr) && n < |tr| && tr[n].Subscribe? && tr[n].name == b
    requires Subscriber(tr[..n], b) == Some(h)
    ensures Run(tr).pipes.closed[h] == 1 && Subscriber(tr, c) != Some(h)
    ensures h in Run(tr[..n]).messages && h in Run(tr).messages
    ensures Run(tr).messages[h] == Run(tr[..n]).messages[h]
  {
    ValidPrefix(tr, n + 1);
    ReplacedAt(tr[..n + 1], tr[..n], h);
    ClosedIsSilent(tr, n + 1, h);
    ClosedIsNoSubscriber(tr, h, c);
  }

  lemma ReplacedAt(tr: seq<Event>, past: seq<Event>, h: Id)
    requires Valid(tr) && tr != [] && past == Before(tr) && Last(tr).Subscribe?
    requires Subscriber(past, Last(tr).name) == Some(h)
    ensures h in Run(tr).pipes.closed && Run(tr).messages == Run(past).messages
  {
    HolderIsSubscriber(past, Last(tr).name);
    ClosedByReplacing(Run(past), Last(tr), h);
  }

  lemma ClosedByReplacing(s: State, e: Event, h: Id)
    requires e.Subscribe? && e.name in s.buses && s.pipes.Holder(s.buses[e.name].hub.id) == Some(h)
    ensures h in NextPipes(s.pipes, e, BusOf(s, e), s.step).closed && NextMessages(s, e) == s.messages
  {}

  lemma ClosedIsNoSubscriber(tr: seq<Event>, h: Id, b: string)
    requires Valid(tr) && h in Run(tr).pipes.closed
    ensures Subscriber(tr, b) != Some(h)
  {
    HolderIsSubscriber(tr, b);
    if b in BusesAt(tr) {
      ClosedIsNotHeld(tr, h, BusesAt(tr)[b].hub.id);
    }
  }

  // ---------- what a subscriber is sent ----------

  // The frames written to pipe h, read off the run and as their sends made them: those that fired while
  // h was the subscriber of the bus they were offered to, when the write went through.
  ghost function WrittenTo(tr: seq<Event>, h: Id): seq<Frame> {
    if tr == [] then []
    else
      var earlier, past, e, ready := WrittenTo(Before(tr), h), Before(tr), Last(tr), SchedAt(Before(tr)).ready;
      if e.Fire? && e.written && ready != [] && OfferedTo(past, ready[0], h) then
        earlier + [AsSent(past[..ready[0].id], past[ready[0].id])]
      else earlier
  }

  ghost predicate OfferedTo(tr: seq<Event>, d: Delivery, h: Id) {
    d.id < |tr| && tr[d.id].Send? && Offered(tr, d, tr[d.id].name) && Subscriber(tr, tr[d.id].name) == Some(h)
  }

  lemma ReadyIsOfferedTo(tr: seq<Event>, d: Delivery, h: Id)
    requires Valid(tr) && d in SchedAt(tr).ready
    ensures OfferedTo(tr, d, h) <==> d.sub && Run(tr).pipes.Holder(d.bus) == Some(h)
    ensures OfferedTo(tr, d, h) ==> d.frame == AsSent(tr[..d.id], tr[d.id])
  {
    OnlyPosted(tr, d);
    PostedAsSent(tr, d.id);
    var b := tr[d.id].name;
    HolderIsSubscriber(tr, b);
    TapsCoherent(tr);
    if b in BusesAt(tr) {
      ReadyIsOffered(tr, d, b);
    }
    if Run(tr).pipes.Holder(d.bus).Some? {
      OnlyItsName(tr, d);
    }
  }

  // A bus that holds a pipe is live, under the name the delivery was sent to.
  lemma OnlyItsName(tr: seq<Event>, d: Delivery)
    requires AcceptedAt(tr, d.id) && d == PostedAt(tr, d.id) && IsBus(BusesAt(tr), d.bus)
    ensures tr[d.id].name in BusesAt(tr) && BusesAt(tr)[tr[d.id].name].hub.id == d.bus
  {
    var b :| b in BusesAt(tr) && BusesAt(tr)[b].hub.id == d.bus;
    DeliveryOf(tr, d.id, b);
  }

  lemma WriteStep(s: State, e: Event, h: Id)
    requires h in NextMessages(s, e) && (h in s.messages ==> h < s.step)
    requires s.sched.ready == [] ==> !e.Fire?
    ensures NextMessages(s, e)[h] ==
            if h !in s.messages then []
            else s.messages[h] + if e.Fire? && e.written && s.sched.ready[0].sub
                                    && s.pipes.Holder(s.sched.ready[0].bus) == Some(h)
                                 then [s.sched.ready[0].frame] else []
  {}

  lemma {:induction false} NotWrittenYet(tr: seq<Event>, h: Id)
    requires Valid(tr) && h >= |tr|
    ensures WrittenTo(tr, h) == []
  {
    if tr != [] {
      NotWrittenYet(Before(tr), h);
      NotSubscriberYet(Before(tr), h);
    }
  }

  lemma NotSubscriberYet(tr: seq<Event>, h: Id)
    requires Valid(tr) && h >= |tr|
    ensures forall b :: Subscriber(tr, b) != Some(h)
  {
    forall b ensures Subscriber(tr, b) != Some(h) {
      HolderIsSubscriber(tr, b);
      OneOwner(tr, h);
      if b in BusesAt(tr) {
        HolderCounts(Run(tr).pipes, BusesAt(tr)[b].hub.id, h);
      }
    }
  }

  /** The frames a subscriber has been sent, exactly and in firing order: all that were offered to a
      bus while it was the subscriber, as the commands and the failed writes say who is, and that
      could be written, each with the tag and the payload given to its send. */
  lemma {:induction false} SubscriberGets(tr: seq<Event>, h: Id)
    requires Valid(tr) && Opened(tr, h)
    ensures h in Run(tr).messages && Run(tr).messages[h] == WrittenTo(tr, h)
  {
    var s, e := Run(Before(tr)), Last(tr);
    MessagesKeys(tr, h);
    MessagesKeys(Before(tr), h);
    WriteStep(s, e, h);
    if h == |tr| - 1 {
      NotWrittenYet(Before(tr), h);
    } else {
      assert Before(tr)[h] == tr[h];
      SubscriberGets(Before(tr), h);
      if e.Fire? {
        ReadyIsOfferedTo(Before(tr), s.sched.ready[0], h);
      }
    }
  }
}
