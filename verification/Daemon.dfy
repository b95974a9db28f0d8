// The daemon: its objects together, its commands and its drain loop (vbus/src/daemon/vbusd.cpp).
// A ghost trace records the events that the methods realise; the objects always amount to the
// state that this trace leads to, so all that is proved of every run holds of every daemon.
module Daemons {
  import opened Bytes
  import opened Capture
  import opened Clocks
  import opened Delay
  import opened Engine
  import opened FiringOrder
  import opened Recorders
  import opened Registries
  import opened Scheduling
  import opened Subscribers

  // Some definitions below are folded: they say that something holds for every m for which
  // Unfold(.., m) does, which is every m. The verifier applies such a definition only where Unfold is
  // mentioned, and treats it as a name elsewhere.
  datatype Folded = OfRun | OfDrain | OfParts | OfSubs

  predicate Unfold(what: Folded, m: nat) {
    true
  }

  // A run that can happen leads to the state.
  ghost predicate LeadsTo(tr: seq<Event>, s: State) {
    forall m: nat {:trigger Unfold(OfRun, m)} :: Unfold(OfRun, m) ==> Valid(tr) && Run(tr) == s
  }

  lemma LeadsToIs(tr: seq<Event>, s: State)
    ensures LeadsTo(tr, s) <==> Valid(tr) && Run(tr) == s
  {
    assert Unfold(OfRun, 0);
  }

  lemma Step(tr: seq<Event>, s: State, e: Event)
    requires LeadsTo(tr, s) && Enabled(s, e)
    ensures LeadsTo(tr + [e], Apply(s, e))
  {
    LeadsToIs(tr, s);
    assert Before(tr + [e]) == tr && Last(tr + [e]) == e;
    LeadsToIs(tr + [e], Apply(s, e));
  }

  // The SubInfos of the buses are known ones, each with the identity of its bus.
  ghost predicate SharedBy(subs: map<string, SubInfo>, hubs: map<string, Wrap>, known: map<Id, SubInfo>) {
    forall m: nat {:trigger Unfold(OfSubs, m)} :: Unfold(OfSubs, m) ==>
      && subs.Keys == hubs.Keys
      && (forall b :: b in subs ==> subs[b].id == hubs[b].hub.id && subs[b].id in known && known[subs[b].id] == subs[b])
  }

  lemma SharedNames(subs: map<string, SubInfo>, hubs: map<string, Wrap>, known: map<Id, SubInfo>, name: string)
    requires SharedBy(subs, hubs, known)
    ensures name in subs <==> name in hubs
    ensures name in subs ==>
              subs[name].id == hubs[name].hub.id && subs[name].id in known && known[subs[name].id] == subs[name]
  {
    assert Unfold(OfSubs, 0);
  }

  lemma SharedKept(subs: map<string, SubInfo>, hubs: map<string, Wrap>, known: map<Id, SubInfo>, e: Event, id: Id)
    requires SharedBy(subs, hubs, known) && (ChangesBus(e) || e.Subscribe?)
    ensures SharedBy(subs, NextBuses(hubs, e, id), known)
  {
    assert Unfold(OfSubs, 0);
  }

  lemma SharedMore(subs: map<string, SubInfo>, hubs: map<string, Wrap>, known: map<Id, SubInfo>,
                   name: string, sub: SubInfo, kind: Kind, rate: U64)
    requires SharedBy(subs, hubs, known) && sub.id !in known && name !in hubs
    ensures SharedBy(subs[name := sub], NextBuses(hubs, Create(name, kind, rate), sub.id), known[sub.id := sub])
  {
    assert Unfold(OfSubs, 0);
  }

  lemma SharedLess(subs: map<string, SubInfo>, hubs: map<string, Wrap>, known: map<Id, SubInfo>, name: string)
    requires SharedBy(subs, hubs, known)
    ensures SharedBy(subs - {name}, NextBuses(hubs, Delete(name), 0), known)
  {
    assert Unfold(OfSubs, 0);
  }

  // A command that changes one bus.
  lemma TraceCommand(tr: seq<Event>, s: State, e: Event, buses: map<string, Wrap>, files: map<Id, seq<U8>>,
                  forwarded: map<Id, seq<Frame>>)
    requires LeadsTo(tr, s) && ChangesBus(e) && buses == NextBuses(s.buses, e, s.step)
    requires files == if e.RecordOn? && e.created && e.name in s.buses then s.files[s.step := HEADER] else s.files
    requires forwarded ==
             if e.ForwardOn? && e.started && e.name in s.buses then s.forwarded[s.step := []] else s.forwarded
    ensures LeadsTo(tr + [e], s.(step := s.step + 1, buses := buses, files := files, forwarded := forwarded))
  {
    Step(tr, s, e);
  }

  lemma TraceCreate(tr: seq<Event>, s: State, name: string, kind: Kind, rate: U64, buses: map<string, Wrap>)
    requires LeadsTo(tr, s) && name !in s.buses && buses == NextBuses(s.buses, Create(name, kind, rate), s.step)
    ensures LeadsTo(tr + [Create(name, kind, rate)],
                    s.(step := s.step + 1, buses := buses,
                       pipes := s.pipes.(held := s.pipes.held[s.step := None]),
                       tx := s.tx[s.step := 0], rx := s.rx[s.step := 0]))
  {
    Step(tr, s, Create(name, kind, rate));
  }

  lemma TraceDelete(tr: seq<Event>, s: State, name: string, buses: map<string, Wrap>)
    requires LeadsTo(tr, s) && name in s.buses && buses == NextBuses(s.buses, Delete(name), 0)
    ensures LeadsTo(tr + [Delete(name)],
                    s.(step := s.step + 1, buses := buses, pipes := s.pipes.Hung(s.buses[name].hub.id)))
  {
    Step(tr, s, Delete(name));
  }

  lemma TraceSubscribe(tr: seq<Event>, s: State, name: string, h: Id, buses: map<string, Wrap>, pipes: Pipes)
    requires LeadsTo(tr, s) && name in s.buses && h in s.pipes.served
    requires buses == NextBuses(s.buses, Subscribe(name, h), 0)
    requires pipes == NextPipes(s.pipes, Subscribe(name, h), Some(s.buses[name].hub.id), 0)
    ensures LeadsTo(tr + [Subscribe(name, h)], s.(step := s.step + 1, buses := buses, pipes := pipes))
  {
    Step(tr, s, Subscribe(name, h));
  }

  // A command that is answered with an error.
  lemma TraceRefusal(tr: seq<Event>, s: State, e: Event)
    requires LeadsTo(tr, s)
    requires if e.Create? then e.name in s.buses
             else (e.Delete? || (e.Subscribe? && e.pipe in s.pipes.served)) && e.name !in s.buses
    ensures LeadsTo(tr + [e], s.(step := s.step + 1))
  {
    Step(tr, s, e);
    assert NextBuses(s.buses, e, s.step) == s.buses;
  }

  lemma TraceOpenPipe(tr: seq<Event>, s: State, connected: bool, pipes: Pipes)
    requires LeadsTo(tr, s) && pipes == NextPipes(s.pipes, OpenPipe(connected), None, s.step)
    ensures LeadsTo(tr + [OpenPipe(connected)],
                    s.(step := s.step + 1, pipes := pipes, messages := s.messages[s.step := []]))
  {
    Step(tr, s, OpenPipe(connected));
  }

  lemma TraceHangUp(tr: seq<Event>, s: State, h: Id, pipes: Pipes)
    requires LeadsTo(tr, s) && h in s.pipes.served && pipes == NextPipes(s.pipes, HangUp(h), None, 0)
    ensures LeadsTo(tr + [HangUp(h)], s.(step := s.step + 1, pipes := pipes))
  {
    Step(tr, s, HangUp(h));
  }

  lemma TraceSend(tr: seq<Event>, s: State, name: string, src: Option<Endpoint>, f: Frame,
                  first: nat, second: nat, d: Delivery)
    requires LeadsTo(tr, s) && name in s.buses && s.sched.clock <= first <= second < TWO63
    requires d == Posted(s.step, s.buses[name].hub, src, f, first, second)
    ensures LeadsTo(tr + [Send(name, src, f, first, second)],
                    s.(step := s.step + 1,
                       sched := s.sched.(clock := second, queue := s.sched.queue + multiset{d}),
                       tx := Counted(s.tx, d.bus),
                       forwarded := if f.payload == [] then s.forwarded
                                    else Appended(s.forwarded, s.buses[name].hub.fwdCb, [d.frame])))
  {
    Step(tr, s, Send(name, src, f, first, second));
  }

  lemma TraceNoSend(tr: seq<Event>, s: State, name: string, src: Option<Endpoint>, f: Frame)
    requires LeadsTo(tr, s) && name !in s.buses && s.sched.clock < TWO63
    ensures LeadsTo(tr + [Send(name, src, f, s.sched.clock, s.sched.clock)], s.(step := s.step + 1))
  {
    Step(tr, s, Send(name, src, f, s.sched.clock, s.sched.clock));
  }

  // What one firing does but for the pipes and the messages.
  function AfterFiring(s: State, record: seq<U8>): State
    requires s.sched.ready != []
  {
    var d := s.sched.ready[0];
    s.(step := s.step + 1,
       sched := s.sched.(ready := s.sched.ready[1..], left := d.targets, fired := s.sched.fired + [Firing(s.step, d)]),
       files := Appended(s.files, d.rec, record))
  }

  lemma TraceFire(tr: seq<Event>, s: State, pad: Padding, written: bool, pipes: Pipes, to: Option<Id>)
    requires LeadsTo(tr, s) && s.sched.ready != [] && s.sched.left == []
    requires var d := s.sched.ready[0];
             && pipes == (if d.sub then NextPipes(s.pipes, Fire(EncodeRecord(d.frame, pad), written), Some(d.bus), 0)
                          else s.pipes)
             && to == if d.sub && written then s.pipes.Holder(d.bus) else None
    ensures var d := s.sched.ready[0];
            LeadsTo(tr + [Fire(EncodeRecord(d.frame, pad), written)],
                    AfterFiring(s, EncodeRecord(d.frame, pad)).(
                        pipes := pipes, messages := Appended(s.messages, to, [d.frame])))
  {
    var d := s.sched.ready[0];
    assert IsRecord(EncodeRecord(d.frame, pad), d.frame);
    Step(tr, s, Fire(EncodeRecord(d.frame, pad), written));
  }

  lemma TraceDeliver(tr: seq<Event>, s: State)
    requires LeadsTo(tr, s) && s.sched.left != [] && s.sched.fired != []
    ensures var d := s.sched.fired[|s.sched.fired| - 1].d;
            LeadsTo(tr + [Deliver],
                    s.(step := s.step + 1, rx := Counted(s.rx, d.bus),
                       sched := s.sched.(left := s.sched.left[1..],
                                         received := s.sched.received + [Receipt(s.sched.left[0], d.id)])))
  {
    Step(tr, s, Deliver);
  }

  // Items of a queue that a drain takes.
  ghost predicate DueTaken(queue: multiset<Delivery>, now: nat, batch: seq<Delivery>) {
    forall m: nat {:trigger Unfold(OfDrain, m)} :: Unfold(OfDrain, m) ==> IsDrain(queue, now, batch)
  }

  lemma TraceDrain(tr: seq<Event>, s: State, now: nat, batch: seq<Delivery>)
    requires LeadsTo(tr, s) && now < TWO63 && Idle(s.sched) && DueTaken(s.sched.queue, now, batch)
    ensures LeadsTo(tr + [Drain(now, batch)],
                    s.(step := s.step + 1,
                       sched := s.sched.(clock := if now > s.sched.clock then now else s.sched.clock,
                                         queue := s.sched.queue - multiset(batch), ready := batch)))
  {
    assert Unfold(OfDrain, 0);
    Step(tr, s, Drain(now, batch));
  }

  // A frame that an endpoint sends on the bus of that name.
  datatype Reply = Reply(name: string, frame: Frame)

  lemma LineOn(fired: seq<Firing>, ready: seq<Delivery>, step: Id)
    requires ready != []
    ensures Deliveries(fired + [Firing(step, ready[0])]) + ready[1..] == Deliveries(fired) + ready
  {
    assert Deliveries(fired + [Firing(step, ready[0])]) == Deliveries(fired) + [ready[0]];
  }

  class Daemon {
    const clk: Clock
    const sched: Scheduler
    const reg: Registry
    const pipes: PipeServer
    const pool: RecorderPool
    ghost var trace: seq<Event>
    // The latest reading of the clock.
    ghost var clock: nat
    var step: nat
    // BusWrap::sub of each bus.
    var subs: map<string, SubInfo>
    // The drain in progress: what it has still to call, and whom the last call has still to reach.
    var ready: seq<Delivery>
    var left: seq<Endpoint>
    var tx: map<Id, nat>
    var rx: map<Id, nat>
    var forwarded: map<Id, seq<Frame>>
    var messages: map<Id, seq<Frame>>
    // What has fired, and what the endpoints have received.
    var fired: seq<Firing>
    var received: seq<Receipt>

    ghost function State(): Engine.State
      reads this, sched, reg, pipes, pool
    {
      Engine.State(step, Sched(clock, sched.queue, ready, left, fired, received), reg.hubs, pipes.view,
                   tx, rx, pool.files, forwarded, messages)
    }

    // The parts are sound and own different objects.
    ghost predicate Linked()
      reads reg, reg.repr, pipes, pipes.repr, pool, pool.repr
    {
      && Apart(reg.repr) && Apart(pipes.repr) && Apart(pool.repr)
      && reg.repr !! pipes.repr && reg.repr !! pool.repr && pipes.repr !! pool.repr
      && (forall m: nat {:trigger Unfold(OfParts, m)} ::
            Unfold(OfParts, m) ==> reg.Linked() && pipes.Linked() && pool.Linked())
    }

    // Each bus has its SubInfo.
    ghost predicate Shared()
      reads `subs, reg`hubs, pipes`subs
    {
      SharedBy(subs, reg.hubs, pipes.subs)
    }

    // No part of the daemon is one of these objects.
    ghost predicate Apart(objects: set<object>) {
      && this !in objects && clk !in objects && sched !in objects
      && reg !in objects && pipes !in objects && pool !in objects
    }

    // The identities in use are those of steps before n.
    ghost predicate NumberedTo(n: nat)
      reads pipes`subs, pool`recs
    {
      (forall u :: u in pipes.subs ==> u < n) && (forall r :: r in pool.recs ==> r < n)
    }

    // As long as the clock is in its range, the objects amount to the state that the trace leads to.
    ghost predicate Traced()
      reads this, clk, sched, reg, pipes, pool
    {
      clock <= clk.t && (clk.t < TWO63 ==> LeadsTo(trace, State()))
    }

    // Between two events the daemon is in order.
    ghost predicate Ready()
      reads this, clk, sched, reg, reg.repr, pipes, pipes.repr, pool, pool.repr
    {
      Linked() && Shared() && NumberedTo(step) && Traced()
    }

    // No drain is in progress.
    predicate Between()
      reads `ready, `left
    {
      ready == [] && left == []
    }

    constructor (clk: Clock)
      ensures Ready() && Between() && trace == [] && this.clk == clk
      ensures fresh(sched) && fresh(reg) && fresh(pipes) && fresh(pool)
      ensures reg.repr == {} && pipes.repr == {} && pool.repr == {}
    {
      this.clk := clk;
      sched := new Scheduler();
      reg := new Registry();
      pipes := new PipeServer();
      pool := new RecorderPool();
      trace, clock, step := [], 0, 0;
      ready, left, fired, received := [], [], [], [];
      subs, tx, rx, forwarded, messages := map[], map[], map[], map[], map[];
      new;
      LeadsToIs([], INIT);
    }

    // ---------- the parts ----------

    method HandleBus(e: Event, id: Id, resolved: bool, socket: bool) returns (found: bool)
      requires Linked() && Shared() && ChangesBus(e)
      requires e.ForwardOn? ==> e.started == (resolved && socket)
      modifies reg, reg.repr
      ensures Linked() && Shared() && fresh(reg.repr - old(reg.repr))
      ensures unchanged(this, clk, sched, pipes, pool)
      ensures reg.hubs == NextBuses(old(reg.hubs), e, id)
      ensures found == (e.name in old(reg.hubs))
    {
      assert Unfold(OfParts, 0);
      found := e.name in reg.buses;
      reg.Handle(e, id, resolved, socket);
      SharedKept(subs, old(reg.hubs), pipes.subs, e, id);
    }

    method OpenFile(name: string, id: Id, created: bool) returns (ok: bool)
      requires Linked() && id !in pool.recs
      modifies pool
      ensures Linked() && fresh(pool.repr - old(pool.repr))
      ensures ok == (name in reg.hubs && created)
      ensures pool.files == if ok then old(pool.files)[id := HEADER] else old(pool.files)
      ensures pool.recs.Keys <= old(pool.recs.Keys) + {id}
    {
      assert Unfold(OfParts, 0);
      if name !in reg.buses {
        return false;
      }
      ok := pool.Open(id, created);
    }

    method MakeSub(id: Id) returns (sub: SubInfo)
      requires Linked() && id !in pipes.subs
      modifies pipes
      ensures Linked() && fresh(pipes.repr - old(pipes.repr)) && sub.id == id
      ensures unchanged(this, clk, sched, reg, pool)
      ensures pipes.subs == old(pipes.subs)[id := sub]
      ensures pipes.view == old(pipes.view).(held := old(pipes.view).held[id := None])
    {
      assert Unfold(OfParts, 0);
      sub := pipes.Add(id);
    }

    method CreateBus(name: string, id: Id, kind: Kind, rate: U64)
      requires Linked() && name !in reg.hubs
      modifies reg
      ensures Linked() && fresh(reg.repr - old(reg.repr))
      ensures unchanged(this, clk, sched, pipes, pool)
      ensures reg.hubs == NextBuses(old(reg.hubs), Engine.Create(name, kind, rate), id)
    {
      assert Unfold(OfParts, 0);
      var ok := reg.Create(name, id, kind, rate);
    }

    method DetachPipe(sub: SubInfo)
      requires Linked() && pipes.Knows(sub)
      modifies pipes, pipes.repr
      ensures Linked() && pipes.repr == old(pipes.repr) && pipes.subs == old(pipes.subs)
      ensures unchanged(this, clk, sched, reg, pool)
      ensures pipes.view == old(pipes.view).Hung(sub.id)
    {
      assert Unfold(OfParts, 0);
      pipes.Detach(sub);
    }

    method DeleteBus(name: string)
      requires Linked() && name in reg.hubs
      modifies reg, reg.repr
      ensures Linked() && reg.repr == old(reg.repr)
      ensures unchanged(this, clk, sched, pipes, pool)
      ensures reg.hubs == NextBuses(old(reg.hubs), Engine.Delete(name), 0)
    {
      assert Unfold(OfParts, 0);
      var ok := reg.Delete(name);
    }

    method AttachPipe(sub: SubInfo, h: Id, ghost name: string)
      requires Linked() && pipes.Knows(sub)
      modifies pipes, pipes.repr
      ensures Linked() && pipes.repr == old(pipes.repr) && pipes.subs == old(pipes.subs)
      ensures unchanged(this, clk, sched, reg, pool)
      ensures pipes.view == NextPipes(old(pipes.view), Engine.Subscribe(name, h), Some(sub.id), 0)
    {
      assert Unfold(OfParts, 0);
      pipes.Attach(sub, h, name);
    }

    method SetSubscribed(name: string, ghost h: Id)
      requires Linked() && name in reg.hubs
      modifies reg, reg.repr
      ensures Linked() && reg.repr == old(reg.repr)
      ensures unchanged(this, clk, sched, pipes, pool)
      ensures reg.hubs == NextBuses(old(reg.hubs), Engine.Subscribe(name, h), 0)
    {
      assert Unfold(OfParts, 0);
      var ok := reg.Subscribe(name, h);
    }

    method MakeBus(name: string, id: Id, kind: Kind, rate: U64)
      requires Linked() && Shared() && name !in reg.hubs && id !in pipes.subs
      modifies `subs, reg, pipes
      ensures Linked() && Shared() && fresh(reg.repr - old(reg.repr)) && fresh(pipes.repr - old(pipes.repr))
      ensures unchanged(clk, sched, pool)
      ensures unchanged(`step, `trace, `clock, `ready, `left, `tx, `rx, `forwarded, `messages, `fired, `received)
      ensures reg.hubs == NextBuses(old(reg.hubs), Engine.Create(name, kind, rate), id)
      ensures pipes.view == old(pipes.view).(held := old(pipes.view).held[id := None])
      ensures forall u :: u in pipes.subs ==> u in old(pipes.subs) || u == id
    {
      var sub := MakeSub(id);
      SharedMore(subs, reg.hubs, old(pipes.subs), name, sub, kind, rate);
      subs := subs[name := sub];
      CreateBus(name, id, kind, rate);
    }

    // detachSub closes the pipe, and then the other taps are released.
    method RemoveBus(name: string)
      requires Linked() && Shared() && name in reg.hubs
      modifies `subs, reg, reg.repr, pipes, pipes.repr
      ensures Linked() && Shared() && reg.repr == old(reg.repr) && pipes.repr == old(pipes.repr)
      ensures unchanged(clk, sched, pool) && pipes.subs == old(pipes.subs)
      ensures unchanged(`step, `trace, `clock, `ready, `left, `tx, `rx, `forwarded, `messages, `fired, `received)
      ensures reg.hubs == NextBuses(old(reg.hubs), Engine.Delete(name), 0)
      ensures pipes.view == old(pipes.view).Hung(old(reg.hubs)[name].hub.id)
    {
      SharedNames(subs, reg.hubs, pipes.subs, name);
      SharedLess(subs, reg.hubs, pipes.subs, name);
      var sub := subs[name];
      subs := subs - {name};
      DetachPipe(sub);
      DeleteBus(name);
    }

    method SendOn(name: string, src: Option<Endpoint>, f: Frame, id: Id)
      returns (d: Delivery, fwd: Option<Id>, ghost first: nat, ghost second: nat)
      requires Linked() && name in reg.hubs
      modifies clk, sched
      ensures Linked() && unchanged(this, reg, pipes, pool)
      ensures old(clk.t) <= first <= second == clk.t
      ensures d == Posted(id, reg.hubs[name].hub, src, f, first, second)
      ensures fwd == reg.hubs[name].hub.fwdCb
      ensures sched.queue == old(sched.queue) + multiset{d}
    {
      assert Unfold(OfParts, 0);
      d, fwd, first, second := reg.buses[name].bus.Send(src, f, clk, sched, id);
    }

    method CollectDue(tmax: nat) returns (batch: seq<Delivery>)
      requires Linked()
      modifies sched
      ensures Linked() && unchanged(this, clk, reg, pipes, pool)
      ensures DueTaken(old(sched.queue), tmax, batch) && sched.queue == old(sched.queue) - multiset(batch)
    {
      assert Unfold(OfParts, 0);
      batch := sched.Collect(tmax);
    }

    method WriteRecord(rec: Option<Id>, f: Frame, pad: Padding)
      requires Linked()
      modifies pool, pool.repr
      ensures Linked() && pool.repr == old(pool.repr) && pool.recs == old(pool.recs)
      ensures unchanged(this, clk, sched, reg, pipes)
      ensures pool.files == Appended(old(pool.files), rec, EncodeRecord(f, pad))
    {
      assert Unfold(OfParts, 0);
      if rec.Some? {
        pool.Write(rec.value, f, pad);
      }
    }

    // The SubInfo is the one of the bus that the delivery was sent on.
    method WriteMessage(bus: Id, canWrite: bool, ghost record: seq<U8>) returns (to: Option<Id>)
      requires Linked()
      modifies pipes, pipes.repr
      ensures Linked() && pipes.repr == old(pipes.repr) && pipes.subs == old(pipes.subs)
      ensures unchanged(this, clk, sched, reg, pool)
      ensures pipes.view == NextPipes(old(pipes.view), Engine.Fire(record, canWrite), Some(bus), 0)
      ensures to == if canWrite then old(pipes.view).Holder(bus) else None
    {
      assert Unfold(OfParts, 0);
      if bus !in pipes.subs {
        return None;
      }
      to := pipes.Write(pipes.subs[bus], canWrite, record);
    }

    method AcceptPipe(h: Id, connected: bool)
      requires Linked()
      modifies pipes
      ensures Linked() && pipes.repr == old(pipes.repr) && pipes.subs == old(pipes.subs)
      ensures unchanged(this, clk, sched, reg, pool)
      ensures pipes.view == NextPipes(old(pipes.view), Engine.OpenPipe(connected), None, h)
    {
      assert Unfold(OfParts, 0);
      pipes.Accept(h, connected);
    }

    method LeavePipe(h: Id)
      requires Linked()
      modifies pipes
      ensures Linked() && pipes.repr == old(pipes.repr) && pipes.subs == old(pipes.subs)
      ensures unchanged(this, clk, sched, reg, pool)
      ensures pipes.view == NextPipes(old(pipes.view), Engine.HangUp(h), None, 0)
    {
      assert Unfold(OfParts, 0);
      pipes.Leave(h);
    }

    // ---------- commands ----------

    // One more event, after the parts have done what it says.
    method Log(ghost e: Event)
      requires Linked() && Shared() && NumberedTo(step + 1) && clock <= clk.t
      requires clk.t < TWO63 ==> LeadsTo(trace + [e], State().(step := step + 1))
      modifies `step, `trace
      ensures Ready() && trace == old(trace) + [e]
    {
      step, trace := step + 1, trace + [e];
    }

    // connect, disconnect, record off and stop-forward.
    method Change(e: Event)
      requires Ready() && (e.Connect? || e.Disconnect? || e.RecordOff? || e.ForwardOff?)
      modifies `step, `trace, reg, reg.repr
      ensures Ready() && trace == old(trace) + [e]
      ensures fresh(reg.repr - old(reg.repr))
    {
      var found := HandleBus(e, step, false, false);
      if clk.t < TWO63 {
        TraceCommand(trace, old(State()), e, reg.hubs, pool.files, forwarded);
      }
      Log(e);
    }

    // record on. `created` is whether the file could be opened for writing.
    method RecordOn(name: string, path: string, created: bool)
      requires Ready()
      modifies `step, `trace, reg, reg.repr, pool
      ensures Ready() && trace == old(trace) + [Engine.RecordOn(name, path, created)]
      ensures fresh(reg.repr - old(reg.repr)) && fresh(pool.repr - old(pool.repr))
    {
      var e := Engine.RecordOn(name, path, created);
      var ok := OpenFile(name, step, created);
      var found := HandleBus(e, step, false, false);
      if clk.t < TWO63 {
        TraceCommand(trace, old(State()), e, reg.hubs, pool.files, forwarded);
      }
      Log(e);
    }

    // forward-udp. The outcomes are those of looking up the host and of opening a socket.
    method ForwardOn(name: string, resolved: bool, socket: bool)
      requires Ready()
      modifies `forwarded, `step, `trace, reg, reg.repr
      ensures Ready() && trace == old(trace) + [Engine.ForwardOn(name, resolved && socket)]
      ensures fresh(reg.repr - old(reg.repr))
    {
      var e := Engine.ForwardOn(name, resolved && socket);
      var found := HandleBus(e, step, resolved, socket);
      forwarded := if found && resolved && socket then forwarded[step := []] else forwarded;
      if clk.t < TWO63 {
        TraceCommand(trace, old(State()), e, reg.hubs, pool.files, forwarded);
      }
      Log(e);
    }

    // A command that is answered with an error: it changes nothing.
    method Refuse(e: Event)
      requires Ready()
      requires if e.Create? then e.name in reg.hubs
               else (e.Delete? || (e.Subscribe? && e.pipe in pipes.view.served)) && e.name !in reg.hubs
      modifies `step, `trace
      ensures Ready() && trace == old(trace) + [e]
    {
      if clk.t < TWO63 {
        TraceRefusal(trace, State(), e);
      }
      Log(e);
    }

    method CreateNew(name: string, kind: Kind, rate: U64)
      requires Ready() && name !in reg.hubs
      modifies `subs, `tx, `rx, `step, `trace, reg, pipes
      ensures Ready() && trace == old(trace) + [Engine.Create(name, kind, rate)]
      ensures fresh(reg.repr - old(reg.repr)) && fresh(pipes.repr - old(pipes.repr))
    {
      MakeBus(name, step, kind, rate);
      tx, rx := tx[step := 0], rx[step := 0];
      if clk.t < TWO63 {
        TraceCreate(trace, old(State()), name, kind, rate, reg.hubs);
      }
      Log(Engine.Create(name, kind, rate));
    }

    method DeleteOld(name: string)
      requires Ready() && name in reg.hubs
      modifies `subs, `step, `trace, reg, reg.repr, pipes, pipes.repr
      ensures Ready() && trace == old(trace) + [Engine.Delete(name)]
      ensures reg.repr == old(reg.repr) && pipes.repr == old(pipes.repr)
    {
      RemoveBus(name);
      if clk.t < TWO63 {
        TraceDelete(trace, old(State()), name, reg.hubs);
      }
      Log(Engine.Delete(name));
    }

    method SubscribeTo(name: string, h: Id)
      requires Ready() && h in pipes.view.served && name in reg.hubs
      modifies `step, `trace, reg, reg.repr, pipes, pipes.repr
      ensures Ready() && trace == old(trace) + [Engine.Subscribe(name, h)]
      ensures reg.repr == old(reg.repr) && pipes.repr == old(pipes.repr)
    {
      SharedNames(subs, reg.hubs, pipes.subs, name);
      SharedKept(subs, reg.hubs, pipes.subs, Engine.Subscribe(name, h), 0);
      AttachPipe(subs[name], h, name);
      SetSubscribed(name, h);
      if clk.t < TWO63 {
        TraceSubscribe(trace, old(State()), name, h, reg.hubs, pipes.view);
      }
      Log(Engine.Subscribe(name, h));
    }

    // create, delete and subscribe.
    method Create(name: string, kind: Kind, rate: U64) returns (ok: bool)
      requires Ready()
      modifies `subs, `tx, `rx, `step, `trace, reg, pipes
      ensures Ready() && trace == old(trace) + [Engine.Create(name, kind, rate)]
      ensures ok == (name !in old(reg.hubs))
      ensures fresh(reg.repr - old(reg.repr)) && fresh(pipes.repr - old(pipes.repr))
    {
      SharedNames(subs, reg.hubs, pipes.subs, name);
      ok := name !in subs;
      if ok {
        CreateNew(name, kind, rate);
      } else {
        Refuse(Engine.Create(name, kind, rate));
      }
    }

    method Delete(name: string) returns (ok: bool)
      requires Ready()
      modifies `subs, `step, `trace, reg, reg.repr, pipes, pipes.repr
      ensures Ready() && trace == old(trace) + [Engine.Delete(name)]
      ensures ok == (name in old(reg.hubs))
      ensures reg.repr == old(reg.repr) && pipes.repr == old(pipes.repr)
    {
      SharedNames(subs, reg.hubs, pipes.subs, name);
      ok := name in subs;
      if ok {
        DeleteOld(name);
      } else {
        Refuse(Engine.Delete(name));
      }
    }

    // The thread that serves the pipe hands it over.
    method Subscribe(name: string, h: Id) returns (ok: bool)
      requires Ready() && h in pipes.view.served
      modifies `step, `trace, reg, reg.repr, pipes, pipes.repr
      ensures Ready() && trace == old(trace) + [Engine.Subscribe(name, h)]
      ensures ok == (name in old(reg.hubs))
      ensures reg.repr == old(reg.repr) && pipes.repr == old(pipes.repr)
    {
      SharedNames(subs, reg.hubs, pipes.subs, name);
      ok := name in subs;
      if ok {
        SubscribeTo(name, h);
      } else {
        Refuse(Engine.Subscribe(name, h));
      }
    }

    method OpenPipe(connected: bool)
      requires Ready()
      modifies `messages, `step, `trace, pipes
      ensures Ready() && pipes.repr == old(pipes.repr) && trace == old(trace) + [Engine.OpenPipe(connected)]
    {
      AcceptPipe(step, connected);
      messages := messages[step := []];
      if clk.t < TWO63 {
        TraceOpenPipe(trace, old(State()), connected, pipes.view);
      }
      Log(Engine.OpenPipe(connected));
    }

    // The thread that serves the pipe ends.
    method HangUp(h: Id)
      requires Ready() && h in pipes.view.served
      modifies `step, `trace, pipes
      ensures Ready() && pipes.repr == old(pipes.repr) && trace == old(trace) + [Engine.HangUp(h)]
    {
      LeavePipe(h);
      if clk.t < TWO63 {
        TraceHangUp(trace, old(State()), h, pipes.view);
      }
      Log(Engine.HangUp(h));
    }

    // ---------- sending and draining ----------

    method TakeDue(tmax: nat)
      requires Linked()
      modifies `ready, `clock, sched
      ensures Linked() && unchanged(clk, reg, pipes, pool)
      ensures DueTaken(old(sched.queue), tmax, ready)
      ensures State() == old(State()).(sched := old(State().sched).(
                                           clock := if tmax > old(clock) then tmax else old(clock),
                                           ready := ready, queue := old(sched.queue) - multiset(ready)))
    {
      var batch := CollectDue(tmax);
      ready, clock := batch, if tmax > clock then tmax else clock;
    }

    // The part of a drain under the scheduler's lock. `tmax` was read from the clock some time ago;
    // anything may have been sent since.
    method Drain(tmax: nat)
      requires Ready() && Between() && tmax <= clk.t
      modifies `ready, `clock, `step, `trace, sched
      ensures Ready() && trace == old(trace) + [Engine.Drain(tmax, ready)]
      ensures DueTaken(old(sched.queue), tmax, ready) && sched.queue == old(sched.queue) - multiset(ready)
    {
      TakeDue(tmax);
      if clk.t < TWO63 {
        TraceDrain(trace, old(State()), tmax, ready);
      }
      Log(Engine.Drain(tmax, ready));
    }

    method SendNow(name: string, src: Option<Endpoint>, f: Frame)
      returns (d: Delivery, ghost first: nat, ghost second: nat)
      requires Linked() && name in reg.hubs
      modifies `clock, `tx, `forwarded, clk, sched
      ensures Linked() && unchanged(reg, pipes, pool)
      ensures old(clk.t) <= first <= second == clk.t
      ensures d == Posted(step, reg.hubs[name].hub, src, f, first, second)
      ensures State() == old(State()).(sched := old(State().sched).(clock := second,
                                                                    queue := old(sched.queue) + multiset{d}),
                                       tx := Counted(old(tx), d.bus), forwarded := forwarded)
      ensures forwarded == if f.payload == [] then old(forwarded)
                           else Appended(old(forwarded), reg.hubs[name].hub.fwdCb, [d.frame])
    {
      var fwd;
      d, fwd, first, second := SendOn(name, src, f, step);
      Note(d, fwd, second);
    }

    // What Send does besides posting: the sink, if any, forwards the frame at once.
    method Note(d: Delivery, fwd: Option<Id>, ghost reading: nat)
      modifies `clock, `tx, `forwarded
      ensures clock == reading && tx == Counted(old(tx), d.bus)
      ensures forwarded == if d.frame.payload == [] then old(forwarded) else Appended(old(forwarded), fwd, [d.frame])
    {
      clock, tx := reading, Counted(tx, d.bus);
      forwarded := if d.frame.payload == [] then forwarded else Appended(forwarded, fwd, [d.frame]);
    }

    method SendThere(name: string, src: Option<Endpoint>, f: Frame) returns (ghost first: nat, ghost second: nat)
      requires Ready() && name in reg.hubs
      modifies `clock, `tx, `forwarded, `step, `trace, clk, sched
      ensures Ready() && clk.t >= old(clk.t) && old(sched.queue) <= sched.queue
      ensures trace == old(trace) + [Engine.Send(name, src, f, first, second)]
    {
      var d;
      d, first, second := SendNow(name, src, f);
      if clk.t < TWO63 {
        TraceSend(trace, old(State()), name, src, f, first, second, d);
      }
      Log(Engine.Send(name, src, f, first, second));
    }

    method SendNowhere(name: string, src: Option<Endpoint>, f: Frame)
      requires Ready() && name !in reg.hubs
      modifies `step, `trace
      ensures Ready() && trace == old(trace) + [Engine.Send(name, src, f, clock, clock)]
    {
      if clk.t < TWO63 {
        TraceNoSend(trace, State(), name, src, f);
      }
      Log(Engine.Send(name, src, f, clock, clock));
    }

    // send-eth, send-can, replays and endpoints. Nothing is sent on a bus that is not there.
    method Send(name: string, src: Option<Endpoint>, f: Frame) returns (ghost first: nat, ghost second: nat)
      requires Ready()
      modifies `clock, `tx, `forwarded, `step, `trace, clk, sched
      ensures Ready() && clk.t >= old(clk.t) && old(sched.queue) <= sched.queue
      ensures trace == old(trace) + [Engine.Send(name, src, f, first, second)]
    {
      SharedNames(subs, reg.hubs, pipes.subs, name);
      if name in subs {
        first, second := SendThere(name, src, f);
      } else {
        first, second := clock, clock;
        SendNowhere(name, src, f);
      }
    }

    // The callbacks that a delivery was posted with: the recorder and then the subscriber.
    method CallTaps(d: Delivery, pad: Padding, canWrite: bool) returns (to: Option<Id>)
      requires Linked()
      modifies pool, pool.repr, pipes, pipes.repr
      ensures Linked() && pool.repr == old(pool.repr) && pool.recs == old(pool.recs)
      ensures pipes.repr == old(pipes.repr) && pipes.subs == old(pipes.subs)
      ensures unchanged(this, clk, sched, reg)
      ensures pool.files == Appended(old(pool.files), d.rec, EncodeRecord(d.frame, pad))
      ensures var e := Engine.Fire(EncodeRecord(d.frame, pad), canWrite);
              pipes.view == if d.sub then NextPipes(old(pipes.view), e, Some(d.bus), 0) else old(pipes.view)
      ensures to == if d.sub && canWrite then old(pipes.view).Holder(d.bus) else None
    {
      WriteRecord(d.rec, d.frame, pad);
      to := None;
      if d.sub {
        to := WriteMessage(d.bus, canWrite, EncodeRecord(d.frame, pad));
      }
    }

    method Begin(to: Option<Id>)
      requires ready != []
      modifies `ready, `left, `fired, `messages
      ensures ready == old(ready)[1..] && left == old(ready)[0].targets
      ensures fired == old(fired) + [Firing(step, old(ready)[0])]
      ensures messages == Appended(old(messages), to, [old(ready)[0].frame])
    {
      var d := ready[0];
      ready, left, fired := ready[1..], d.targets, fired + [Firing(step, d)];
      messages := Appended(messages, to, [d.frame]);
    }

    method FireNow(pad: Padding, canWrite: bool) returns (to: Option<Id>)
      requires Linked() && ready != []
      modifies `ready, `left, `fired, `messages, pool, pool.repr, pipes, pipes.repr
      ensures Linked() && pool.repr == old(pool.repr) && pipes.repr == old(pipes.repr)
      ensures unchanged(clk, sched, reg) && pipes.subs == old(pipes.subs) && pool.recs == old(pool.recs)
      ensures var d := old(ready)[0];
              var e := Engine.Fire(EncodeRecord(d.frame, pad), canWrite);
              && pipes.view == (if d.sub then NextPipes(old(pipes.view), e, Some(d.bus), 0) else old(pipes.view))
              && to == (if d.sub && canWrite then old(pipes.view).Holder(d.bus) else None)
              && State() == AfterFiring(old(State()), EncodeRecord(d.frame, pad)).(
                              step := step, pipes := pipes.view, messages := Appended(old(messages), to, [d.frame]))
    {
      to := CallTaps(ready[0], pad, canWrite);
      Begin(to);
    }

    // The call of the next item of the drain. `canWrite` is whether the subscriber's pipe takes the
    // message.
    method Fire(pad: Padding, canWrite: bool)
      requires Ready() && ready != [] && left == []
      modifies `ready, `left, `fired, `messages, `step, `trace, pool, pool.repr, pipes, pipes.repr
      ensures Ready() && pool.repr == old(pool.repr) && pipes.repr == old(pipes.repr)
      ensures trace == old(trace) + [Engine.Fire(EncodeRecord(old(ready)[0].frame, pad), canWrite)]
      ensures ready == old(ready)[1..] && left == old(ready)[0].targets
      ensures fired == old(fired) + [Firing(old(step), old(ready)[0])]
    {
      ghost var e := Engine.Fire(EncodeRecord(ready[0].frame, pad), canWrite);
      var to := FireNow(pad, canWrite);
      if clk.t < TWO63 {
        TraceFire(trace, old(State()), pad, canWrite, pipes.view, to);
      }
      Log(e);
    }

    method Receive() returns (r: Receipt)
      requires left != [] && fired != []
      modifies `left, `received, `rx
      ensures var d := fired[|fired| - 1].d;
              && r == Receipt(old(left)[0], d.id)
              && State() == old(State()).(rx := Counted(old(rx), d.bus),
                                          sched := old(State()).sched.(left := old(left)[1..],
                                                                       received := old(received) + [r]))
    {
      var d := fired[|fired| - 1].d;
      r := Receipt(left[0], d.id);
      received, left, rx := received + [r], left[1..], Counted(rx, d.bus);
    }

    // The next target receives the frame.
    method Deliver() returns (r: Receipt)
      requires Ready() && left != [] && fired != []
      modifies `left, `received, `rx, `step, `trace
      ensures Ready() && trace == old(trace) + [Engine.Deliver]
      ensures r == Receipt(old(left)[0], fired[|fired| - 1].d.id)
      ensures received == old(received) + [r] && left == old(left)[1..]
    {
      r := Receive();
      if clk.t < TWO63 {
        TraceDeliver(trace, old(State()));
      }
      Log(Engine.Deliver);
    }

    // ---------- the drain loop ----------

    // What sends have in common: time passes, the trace grows, and nothing leaves the queue.
    twostate predicate Onward()
      reads this, clk, sched
    {
      clk.t >= old(clk.t) && old(trace) <= trace && old(sched.queue) <= sched.queue
    }

    // What an endpoint sends from On_rx, before it returns.
    method Answer(ep: Endpoint, replies: seq<Reply>)
      requires Ready()
      modifies `clock, `tx, `forwarded, `step, `trace, clk, sched
      ensures Ready() && Onward()
    {
      for i := 0 to |replies|
        invariant Ready() && Onward()
      {
        var first, second := Send(replies[i].name, Some(ep), replies[i].frame);
      }
    }

    // A frame to all its targets, whatever they do with it.
    method Reach(react: Receipt -> seq<Reply>)
      requires Ready() && fired != []
      modifies `left, `received, `rx, `clock, `tx, `forwarded, `step, `trace, clk, sched
      ensures Ready() && Onward() && left == []
    {
      while left != []
        invariant Ready() && Onward()
        decreases |left|
      {
        var r := Deliver();
        Answer(r.ep, react(r));
      }
    }

    /** g_sched.run_until(tmax). Exactly the items that were queued and due at tmax are called, in order
        of time, whatever the endpoints send meanwhile; that stays queued, and so does what was not due.
        And all of it goes on with the run of the state machine. */
    method RunUntil(tmax: nat, pad: Padding, canWrite: Delivery -> bool, react: Receipt -> seq<Reply>)
      returns (ghost batch: seq<Delivery>)
      requires Ready() && Between() && tmax <= clk.t
      modifies this, clk, sched, pool, pool.repr, pipes, pipes.repr
      ensures Ready() && Between() && clk.t >= old(clk.t) && old(trace) <= trace
      ensures pool.repr == old(pool.repr) && pipes.repr == old(pipes.repr)
      ensures IsDrain(old(sched.queue), tmax, batch) && old(sched.queue) - multiset(batch) <= sched.queue
      ensures Deliveries(fired) == Deliveries(old(fired)) + batch
    {
      Drain(tmax);
      batch := ready;
      ghost var rest := sched.queue;
      assert Deliveries(fired) + ready == Deliveries(old(fired)) + batch;
      while ready != []
        invariant Ready() && left == [] && pool.repr == old(pool.repr) && pipes.repr == old(pipes.repr)
        invariant clk.t >= old(clk.t) && old(trace) <= trace && rest <= sched.queue
        invariant Deliveries(fired) + ready == Deliveries(old(fired)) + batch
        decreases |ready|
      {
        LineOn(fired, ready, step);
        Fire(pad, canWrite(ready[0]));
        Reach(react);
      }
      assert Unfold(OfDrain, 0);
    }

    /** One turn of the daemon's main loop: what was due when it began has been called. */
    method Turn(pad: Padding, canWrite: Delivery -> bool, react: Receipt -> seq<Reply>)
      returns (now: nat, ghost batch: seq<Delivery>)
      requires Ready() && Between()
      modifies this, clk, sched, pool, pool.repr, pipes, pipes.repr
      ensures Ready() && Between() && old(clk.t) <= now <= clk.t && old(trace) <= trace
      ensures pool.repr == old(pool.repr) && pipes.repr == old(pipes.repr)
      ensures IsDrain(old(sched.queue), now, batch) && old(sched.queue) - multiset(batch) <= sched.queue
      ensures Deliveries(fired) == Deliveries(old(fired)) + batch
    {
      now := clk.Now();
      batch := RunUntil(now, pad, canWrite, react);
    }
  }
}
