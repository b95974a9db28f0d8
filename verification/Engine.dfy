// The daemon as a state machine: the scheduler's queue, the buses with their endpoints and
// taps, the recorders' files and the control pipes (vbus/src/core/scheduler.cpp,
// vbus/src/bus/eth_bus.cpp, vbus/src/bus/can_bus.cpp, vbus/src/daemon/vbusd.cpp,
// vbus/src/net/udp_sink.cpp).
//
// Every object (bus, recorder, sink, pipe handle, sent frame) is identified by the number of the
// step that made it, which stands for its address. A bus's SubInfo has the identity of the bus.
module Engine {
  import opened Bytes
  import opened Capture
  import opened Delay

  datatype Option<+T> = None | Some(value: T)

  type Id = nat
  type Endpoint = nat

  datatype Event =
    | Create(name: string, kind: Kind, rate: U64)
    | Delete(name: string)
    | Connect(name: string, ep: Endpoint)
    | Disconnect(name: string, ep: Endpoint)
    | RecordOn(name: string, path: string, created: bool)
    | RecordOff(name: string)
    | ForwardOn(name: string, started: bool)
    | ForwardOff(name: string)
    | OpenPipe(connected: bool)
    | HangUp(pipe: Id)
    | Subscribe(name: string, pipe: Id)
    | Send(name: string, src: Option<Endpoint>, frame: Frame, first: nat, second: nat)
    | Drain(now: nat, batch: seq<Delivery>)
    | Fire(record: seq<U8>, written: bool)
    | Deliver

  // ---------- the buses ----------

  // EthHub and CanBus have the same fields.
  datatype Hub = Hub(id: Id, kind: Kind, rate: U64, endpoints: seq<Endpoint>,
                     recCb: Option<Id>, subCb: bool, fwdCb: Option<Id>)

  // A bus as the daemon's registry holds it, with the recorder and the sink it owns.
  datatype Wrap = Wrap(hub: Hub, rec: Option<Id>, sink: Option<Id>) {
    function Recording(rec: Option<Id>): Wrap {
      this.(rec := rec, hub := hub.(recCb := rec))
    }

    function Forwarding(sink: Option<Id>): Wrap {
      this.(sink := sink, hub := hub.(fwdCb := sink))
    }

    function Joined(endpoints: seq<Endpoint>): Wrap {
      this.(hub := hub.(endpoints := endpoints))
    }

    function Subscribed(): Wrap {
      this.(hub := hub.(subCb := true))
    }
  }

  // The endpoints other than `ep`, in order.
  function Others(endpoints: seq<Endpoint>, ep: Option<Endpoint>): seq<Endpoint> {
    if endpoints == [] then []
    else
      var last, others := endpoints[|endpoints| - 1], Others(endpoints[..|endpoints| - 1], ep);
      if Some(last) == ep then others else others + [last]
  }

  // A command about a bus that is not there is answered "ERR no bus" and changes nothing.
  function NextBuses(buses: map<string, Wrap>, e: Event, step: Id): map<string, Wrap> {
    match e
    case Create(n, kind, rate) =>
      if n in buses then buses else buses[n := Wrap(Hub(step, kind, rate, [], None, false, None), None, None)]
    case Delete(n) => buses - {n}
    case Connect(n, ep) =>
      if n in buses then buses[n := buses[n].Joined(buses[n].hub.endpoints + [ep])] else buses
    case Disconnect(n, ep) =>
      if n in buses then buses[n := buses[n].Joined(Others(buses[n].hub.endpoints, Some(ep)))] else buses
    case RecordOn(n, _, created) =>
      if n in buses then buses[n := buses[n].Recording(if created then Some(step) else None)] else buses
    case RecordOff(n) =>
      if n in buses then buses[n := buses[n].Recording(None)] else buses
    case ForwardOn(n, started) =>
      if n in buses then buses[n := buses[n].Forwarding(if started then Some(step) else None)] else buses
    case ForwardOff(n) =>
      if n in buses then buses[n := buses[n].Forwarding(None)] else buses
    case Subscribe(n, _) =>
      if n in buses then buses[n := buses[n].Subscribed()] else buses
    case _ => buses
  }

  // ---------- sending ----------

  // One posted delivery: what the closure given to the scheduler captured at the time of Send.
  datatype Delivery = Delivery(id: Id, bus: Id, at: int, frame: Frame, targets: seq<Endpoint>,
                               rec: Option<Id>, sub: bool)

  // Ethernet stamps its protocol number on every frame; a CAN bus keeps only CAN FD apart.
  function Stamped(kind: Kind, f: Frame, ts: nat): Frame {
    match kind
    case Eth => f.(proto := ETH2, tsNs := ts % TWO64)
    case Can => f.(proto := if f.proto == CANFD then CANFD else CAN20, tsNs := ts % TWO64)
  }

  function BitsOf(h: Hub, f: Frame): nat {
    WireBits(h.kind, f.proto, |f.payload|)
  }

  // An Ethernet hub reads the clock for the time stamp and then for the delivery time; a CAN bus
  // the other way round.
  function Posted(id: Id, h: Hub, src: Option<Endpoint>, f: Frame, first: nat, second: nat): Delivery {
    var ts, base := if h.kind.Eth? then first else second, if h.kind.Eth? then second else first;
    Delivery(id, h.id, Due(base, BitsOf(h, f), h.rate), Stamped(h.kind, f, ts), Others(h.endpoints, src),
             h.recCb, h.subCb)
  }

  // ---------- the scheduler ----------

  datatype Firing = Firing(step: Id, d: Delivery)
  datatype Receipt = Receipt(ep: Endpoint, id: Id)

  datatype Sched = Sched(
    clock: nat,                    // the latest reading of the clock that was used
    queue: multiset<Delivery>,     // posted and not yet taken by a drain
    ready: seq<Delivery>,          // taken by the drain in progress and not yet fired
    left: seq<Endpoint>,           // targets the last fired delivery has still to reach
    fired: seq<Firing>,            // all firings so far, in order
    received: seq<Receipt>         // all calls of On_rx so far, in order
  )

  ghost predicate InOrder(ds: seq<Delivery>) {
    forall i, j :: 0 <= i < j < |ds| ==> ds[i].at <= ds[j].at
  }

  // What a drain may take: the due items, in order of time. Items of equal time come in any order.
  ghost predicate IsDrain(queue: multiset<Delivery>, now: nat, batch: seq<Delivery>) {
    && InOrder(batch)
    && multiset(batch) <= queue
    && (forall d :: d in batch ==> d.at <= now)
    && (forall d :: d in queue - multiset(batch) ==> d.at > now)
  }

  function NextSched(q: Sched, e: Event, posted: Option<Delivery>, step: Id): Sched {
    match e
    case Send(_, _, _, _, second) =>
      if posted.Some? then q.(clock := second, queue := q.queue + multiset{posted.value}) else q
    case Drain(now, batch) =>
      q.(clock := if now > q.clock then now else q.clock, queue := q.queue - multiset(batch), ready := batch)
    case Fire(_, _) =>
      if q.ready == [] then q
      else q.(ready := q.ready[1..], left := q.ready[0].targets, fired := q.fired + [Firing(step, q.ready[0])])
    case Deliver =>
      if q.left == [] || q.fired == [] then q
      else q.(left := q.left[1..], received := q.received + [Receipt(q.left[0], q.fired[|q.fired| - 1].d.id)])
    case _ => q
  }

  // ---------- the control pipes ----------

  datatype Pipes = Pipes(
    held: map<Id, Option<Id>>,     // the pipe of each bus's SubInfo
    served: set<Id>,               // pipes that a pipe thread serves
    closed: multiset<Id>           // CloseHandle calls
  ) {
    function Holder(bus: Id): Option<Id> {
      if bus in held then held[bus] else None
    }

    // Close the pipe of a SubInfo, if it has one.
    function Hung(bus: Id): Pipes {
      if Holder(bus).Some? then this.(held := held[bus := None], closed := closed + multiset{Holder(bus).value})
      else this
    }
  }

  // `bus` is the live bus that the event is about, if any; for a firing, the bus whose
  // subscription callback runs.
  function NextPipes(p: Pipes, e: Event, bus: Option<Id>, step: Id): Pipes {
    match e
    case OpenPipe(connected) =>
      if connected then p.(served := p.served + {step}) else p.(closed := p.closed + multiset{step})
    case HangUp(h) => p.(served := p.served - {h}, closed := p.closed + multiset{h})
    case Create(_, _, _) => if bus.None? then p.(held := p.held[step := None]) else p
    case Delete(_) => if bus.Some? then p.Hung(bus.value) else p
    case Subscribe(_, h) =>
      if bus.Some? then
        var q := p.Hung(bus.value);
        q.(held := q.held[bus.value := Some(h)], served := q.served - {h})
      else p
    case Fire(_, written) => if bus.Some? && !written then p.Hung(bus.value) else p
    case _ => p
  }

  // ---------- the whole state ----------

  datatype State = State(
    step: nat,
    sched: Sched,
    buses: map<string, Wrap>,
    pipes: Pipes,
    tx: map<Id, nat>,                  // the counters of each bus
    rx: map<Id, nat>,
    files: map<Id, seq<U8>>,           // what each recorder has written
    forwarded: map<Id, seq<Frame>>,    // what each sink has sent
    messages: map<Id, seq<Frame>>      // the frames written to each pipe
  )

  const INIT :=
    State(0, Sched(0, multiset{}, [], [], [], []), map[], Pipes(map[], {}, multiset{}),
          map[], map[], map[], map[], map[])

  // The bus an event is about, in the sense of NextPipes.
  function BusOf(s: State, e: Event): Option<Id> {
    match e
    case Fire(_, _) => if s.sched.ready != [] && s.sched.ready[0].sub then Some(s.sched.ready[0].bus) else None
    case Drain(_, _) => None
    case Deliver => None
    case OpenPipe(_) => None
    case HangUp(_) => None
    case _ => if e.name in s.buses then Some(s.buses[e.name].hub.id) else None
  }

  function PostedBy(s: State, e: Event): Option<Delivery> {
    if e.Send? && e.name in s.buses then Some(Posted(s.step, s.buses[e.name].hub, e.src, e.frame, e.first, e.second))
    else None
  }

  function Appended<T>(logs: map<Id, seq<T>>, id: Option<Id>, more: seq<T>): (r: map<Id, seq<T>>)
    ensures r.Keys == logs.Keys
  {
    if id.Some? && id.value in logs then logs[id.value := logs[id.value] + more] else logs
  }

  function Counted(counts: map<Id, nat>, id: Id): (r: map<Id, nat>)
    ensures r.Keys == counts.Keys
  {
    if id in counts then counts[id := counts[id] + 1] else counts
  }

  function NextTx(s: State, e: Event): map<Id, nat> {
    if e.Create? && e.name !in s.buses then s.tx[s.step := 0]
    else if e.Send? && e.name in s.buses then Counted(s.tx, s.buses[e.name].hub.id)
    else s.tx
  }

  function NextRx(s: State, e: Event): map<Id, nat> {
    if e.Create? && e.name !in s.buses then s.rx[s.step := 0]
    else if e.Deliver? && s.sched.left != [] && s.sched.fired != [] then
      Counted(s.rx, s.sched.fired[|s.sched.fired| - 1].d.bus)
    else s.rx
  }

  function NextFiles(s: State, e: Event): map<Id, seq<U8>> {
    match e
    case RecordOn(n, _, created) => if n in s.buses && created then s.files[s.step := HEADER] else s.files
    case Fire(record, _) =>
      if s.sched.ready == [] then s.files else Appended(s.files, s.sched.ready[0].rec, record)
    case _ => s.files
  }

  // A sink sends nothing for an empty payload.
  function NextForwarded(s: State, e: Event): map<Id, seq<Frame>> {
    match e
    case ForwardOn(n, started) => if n in s.buses && started then s.forwarded[s.step := []] else s.forwarded
    case Send(n, _, f, _, _) =>
      if n in s.buses && f.payload != [] then
        Appended(s.forwarded, s.buses[n].hub.fwdCb, [PostedBy(s, e).value.frame])
      else s.forwarded
    case _ => s.forwarded
  }

  function NextMessages(s: State, e: Event): map<Id, seq<Frame>> {
    match e
    case OpenPipe(_) => s.messages[s.step := []]
    case Fire(_, written) =>
      if BusOf(s, e).Some? && written then
        Appended(s.messages, s.pipes.Holder(BusOf(s, e).value), [s.sched.ready[0].frame])
      else s.messages
    case _ => s.messages
  }

  function Apply(s: State, e: Event): State {
    State(s.step + 1,
          NextSched(s.sched, e, PostedBy(s, e), s.step),
          NextBuses(s.buses, e, s.step),
          NextPipes(s.pipes, e, BusOf(s, e), s.step),
          NextTx(s, e), NextRx(s, e), NextFiles(s, e), NextForwarded(s, e), NextMessages(s, e))
  }

  // What Recorder::Write appends for a frame, with some contents of the padding.
  ghost predicate IsRecord(record: seq<U8>, f: Frame) {
    exists pad: Padding :: record == EncodeRecord(f, pad)
  }

  // Which events can happen next. The clock, a signed 64-bit count, never runs backwards: a send
  // reads it no earlier than what was read before. A drain may have read its time a while ago, so
  // that other threads have read later ones since. It starts only when the last drain is over, and
  // the deliveries it took are fired one by one, each to all its targets; anything else may happen in
  // between, whether an endpoint does it on receipt or another thread. Only the thread that serves a
  // pipe can hang it up or subscribe it.
  ghost predicate Enabled(s: State, e: Event) {
    match e
    case Send(_, _, _, first, second) => s.sched.clock <= first <= second < TWO63
    case Drain(now, batch) => now < TWO63 && Idle(s.sched) && IsDrain(s.sched.queue, now, batch)
    case Fire(record, _) =>
      s.sched.ready != [] && s.sched.left == [] && IsRecord(record, s.sched.ready[0].frame)
    case Deliver => s.sched.left != [] && s.sched.fired != []
    case HangUp(h) => h in s.pipes.served
    case Subscribe(_, h) => h in s.pipes.served
    case _ => true
  }

  predicate Idle(q: Sched) {
    q.ready == [] && q.left == []
  }

  // ---------- runs ----------

  function Before(tr: seq<Event>): seq<Event>
    requires tr != []
  {
    tr[..|tr| - 1]
  }

  function Last(tr: seq<Event>): Event
    requires tr != []
  {
    tr[|tr| - 1]
  }

  // The state a run of events leads to.
  function Run(tr: seq<Event>): (s: State)
    ensures s.step == |tr|
  {
    if tr == [] then INIT else Apply(Run(Before(tr)), Last(tr))
  }

  // A run that can happen.
  ghost predicate Valid(tr: seq<Event>) {
    tr != [] ==> Valid(Before(tr)) && Enabled(Run(Before(tr)), Last(tr))
  }

  lemma {:induction false} ValidPrefix(tr: seq<Event>, n: nat)
    requires Valid(tr) && n <= |tr|
    ensures Valid(tr[..n])
  {
    if n == |tr| {
      assert tr[..n] == tr;
    } else {
      assert Before(tr)[..n] == tr[..n];
      ValidPrefix(Before(tr), n);
    }
  }

  lemma SendEnabled(s: State, e: Event)
    requires Enabled(s, e) && e.Send?
    ensures s.sched.clock <= e.first <= e.second < TWO63
  {}

  // The readings of a send come in order.
  lemma {:induction false} ReadsInOrder(tr: seq<Event>, j: nat)
    requires Valid(tr) && j < |tr| && tr[j].Send?
    ensures tr[j].first <= tr[j].second < TWO63
  {
    if j == |tr| - 1 {
      SendEnabled(Run(Before(tr)), Last(tr));
    } else {
      ReadsInOrder(Before(tr), j);
    }
  }
}
