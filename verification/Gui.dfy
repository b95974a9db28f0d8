// The GUI model's tick: draining subscribed frames and mock traffic into the packet rings
// (vbus-gui/src/model.cpp).
module Gui {
  import opened Bytes
  import opened Filters

  const RING_SIZE := 4096
  const PREVIEW := 64

  datatype RawFrame = RawFrame(proto: U8, tag: U64, tsNs: U64, payload: seq<U8>)
  datatype Queued = Queued(bus: nat, frame: RawFrame)
  datatype Bus = Bus(id: nat, filters: seq<Rule>, ring: seq<Packet>, enabled: bool)

  // One mock packet, as the random generator makes it.
  datatype Sample = Sample(tagged: bool, size: U16, preview: seq<U8>)

  function PacketOf(f: RawFrame): Packet {
    var shown := if |f.payload| < PREVIEW then f.payload + seq(PREVIEW - |f.payload|, _ => 0) else f.payload[..PREVIEW];
    Packet(f.tsNs, 0, |f.payload| % TWO16, f.proto, shown)
  }

  function MockPacket(now: nat, s: Sample): Packet {
    Packet(now % TWO64, if s.tagged then 100 else 0, s.size, 1, s.preview)
  }

  // The most recent packets of a newest-first history.
  function Recent(history: seq<Packet>): seq<Packet> {
    if |history| <= RING_SIZE then history else history[..RING_SIZE]
  }

  // The packets that bus `b` accepts from a queue, newest first.
  ghost function Accepted(b: Bus, items: seq<Queued>): seq<Packet> {
    if items == [] then []
    else
      var last := items[|items| - 1];
      var earlier := Accepted(b, items[..|items| - 1]);
      if last.bus == b.id && b.enabled && Accepts(b.filters, PacketOf(last.frame)) then
        [PacketOf(last.frame)] + earlier
      else
        earlier
  }

  // The mock packets, at most one a tick, that bus `b` accepts.
  ghost function Mocked(b: Bus, connected: bool, subs: set<nat>, now: nat, s: Sample): seq<Packet> {
    if !connected && b.enabled && b.id !in subs && Accepts(b.filters, MockPacket(now, s)) then
      [MockPacket(now, s)]
    else
      []
  }

  // ---------- what the packets show ----------

  // A packet shows a frame: its time stamp and protocol, no VLAN, its length in 16 bits, and its first
  // 64 bytes with zeros after the end.
  ghost predicate Shows(p: Packet, f: RawFrame) {
    && p.timestampNs == f.tsNs && p.proto == f.proto && p.vlan == 0
    && p.size == |f.payload| % 0x1_0000
    && |p.preview| == 64
    && forall i :: 0 <= i < 64 ==> p.preview[i] == if i < |f.payload| then f.payload[i] else 0
  }

  // A mock packet shows a sample: stamped with the tick's time, in VLAN 100 or none, as Ethernet.
  ghost predicate ShowsSample(p: Packet, now: nat, s: Sample) {
    && p.timestampNs == now % 0x1_0000_0000_0000_0000 && p.proto == 1
    && p.vlan == (if s.tagged then 100 else 0) && p.size == s.size && p.preview == s.preview
  }

  ghost predicate ShowsAll(ps: seq<Packet>, fs: seq<RawFrame>) {
    |ps| == |fs| && forall i :: 0 <= i < |ps| ==> Shows(ps[i], fs[i])
  }

  lemma ShowsExactly(p: Packet, f: RawFrame)
    ensures Shows(p, f) <==> p == PacketOf(f)
  {
    var shown := PacketOf(f).preview;
    assert |shown| == 64 && forall i :: 0 <= i < 64 ==> shown[i] == if i < |f.payload| then f.payload[i] else 0;
    if Shows(p, f) {
      assert p.preview == shown;
    }
  }

  // The rules of a bus let a frame through.
  ghost predicate Passes(b: Bus, f: RawFrame) {
    exists p :: Shows(p, f) && Accepts(b.filters, p)
  }

  // The frames of a queue that are for bus `b` and pass its rules, newest first; none if it is not enabled.
  ghost function Selected(b: Bus, items: seq<Queued>): seq<RawFrame> {
    if items == [] then []
    else
      var last, earlier := items[|items| - 1], Selected(b, items[..|items| - 1]);
      if last.bus == b.id && b.enabled && Passes(b, last.frame) then [last.frame] + earlier else earlier
  }

  /** What a bus gains from a queue shows the selected frames, one for one. */
  lemma {:induction false} AcceptedShows(b: Bus, items: seq<Queued>)
    ensures ShowsAll(Accepted(b, items), Selected(b, items))
  {
    if items != [] {
      var f := items[|items| - 1].frame;
      AcceptedShows(b, items[..|items| - 1]);
      ShowsExactly(PacketOf(f), f);
      if Passes(b, f) {
        var p :| Shows(p, f) && Accepts(b.filters, p);
        ShowsExactly(p, f);
      }
    }
  }

  // The frames of a queue for one bus whose length modulo 2^16 is `n`, newest first.
  function OfLength(items: seq<Queued>, bus: nat, n: nat): seq<RawFrame> {
    if items == [] then []
    else
      var last, earlier := items[|items| - 1], OfLength(items[..|items| - 1], bus, n);
      if last.bus == bus && |last.frame.payload| % 0x1_0000 == n then [last.frame] + earlier else earlier
  }

  /** A bus whose only rule asks for a size gains exactly its frames of that length. */
  lemma {:induction false} SizeRuleSelects(b: Bus, d: string, items: seq<Queued>)
    requires b.enabled && b.filters == [Rule(Include, "* size:" + d)] && Numeral(d)
    ensures Selected(b, items) == OfLength(items, b.id, Value(d))
  {
    if items != [] {
      var f := items[|items| - 1].frame;
      SizeRuleSelects(b, d, items[..|items| - 1]);
      SizeRule(d, PacketOf(f));
      ShowsExactly(PacketOf(f), f);
      if Passes(b, f) {
        var p :| Shows(p, f) && Accepts(b.filters, p);
        ShowsExactly(p, f);
      }
    }
  }

  // What a tick's mock traffic may add to bus `b`.
  ghost predicate Mocks(b: Bus, connected: bool, subs: set<nat>, now: nat, s: Sample, mock: seq<Packet>) {
    if !connected && b.enabled && b.id !in subs && exists p :: ShowsSample(p, now, s) && Accepts(b.filters, p) then
      |mock| == 1 && ShowsSample(mock[0], now, s)
    else
      mock == []
  }

  lemma MockedShows(b: Bus, connected: bool, subs: set<nat>, now: nat, s: Sample)
    ensures Mocks(b, connected, subs, now, s, Mocked(b, connected, subs, now, s))
  {
    assert ShowsSample(MockPacket(now, s), now, s);
    forall p | ShowsSample(p, now, s) ensures p == MockPacket(now, s) {}
  }

  /** The ring holds the newest 4096 packets of its history. */
  lemma RingHolds(history: seq<Packet>)
    ensures |Recent(history)| == if |history| <= 4096 then |history| else 4096
    ensures forall i :: 0 <= i < |Recent(history)| ==> Recent(history)[i] == history[i]
  {}

  /** Acceptance is per bus and per packet: what a bus gains from a queue is a function of its
      own frames alone, whatever is interleaved with them. */
  lemma {:induction false} AcceptedSplits(b: Bus, items: seq<Queued>, more: seq<Queued>)
    ensures Accepted(b, items + more) == Accepted(b, more) + Accepted(b, items)
    decreases |more|
  {
    if more == [] {
      assert items + more == items;
    } else {
      var all := items + more;
      assert all[..|all| - 1] == items + more[..|more| - 1];
      AcceptedSplits(b, items, more[..|more| - 1]);
    }
  }

  // Acceptance looks at the rules, the flag and the identity of a bus, not at its ring.
  lemma {:induction false} SameRules(b: Bus, b': Bus, items: seq<Queued>)
    requires b'.id == b.id && b'.filters == b.filters && b'.enabled == b.enabled
    ensures Accepted(b', items) == Accepted(b, items)
    decreases |items|
  {
    if items != [] {
      SameRules(b, b', items[..|items| - 1]);
    }
  }

  // Pushing at the front and dropping the oldest keeps a ring the recent part of its history.
  lemma PushKeepsRecent(history: seq<Packet>, p: Packet)
    ensures var pushed := [p] + Recent(history);
            Recent([p] + history) == if |pushed| > RING_SIZE then pushed[..|pushed| - 1] else pushed
  {}

  // From one state of a bus to a later one: it has accepted `gain`, newest first, its ring is
  // the recent part of its history, and the rest of it is unchanged.
  ghost predicate Gains(was: Bus, h: seq<Packet>, now: Bus, h': seq<Packet>, gain: seq<Packet>) {
    now == was.(ring := Recent(h')) && h' == gain + h
  }

  lemma GainsAdd(a: Bus, b: Bus, c: Bus, h: seq<Packet>, h': seq<Packet>, h'': seq<Packet>,
                 g: seq<Packet>, g': seq<Packet>)
    requires Gains(a, h, b, h', g) && Gains(b, h', c, h'', g')
    ensures Gains(a, h, c, h'', g' + g)
  {
    assert g' + (g + h) == (g' + g) + h;
  }

  class Model {
    var buses: seq<Bus>
    var frameQueue: seq<Queued>
    var connected: bool
    var subs: set<nat>
    var tickNs: nat
    var lastPing: nat
    // Every packet each bus has accepted so far, newest first.
    ghost var history: map<nat, seq<Packet>>

    ghost predicate Valid()
      reads this
    {
      && (forall i, j :: 0 <= i < j < |buses| ==> buses[i].id != buses[j].id)
      && (forall i :: 0 <= i < |buses| ==> buses[i].id in history && buses[i].ring == Recent(history[buses[i].id]))
    }

    // `connected` is whether the daemon answers.
    constructor (connected: bool)
      ensures Valid() && buses == [] && frameQueue == [] && subs == {} && this.connected == connected
    {
      buses, frameQueue, subs, tickNs, lastPing := [], [], {}, 0, 0;
      this.connected := connected;
      history := map[];
    }

    // newBus: the id comes from a counter and is new. With the daemon, the bus is subscribed to;
    // `ok` is whether that works.
    method NewBus(id: nat, ok: bool)
      requires Valid()
      requires forall b :: b in buses ==> b.id != id
      modifies `buses, `history, `subs
      ensures Valid()
      ensures buses == old(buses) + [Bus(id, [], [], true)]
      ensures history == old(history)[id := []]
      ensures subs == if connected && ok then old(subs) + {id} else old(subs)
    {
      buses := buses + [Bus(id, [], [], true)];
      history := history[id := []];
      if connected && ok {
        subs := subs + {id};
      }
    }

    method GetBus(id: nat) returns (index: nat)
      ensures index <= |buses|
      ensures index < |buses| ==> buses[index].id == id
      ensures forall i :: 0 <= i < index ==> buses[i].id != id
    {
      index := 0;
      while index < |buses| && buses[index].id != id
        invariant index <= |buses|
        invariant forall i :: 0 <= i < index ==> buses[i].id != id
      {
        index := index + 1;
      }
    }

    method DeleteBus(id: nat)
      requires Valid()
      modifies `buses, `subs
      ensures Valid()
      ensures (forall b :: b in old(buses) ==> b.id != id) ==> buses == old(buses) && subs == old(subs)
      ensures forall k :: 0 <= k < |old(buses)| && old(buses)[k].id == id ==>
                buses == old(buses)[..k] + old(buses)[k + 1..] && subs == old(subs) - {id}
    {
      var k := GetBus(id);
      if k == |buses| {
        return;
      }
      subs := subs - {id};
      buses := buses[..k] + buses[k + 1..];
    }

    // The panels edit a bus's rules and its enabled flag between ticks.
    method Configure(index: nat, filters: seq<Rule>, enabled: bool)
      requires Valid() && index < |buses|
      modifies `buses
      ensures Valid()
      ensures buses == old(buses)[index := old(buses)[index].(filters := filters, enabled := enabled)]
    {
      buses := buses[index := buses[index].(filters := filters, enabled := enabled)];
    }

    // The subscription thread's callback.
    method Receive(bus: nat, frame: RawFrame)
      modifies `frameQueue
      ensures frameQueue == old(frameQueue) + [Queued(bus, frame)]
    {
      frameQueue := frameQueue + [Queued(bus, frame)];
    }

    // Bus `i` of an earlier state, whose histories were `h`, has since accepted `gain`.
    ghost predicate Gained(was: seq<Bus>, h: map<nat, seq<Packet>>, i: nat, gain: seq<Packet>)
      reads this
    {
      && i < |was| == |buses|
      && was[i].id in h && was[i].id in history
      && Gains(was[i], h[was[i].id], buses[i], history[was[i].id], gain)
    }

    // What bus `i` has accepted since shows the frames that its rules selected from a queue.
    ghost predicate GainedFrames(was: seq<Bus>, h: map<nat, seq<Packet>>, i: nat, queue: seq<Queued>)
      reads this
    {
      i < |was| && exists gain :: Gained(was, h, i, gain) && ShowsAll(gain, Selected(was[i], queue))
    }

    // The same after a whole tick, with what mock traffic may have added in front.
    ghost predicate Ticked(was: seq<Bus>, h: map<nat, seq<Packet>>, i: nat, s: Sample, queue: seq<Queued>)
      reads this
    {
      i < |was| && exists mock, gain ::
        Gained(was, h, i, mock + gain) && Mocks(was[i], connected, subs, tickNs, s, mock)
        && ShowsAll(gain, Selected(was[i], queue))
    }

    // push_front, and pop_back when the ring has grown past its size.
    method Push(k: nat, p: Packet)
      requires Valid() && k < |buses|
      modifies `buses, `history
      ensures Valid() && |buses| == |old(buses)|
      ensures Gained(old(buses), old(history), k, [p])
      ensures forall i :: 0 <= i < |buses| && i != k ==> Gained(old(buses), old(history), i, [])
    {
      ghost var id := buses[k].id;
      PushKeepsRecent(history[id], p);
      var ring := [p] + buses[k].ring;
      if |ring| > RING_SIZE {
        ring := ring[..|ring| - 1];
      }
      history := history[id := [p] + history[id]];
      buses := buses[k := buses[k].(ring := ring)];
      assert forall q: seq<Packet> :: [] + q == q;
    }

    lemma Unchanged(i: nat)
      requires Valid() && i < |buses|
      ensures Gained(buses, history, i, [])
    {
      var h := history[buses[i].id];
      assert [] + h == h;
    }

    // Filter a packet meant for bus `k` and push it if it passes.
    method Offer(k: nat, p: Packet)
      requires Valid() && k < |buses|
      modifies `buses, `history
      ensures Valid() && |buses| == |old(buses)|
      ensures Gained(old(buses), old(history), k, if Accepts(old(buses)[k].filters, p) then [p] else [])
      ensures forall i :: 0 <= i < |buses| && i != k ==> Gained(old(buses), old(history), i, [])
    {
      forall i | 0 <= i < |buses| ensures Gained(buses, history, i, []) {
        Unchanged(i);
      }
      var passes := PassesFilters(buses[k].filters, p);
      if passes {
        Push(k, p);
      }
    }

    // One frame taken from the queue.
    method Deliver(item: Queued)
      requires Valid()
      modifies `buses, `history
      ensures Valid() && |buses| == |old(buses)|
      ensures forall i :: 0 <= i < |buses| ==> Gained(old(buses), old(history), i, Accepted(old(buses)[i], [item]))
    {
      assert [item][..0] == [];
      forall i | 0 <= i < |buses| ensures Gained(buses, history, i, []) {
        Unchanged(i);
      }
      var k := GetBus(item.bus);
      if k == |buses| || !buses[k].enabled {
        return;
      }
      var p := PacketOf(item.frame);
      assert [p] + [] == [p];
      Offer(k, p);
    }

    method DrainQueue()
      requires Valid()
      modifies `buses, `history, `frameQueue
      ensures Valid() && frameQueue == [] && |buses| == |old(buses)|
      ensures forall i :: 0 <= i < |buses| ==>
                Gained(old(buses), old(history), i, Accepted(old(buses)[i], old(frameQueue)))
      ensures forall i :: 0 <= i < |buses| ==> GainedFrames(old(buses), old(history), i, old(frameQueue))
    {
      ghost var was, h := buses, history;
      var local := frameQueue;
      frameQueue := [];
      forall i | 0 <= i < |buses| ensures Gained(was, h, i, Accepted(was[i], local[..0])) {
        Unchanged(i);
      }
      for n := 0 to |local|
        invariant Valid() && frameQueue == [] && |buses| == |was|
        invariant forall i :: 0 <= i < |buses| ==> Gained(was, h, i, Accepted(was[i], local[..n]))
      {
        ghost var mid, hm := buses, history;
        Deliver(local[n]);
        forall i | 0 <= i < |buses| ensures Gained(was, h, i, Accepted(was[i], local[..n + 1])) {
          var id := was[i].id;
          AcceptedSplits(was[i], local[..n], [local[n]]);
          assert local[..n + 1] == local[..n] + [local[n]];
          SameRules(was[i], mid[i], [local[n]]);
          GainsAdd(was[i], mid[i], buses[i], h[id], hm[id], history[id],
                   Accepted(was[i], local[..n]), Accepted(mid[i], [local[n]]));
        }
      }
      assert local[..|local|] == local;
      forall i | 0 <= i < |buses| ensures GainedFrames(was, h, i, local) {
        AcceptedShows(was[i], local);
      }
    }

    // One bus's turn to make mock traffic.
    method MockOne(k: nat, sample: Sample)
      requires Valid() && k < |buses|
      requires !connected
      modifies `buses, `history
      ensures Valid() && |buses| == |old(buses)|
      ensures Gained(old(buses), old(history), k, Mocked(old(buses)[k], connected, subs, tickNs, sample))
      ensures forall i :: 0 <= i < |buses| && i != k ==> Gained(old(buses), old(history), i, [])
    {
      forall i | 0 <= i < |buses| ensures Gained(buses, history, i, []) {
        Unchanged(i);
      }
      if !buses[k].enabled || buses[k].id in subs {
        return;
      }
      Offer(k, MockPacket(tickNs, sample));
    }

    method MockTraffic(samples: seq<Sample>)
      requires Valid() && |samples| >= |buses|
      modifies `buses, `history
      ensures Valid() && |buses| == |old(buses)|
      ensures forall i :: 0 <= i < |buses| ==>
                Gained(old(buses), old(history), i, Mocked(old(buses)[i], connected, subs, tickNs, samples[i]))
    {
      ghost var was, h := buses, history;
      forall i | 0 <= i < |buses| ensures Gained(was, h, i, []) {
        Unchanged(i);
      }
      if connected {
        return;
      }
      for k := 0 to |buses|
        invariant Valid() && |buses| == |was|
        invariant forall i :: 0 <= i < k ==> Gained(was, h, i, Mocked(was[i], connected, subs, tickNs, samples[i]))
        invariant forall i :: k <= i < |buses| ==> Gained(was, h, i, [])
      {
        ghost var mid, hm := buses, history;
        forall i | 0 <= i < |buses|
          ensures was[i].id in h && was[i].id in hm
          ensures Gains(was[i], h[was[i].id], mid[i], hm[was[i].id],
                        if i < k then Mocked(was[i], connected, subs, tickNs, samples[i]) else [])
        {
          assert i < k ==> Gained(was, h, i, Mocked(was[i], connected, subs, tickNs, samples[i]));
          assert i >= k ==> Gained(was, h, i, []);
        }
        MockOne(k, samples[k]);
        forall i | 0 <= i < |buses|
          ensures i <= k ==> Gained(was, h, i, Mocked(was[i], connected, subs, tickNs, samples[i]))
          ensures i > k ==> Gained(was, h, i, [])
        {
          var id := was[i].id;
          var earlier := if i < k then Mocked(was[i], connected, subs, tickNs, samples[i]) else [];
          var gain := if i == k then Mocked(mid[i], connected, subs, tickNs, samples[i]) else [];
          assert Gained(mid, hm, i, gain);
          GainsAdd(was[i], mid[i], buses[i], h[id], hm[id], history[id], earlier, gain);
          assert gain + earlier == if i == k then gain else earlier;
        }
      }
    }

    // Every two seconds the connection is looked at again. `reachable` is whether the daemon answers.
    method Refresh(reachable: bool)
      modifies `connected, `lastPing
      ensures connected == if tickNs > old(lastPing) + 2_000_000_000 then reachable else old(connected)
      ensures lastPing == if tickNs > old(lastPing) + 2_000_000_000 then tickNs else old(lastPing)
    {
      if tickNs > lastPing + 2_000_000_000 {
        lastPing := tickNs;
        connected := reachable;
      }
    }

    /** One tick. Each bus gains exactly the packets it accepts, and its ring stays the most
        recent of all packets it has accepted in its life. Mock traffic depends on the connection
        as this tick finds it. */
    method Tick(dtNs: nat, reachable: bool, samples: seq<Sample>)
      requires Valid() && |samples| >= |buses|
      modifies `buses, `history, `frameQueue, `tickNs, `connected, `lastPing
      ensures Valid() && tickNs == old(tickNs) + dtNs && frameQueue == []
      ensures connected == if tickNs > old(lastPing) + 2_000_000_000 then reachable else old(connected)
      ensures |buses| == |old(buses)|
      ensures forall i :: 0 <= i < |buses| ==>
                var b := old(buses)[i];
                Gained(old(buses), old(history), i,
                       Mocked(b, connected, subs, tickNs, samples[i]) + Accepted(b, old(frameQueue)))
      ensures forall i :: 0 <= i < |buses| ==> Ticked(old(buses), old(history), i, samples[i], old(frameQueue))
    {
      ghost var was, h := buses, history;
      tickNs := tickNs + dtNs;
      Refresh(reachable);
      DrainQueue();
      ghost var mid, hm := buses, history;
      MockTraffic(samples);
      forall i | 0 <= i < |buses|
        ensures Gained(was, h, i,
                       Mocked(was[i], connected, subs, tickNs, samples[i]) + Accepted(was[i], old(frameQueue)))
        ensures Ticked(was, h, i, samples[i], old(frameQueue))
      {
        AcceptedShows(was[i], old(frameQueue));
        MockedShows(was[i], connected, subs, tickNs, samples[i]);
        var id := was[i].id;
        GainsAdd(was[i], mid[i], buses[i], h[id], hm[id], history[id],
                 Accepted(was[i], old(frameQueue)), Mocked(mid[i], connected, subs, tickNs, samples[i]));
      }
    }
  }
}
