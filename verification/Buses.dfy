// The bus objects: EthHub and CanBus, which have the same fields and differ in Send
// (vbus/src/bus/eth_bus.cpp, vbus/src/bus/can_bus.cpp), and the sink that owns a bus's forward
// callback (vbus/src/net/udp_sink.cpp).
module Buses {
  import opened Arith
  import opened Bytes
  import opened Capture
  import opened Clocks
  import opened Delay
  import opened Engine
  import opened Scheduling

  class Bus {
    const id: Id
    const kind: Kind
    const rate: U64
    var endpoints: seq<Endpoint>
    var recCb: Option<Id>
    var subCb: bool
    var fwdCb: Option<Id>

    function View(): Hub
      reads this
    {
      Hub(id, kind, rate, endpoints, recCb, subCb, fwdCb)
    }

    constructor (id: Id, kind: Kind, rate: U64)
      ensures View() == Hub(id, kind, rate, [], None, false, None)
      ensures this.id == id
    {
      this.id, this.kind, this.rate := id, kind, rate;
      endpoints, recCb, subCb, fwdCb := [], None, false, None;
    }

    method Connect(ep: Endpoint)
      modifies `endpoints
      ensures View() == old(View()).(endpoints := old(endpoints) + [ep])
    {
      endpoints := endpoints + [ep];
    }

    // erase(remove(...)): every occurrence goes.
    method Disconnect(ep: Endpoint)
      modifies `endpoints
      ensures View() == old(View()).(endpoints := Others(old(endpoints), Some(ep)))
    {
      endpoints := OtherThan(Some(ep));
    }

    method SetRecordCb(cb: Option<Id>)
      modifies `recCb
      ensures View() == old(View()).(recCb := cb)
    {
      recCb := cb;
    }

    method SetSubCb(cb: bool)
      modifies `subCb
      ensures View() == old(View()).(subCb := cb)
    {
      subCb := cb;
    }

    method SetFwdCb(cb: Option<Id>)
      modifies `fwdCb
      ensures View() == old(View()).(fwdCb := cb)
    {
      fwdCb := cb;
    }

    // The endpoints other than one, collected in order.
    method OtherThan(ep: Option<Endpoint>) returns (targets: seq<Endpoint>)
      ensures targets == Others(endpoints, ep)
    {
      targets := [];
      for i := 0 to |endpoints|
        invariant targets == Others(endpoints[..i], ep)
      {
        assert endpoints[..i + 1][..i] == endpoints[..i];
        if Some(endpoints[i]) != ep {
          targets := targets + [endpoints[i]];
        }
      }
      assert endpoints[..|endpoints|] == endpoints;
    }

    // Post one delivery, with the frame stamped and the endpoints and callbacks as they are now.
    // `fwd` is the forward callback, which runs at once.
    method Send(src: Option<Endpoint>, f: Frame, clk: Clock, sched: Scheduler, step: Id)
      returns (d: Delivery, fwd: Option<Id>, ghost first: nat, ghost second: nat)
      modifies clk, sched
      ensures old(clk.t) <= first <= second == clk.t
      ensures d == Posted(step, View(), src, f, first, second)
      ensures d.frame.tag == f.tag && d.frame.payload == f.payload
      ensures kind.Eth? ==> d.frame.proto == 1 && d.frame.tsNs == first % TWO64
      ensures kind.Can? ==> (d.frame.proto == if f.proto == 3 then 3 else 2) && d.frame.tsNs == second % TWO64
      ensures fwd == fwdCb
      ensures sched.queue == old(sched.queue) + multiset{d}
    {
      if kind.Eth? {
        d, first, second := SendEth(src, f, clk, step);
      } else {
        d, first, second := SendCan(src, f, clk, step);
      }
      fwd := fwdCb;
      sched.Post(d);
    }

    method SendEth(src: Option<Endpoint>, f: Frame, clk: Clock, step: Id)
      returns (d: Delivery, ghost first: nat, ghost second: nat)
      requires kind.Eth?
      modifies clk
      ensures old(clk.t) <= first <= second == clk.t
      ensures d == Posted(step, View(), src, f, first, second)
      ensures d.frame == Frame(1, f.tag, first % TWO64, f.payload)
    {
      var frame := f.(proto := ETH2);
      var ts := clk.Now();
      frame := frame.(tsNs := ts % TWO64);
      var bits := (|frame.payload| + 18) * 8;
      var delay := if rate > 0 then AsSigned(bits * BILLION % TWO64 / rate) else 0;
      var base := clk.Now();
      var targets := OtherThan(src);
      first, second := ts, base;
      d := Delivery(step, id, AsSigned(base + delay), frame, targets, recCb, subCb);
    }

    method SendCan(src: Option<Endpoint>, f: Frame, clk: Clock, step: Id)
      returns (d: Delivery, ghost first: nat, ghost second: nat)
      requires kind.Can?
      modifies clk
      ensures old(clk.t) <= first <= second == clk.t
      ensures d == Posted(step, View(), src, f, first, second)
      ensures d.frame == Frame(if f.proto == 3 then 3 else 2, f.tag, second % TWO64, f.payload)
    {
      var frame := f;
      var isFD := frame.proto == CANFD;
      var dataBits := |frame.payload| * 8;
      var frameBits := (if isFD then 67 else 43) + dataBits;
      var delay := if rate > 0 then AsSigned(frameBits * BILLION % TWO64 / rate) else 0;
      var base := clk.Now();
      if frame.proto != CANFD {
        frame := frame.(proto := CAN20);
      }
      var ts := clk.Now();
      frame := frame.(tsNs := ts % TWO64);
      var targets := OtherThan(src);
      first, second := base, ts;
      d := Delivery(step, id, AsSigned(base + delay), frame, targets, recCb, subCb);
    }
  }

  class UdpSink {
    const id: Id
    const bus: Bus
    var active: bool

    constructor (id: Id, bus: Bus)
      ensures this.id == id && this.bus == bus && !active
    {
      this.id, this.bus, active := id, bus, false;
    }

    // `resolved` and `socket` are the outcomes of looking up the host and of opening a socket.
    method Start(resolved: bool, socket: bool) returns (ok: bool)
      modifies `active, bus`fwdCb
      ensures ok == (old(active) || (resolved && socket)) == active
      ensures bus.View() == if ok && !old(active) then old(bus.View()).(fwdCb := Some(id)) else old(bus.View())
    {
      if active {
        return true;
      }
      if !resolved {
        return false;
      }
      if !socket {
        return false;
      }
      bus.SetFwdCb(Some(id));
      active := true;
      return true;
    }

    method Stop()
      modifies `active, bus`fwdCb
      ensures !active
      ensures bus.View() == if old(active) then old(bus.View()).(fwdCb := None) else old(bus.View())
    {
      if !active {
        return;
      }
      bus.SetFwdCb(None);
      active := false;
    }
  }
}
