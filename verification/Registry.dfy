// The registry of buses, with the recorder, the sink and the subscriber of each
// (vbus/src/daemon/vbusd.cpp).
module Registries {
  import opened Bytes
  import opened Buses
  import opened Delay
  import opened Engine

  datatype BusWrap = BusWrap(bus: Bus, rec: Option<Id>, sink: UdpSink?) {
    ghost function View(): Wrap
      reads bus
    {
      Wrap(bus.View(), rec, if sink == null then None else Some(sink.id))
    }

    // The recorder and the sink are the ones the bus calls; the sink is a started one of this bus.
    ghost predicate Coherent()
      reads bus, sink
    {
      && bus.recCb == rec
      && (sink == null ==> bus.fwdCb == None)
      && (sink != null ==> sink.bus == bus && sink.active && bus.fwdCb == Some(sink.id))
    }
  }

  method DetachRecorder(w: BusWrap) returns (rec: Option<Id>)
    requires w.Coherent()
    modifies w.bus`recCb
    ensures w.(rec := rec).Coherent()
    ensures w.(rec := rec).View() == old(w.View()).Recording(None)
  {
    w.bus.SetRecordCb(None);
    rec := None;
  }

  // `created` is whether the file could be opened for writing.
  method AttachRecorder(w: BusWrap, id: Id, created: bool) returns (rec: Option<Id>)
    requires w.Coherent()
    modifies w.bus`recCb
    ensures w.(rec := rec).Coherent()
    ensures w.(rec := rec).View() == old(w.View()).Recording(if created then Some(id) else None)
  {
    rec := DetachRecorder(w);
    if !created {
      return;
    }
    rec := Some(id);
    w.bus.SetRecordCb(rec);
  }

  // Destroying a sink stops it.
  method StopForward(w: BusWrap) returns (sink: UdpSink?)
    requires w.Coherent()
    modifies w.bus`fwdCb, w.sink
    ensures w.(sink := sink).Coherent() && sink == null && (w.sink != null ==> !w.sink.active)
    ensures w.(sink := sink).View() == old(w.View()).Forwarding(None)
  {
    if w.sink != null {
      w.sink.Stop();
    }
    sink := null;
  }

  method StartForward(w: BusWrap, id: Id, resolved: bool, socket: bool) returns (sink: UdpSink?)
    requires w.Coherent()
    modifies w.bus`fwdCb, w.sink
    ensures w.(sink := sink).Coherent() && (sink == null || fresh(sink))
    ensures w.(sink := sink).View() == old(w.View()).Forwarding(if resolved && socket then Some(id) else None)
  {
    sink := StopForward(w);
    var started := new UdpSink(id, w.bus);
    var ok := started.Start(resolved, socket);
    if ok {
      sink := started;
    }
  }

  // What comes before the bus is erased.
  method Retire(w: BusWrap)
    requires w.Coherent()
    modifies w.bus, w.sink
    ensures w.bus.recCb == None && !w.bus.subCb && w.bus.fwdCb == None
    ensures w.sink != null ==> !w.sink.active
  {
    w.bus.SetSubCb(false);
    var rec := DetachRecorder(w);
    var sink := StopForward(w.(rec := rec));
  }

  class Registry {
    var buses: map<string, BusWrap>
    ghost var hubs: map<string, Wrap>
    ghost var repr: set<object>

    ghost predicate Linked()
      reads this, repr
    {
      && this !in repr
      && hubs.Keys == buses.Keys
      && (forall b :: b in buses ==> Held(buses[b], hubs[b]))
      && (forall b, b' :: b in buses && b' in buses && b != b' ==> buses[b].bus != buses[b'].bus)
    }

    ghost predicate Held(w: BusWrap, v: Wrap)
      reads this, repr
    {
      && w.bus in repr && (w.sink != null ==> w.sink in repr)
      && w.Coherent() && w.View() == v
    }

    constructor ()
      ensures Linked() && hubs == map[] && repr == {}
    {
      buses, hubs, repr := map[], map[], {};
    }

    twostate lemma Removed(name: string)
      requires old(Linked()) && name in old(buses)
      requires buses == old(buses) - {name} && hubs == old(hubs) - {name} && repr == old(repr)
      requires forall o :: o in old(repr) && o != old(buses[name]).bus && o != old(buses[name]).sink ==> unchanged(o)
      ensures Linked()
    {
    }

    twostate lemma Changed(name: string, new w: BusWrap)
      requires old(Linked()) && name in old(buses)
      requires buses == old(buses)[name := w] && w.bus == old(buses[name]).bus && w.Coherent()
      requires hubs == old(hubs)[name := w.View()]
      requires repr == old(repr) + (if w.sink == null then {} else {w.sink})
      requires forall o :: o in old(repr) && o != w.bus && o != old(buses[name]).sink ==> unchanged(o)
      ensures Linked()
    {
    }

    method Create(name: string, id: Id, kind: Kind, rate: U64) returns (ok: bool)
      requires Linked()
      modifies this
      ensures Linked() && fresh(repr - old(repr))
      ensures ok == (name !in old(buses))
      ensures hubs == NextBuses(old(hubs), Engine.Create(name, kind, rate), id)
    {
      if name in buses {
        return false;
      }
      var bus := new Bus(id, kind, rate);
      var w := BusWrap(bus, None, null);
      buses, hubs, repr := buses[name := w], hubs[name := w.View()], repr + {bus};
      return true;
    }

    method Delete(name: string) returns (ok: bool)
      requires Linked()
      modifies this, repr
      ensures Linked() && repr == old(repr)
      ensures ok == (name in old(buses))
      ensures hubs == NextBuses(old(hubs), Engine.Delete(name), 0)
      ensures ok ==>
                var w := old(buses[name]);
                && w.bus.recCb == None && !w.bus.subCb && w.bus.fwdCb == None
                && (w.sink != null ==> !w.sink.active)
    {
      if name !in buses {
        return false;
      }
      Retire(buses[name]);
      buses, hubs := buses - {name}, hubs - {name};
      Removed(name);
      return true;
    }

    method Connect(name: string, ep: Endpoint)
      requires Linked()
      modifies this, repr
      ensures Linked() && repr == old(repr)
      ensures hubs == NextBuses(old(hubs), Engine.Connect(name, ep), 0)
    {
      if name in buses {
        var w := buses[name];
        w.bus.Connect(ep);
        hubs := hubs[name := w.View()];
        Changed(name, w);
      }
    }

    method Disconnect(name: string, ep: Endpoint)
      requires Linked()
      modifies this, repr
      ensures Linked() && repr == old(repr)
      ensures hubs == NextBuses(old(hubs), Engine.Disconnect(name, ep), 0)
    {
      if name in buses {
        var w := buses[name];
        w.bus.Disconnect(ep);
        hubs := hubs[name := w.View()];
        Changed(name, w);
      }
    }

    method RecordOn(name: string, id: Id, ghost path: string, created: bool) returns (ok: bool)
      requires Linked()
      modifies this, repr
      ensures Linked() && repr == old(repr)
      ensures ok == (name in old(buses) && created)
      ensures hubs == NextBuses(old(hubs), Engine.RecordOn(name, path, created), id)
    {
      if name !in buses {
        return false;
      }
      var rec := AttachRecorder(buses[name], id, created);
      var w := buses[name].(rec := rec);
      buses, hubs := buses[name := w], hubs[name := w.View()];
      Changed(name, w);
      ok := rec.Some?;
    }

    method RecordOff(name: string)
      requires Linked()
      modifies this, repr
      ensures Linked() && repr == old(repr)
      ensures hubs == NextBuses(old(hubs), Engine.RecordOff(name), 0)
    {
      if name in buses {
        var rec := DetachRecorder(buses[name]);
        var w := buses[name].(rec := rec);
        buses, hubs := buses[name := w], hubs[name := w.View()];
        Changed(name, w);
      }
    }

    method ForwardOn(name: string, id: Id, resolved: bool, socket: bool) returns (ok: bool)
      requires Linked()
      modifies this, repr
      ensures Linked() && fresh(repr - old(repr))
      ensures ok == (name in old(buses) && resolved && socket)
      ensures hubs == NextBuses(old(hubs), Engine.ForwardOn(name, resolved && socket), id)
    {
      if name !in buses {
        return false;
      }
      var sink := StartForward(buses[name], id, resolved, socket);
      var w := buses[name].(sink := sink);
      buses, hubs := buses[name := w], hubs[name := w.View()];
      repr := repr + (if sink != null then {sink} else {});
      Changed(name, w);
      ok := sink != null;
    }

    method ForwardOff(name: string)
      requires Linked()
      modifies this, repr
      ensures Linked() && repr == old(repr)
      ensures hubs == NextBuses(old(hubs), Engine.ForwardOff(name), 0)
    {
      if name in buses {
        var sink := StopForward(buses[name]);
        var w := buses[name].(sink := sink);
        buses, hubs := buses[name := w], hubs[name := w.View()];
        Changed(name, w);
      }
    }

    method Subscribe(name: string, ghost pipe: Id) returns (ok: bool)
      requires Linked()
      modifies this, repr
      ensures Linked() && repr == old(repr)
      ensures ok == (name in old(buses))
      ensures hubs == NextBuses(old(hubs), Engine.Subscribe(name, pipe), 0)
    {
      ok := name in buses;
      if ok {
        var w := buses[name];
        w.bus.SetSubCb(true);
        hubs := hubs[name := w.View()];
        Changed(name, w);
      }
    }

    // A command that changes one bus. `resolved` and `socket` are the outcomes a sink's start
    // depends on.
    method Handle(e: Event, id: Id, resolved: bool, socket: bool)
      requires Linked() && ChangesBus(e)
      requires e.ForwardOn? ==> e.started == (resolved && socket)
      modifies this, repr
      ensures Linked() && fresh(repr - old(repr))
      ensures hubs == NextBuses(old(hubs), e, id)
    {
      var done;
      match e {
        case Connect(name, ep) => Connect(name, ep);
        case Disconnect(name, ep) => Disconnect(name, ep);
        case RecordOn(name, path, created) => done := RecordOn(name, id, path, created);
        case RecordOff(name) => RecordOff(name);
        case ForwardOn(name, _) => done := ForwardOn(name, id, resolved, socket);
        case ForwardOff(name) => ForwardOff(name);
      }
    }
  }

  predicate ChangesBus(e: Event) {
    e.Connect? || e.Disconnect? || e.RecordOn? || e.RecordOff? || e.ForwardOn? || e.ForwardOff?
  }
}
