// The subscribers of the buses and the control pipes they hold (SubInfo, attachSub, detachSub and
// pipe_thread in vbus/src/daemon/vbusd.cpp).
module Subscribers {
  import opened Bytes
  import opened Engine

  // One for each bus, shared by the registry and by every delivery posted on the bus, which keep it
  // alive after the bus is deleted.
  class SubInfo {
    const id: Id
    var pipe: Option<Id>

    constructor (id: Id)
      ensures this.id == id && pipe == None
    {
      this.id, pipe := id, None;
    }
  }

  class PipeServer {
    // All that were ever made, by the identity of their bus.
    var subs: map<Id, SubInfo>
    var served: set<Id>
    var closed: multiset<Id>
    ghost var view: Pipes
    ghost var repr: set<object>

    // `view` is what the objects amount to.
    ghost predicate Linked()
      reads this, repr
    {
      && this !in repr
      && view == Pipes(view.held, served, closed)
      && view.held.Keys == subs.Keys
      && (forall u :: u in subs ==> subs[u] in repr && subs[u].id == u && view.held[u] == subs[u].pipe)
    }

    ghost predicate Knows(si: SubInfo)
      reads `subs
    {
      si.id in subs && subs[si.id] == si
    }

    constructor ()
      ensures Linked() && view == Pipes(map[], {}, multiset{}) && repr == {}
    {
      subs, served, closed := map[], {}, multiset{};
      view, repr := Pipes(map[], {}, multiset{}), {};
    }

    method CloseHandle(h: Id)
      modifies `closed
      ensures closed == old(closed) + multiset{h}
    {
      closed := closed + multiset{h};
    }

    // A new pipe instance. `connected` is whether a client connected to it.
    method Accept(h: Id, connected: bool)
      requires Linked()
      modifies this
      ensures Linked() && repr == old(repr) && subs == old(subs)
      ensures view == NextPipes(old(view), OpenPipe(connected), None, h)
    {
      if connected {
        served := served + {h};
      } else {
        CloseHandle(h);
      }
      view := view.(served := served, closed := closed);
    }

    // The read loop of a pipe thread ends.
    method Leave(h: Id)
      requires Linked()
      modifies this
      ensures Linked() && repr == old(repr) && subs == old(subs)
      ensures view == NextPipes(old(view), HangUp(h), None, 0)
    {
      served := served - {h};
      CloseHandle(h);
      view := view.(served := served, closed := closed);
    }

    // The SubInfo of a new bus.
    method Add(id: Id) returns (si: SubInfo)
      requires Linked() && id !in subs
      modifies this
      ensures Linked() && fresh(repr - old(repr)) && fresh(si) && si.id == id && subs == old(subs)[id := si]
      ensures view == old(view).(held := old(view).held[id := None])
    {
      si := new SubInfo(id);
      subs := subs[id := si];
      repr := repr + {si};
      view := view.(held := view.held[id := None]);
    }

    // A pipe held before is closed, and the new one passes from its thread to the SubInfo.
    method Attach(si: SubInfo, h: Id, ghost name: string)
      requires Linked() && Knows(si)
      modifies this, si
      ensures Linked() && repr == old(repr) && subs == old(subs)
      ensures view == NextPipes(old(view), Engine.Subscribe(name, h), Some(si.id), 0)
    {
      if si.pipe.Some? {
        CloseHandle(si.pipe.value);
      }
      si.pipe := Some(h);
      served := served - {h};
      view := Pipes(view.held[si.id := Some(h)], served, closed);
    }

    method Detach(si: SubInfo)
      requires Linked() && Knows(si)
      modifies this, si
      ensures Linked() && repr == old(repr) && subs == old(subs) && si.pipe == None
      ensures view == old(view).Hung(si.id)
    {
      if si.pipe.Some? {
        CloseHandle(si.pipe.value);
        si.pipe := None;
      }
      view := Pipes(view.held[si.id := None], served, closed);
    }

    // The subscription callback of a delivery. `canWrite` is whether the message can be written;
    // the first failure closes the pipe. `to` is the pipe the message went to.
    method Write(si: SubInfo, canWrite: bool, ghost record: seq<U8>) returns (to: Option<Id>)
      requires Linked() && Knows(si)
      modifies this, si
      ensures Linked() && repr == old(repr) && subs == old(subs)
      ensures view == NextPipes(old(view), Engine.Fire(record, canWrite), Some(si.id), 0)
      ensures to == if canWrite then old(view).Holder(si.id) else None
    {
      if si.pipe.None? {
        return None;
      }
      if !canWrite {
        CloseHandle(si.pipe.value);
        si.pipe := None;
        view := Pipes(view.held[si.id := None], served, closed);
        return None;
      }
      return si.pipe;
    }
  }
}
