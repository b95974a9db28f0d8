// The recorders that deliveries hold on to: each stays open until the last of them has fired, even
// after it is detached from its bus (the shared pointers in vbus/src/daemon/vbusd.cpp).
module Recorders {
  import opened Bytes
  import opened Capture
  import opened Engine

  class RecorderPool {
    var recs: map<Id, Recorder>
    ghost var files: map<Id, seq<U8>>
    ghost var repr: set<object>

    // `files` is what the recorders have written.
    ghost predicate Linked()
      reads this, repr
    {
      && this !in repr
      && files.Keys == recs.Keys
      && (forall r :: r in recs ==> recs[r] in repr && recs[r].isOpen && recs[r].good && recs[r].out == files[r])
      && (forall r, r' :: r in recs && r' in recs && r != r' ==> recs[r] != recs[r'])
    }

    constructor ()
      ensures Linked() && files == map[] && repr == {}
    {
      recs, files, repr := map[], map[], {};
    }

    // Open a new recorder. `created` is whether its file could be opened for writing.
    method Open(id: Id, created: bool) returns (ok: bool)
      requires Linked() && id !in recs
      modifies this
      ensures Linked() && fresh(repr - old(repr)) && ok == created
      ensures files == if created then old(files)[id := HEADER] else old(files)
      ensures recs.Keys <= old(recs.Keys) + {id}
    {
      var rec := new Recorder();
      ok := rec.Open(created);
      if ok {
        recs, files, repr := recs[id := rec], files[id := HEADER], repr + {rec};
      }
    }

    // The record callback of a delivery.
    method Write(id: Id, f: Frame, pad: Padding)
      requires Linked()
      modifies this, repr
      ensures Linked() && repr == old(repr) && recs == old(recs)
      ensures files == Appended(old(files), Some(id), EncodeRecord(f, pad))
    {
      if id in recs {
        var ok := recs[id].Write(f, pad);
        files := Appended(files, Some(id), EncodeRecord(f, pad));
      }
    }
  }
}
