// Whole runs of the recorders: what a capture file holds is exactly what was sent while its
// recorder was attached.
module Recording {
  import opened Bytes
  import opened Capture
  import opened Engine
  import opened FiringOrder
  import opened Sends
  import opened Taps

  // Step j sent a frame on a bus between the attach of recorder r to it and its detach.
  ghost predicate InWindow(tr: seq<Event>, r: nat, j: nat) {
    j < |tr| && tr[j].Send? && On(tr[..j], Record, tr[j].name, r)
  }

  /** What a delivery carries to its recorder is decided when it is sent: the recorder attached
      to its bus at that moment. */
  lemma SentToRecorder(tr: seq<Event>, j: nat, r: nat)
    requires Valid(tr) && AcceptedAt(tr, j)
    ensures PostedAt(tr, j).rec == Some(r) <==> InWindow(tr, r, j)
  {
    CallbackIsTap(tr[..j], Record, tr[j].name, r);
  }

  // ---------- what the files hold ----------

  // The frames that recorder r gets from a line of deliveries.
  function Taken(ds: seq<Delivery>, r: Id): seq<Frame> {
    if ds == [] then []
    else
      var earlier, last := Taken(ds[..|ds| - 1], r), ds[|ds| - 1];
      if last.rec == Some(r) then earlier + [last.frame] else earlier
  }

  ghost predicate Holds(file: seq<U8>, frames: seq<Frame>) {
    exists pads: seq<Padding> :: |pads| == |frames| && file == HEADER + EncodeAll(frames, pads)
  }

  lemma HoldsRecord(file: seq<U8>, frames: seq<Frame>, record: seq<U8>, f: Frame)
    requires Holds(file, frames) && IsRecord(record, f)
    ensures Holds(file + record, frames + [f])
  {
    var pad: Padding :| record == EncodeRecord(f, pad);
    HoldsMore(file, frames, record, f, pad);
  }

  lemma HoldsMore(file: seq<U8>, frames: seq<Frame>, record: seq<U8>, f: Frame, pad: Padding)
    requires Holds(file, frames) && record == EncodeRecord(f, pad)
    ensures Holds(file + record, frames + [f])
  {
    var pads: seq<Padding> :| |pads| == |frames| && file == HEADER + EncodeAll(frames, pads);
    FileAppend(frames, pads, f, pad);
    assert |pads + [pad]| == |frames + [f]|;
  }

  lemma HoldsNothing()
    ensures Holds(HEADER, [])
  {
    assert EncodeAll([], []) == [] && HEADER == HEADER + EncodeAll([], []);
  }

  lemma HoldsOpens(file: seq<U8>, frames: seq<Frame>)
    requires Holds(file, frames)
    ensures OpensAsCapture(file) && Contents(file) == AllKept(frames)
  {
    var pads: seq<Padding> :| |pads| == |frames| && file == HEADER + EncodeAll(frames, pads);
    WholeFile(frames, pads);
  }

  // Every file holds the frames its recorder was given by the firings so far.
  ghost predicate FilesHold(ds: seq<Delivery>, files: map<Id, seq<U8>>) {
    forall r :: r in files ==> Holds(files[r], Taken(ds, r))
  }

  // No delivery is meant for a file that is not there.
  ghost predicate NoStray(all: multiset<Delivery>, files: map<Id, seq<U8>>) {
    forall d :: d in all && d.rec.Some? ==> d.rec.value in files
  }

  lemma {:induction false} TakenNone(ds: seq<Delivery>, r: Id)
    requires forall d :: d in ds ==> d.rec != Some(r)
    ensures Taken(ds, r) == []
  {
    if ds != [] {
      TakenNone(ds[..|ds| - 1], r);
    }
  }

  lemma FireFiles(ds: seq<Delivery>, files: map<Id, seq<U8>>, d: Delivery, record: seq<U8>)
    requires FilesHold(ds, files) && (d.rec.Some? ==> d.rec.value in files) && IsRecord(record, d.frame)
    ensures FilesHold(ds + [d], Appended(files, d.rec, record))
  {
    var files' := Appended(files, d.rec, record);
    forall r | r in files' ensures Holds(files'[r], Taken(ds + [d], r)) {
      TakenMore(ds, d, r);
      if d.rec == Some(r) {
        HoldsRecord(files[r], Taken(ds, r), record, d.frame);
      }
    }
  }

  lemma TakenMore(ds: seq<Delivery>, d: Delivery, r: Id)
    ensures Taken(ds + [d], r) == if d.rec == Some(r) then Taken(ds, r) + [d.frame] else Taken(ds, r)
  {
    assert (ds + [d])[..|ds|] == ds;
  }

  // The deliveries fired are among those posted.
  lemma FiredWerePosted(q: Sched)
    ensures forall d :: d in Deliveries(q.fired) ==> d in All(q)
  {
    forall d | d in Deliveries(q.fired) ensures d in All(q) {
      var i :| 0 <= i < |q.fired| && Deliveries(q.fired)[i] == d;
      assert Line(q)[i] == d;
    }
  }

  lemma NewFile(q: Sched, files: map<Id, seq<U8>>, r: Id)
    requires FilesHold(Deliveries(q.fired), files) && NoStray(All(q), files) && r !in files
    ensures FilesHold(Deliveries(q.fired), files[r := HEADER])
  {
    FiredWerePosted(q);
    TakenNone(Deliveries(q.fired), r);
    HoldsNothing();
  }

  lemma FiredStep(q: Sched, e: Event, posted: Option<Delivery>, step: Id)
    requires SchedEnabled(q, e)
    ensures Deliveries(NextSched(q, e, posted, step).fired) ==
            if e.Fire? then Deliveries(q.fired) + [q.ready[0]] else Deliveries(q.fired)
  {}

  // A recorder's identity is that of an earlier step, and its file is there.
  ghost predicate RecordersKnown(s: State) {
    && (forall r :: r in s.files ==> r < s.step)
    && (forall b :: b in s.buses && s.buses[b].hub.recCb.Some? ==> s.buses[b].hub.recCb.value in s.files)
  }

  lemma RecordersStep(s: State, e: Event)
    requires RecordersKnown(s)
    ensures RecordersKnown(Apply(s, e))
  {
    var t := Apply(s, e);
    forall b | b in t.buses && t.buses[b].hub.recCb.Some? ensures t.buses[b].hub.recCb.value in t.files {
      CallbackStep(s.buses, e, s.step, Record, b);
    }
  }

  lemma {:induction false} RecordersAlwaysKnown(tr: seq<Event>)
    ensures RecordersKnown(Run(tr))
  {
    if tr != [] {
      RecordersAlwaysKnown(Before(tr));
      RecordersStep(Run(Before(tr)), Last(tr));
    }
  }

  lemma NoStrayStep(s: State, e: Event)
    requires Enabled(s, e) && NoStray(All(s.sched), s.files) && RecordersKnown(s)
    ensures NoStray(All(NextSched(s.sched, e, PostedBy(s, e), s.step)), NextFiles(s, e))
  {
    AllStep(s.sched, e, PostedBy(s, e), s.step);
    NoStrayGrows(All(s.sched), PostedBy(s, e), s.files, NextFiles(s, e));
  }

  lemma NoStrayGrows(all: multiset<Delivery>, posted: Option<Delivery>,
                     files: map<Id, seq<U8>>, files': map<Id, seq<U8>>)
    requires NoStray(all, files) && files.Keys <= files'.Keys
    requires posted.Some? && posted.value.rec.Some? ==> posted.value.rec.value in files
    ensures NoStray(if posted.Some? then all + multiset{posted.value} else all, files')
  {}

  lemma FilesStep(s: State, e: Event)
    requires Enabled(s, e) && NoStray(All(s.sched), s.files) && RecordersKnown(s)
    requires FilesHold(Deliveries(s.sched.fired), s.files)
    ensures FilesHold(Deliveries(NextSched(s.sched, e, PostedBy(s, e), s.step).fired), NextFiles(s, e))
  {
    FiredStep(s.sched, e, PostedBy(s, e), s.step);
    if e.Fire? {
      FireStep(s.sched, s.files, e.record);
    } else if e.RecordOn? {
      NewFile(s.sched, s.files, s.step);
    }
  }

  lemma FireStep(q: Sched, files: map<Id, seq<U8>>, record: seq<U8>)
    requires q.ready != [] && NoStray(All(q), files) && IsRecord(record, q.ready[0].frame)
    requires FilesHold(Deliveries(q.fired), files)
    ensures FilesHold(Deliveries(q.fired) + [q.ready[0]], Appended(files, q.ready[0].rec, record))
  {
    var d := q.ready[0];
    assert Line(q)[|q.fired|] == d;
    FireFiles(Deliveries(q.fired), files, d, record);
  }

  lemma {:induction false} FilesAlwaysHold(tr: seq<Event>)
    requires Valid(tr)
    ensures NoStray(All(SchedAt(tr)), Run(tr).files)
    ensures FilesHold(Deliveries(SchedAt(tr).fired), Run(tr).files)
  {
    if tr != [] {
      FilesAlwaysHold(Before(tr));
      RecordersAlwaysKnown(Before(tr));
      NoStrayStep(Run(Before(tr)), Last(tr));
      FilesStep(Run(Before(tr)), Last(tr));
    }
  }

  // ---------- the main theorem ----------

  // The frames, in firing order and as their sends made them, of the deliveries sent within the
  // window of recorder r.
  ghost function SentInWindow(tr: seq<Event>, r: nat, ds: seq<Delivery>): seq<Frame> {
    if ds == [] then []
    else
      var earlier, last := SentInWindow(tr, r, ds[..|ds| - 1]), ds[|ds| - 1];
      if InWindow(tr, r, last.id) then earlier + [AsSent(tr[..last.id], tr[last.id])] else earlier
  }

  lemma {:induction false} TakenIsWindow(tr: seq<Event>, r: nat, ds: seq<Delivery>)
    requires forall d :: d in ds ==> (d.rec == Some(r) <==> InWindow(tr, r, d.id))
    requires forall d :: d in ds && InWindow(tr, r, d.id) ==> d.frame == AsSent(tr[..d.id], tr[d.id])
    ensures Taken(ds, r) == SentInWindow(tr, r, ds)
  {
    if ds != [] {
      assert ds[|ds| - 1] in ds;
      TakenIsWindow(tr, r, ds[..|ds| - 1]);
    }
  }

  lemma {:induction false} AttachedHasFile(tr: seq<Event>, b: string, r: nat)
    requires Attached(tr, Record, b, r)
    ensures r in Run(tr).files
  {
    var n := |tr| - 1;
    assert Before(tr) == tr[..n];
    if r == n {
      LiveIsThere(Before(tr), b);
    } else {
      assert Before(tr)[..r] == tr[..r];
      AttachedHasFile(Before(tr), b, r);
    }
  }

  /** In every run, for any interleaving of commands, sends and drains: a recorder's file is the
      header and then, in firing order and with nothing after them, the records of exactly the fired
      frames that were sent between its attach and its detach, each with the tag and the payload given
      to that send; so it opens as a capture and reads as those frames. Frames in flight at the detach
      are among them once they fire; frames sent after it, or before the attach, never are. */
  lemma RecordingWindow(tr: seq<Event>, b: string, r: nat)
    requires Valid(tr) && Attached(tr, Record, b, r)
    ensures r in Run(tr).files
    ensures var file, frames := Run(tr).files[r], SentInWindow(tr, r, Deliveries(SchedAt(tr).fired));
            Holds(file, frames) && OpensAsCapture(file) && Contents(file) == AllKept(frames)
  {
    AttachedHasFile(tr, b, r);
    FilesAlwaysHold(tr);
    var ds := Deliveries(SchedAt(tr).fired);
    FiredWerePosted(SchedAt(tr));
    forall d | d in ds
      ensures d.rec == Some(r) <==> InWindow(tr, r, d.id)
      ensures InWindow(tr, r, d.id) ==> d.frame == AsSent(tr[..d.id], tr[d.id])
    {
      OnlyPosted(tr, d);
      SentToRecorder(tr, d.id, r);
      PostedAsSent(tr, d.id);
    }
    TakenIsWindow(tr, r, ds);
    HoldsOpens(Run(tr).files[r], Taken(ds, r));
  }
}
