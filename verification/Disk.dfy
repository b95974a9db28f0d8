// What the recorders leave on the disk, where two of them can be given the same path
// (vbus/src/daemon/vbusd.cpp, vbus/src/taps/recorder.cpp).
module Disk {
  import opened Bytes
  import opened Capture
  import opened Delay
  import opened Engine
  import opened FiringOrder
  import opened Overtaking
  import opened Recording
  import opened Taps

  // A stream writes at its own position, whatever others have made of the file.
  function Overwritten(file: seq<U8>, pos: nat, data: seq<U8>): seq<U8> {
    var head := if pos <= |file| then file[..pos] else file + seq(pos - |file|, _ => 0);
    head + data + if pos + |data| <= |file| then file[pos + |data|..] else []
  }

  function ContentOf(disk: map<string, seq<U8>>, path: string): seq<U8> {
    if path in disk then disk[path] else []
  }

  // The recorder that a firing writes to, if it has written before.
  function Writer(s: State, e: Event): Option<Id> {
    if e.Fire? && s.sched.ready != [] && s.sched.ready[0].rec.Some? && s.sched.ready[0].rec.value in s.files then
      s.sched.ready[0].rec
    else None
  }

  // Opening a path truncates the file; a record goes to where the recorder's stream is.
  function NextDisk(tr: seq<Event>, disk: map<string, seq<U8>>, e: Event): map<string, seq<U8>> {
    var s := Run(tr);
    if e.RecordOn? && e.created && e.name in s.buses then disk[e.path := HEADER]
    else
      match Writer(s, e)
      case None => disk
      case Some(r) =>
        if r < |tr| && tr[r].RecordOn? then
          disk[tr[r].path := Overwritten(ContentOf(disk, tr[r].path), |s.files[r]|, e.record)]
        else disk
  }

  function OnDisk(tr: seq<Event>): map<string, seq<U8>> {
    if tr == [] then map[] else NextDisk(Before(tr), OnDisk(Before(tr)), Last(tr))
  }

  // Step k opens the path of recorder r anew, or writes to it through another recorder.
  predicate Disturbs(tr: seq<Event>, k: nat, r: nat)
    requires r < k < |tr| && tr[r].RecordOn?
  {
    var s, e := Run(tr[..k]), tr[k];
    || (e.RecordOn? && e.created && e.name in s.buses && e.path == tr[r].path)
    || (Writer(s, e).Some? && Writer(s, e) != Some(r) && Writer(s, e).value < k
        && tr[Writer(s, e).value].RecordOn? && tr[Writer(s, e).value].path == tr[r].path)
  }

  ghost predicate Undisturbed(tr: seq<Event>, r: nat)
    requires r < |tr| && tr[r].RecordOn?
  {
    forall k :: r < k < |tr| ==> !Disturbs(tr, k, r)
  }

  lemma Appending(file: seq<U8>, data: seq<U8>)
    ensures Overwritten(file, |file|, data) == file + data
  {}

  // What one event does to the file that r writes.
  lemma FileNext(s: State, e: Event, r: Id)
    requires r in s.files && r != s.step
    ensures r in NextFiles(s, e)
    ensures NextFiles(s, e)[r] == if Writer(s, e) == Some(r) then s.files[r] + e.record else s.files[r]
  {}

  lemma DiskNext(tr: seq<Event>, r: nat)
    requires tr != [] && r < |tr| - 1 && tr[r].RecordOn? && !Disturbs(tr, |tr| - 1, r)
    requires r in Run(Before(tr)).files
    requires tr[r].path in OnDisk(Before(tr)) && OnDisk(Before(tr))[tr[r].path] == Run(Before(tr)).files[r]
    ensures r in Run(tr).files && tr[r].path in OnDisk(tr) && OnDisk(tr)[tr[r].path] == Run(tr).files[r]
  {
    var past, s, e := Before(tr), Run(Before(tr)), Last(tr);
    assert tr[..|tr| - 1] == past;
    FileNext(s, e, r);
    if Writer(s, e) == Some(r) {
      Appending(s.files[r], e.record);
    }
  }

  lemma DisturbsBefore(tr: seq<Event>, k: nat, r: nat)
    requires r < k < |tr| - 1 && tr[r].RecordOn?
    ensures Disturbs(Before(tr), k, r) <==> Disturbs(tr, k, r)
  {
    assert Before(tr)[..k] == tr[..k];
  }

  lemma {:induction false} UndisturbedFile(tr: seq<Event>, b: string, r: nat)
    requires Attached(tr, Record, b, r) && Undisturbed(tr, r)
    ensures r in Run(tr).files && tr[r].path in OnDisk(tr) && OnDisk(tr)[tr[r].path] == Run(tr).files[r]
  {
    var past := Before(tr);
    if r == |tr| - 1 {
      assert tr[..r] == past;
      LiveIsThere(past, b);
    } else {
      assert past[..r] == tr[..r];
      forall k | r < k < |past| ensures !Disturbs(past, k, r) {
        DisturbsBefore(tr, k, r);
      }
      UndisturbedFile(past, b, r);
      DiskNext(tr, r);
    }
  }

  /** A recording on the disk: as long as nobody opens its path again or writes to it through another
      recorder, the file at that path is the header and the records of exactly the fired frames that
      were sent between the recorder's attach and its detach. */
  lemma RecordingOnDisk(tr: seq<Event>, b: string, r: nat)
    requires Valid(tr) && Attached(tr, Record, b, r) && Undisturbed(tr, r)
    ensures tr[r].path in OnDisk(tr)
    ensures var file, frames := OnDisk(tr)[tr[r].path], SentInWindow(tr, r, Deliveries(SchedAt(tr).fired));
            Holds(file, frames) && OpensAsCapture(file) && Contents(file) == AllKept(frames)
  {
    UndisturbedFile(tr, b, r);
    RecordingWindow(tr, b, r);
  }

  /** It is enough that no other recorder is ever given the path. */
  lemma OwnPath(tr: seq<Event>, r: nat)
    requires r < |tr| && tr[r].RecordOn?
    requires forall k :: 0 <= k < |tr| && k != r && tr[k].RecordOn? ==> tr[k].path != tr[r].path
    ensures Undisturbed(tr, r)
  {}

  // ---------- two recorders on one path ----------

  lemma OneMore(tr: seq<Event>, e: Event)
    ensures Run(tr + [e]) == Apply(Run(tr), e)
    ensures OnDisk(tr + [e]) == NextDisk(tr, OnDisk(tr), e)
    ensures Valid(tr) && Enabled(Run(tr), e) ==> Valid(tr + [e])
  {
    assert Before(tr + [e]) == tr && Last(tr + [e]) == e;
  }

  function WrapOf(rec: Option<Id>): Wrap {
    Wrap(NewHub(0, Eth, 0), None, None).Recording(rec)
  }

  // A bus, a recorder and a frame that is on its way to it.
  lemma FrameUnderWay(path: string, f: Frame) returns (tr: seq<Event>, d: Delivery)
    ensures tr == [Create("bus", Eth, 0), RecordOn("bus", path, true), Send("bus", None, f, 0, 0)] && Valid(tr)
    ensures Run(tr).buses == map["bus" := WrapOf(Some(1))] && Run(tr).files == map[1 := HEADER]
    ensures Run(tr).sched == Sched(0, multiset{d}, [], [], [], [])
    ensures d.id == 2 && d.at == 0 && d.rec == Some(1) && d.targets == []
  {
    assert Run([]) == INIT && Valid([]);
    OneMore([], Create("bus", Eth, 0));
    OneMore([] + [Create("bus", Eth, 0)], RecordOn("bus", path, true));
    OneMore([] + [Create("bus", Eth, 0)] + [RecordOn("bus", path, true)], Send("bus", None, f, 0, 0));
    d := Posted(2, NewHub(0, Eth, 0).(recCb := Some(1)), None, f, 0, 0);
    tr := [] + [Create("bus", Eth, 0)] + [RecordOn("bus", path, true)] + [Send("bus", None, f, 0, 0)];
  }

  // The bus is recorded anew, to the same path, ...
  lemma Again(path: string, tr: seq<Event>) returns (tr': seq<Event>)
    requires |tr| == 3 && Valid(tr)
    requires Run(tr).buses == map["bus" := WrapOf(Some(1))] && Run(tr).files == map[1 := HEADER]
    ensures tr' == tr + [RecordOn("bus", path, true)] && Valid(tr')
    ensures SchedAt(tr') == SchedAt(tr) && Run(tr').files == map[1 := HEADER, 3 := HEADER]
    ensures path in OnDisk(tr') && OnDisk(tr')[path] == HEADER
  {
    OneMore(tr, RecordOn("bus", path, true));
    tr' := tr + [RecordOn("bus", path, true)];
  }

  // ... what waits is taken, ...
  lemma ThenDrained(tr: seq<Event>, d: Delivery) returns (tr': seq<Event>)
    requires Valid(tr) && SchedAt(tr) == Sched(0, multiset{d}, [], [], [], []) && d.at == 0
    ensures tr' == tr + [Drain(0, [d])] && Valid(tr')
    ensures SchedAt(tr') == Sched(0, multiset{}, [d], [], [], [])
    ensures Run(tr').files == Run(tr).files && OnDisk(tr') == OnDisk(tr)
  {
    assert multiset([d]) == multiset{d};
    OneMore(tr, Drain(0, [d]));
    tr' := tr + [Drain(0, [d])];
  }

  // ... and the frame arrives.
  lemma OneRecord(f: Frame) returns (record: seq<U8>)
    ensures IsRecord(record, f) && Holds(HEADER + record, [f])
  {
    var pad: Padding := [0, 0, 0, 0, 0, 0, 0, 0];
    record := EncodeRecord(f, pad);
    HoldsNothing();
    HoldsRecord(HEADER, [], record, f);
    assert [] + [f] == [f];
  }

  lemma FirstRecord(tr: seq<Event>, disk: map<string, seq<U8>>, path: string, d: Delivery, record: seq<U8>)
    requires |tr| > 1 && tr[1] == RecordOn("bus", path, true) && Run(tr).sched.ready == [d] && d.rec == Some(1)
    requires 1 in Run(tr).files && Run(tr).files[1] == HEADER && path in disk && disk[path] == HEADER
    ensures NextDisk(tr, disk, Fire(record, true)) == disk[path := HEADER + record]
  {
    Appending(HEADER, record);
  }

  lemma FiresNow(tr: seq<Event>, d: Delivery, record: seq<U8>)
    requires Valid(tr) && SchedAt(tr) == Sched(0, multiset{}, [d], [], [], []) && IsRecord(record, d.frame)
    ensures Valid(tr + [Fire(record, true)])
    ensures Deliveries(SchedAt(tr + [Fire(record, true)]).fired) == [d]
  {
    RunMore(tr, Fire(record, true));
  }

  lemma ThenFired(path: string, tr: seq<Event>, d: Delivery) returns (e: Event)
    requires |tr| > 1 && tr[1] == RecordOn("bus", path, true) && Valid(tr)
    requires SchedAt(tr) == Sched(0, multiset{}, [d], [], [], [])
    requires d.rec == Some(1) && 1 in Run(tr).files && Run(tr).files[1] == HEADER
    requires path in OnDisk(tr) && OnDisk(tr)[path] == HEADER
    ensures Valid(tr + [e]) && Deliveries(SchedAt(tr + [e]).fired) == [d]
    ensures path in OnDisk(tr + [e]) && Holds(OnDisk(tr + [e])[path], [d.frame])
  {
    var record := OneRecord(d.frame);
    e := Fire(record, true);
    FiresNow(tr, d, record);
    FirstRecord(tr, OnDisk(tr), path, d, record);
    OneMore(tr, e);
  }

  // The second recorder is attached although the frame is on its way.
  lemma SecondAttached(tr: seq<Event>, first: seq<Event>, path: string)
    requires |first| == 3 && first + [RecordOn("bus", path, true)] <= tr && "bus" in BusesAt(first)
    ensures Attached(tr, Record, "bus", 3) && tr[3].path == path
  {
    assert tr[..3] == first && tr[3] == RecordOn("bus", path, true);
    LiveIsThere(first, "bus");
  }

  lemma Arrives(path: string, tr: seq<Event>, d: Delivery) returns (tr': seq<Event>)
    requires |tr| == 3 && Valid(tr) && tr[1] == RecordOn("bus", path, true)
    requires Run(tr).buses == map["bus" := WrapOf(Some(1))] && Run(tr).files == map[1 := HEADER]
    requires SchedAt(tr) == Sched(0, multiset{d}, [], [], [], []) && d.at == 0 && d.rec == Some(1)
    ensures tr + [RecordOn("bus", path, true)] <= tr' && Valid(tr') && Deliveries(SchedAt(tr').fired) == [d]
    ensures path in OnDisk(tr') && Holds(OnDisk(tr')[path], [d.frame])
  {
    tr' := Again(path, tr);
    tr' := ThenDrained(tr', d);
    var e := ThenFired(path, tr', d);
    tr' := tr' + [e];
  }

  /** Two recordings of a bus to one path, with a frame in flight at the second: the file at that path
      holds a frame that was sent before the second recorder was attached. */
  lemma SharedPath(path: string, f: Frame) returns (tr: seq<Event>, d: Delivery)
    ensures Valid(tr) && Attached(tr, Record, "bus", 3) && tr[3].path == path
    ensures SentInWindow(tr, 3, Deliveries(SchedAt(tr).fired)) == []
    ensures path in OnDisk(tr) && Holds(OnDisk(tr)[path], [d.frame])
  {
    var first;
    first, d := FrameUnderWay(path, f);
    tr := Arrives(path, first, d);
    SecondAttached(tr, first, path);
    SentBefore(tr, 3, d);
  }

  lemma SentBefore(tr: seq<Event>, r: nat, d: Delivery)
    requires d.id < r
    ensures SentInWindow(tr, r, [d]) == []
  {
    assert !InWindow(tr, r, d.id);
    assert [d][..0] == [];
  }
}
