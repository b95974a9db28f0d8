// When frames are delivered and recorded in the order they were sent.
module SendOrder {
  import opened Bytes
  import opened Capture
  import opened Delay
  import opened Engine
  import opened FiringOrder
  import opened Recording
  import opened Sends
  import opened Taps

  function HubAt(tr: seq<Event>, j: nat): Hub
    requires AcceptedAt(tr, j)
  {
    BusesAt(tr[..j])[tr[j].name].hub
  }

  // ---------- non-shrinking traffic ----------

  // The later send read the clock strictly later, its payload is no shorter, it is of the same
  // protocol class, and its delivery time is within the range of the arithmetic.
  ghost predicate NotShrinking(h: Hub, e: Event, e': Event)
    requires e.Send? && e'.Send?
  {
    && e.second < e'.first
    && |e.frame.payload| <= |e'.frame.payload|
    && (h.kind.Can? ==> (e.frame.proto == CANFD <==> e'.frame.proto == CANFD))
    && FitsAt(e'.second, BitsOf(h, e'.frame), h.rate)
  }

  lemma DueLater(h: Hub, h': Hub, e: Event, e': Event, id: Id, id': Id)
    requires e.Send? && e'.Send? && e.first <= e.second && e'.first <= e'.second
    requires h.kind == h'.kind && h.rate == h'.rate && NotShrinking(h, e, e')
    ensures Posted(id, h, e.src, e.frame, e.first, e.second).at
            < Posted(id', h', e'.src, e'.frame, e'.first, e'.second).at
  {
    var base := if h.kind.Eth? then e.second else e.first;
    var base' := if h.kind.Eth? then e'.second else e'.first;
    FitsDown(base', e'.second, BitsOf(h, e'.frame), BitsOf(h, e'.frame), h.rate);
    DueMonotone(base, base', BitsOf(h, e.frame), BitsOf(h, e'.frame), h.rate);
  }

  lemma SameBusSameHub(tr: seq<Event>, j: nat, k: nat)
    requires AcceptedAt(tr, j) && AcceptedAt(tr, k) && HubAt(tr, j).id == HubAt(tr, k).id
    ensures tr[j].name == tr[k].name && HubAt(tr, j).kind == HubAt(tr, k).kind && HubAt(tr, j).rate == HubAt(tr, k).rate
  {
    HubWasCreated(tr[..j], tr[j].name);
    HubWasCreated(tr[..k], tr[k].name);
  }

  lemma LaterIsDueLater(tr: seq<Event>, j: nat, k: nat)
    requires Valid(tr) && AcceptedAt(tr, j) && AcceptedAt(tr, k)
    requires HubAt(tr, j).id == HubAt(tr, k).id && NotShrinking(HubAt(tr, j), tr[j], tr[k])
    ensures PostedAt(tr, j).at < PostedAt(tr, k).at
  {
    SameBusSameHub(tr, j, k);
    ReadsInOrder(tr, j);
    ReadsInOrder(tr, k);
    DueLater(HubAt(tr, j), HubAt(tr, k), tr[j], tr[k], j, k);
  }

  /** On one bus, a frame that was not followed by a shorter one of its class is delivered before
      the frames that followed it. */
  lemma DeliveredInSendOrder(tr: seq<Event>, j: nat, k: nat, y: nat) returns (x: nat)
    requires Valid(tr) && j < k && AcceptedAt(tr, j) && AcceptedAt(tr, k)
    requires HubAt(tr, j).id == HubAt(tr, k).id && NotShrinking(HubAt(tr, j), tr[j], tr[k])
    requires y < |SchedAt(tr).fired| && SchedAt(tr).fired[y].d == PostedAt(tr, k)
    ensures x < y && SchedAt(tr).fired[x].d == PostedAt(tr, j)
  {
    LaterIsDueLater(tr, j, k);
    x := EarlierFiresFirst(tr, j, k, y);
  }

  // ---------- the capture is sorted ----------

  ghost predicate Rising(frames: seq<Frame>) {
    forall i, j :: 0 <= i < j < |frames| ==> frames[i].tsNs < frames[j].tsNs
  }

  // Every two sends in the window of recorder r, in the order sent, are of non-shrinking traffic.
  ghost predicate WindowNotShrinking(tr: seq<Event>, r: nat) {
    forall j: nat, k: nat ::
      j < k && InWindow(tr, r, j) && InWindow(tr, r, k) && AcceptedAt(tr, j) && AcceptedAt(tr, k) ==>
      NotShrinking(HubAt(tr, j), tr[j], tr[k])
  }

  lemma WindowIsOneBus(tr: seq<Event>, r: nat, j: nat, k: nat)
    requires InWindow(tr, r, j) && InWindow(tr, r, k) && AcceptedAt(tr, j) && AcceptedAt(tr, k) && j < k
    ensures tr[j].name == tr[k].name && HubAt(tr, j).id == HubAt(tr, k).id
  {
    var b := tr[j].name;
    assert tr[..j][r] == tr[r] && tr[..k][r] == tr[r];
    assert forall i :: j <= i < k ==> tr[..k][i] == tr[i] && !Ends(Record, tr[..k][i], b);
    SameBus(tr, b, j, k);
  }

  lemma StampedWithin(tr: seq<Event>, j: nat)
    requires Valid(tr) && j < |tr| && tr[j].Send?
    ensures tr[j].first <= AsSent(tr[..j], tr[j]).tsNs <= tr[j].second
  {
    ReadsInOrder(tr, j);
    StampBetween(tr[..j], tr[j]);
  }

  // Of two fired frames of the window, the one that fired first was sent first.
  lemma FiredAsSent(tr: seq<Event>, r: nat, x: nat, y: nat)
    requires Valid(tr) && WindowNotShrinking(tr, r) && x < y < |SchedAt(tr).fired|
    requires var ds := Deliveries(SchedAt(tr).fired); InWindow(tr, r, ds[x].id) && InWindow(tr, r, ds[y].id)
    ensures var ds := Deliveries(SchedAt(tr).fired);
            AcceptedAt(tr, ds[x].id) && AcceptedAt(tr, ds[y].id) && ds[x].id < ds[y].id
  {
    var line := Line(SchedAt(tr));
    var j, k := line[y].id, line[x].id;
    assert line[x] in All(SchedAt(tr)) && line[y] in All(SchedAt(tr));
    OnlyPosted(tr, line[x]);
    OnlyPosted(tr, line[y]);
    PlacesDiffer(tr, x, y);
    if j < k {
      WindowIsOneBus(tr, r, j, k);
      LaterIsDueLater(tr, j, k);
      var z := EarlierFiresFirst(tr, j, k, x);
      PlacesDiffer(tr, z, y);
    }
  }

  // The stamp that a fired delivery's send gave it.
  function StampOf(tr: seq<Event>, d: Delivery): U64
    requires d.id < |tr| && tr[d.id].Send?
  {
    AsSent(tr[..d.id], tr[d.id]).tsNs
  }

  lemma FiredRising(tr: seq<Event>, r: nat, x: nat, y: nat)
    requires Valid(tr) && WindowNotShrinking(tr, r) && x < y < |SchedAt(tr).fired|
    requires var ds := Deliveries(SchedAt(tr).fired); InWindow(tr, r, ds[x].id) && InWindow(tr, r, ds[y].id)
    ensures var ds := Deliveries(SchedAt(tr).fired); StampOf(tr, ds[x]) < StampOf(tr, ds[y])
  {
    var ds := Deliveries(SchedAt(tr).fired);
    FiredAsSent(tr, r, x, y);
    StampedWithin(tr, ds[x].id);
    StampedWithin(tr, ds[y].id);
  }

  lemma {:induction false} WindowMembers(tr: seq<Event>, r: nat, ds: seq<Delivery>, i: nat) returns (x: nat)
    requires i < |SentInWindow(tr, r, ds)|
    ensures x < |ds| && InWindow(tr, r, ds[x].id) && SentInWindow(tr, r, ds)[i] == AsSent(tr[..ds[x].id], tr[ds[x].id])
  {
    if i < |SentInWindow(tr, r, ds[..|ds| - 1])| {
      x := WindowMembers(tr, r, ds[..|ds| - 1], i);
    } else {
      x := |ds| - 1;
    }
  }

  lemma {:induction false} WindowRising(tr: seq<Event>, r: nat, ds: seq<Delivery>)
    requires forall x, y :: 0 <= x < y < |ds| && InWindow(tr, r, ds[x].id) && InWindow(tr, r, ds[y].id) ==>
               StampOf(tr, ds[x]) < StampOf(tr, ds[y])
    ensures Rising(SentInWindow(tr, r, ds))
  {
    if ds != [] {
      var earlier, last := ds[..|ds| - 1], ds[|ds| - 1];
      WindowRising(tr, r, earlier);
      if InWindow(tr, r, last.id) {
        forall i | 0 <= i < |SentInWindow(tr, r, earlier)|
          ensures SentInWindow(tr, r, earlier)[i].tsNs < StampOf(tr, last)
        {
          var x := WindowMembers(tr, r, earlier, i);
          assert ds[x] == earlier[x];
        }
      }
    }
  }

  /** Non-shrinking traffic is recorded in the order sent: the time stamps of the capture are
      strictly increasing, which is what a timed replay needs. */
  lemma CaptureIsSorted(tr: seq<Event>, b: string, r: nat)
    requires Valid(tr) && Attached(tr, Record, b, r) && WindowNotShrinking(tr, r)
    ensures r in Run(tr).files
    ensures var file := Run(tr).files[r]; OpensAsCapture(file) && Rising(Contents(file))
  {
    RecordingWindow(tr, b, r);
    var ds := Deliveries(SchedAt(tr).fired);
    forall x, y | 0 <= x < y < |ds| && InWindow(tr, r, ds[x].id) && InWindow(tr, r, ds[y].id)
      ensures StampOf(tr, ds[x]) < StampOf(tr, ds[y])
    {
      FiredRising(tr, r, x, y);
    }
    WindowRising(tr, r, ds);
    KeptRising(SentInWindow(tr, r, ds));
  }

  lemma KeptRising(frames: seq<Frame>)
    requires Rising(frames)
    ensures Rising(AllKept(frames))
  {}
}
