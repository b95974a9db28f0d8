// When one frame can overtake another: the exact conditions for order.
module Overtaking {
  import opened Arith
  import opened Bytes
  import opened Capture
  import opened Delay
  import opened Engine
  import opened Fanout
  import opened FiringOrder
  import opened Scheduling
  import opened Taps

  // ---------- one more event ----------

  lemma RunMore(tr: seq<Event>, e: Event)
    ensures SchedAt(tr + [e]) == NextSched(SchedAt(tr), e, PostedBy(Run(tr), e), |tr|)
    ensures BusesAt(tr + [e]) == NextBuses(BusesAt(tr), e, |tr|)
    ensures Valid(tr + [e]) <==> Valid(tr) && Enabled(Run(tr), e)
  {
    assert Before(tr + [e]) == tr && Last(tr + [e]) == e;
    OneStep(tr + [e]);
    ValidOneStep(tr + [e]);
  }

  lemma OneStep(tr: seq<Event>)
    requires tr != []
    ensures SchedAt(tr) == NextSched(SchedAt(Before(tr)), Last(tr), PostedBy(Run(Before(tr)), Last(tr)), |tr| - 1)
    ensures BusesAt(tr) == NextBuses(BusesAt(Before(tr)), Last(tr), |tr| - 1)
  {}

  lemma ValidOneStep(tr: seq<Event>)
    requires tr != []
    ensures Valid(tr) <==> Valid(Before(tr)) && Enabled(Run(Before(tr)), Last(tr))
  {}

  // ---------- finishing a drain ----------

  // The next thing a drain under way does.
  lemma GoOn(tr: seq<Event>) returns (tr': seq<Event>)
    requires Valid(tr) && !Idle(SchedAt(tr))
    ensures tr <= tr' && Valid(tr') && BusesAt(tr') == BusesAt(tr)
    ensures var q, q' := SchedAt(tr), SchedAt(tr');
            && q'.queue == q.queue && q'.clock == q.clock && Line(q') == Line(q)
            && (|q'.ready| < |q.ready| || (q'.ready == q.ready && |q'.left| < |q.left|))
  {
    var q := SchedAt(tr);
    var e := Deliver;
    AlwaysReaching(tr);
    if q.left == [] {
      var pad: Padding := [0, 0, 0, 0, 0, 0, 0, 0];
      e := Fire(EncodeRecord(q.ready[0].frame, pad), true);
      assert IsRecord(EncodeRecord(q.ready[0].frame, pad), q.ready[0].frame);
      LineFire(q, |tr|);
    }
    RunMore(tr, e);
    tr' := tr + [e];
  }

  // A drain under way can be brought to its end, calling everything in its line.
  lemma {:induction false} Finish(tr: seq<Event>) returns (tr': seq<Event>)
    requires Valid(tr)
    ensures tr <= tr' && Valid(tr') && Idle(SchedAt(tr')) && BusesAt(tr') == BusesAt(tr)
    ensures var q, q' := SchedAt(tr), SchedAt(tr');
            q'.queue == q.queue && q'.clock == q.clock && Line(q') == Line(q)
    decreases |SchedAt(tr).ready|, |SchedAt(tr).left|
  {
    if Idle(SchedAt(tr)) {
      tr' := tr;
    } else {
      tr' := GoOn(tr);
      tr' := Finish(tr');
    }
  }

  // ---------- a drain that takes everything ----------

  lemma {:induction false} Arranged(queue: multiset<Delivery>) returns (batch: seq<Delivery>)
    ensures InOrder(batch) && multiset(batch) == queue
    decreases |queue|
  {
    if queue == multiset{} {
      batch := [];
    } else {
      var d := SomeLeast(queue);
      var rest := Arranged(queue - multiset{d});
      batch := [d] + rest;
      LeastFirst(queue, d, rest);
    }
  }

  lemma LeastFirst(queue: multiset<Delivery>, d: Delivery, rest: seq<Delivery>)
    requires IsLeast(queue, d) && InOrder(rest) && multiset(rest) == queue - multiset{d}
    ensures InOrder([d] + rest) && multiset([d] + rest) == queue
  {
    forall i | 0 <= i < |rest| ensures d.at <= rest[i].at {
      assert rest[i] in multiset(rest) && rest[i] in queue;
    }
  }

  lemma Swapped(batch: seq<Delivery>, x: nat, y: nat)
    requires InOrder(batch) && x < y < |batch| && batch[x].at == batch[y].at
    ensures var swapped := batch[x := batch[y]][y := batch[x]];
            InOrder(swapped) && multiset(swapped) == multiset(batch)
  {}

  // The queue in order of time, with d before d' even if they are due at the same time.
  lemma ArrangedWith(queue: multiset<Delivery>, d: Delivery, d': Delivery)
    returns (batch: seq<Delivery>, x: nat, y: nat)
    requires d in queue && d' in queue && d != d' && d.at <= d'.at
    ensures InOrder(batch) && multiset(batch) == queue
    ensures x < y < |batch| && batch[x] == d && batch[y] == d'
  {
    batch := Arranged(queue);
    assert d in multiset(batch) && d' in multiset(batch);
    x :| 0 <= x < |batch| && batch[x] == d;
    y :| 0 <= y < |batch| && batch[y] == d';
    if y < x {
      Swapped(batch, y, x);
      batch, x, y := batch[y := d][x := d'], y, x;
    }
  }

  lemma QueueDue(tr: seq<Event>, d: Delivery)
    requires Valid(tr) && d in All(SchedAt(tr))
    ensures d.at < TWO63
  {
    OnlyPosted(tr, d);
    ReadsInOrder(tr, d.id);
    var h, e := BusesAt(tr[..d.id])[tr[d.id].name].hub, tr[d.id];
    DueInRange(e.first, BitsOf(h, e.frame), h.rate);
    DueInRange(e.second, BitsOf(h, e.frame), h.rate);
  }

  lemma AllDue(tr: seq<Event>, batch: seq<Delivery>)
    requires Valid(tr) && multiset(batch) == SchedAt(tr).queue
    ensures forall d :: d in batch ==> d.at < TWO63
  {
    forall d | d in batch ensures d.at < TWO63 {
      assert d in multiset(batch);
      QueueDue(tr, d);
    }
  }

  lemma CanTakeAll(s: State, batch: seq<Delivery>)
    requires Idle(s.sched) && InOrder(batch) && multiset(batch) == s.sched.queue
    requires forall d :: d in batch ==> d.at < TWO63
    ensures Enabled(s, Drain(TWO63 - 1, batch))
    ensures Line(NextSched(s.sched, Drain(TWO63 - 1, batch), None, s.step)) == Line(s.sched) + batch
  {}

  // Once idle, everything queued can be taken at the end of the clock's range.
  lemma TakeAll(tr: seq<Event>, batch: seq<Delivery>) returns (tr': seq<Event>)
    requires Valid(tr) && Idle(SchedAt(tr)) && InOrder(batch) && multiset(batch) == SchedAt(tr).queue
    ensures tr <= tr' && Valid(tr') && Line(SchedAt(tr')) == Line(SchedAt(tr)) + batch
  {
    AllDue(tr, batch);
    CanTakeAll(Run(tr), batch);
    RunMore(tr, Drain(TWO63 - 1, batch));
    tr' := tr + [Drain(TWO63 - 1, batch)];
  }

  // ---------- the exact condition for order ----------

  // Delivery k fires and j has not fired before it.
  ghost predicate Overtakes(tr: seq<Event>, j: nat, k: nat) {
    var fired := SchedAt(tr).fired;
    exists y :: 0 <= y < |fired| && fired[y].d.id == k && forall x :: 0 <= x < y ==> fired[x].d.id != j
  }

  // In every continuation.
  ghost predicate KeepsOrder(tr: seq<Event>, j: nat, k: nat) {
    forall tr' :: tr <= tr' && Valid(tr') ==> !Overtakes(tr', j, k)
  }

  // Send j is still waiting to be due.
  predicate Waiting(tr: seq<Event>, j: nat) {
    AcceptedAt(tr, j) && PostedAt(tr, j) in SchedAt(tr).queue
  }

  lemma NoOvertaking(tr: seq<Event>, j: nat, k: nat)
    requires Valid(tr) && AcceptedAt(tr, j) && AcceptedAt(tr, k) && j < k
    requires PostedAt(tr, j).at < PostedAt(tr, k).at
    ensures !Overtakes(tr, j, k)
  {
    var fired := SchedAt(tr).fired;
    forall y | 0 <= y < |fired| && fired[y].d.id == k ensures exists x :: 0 <= x < y && fired[x].d.id == j {
      assert Line(SchedAt(tr))[y] in All(SchedAt(tr));
      OnlyPosted(tr, fired[y].d);
      var x := EarlierFiresFirst(tr, j, k, y);
      assert fired[x].d.id == j;
    }
  }

  // Once idle, everything queued can be drained in an order that puts d before d', and called.
  lemma DrainBoth(tr: seq<Event>, d: Delivery, d': Delivery) returns (tr': seq<Event>, x: nat, y: nat)
    requires Valid(tr) && Idle(SchedAt(tr))
    requires d in SchedAt(tr).queue && d' in SchedAt(tr).queue && d != d' && d.at <= d'.at
    ensures tr <= tr' && Valid(tr') && Idle(SchedAt(tr'))
    ensures x < y < |Line(SchedAt(tr'))|
    ensures Line(SchedAt(tr'))[x] == d && Line(SchedAt(tr'))[y] == d'
  {
    var batch;
    batch, x, y := ArrangedWith(SchedAt(tr).queue, d, d');
    tr' := CallAll(tr, batch);
    x, y := InSum(Line(SchedAt(tr)), batch, x), InSum(Line(SchedAt(tr)), batch, y);
  }

  lemma CallAll(tr: seq<Event>, batch: seq<Delivery>) returns (tr': seq<Event>)
    requires Valid(tr) && Idle(SchedAt(tr)) && InOrder(batch) && multiset(batch) == SchedAt(tr).queue
    ensures tr <= tr' && Valid(tr') && Idle(SchedAt(tr')) && Line(SchedAt(tr')) == Line(SchedAt(tr)) + batch
  {
    tr' := TakeAll(tr, batch);
    tr' := Finish(tr');
  }

  function InSum(a: seq<Delivery>, b: seq<Delivery>, x: nat): (y: nat)
    requires x < |b|
    ensures y < |a + b| && (a + b)[y] == b[x] && y == |a| + x
  {
    |a| + x
  }

  lemma Apart(tr: seq<Event>, j: nat, k: nat)
    requires AcceptedAt(tr, j) && AcceptedAt(tr, k) && j != k
    ensures PostedAt(tr, j) != PostedAt(tr, k)
    ensures PostedAt(tr, j).id == j && PostedAt(tr, k).id == k
  {}

  lemma Overtaking(tr: seq<Event>, j: nat, k: nat) returns (tr': seq<Event>)
    requires Valid(tr) && Waiting(tr, j) && Waiting(tr, k) && j != k
    requires PostedAt(tr, k).at <= PostedAt(tr, j).at
    ensures tr <= tr' && Valid(tr') && Overtakes(tr', j, k)
  {
    Apart(tr, j, k);
    var d, d' := PostedAt(tr, k), PostedAt(tr, j);
    tr' := Finish(tr);
    var x, y;
    tr', x, y := DrainBoth(tr', d, d');
    InThisOrder(tr', x, y);
  }

  lemma InThisOrder(tr: seq<Event>, x: nat, y: nat)
    requires Valid(tr) && Idle(SchedAt(tr)) && x < y < |Line(SchedAt(tr))|
    ensures Overtakes(tr, Line(SchedAt(tr))[y].id, Line(SchedAt(tr))[x].id)
  {
    var fired, line := SchedAt(tr).fired, Line(SchedAt(tr));
    forall z | 0 <= z < x ensures fired[z].d.id != line[y].id {
      PlacesDiffer(tr, z, y);
    }
    assert fired[x].d.id == line[x].id;
  }

  /** The exact condition for order: of two frames that wait in the queue, on whatever buses, the
      one sent first fires first in every continuation of the run if and only if it is due
      strictly earlier. */
  lemma OrderExactly(tr: seq<Event>, j: nat, k: nat)
    requires Valid(tr) && Waiting(tr, j) && Waiting(tr, k) && j < k
    ensures KeepsOrder(tr, j, k) <==> PostedAt(tr, j).at < PostedAt(tr, k).at
  {
    if PostedAt(tr, j).at < PostedAt(tr, k).at {
      forall tr' | tr <= tr' && Valid(tr') ensures !Overtakes(tr', j, k) {
        StillPosted(tr, tr', j);
        StillPosted(tr, tr', k);
        NoOvertaking(tr', j, k);
      }
    } else {
      var tr' := Overtaking(tr, j, k);
    }
  }

  lemma StillPosted(tr: seq<Event>, tr': seq<Event>, j: nat)
    requires tr <= tr' && AcceptedAt(tr, j)
    ensures AcceptedAt(tr', j) && PostedAt(tr', j) == PostedAt(tr, j)
  {
    assert tr'[..j] == tr[..j];
  }

  /** In particular, two frames sent one right after the other keep their order in every
      continuation if and only if the first is due strictly earlier: a frame followed at once by a
      shorter one, or by one due at the same time, can be overtaken. */
  lemma SendOrderExactly(tr: seq<Event>)
    requires Valid(tr) && |tr| >= 2 && AcceptedAt(tr, |tr| - 2) && AcceptedAt(tr, |tr| - 1)
    ensures KeepsOrder(tr, |tr| - 2, |tr| - 1) <==> PostedAt(tr, |tr| - 2).at < PostedAt(tr, |tr| - 1).at
  {
    WaitsNext(tr);
    WaitsAtFirst(tr);
    OrderExactly(tr, |tr| - 2, |tr| - 1);
  }

  lemma WaitsNext(tr: seq<Event>)
    requires |tr| >= 2 && AcceptedAt(tr, |tr| - 2) && AcceptedAt(tr, |tr| - 1)
    ensures Waiting(tr, |tr| - 2)
  {
    var past := Before(tr);
    assert tr[..|tr| - 2] == past[..|tr| - 2];
    WaitsAtFirst(past);
    WaitsOn(tr, |tr| - 2);
  }

  lemma WaitsAtFirst(tr: seq<Event>)
    requires tr != [] && AcceptedAt(tr, |tr| - 1)
    ensures Waiting(tr, |tr| - 1)
  {
    assert tr[..|tr| - 1] == Before(tr);
    OneStep(tr);
  }

  // A send takes nothing out of the queue.
  lemma WaitsOn(tr: seq<Event>, j: nat)
    requires tr != [] && Waiting(Before(tr), j) && Last(tr).Send?
    ensures Waiting(tr, j)
  {
    PostedEarlierStays(tr, j);
    OneStep(tr);
  }

  // ---------- the exact condition for firing in turn ----------

  // Send j fires after a delivery that is due later.
  ghost predicate OutOfTurn(tr: seq<Event>, j: nat) {
    var fired := SchedAt(tr).fired;
    exists x, y :: 0 <= x < y < |fired| && fired[y].d.id == j && fired[y].d.at < fired[x].d.at
  }

  // Send j is of this frame on such a bus, and its delivery time counts from this reading.
  ghost predicate SentOn(tr: seq<Event>, j: nat, kind: Kind, rate: U64, f: Frame, base: nat) {
    && AcceptedAt(tr, j) && tr[j].frame == f
    && (var h := BusesAt(tr[..j])[tr[j].name].hub; h.kind == kind && h.rate == rate)
    && base == if kind.Eth? then tr[j].second else tr[j].first
  }

  lemma OutOfTurnIsPast(tr: seq<Event>, j: nat, kind: Kind, rate: U64, f: Frame, base: nat)
    requires Valid(tr) && SentOn(tr, j, kind, rate, f, base) && OutOfTurn(tr, j)
    ensures Due(base, WireBits(kind, f.proto, |f.payload|), rate) < base
  {
    var fired, line := SchedAt(tr).fired, Line(SchedAt(tr));
    var x, y :| 0 <= x < y < |fired| && fired[y].d.id == j && fired[y].d.at < fired[x].d.at;
    assert line[x] == fired[x].d && line[y] == fired[y].d;
    assert line[y] in All(SchedAt(tr));
    OnlyPosted(tr, line[y]);
    ReadsInOrder(tr, j);
    if InFuture(tr, j) {
      FiresInTurn(tr, x, y);
    }
  }

  function NewHub(id: Id, kind: Kind, rate: U64): Hub {
    Hub(id, kind, rate, [], None, false, None)
  }

  // Two buses as they were created, the first without delay, and nothing pending.
  ghost predicate Quiet(kind: Kind, rate: U64, tr: seq<Event>) {
    && Valid(tr) && Idle(SchedAt(tr)) && SchedAt(tr).queue == multiset{}
    && BusesAt(tr) == map["fast" := Wrap(NewHub(0, Eth, 0), None, None),
                          "bus" := Wrap(NewHub(1, kind, rate), None, None)]
  }

  lemma QuietStart(kind: Kind, rate: U64) returns (tr: seq<Event>)
    ensures Quiet(kind, rate, tr) && SchedAt(tr) == INIT.sched && |tr| == 2
  {
    var fast, bus := Create("fast", Eth, 0), Create("bus", kind, rate);
    assert Run([]) == INIT && Valid([]);
    RunMore([], fast);
    RunMore([] + [fast], bus);
    tr := [] + [fast] + [bus];
  }

  lemma QuietSend(kind: Kind, rate: U64, tr: seq<Event>, e: Event) returns (tr': seq<Event>, d: Delivery)
    requires Quiet(kind, rate, tr) && e.Send? && e.name in BusesAt(tr)
    requires SchedAt(tr).clock <= e.first <= e.second < TWO63
    ensures tr' == tr + [e] && Valid(tr') && BusesAt(tr') == BusesAt(tr)
    ensures d == Posted(|tr|, BusesAt(tr)[e.name].hub, e.src, e.frame, e.first, e.second) && d.targets == []
    ensures SchedAt(tr') == SchedAt(tr).(clock := e.second, queue := multiset{d})
  {
    RunMore(tr, e);
    tr' := tr + [e];
    d := Posted(|tr|, BusesAt(tr)[e.name].hub, e.src, e.frame, e.first, e.second);
  }

  lemma QuietDrain(tr: seq<Event>, d: Delivery) returns (tr': seq<Event>)
    requires Valid(tr) && Idle(SchedAt(tr)) && SchedAt(tr).queue == multiset{d} && d.at <= SchedAt(tr).clock < TWO63
    ensures tr <= tr' && Valid(tr') && BusesAt(tr') == BusesAt(tr)
    ensures SchedAt(tr') == SchedAt(tr).(queue := multiset{}, ready := [d])
  {
    assert multiset([d]) == multiset{d};
    RunMore(tr, Drain(SchedAt(tr).clock, [d]));
    tr' := tr + [Drain(SchedAt(tr).clock, [d])];
  }

  lemma QuietFire(tr: seq<Event>, d: Delivery) returns (tr': seq<Event>)
    requires Valid(tr) && SchedAt(tr).ready == [d] && SchedAt(tr).left == [] && d.targets == []
    ensures tr <= tr' && Valid(tr') && BusesAt(tr') == BusesAt(tr)
    ensures SchedAt(tr') == SchedAt(tr).(ready := [], fired := SchedAt(tr).fired + [Firing(|tr|, d)])
  {
    var pad: Padding := [0, 0, 0, 0, 0, 0, 0, 0];
    assert IsRecord(EncodeRecord(d.frame, pad), d.frame);
    RunMore(tr, Fire(EncodeRecord(d.frame, pad), true));
    tr' := tr + [Fire(EncodeRecord(d.frame, pad), true)];
  }

  // Drain a frame that is due already and fire it.
  lemma QuietEnd(tr: seq<Event>, d: Delivery) returns (tr': seq<Event>)
    requires Valid(tr) && Idle(SchedAt(tr)) && SchedAt(tr).queue == multiset{d} && d.at <= SchedAt(tr).clock < TWO63
    requires d.targets == []
    ensures tr <= tr' && Valid(tr') && BusesAt(tr') == BusesAt(tr)
    ensures Idle(SchedAt(tr')) && SchedAt(tr').queue == multiset{} && SchedAt(tr').clock == SchedAt(tr).clock
    ensures Deliveries(SchedAt(tr').fired) == Deliveries(SchedAt(tr).fired) + [d]
  {
    tr' := QuietDrain(tr, d);
    tr' := QuietFire(tr', d);
  }

  const EMPTY := Frame(0, 0, 0, [])

  // An empty frame on a bus without delay: it fires at the reading it was sent at.
  lemma EmptyFires(kind: Kind, rate: U64, base: nat) returns (tr: seq<Event>, d: Delivery)
    requires base < TWO63
    ensures Quiet(kind, rate, tr) && SchedAt(tr).clock == base
    ensures Deliveries(SchedAt(tr).fired) == [d] && d.at == base
  {
    tr := QuietStart(kind, rate);
    tr, d := QuietSend(kind, rate, tr, Send("fast", None, EMPTY, base, base));
    tr := QuietEnd(tr, d);
    assert [] + [d] == [d];
  }

  // Then a frame on the other bus at the same reading, if it is due already.
  lemma ThenFires(kind: Kind, rate: U64, f: Frame, tr: seq<Event>) returns (tr': seq<Event>, d: Delivery)
    requires Quiet(kind, rate, tr) && SchedAt(tr).clock < TWO63
    requires Due(SchedAt(tr).clock, WireBits(kind, f.proto, |f.payload|), rate) < SchedAt(tr).clock
    ensures Valid(tr') && SentOn(tr', |tr|, kind, rate, f, SchedAt(tr).clock)
    ensures Deliveries(SchedAt(tr').fired) == Deliveries(SchedAt(tr).fired) + [d]
    ensures d.id == |tr| && d.at < SchedAt(tr).clock
  {
    var base := SchedAt(tr).clock;
    tr', d := QuietSend(kind, rate, tr, Send("bus", None, f, base, base));
    var sent := tr';
    tr' := QuietEnd(tr', d);
    ThenSent(kind, rate, f, tr, tr');
  }

  lemma ThenSent(kind: Kind, rate: U64, f: Frame, tr: seq<Event>, tr': seq<Event>)
    requires Quiet(kind, rate, tr)
    requires tr + [Send("bus", None, f, SchedAt(tr).clock, SchedAt(tr).clock)] <= tr'
    ensures SentOn(tr', |tr|, kind, rate, f, SchedAt(tr).clock)
  {
    assert tr'[..|tr|] == tr && tr'[|tr|] == Send("bus", None, f, SchedAt(tr).clock, SchedAt(tr).clock);
  }

  lemma PastIsOutOfTurn(kind: Kind, rate: U64, f: Frame, base: nat) returns (tr: seq<Event>, j: nat)
    requires base < TWO63 && Due(base, WireBits(kind, f.proto, |f.payload|), rate) < base
    ensures Valid(tr) && SentOn(tr, j, kind, rate, f, base) && OutOfTurn(tr, j)
  {
    var d, d';
    tr, d := EmptyFires(kind, rate, base);
    j := |tr|;
    tr, d' := ThenFires(kind, rate, f, tr);
    SecondOutOfTurn(tr, d, d');
  }

  lemma SecondOutOfTurn(tr: seq<Event>, d: Delivery, d': Delivery)
    requires Deliveries(SchedAt(tr).fired) == [d] + [d'] && d'.at < d.at
    ensures OutOfTurn(tr, d'.id)
  {
    var ds := Deliveries(SchedAt(tr).fired);
    assert ds[0] == d && ds[1] == d';
  }

  /** The exact condition for firing in turn: this frame, sent on a bus of this kind and rate with
      its delivery time counted from this reading, fires after a delivery due later in some run if
      and only if the arithmetic of its delivery time overflows. */
  lemma OutOfTurnExactly(kind: Kind, rate: U64, f: Frame, base: nat)
    requires base < TWO63
    ensures (exists tr, j :: Valid(tr) && SentOn(tr, j, kind, rate, f, base) && OutOfTurn(tr, j))
            <==> Overflows(base, WireBits(kind, f.proto, |f.payload|), rate)
  {
    var bits := WireBits(kind, f.proto, |f.payload|);
    PastExactly(base, bits, rate);
    if Due(base, bits, rate) < base {
      var tr, j := PastIsOutOfTurn(kind, rate, f, base);
    }
    if tr, j :| Valid(tr) && SentOn(tr, j, kind, rate, f, base) && OutOfTurn(tr, j) {
      OutOfTurnIsPast(tr, j, kind, rate, f, base);
    }
  }

  /** So on the bus that `create b eth 1` makes there is a run in which a frame of 1152921487 bytes,
      or of one byte less after five seconds, fires after one that is due later. */
  lemma LongFrameOutOfTurn(f: Frame, base: nat) returns (tr: seq<Event>, j: nat)
    requires base < TWO63
    requires |f.payload| == TOO_LONG || (|f.payload| == TOO_LONG - 1 && base >= 5 * BILLION)
    ensures Valid(tr) && SentOn(tr, j, Eth, 1, f, base) && OutOfTurn(tr, j)
  {
    PastOnSlowBus(base);
    PastExactly(base, WireBits(Eth, f.proto, |f.payload|), 1);
    tr, j := PastIsOutOfTurn(Eth, 1, f, base);
  }
}
