// Who receives a frame, and what the counters of a bus count.
module Fanout {
  import opened Arith
  import opened Engine
  import opened FiringOrder
  import opened Taps

  // ---------- connections ----------

  // How often an endpoint is connected to a bus, read off the run: once for each Connect since
  // it was last disconnected, on the bus that now has the name.
  ghost function Connections(tr: seq<Event>, b: string, ep: Endpoint): nat {
    if tr == [] then 0
    else
      var e, earlier := Last(tr), Connections(Before(tr), b, ep);
      if e == Connect(b, ep) && Live(Before(tr), b) then earlier + 1
      else if e == Disconnect(b, ep) || e == Delete(b) then 0
      else earlier
  }

  lemma {:induction false} OthersCount(endpoints: seq<Endpoint>, src: Option<Endpoint>, ep: Endpoint)
    ensures multiset(Others(endpoints, src))[ep] == if src == Some(ep) then 0 else multiset(endpoints)[ep]
  {
    if endpoints != [] {
      var earlier, last := endpoints[..|endpoints| - 1], endpoints[|endpoints| - 1];
      assert endpoints == earlier + [last];
      OthersCount(earlier, src, ep);
    }
  }

  function EndpointsOf(buses: map<string, Wrap>, b: string): seq<Endpoint> {
    if b in buses then buses[b].hub.endpoints else []
  }

  lemma EndpointsStep(buses: map<string, Wrap>, e: Event, step: Id, b: string, ep: Endpoint)
    ensures multiset(EndpointsOf(NextBuses(buses, e, step), b))[ep] ==
            if e == Connect(b, ep) && b in buses then multiset(EndpointsOf(buses, b))[ep] + 1
            else if e == Disconnect(b, ep) || e == Delete(b) then 0
            else multiset(EndpointsOf(buses, b))[ep]
  {
    if b in buses && e.Disconnect? && e.name == b {
      OthersCount(buses[b].hub.endpoints, Some(e.ep), ep);
    }
  }

  lemma {:induction false} EndpointsAreConnections(tr: seq<Event>, b: string, ep: Endpoint)
    ensures multiset(EndpointsOf(BusesAt(tr), b))[ep] == Connections(tr, b, ep)
  {
    if tr != [] {
      EndpointsAreConnections(Before(tr), b, ep);
      LiveIsThere(Before(tr), b);
      BusesStep(tr);
      EndpointsStep(BusesAt(Before(tr)), Last(tr), |tr| - 1, b, ep);
    }
  }

  /** The targets of a frame are the endpoint occurrences connected when it was sent, other than
      its sender. */
  lemma TargetsAreConnections(tr: seq<Event>, j: nat, ep: Endpoint)
    requires AcceptedAt(tr, j)
    ensures multiset(PostedAt(tr, j).targets)[ep] ==
            if tr[j].src == Some(ep) then 0 else Connections(tr[..j], tr[j].name, ep)
  {
    EndpointsAreConnections(tr[..j], tr[j].name, ep);
    OthersCount(EndpointsOf(BusesAt(tr[..j]), tr[j].name), tr[j].src, ep);
  }

  /** The targets keep the order of the endpoints: each endpoint of a list is left out or stays where it
      is among the others. */
  lemma {:induction false} OthersInOrder(a: seq<Endpoint>, x: Endpoint, b: seq<Endpoint>, ep: Option<Endpoint>)
    ensures Others(a + [x] + b, ep) == Others(a, ep) + (if Some(x) == ep then [] else [x]) + Others(b, ep)
    decreases |b|
  {
    var all := a + [x] + b;
    if b == [] {
      assert all[..|all| - 1] == a;
    } else {
      assert all[..|all| - 1] == a + [x] + b[..|b| - 1];
      OthersInOrder(a, x, b[..|b| - 1], ep);
    }
  }

  // ---------- receipts ----------

  function Receipts(targets: seq<Endpoint>, id: Id): (r: seq<Receipt>)
    ensures |r| == |targets|
  {
    seq(|targets|, i requires 0 <= i < |targets| => Receipt(targets[i], id))
  }

  // Every fired delivery to all its targets, in order.
  function AllReceipts(ds: seq<Delivery>): seq<Receipt> {
    if ds == [] then []
    else AllReceipts(ds[..|ds| - 1]) + Receipts(ds[|ds| - 1].targets, ds[|ds| - 1].id)
  }

  // What the delivery under way has still to reach.
  function Remaining(q: Sched): seq<Receipt> {
    if q.left == [] || q.fired == [] then [] else Receipts(q.left, q.fired[|q.fired| - 1].d.id)
  }

  ghost predicate Reaching(q: Sched) {
    && (q.left != [] ==> q.fired != [])
    && q.received + Remaining(q) == AllReceipts(Deliveries(q.fired))
  }

  lemma AllReceiptsMore(ds: seq<Delivery>, d: Delivery)
    ensures AllReceipts(ds + [d]) == AllReceipts(ds) + Receipts(d.targets, d.id)
  {
    assert (ds + [d])[..|ds|] == ds;
  }

  lemma ReachingFire(q: Sched, step: Id)
    requires Reaching(q) && q.ready != [] && q.left == []
    ensures Reaching(q.(ready := q.ready[1..], left := q.ready[0].targets,
                        fired := q.fired + [Firing(step, q.ready[0])]))
  {
    var d := q.ready[0];
    AllReceiptsMore(Deliveries(q.fired), d);
    assert Deliveries(q.fired + [Firing(step, d)]) == Deliveries(q.fired) + [d];
    assert q.received + [] == q.received;
    assert Receipts([], d.id) == [];
  }

  lemma ReachingDeliver(q: Sched, id: Id)
    requires Reaching(q) && q.left != [] && id == q.fired[|q.fired| - 1].d.id
    ensures Reaching(q.(left := q.left[1..], received := q.received + [Receipt(q.left[0], id)]))
  {
    assert Receipts(q.left, id) == [Receipt(q.left[0], id)] + Receipts(q.left[1..], id);
    assert Receipts([], id) == [];
    Regrouped(q.received, Receipt(q.left[0], id), Receipts(q.left[1..], id));
  }

  lemma ReachingStep(q: Sched, e: Event, posted: Option<Delivery>, step: Id)
    requires Reaching(q) && SchedEnabled(q, e)
    ensures Reaching(NextSched(q, e, posted, step))
  {
    if e.Fire? {
      ReachingFire(q, step);
    } else if e.Deliver? {
      ReachingDeliver(q, q.fired[|q.fired| - 1].d.id);
    }
  }

  /** In every run the frames received are those of the fired deliveries, in firing order and each to its
      targets in their order, as far as the delivery under way has come. */
  lemma {:induction false} AlwaysReaching(tr: seq<Event>)
    requires Valid(tr)
    ensures Reaching(SchedAt(tr))
  {
    if tr == [] {
      assert Deliveries(INIT.sched.fired) == [];
    } else {
      AlwaysReaching(Before(tr));
      var q, e, posted := RunStep(tr);
      ReachingStep(q, e, posted, |tr| - 1);
    }
  }

  lemma {:induction false} ReceiptsCount(targets: seq<Endpoint>, id: Id, ep: Endpoint, j: Id)
    ensures multiset(Receipts(targets, id))[Receipt(ep, j)] == if j == id then multiset(targets)[ep] else 0
  {
    if targets != [] {
      var earlier, last := targets[..|targets| - 1], targets[|targets| - 1];
      assert targets == earlier + [last];
      assert Receipts(targets, id) == Receipts(earlier, id) + [Receipt(last, id)];
      ReceiptsCount(earlier, id, ep, j);
    }
  }

  lemma {:induction false} NoReceipts(ds: seq<Delivery>, ep: Endpoint, j: Id)
    requires forall i :: 0 <= i < |ds| ==> ds[i].id != j
    ensures multiset(AllReceipts(ds))[Receipt(ep, j)] == 0
  {
    if ds != [] {
      NoReceipts(ds[..|ds| - 1], ep, j);
      ReceiptsCount(ds[|ds| - 1].targets, ds[|ds| - 1].id, ep, j);
    }
  }

  lemma {:induction false} OneReceiptEach(ds: seq<Delivery>, ep: Endpoint, y: nat)
    requires y < |ds| && forall i :: 0 <= i < |ds| && i != y ==> ds[i].id != ds[y].id
    ensures multiset(AllReceipts(ds))[Receipt(ep, ds[y].id)] == multiset(ds[y].targets)[ep]
  {
    var earlier, last := ds[..|ds| - 1], ds[|ds| - 1];
    ReceiptsCount(last.targets, last.id, ep, ds[y].id);
    if y == |ds| - 1 {
      NoReceipts(earlier, ep, last.id);
    } else {
      OneReceiptEach(earlier, ep, y);
    }
  }

  /** Fan-out. Once a fired frame has been given to all its targets, each endpoint has received it
      exactly as many times as it was connected to the bus when the frame was sent, and its
      sender not at all. */
  lemma FanOut(tr: seq<Event>, y: nat, ep: Endpoint)
    requires Valid(tr) && SchedAt(tr).left == [] && y < |SchedAt(tr).fired|
    ensures var j := SchedAt(tr).fired[y].d.id;
            && AcceptedAt(tr, j)
            && multiset(SchedAt(tr).received)[Receipt(ep, j)] ==
               if tr[j].src == Some(ep) then 0 else Connections(tr[..j], tr[j].name, ep)
  {
    var q := SchedAt(tr);
    var ds := Deliveries(q.fired);
    var d := ds[y];
    AlwaysReaching(tr);
    assert q.received + [] == q.received;
    assert Line(q)[y] == d && d in All(q);
    OnlyPosted(tr, d);
    TargetsAreConnections(tr, d.id, ep);
    forall i | 0 <= i < |ds| && i != y ensures ds[i].id != d.id {
      assert Line(q)[i] == ds[i];
      if i < y { PlacesDiffer(tr, i, y); } else { PlacesDiffer(tr, y, i); }
    }
    OneReceiptEach(ds, ep, y);
  }

  /** And nobody receives a frame that has not fired. */
  lemma NothingUnfired(tr: seq<Event>, ep: Endpoint, j: Id)
    requires Valid(tr)
    requires forall i :: 0 <= i < |SchedAt(tr).fired| ==> SchedAt(tr).fired[i].d.id != j
    ensures Receipt(ep, j) !in SchedAt(tr).received
  {
    var q := SchedAt(tr);
    AlwaysReaching(tr);
    NoReceipts(Deliveries(q.fired), ep, j);
    var all := q.received + Remaining(q);
    assert Receipt(ep, j) !in multiset(all);
    assert multiset(all) == multiset(q.received) + multiset(Remaining(q));
    assert Receipt(ep, j) !in multiset(q.received);
  }

  // ---------- counters ----------

  // The deliveries of one bus.
  ghost function Of(ds: multiset<Delivery>, u: Id): set<Delivery> {
    set d | d in ds && d.bus == u
  }

  // The targets of all deliveries of one bus.
  function TargetCount(ds: seq<Delivery>, u: Id): nat {
    if ds == [] then 0
    else
      var earlier, last := TargetCount(ds[..|ds| - 1], u), ds[|ds| - 1];
      if last.bus == u then earlier + |last.targets| else earlier
  }

  // Every bus that a delivery belongs to, and every live one, has its counters.
  ghost predicate Counters(s: State) {
    && s.tx.Keys == s.rx.Keys
    && (forall u :: u in s.tx ==> u < s.step)
    && (forall b :: b in s.buses ==> s.buses[b].hub.id in s.tx)
    && (forall d :: d in All(s.sched) ==> d.bus in s.tx)
  }

  lemma CountersStep(s: State, e: Event)
    requires Counters(s) && Enabled(s, e)
    ensures Counters(Apply(s, e))
  {
    CountersKeys(s, e);
    BusesKeepCounters(s, e);
    AllKeepCounters(s, e);
  }

  lemma AllKeepCounters(s: State, e: Event)
    requires Counters(s) && Enabled(s, e)
    ensures forall d :: d in All(NextSched(s.sched, e, PostedBy(s, e), s.step)) ==> d.bus in NextTx(s, e)
  {
    CountersKeys(s, e);
    AllStep(s.sched, e, PostedBy(s, e), s.step);
    KnownMore(All(s.sched), PostedBy(s, e), s.tx.Keys, NextTx(s, e).Keys);
  }

  lemma KnownMore(all: multiset<Delivery>, posted: Option<Delivery>, known: set<Id>, known': set<Id>)
    requires known <= known' && (forall d :: d in all ==> d.bus in known)
    requires posted.Some? ==> posted.value.bus in known
    ensures forall d :: d in (if posted.Some? then all + multiset{posted.value} else all) ==> d.bus in known'
  {}

  lemma CountersKeys(s: State, e: Event)
    requires Counters(s)
    ensures NextTx(s, e).Keys == NextRx(s, e).Keys
    ensures NextTx(s, e).Keys == if e.Create? && e.name !in s.buses then s.tx.Keys + {s.step} else s.tx.Keys
  {}

  lemma BusesKeepCounters(s: State, e: Event)
    requires Counters(s)
    ensures forall b :: b in NextBuses(s.buses, e, s.step) ==> NextBuses(s.buses, e, s.step)[b].hub.id in NextTx(s, e)
  {}

  lemma {:induction false} AlwaysCounters(tr: seq<Event>)
    requires Valid(tr)
    ensures Counters(Run(tr))
  {
    if tr != [] {
      AlwaysCounters(Before(tr));
      CountersStep(Run(Before(tr)), Last(tr));
    }
  }

  lemma OfMore(all: multiset<Delivery>, d: Delivery, u: Id)
    requires d !in all
    ensures |Of(all + multiset{d}, u)| == |Of(all, u)| + if d.bus == u then 1 else 0
  {
    assert Of(all + multiset{d}, u) == if d.bus == u then Of(all, u) + {d} else Of(all, u);
  }

  lemma NewIsNew(tr: seq<Event>, d: Delivery)
    requires Valid(tr) && d.id == |tr|
    ensures d !in All(SchedAt(tr))
  {
    AllDistinct(tr);
  }

  lemma TxStep(s: State, e: Event, u: Id)
    requires Counters(s) && u in NextTx(s, e)
    ensures NextTx(s, e)[u] ==
            if u !in s.tx then 0
            else s.tx[u] + if PostedBy(s, e).Some? && PostedBy(s, e).value.bus == u then 1 else 0
  {}

  // Tx less the bus's deliveries, 0 for a bus that is not there yet.
  ghost function TxAhead(s: State, u: Id): int {
    if u in s.tx then s.tx[u] - |Of(All(s.sched), u)| else 0
  }

  lemma TxMoves(s: State, e: Event, u: Id)
    requires Counters(s) && Enabled(s, e) && u in NextTx(s, e)
    requires PostedBy(s, e).Some? ==> PostedBy(s, e).value !in All(s.sched)
    ensures NextTx(s, e)[u] - |Of(All(NextSched(s.sched, e, PostedBy(s, e), s.step)), u)| == TxAhead(s, u)
  {
    TxStep(s, e, u);
    AllStep(s.sched, e, PostedBy(s, e), s.step);
    if PostedBy(s, e).Some? {
      OfMore(All(s.sched), PostedBy(s, e).value, u);
    }
    if u !in s.tx {
      assert Of(All(s.sched), u) == {};
    }
  }

  lemma TxAfter(tr: seq<Event>, u: Id)
    requires Valid(tr) && tr != [] && u in Run(tr).tx
    ensures TxAhead(Run(tr), u) == TxAhead(Run(Before(tr)), u)
  {
    AlwaysCounters(Before(tr));
    var posted := AllGained(tr);
    if posted.Some? {
      NewIsNew(Before(tr), posted.value);
    }
    TxMoves(Run(Before(tr)), Last(tr), u);
  }

  lemma {:induction false} TxNeverAhead(tr: seq<Event>, u: Id)
    requires Valid(tr)
    ensures TxAhead(Run(tr), u) == 0
  {
    if u in Run(tr).tx {
      TxAfter(tr, u);
      TxNeverAhead(Before(tr), u);
    }
  }

  lemma OfSplits(a: multiset<Delivery>, b: multiset<Delivery>, u: Id)
    requires forall d :: d in a + b ==> (a + b)[d] == 1
    ensures |Of(a + b, u)| == |Of(a, u)| + |Of(b, u)|
  {
    assert Of(a + b, u) == Of(a, u) + Of(b, u);
    forall d | d in Of(a, u) ensures d !in Of(b, u) {
      assert (a + b)[d] == 1;
    }
  }

  /** Conservation: a bus's Tx counter is the number of its frames still pending and of those
      fired. */
  lemma TxConserved(tr: seq<Event>, u: Id)
    requires Valid(tr) && u in Run(tr).tx
    ensures var q := SchedAt(tr);
            Run(tr).tx[u] == |Of(q.queue + multiset(q.ready), u)| + |Of(multiset(Deliveries(q.fired)), u)|
  {
    var q := SchedAt(tr);
    TxNeverAhead(tr, u);
    AllDistinct(tr);
    var pending, fired := q.queue + multiset(q.ready), multiset(Deliveries(q.fired));
    assert All(q) == pending + fired;
    OfSplits(pending, fired, u);
  }

  // Targets that the delivery under way has still to reach on bus u.
  function RemainingOn(q: Sched, u: Id): nat {
    if q.fired != [] && q.fired[|q.fired| - 1].d.bus == u then |q.left| else 0
  }

  lemma TargetCountMore(ds: seq<Delivery>, d: Delivery, u: Id)
    ensures TargetCount(ds + [d], u) == TargetCount(ds, u) + if d.bus == u then |d.targets| else 0
  {
    assert (ds + [d])[..|ds|] == ds;
  }

  lemma RxStep(s: State, e: Event, u: Id)
    requires Counters(s) && u in s.rx && Enabled(s, e)
    ensures u in NextRx(s, e)
    ensures NextRx(s, e)[u] ==
            s.rx[u] + if e.Deliver? && s.sched.fired[|s.sched.fired| - 1].d.bus == u then 1 else 0
  {}

  // Targets fired at, less those still to reach.
  function ReachedOn(q: Sched, u: Id): int {
    TargetCount(Deliveries(q.fired), u) - RemainingOn(q, u)
  }

  lemma ReachedStep(q: Sched, e: Event, posted: Option<Delivery>, step: Id, u: Id)
    requires SchedEnabled(q, e)
    ensures ReachedOn(NextSched(q, e, posted, step), u) ==
            ReachedOn(q, u) + if e.Deliver? && q.fired[|q.fired| - 1].d.bus == u then 1 else 0
  {
    if e.Fire? {
      assert Deliveries(NextSched(q, e, posted, step).fired) == Deliveries(q.fired) + [q.ready[0]];
      TargetCountMore(Deliveries(q.fired), q.ready[0], u);
    }
  }

  lemma {:induction false} NoTargets(ds: seq<Delivery>, u: Id)
    requires forall i :: 0 <= i < |ds| ==> ds[i].bus != u
    ensures TargetCount(ds, u) == 0
  {
    if ds != [] {
      NoTargets(ds[..|ds| - 1], u);
    }
  }

  lemma NothingReached(s: State, u: Id)
    requires Counters(s) && u !in s.rx
    ensures ReachedOn(s.sched, u) == 0
  {
    var q := s.sched;
    forall i | 0 <= i < |q.fired| ensures Deliveries(q.fired)[i].bus != u {
      assert Line(q)[i] in All(q);
    }
    NoTargets(Deliveries(q.fired), u);
  }

  lemma RxMoves(s: State, e: Event, u: Id)
    requires Counters(s) && Enabled(s, e) && u in NextRx(s, e)
    ensures NextRx(s, e)[u] - ReachedOn(NextSched(s.sched, e, PostedBy(s, e), s.step), u) == RxAhead(s, u)
  {
    ReachedStep(s.sched, e, PostedBy(s, e), s.step, u);
    if u in s.rx {
      RxStep(s, e, u);
    } else {
      NothingReached(s, u);
    }
  }

  // Rx less what was reached, 0 for a bus that is not there yet.
  function RxAhead(s: State, u: Id): int {
    if u in s.rx then s.rx[u] - ReachedOn(s.sched, u) else 0
  }

  lemma RxAfter(tr: seq<Event>, u: Id)
    requires Valid(tr) && tr != [] && u in Run(tr).rx
    ensures RxAhead(Run(tr), u) == RxAhead(Run(Before(tr)), u)
  {
    AlwaysCounters(Before(tr));
    RxMoves(Run(Before(tr)), Last(tr), u);
  }

  lemma {:induction false} NeverAhead(tr: seq<Event>, u: Id)
    requires Valid(tr)
    ensures RxAhead(Run(tr), u) == 0
  {
    if u in Run(tr).rx {
      RxAfter(tr, u);
      NeverAhead(Before(tr), u);
    }
  }

  /** A bus's Rx counter is the number of targets of its fired frames, less those that the
      delivery under way has still to reach. */
  lemma RxConserved(tr: seq<Event>, u: Id)
    requires Valid(tr) && u in Run(tr).rx
    ensures Run(tr).rx[u] == TargetCount(Deliveries(SchedAt(tr).fired), u) - RemainingOn(SchedAt(tr), u)
  {
    NeverAhead(tr, u);
  }
}
