// Whole runs of the scheduler: what was sent is pending or fired exactly once, and firings are in
// order of delivery time.
module FiringOrder {
  import opened Bytes
  import opened Engine

  function Deliveries(fired: seq<Firing>): (ds: seq<Delivery>)
    ensures |ds| == |fired|
    ensures forall i :: 0 <= i < |ds| ==> ds[i] == fired[i].d
  {
    seq(|fired|, i requires 0 <= i < |fired| => fired[i].d)
  }

  // The firing line: everything fired so far and then everything the drain in progress will fire.
  function Line(q: Sched): seq<Delivery> {
    Deliveries(q.fired) + q.ready
  }

  // Everything ever posted.
  function All(q: Sched): multiset<Delivery> {
    q.queue + multiset(Line(q))
  }

  // Event j of a run is a Send on a bus that is there.
  predicate AcceptedAt(tr: seq<Event>, j: nat) {
    j < |tr| && PostedBy(Run(tr[..j]), tr[j]).Some?
  }

  function PostedAt(tr: seq<Event>, j: nat): Delivery
    requires AcceptedAt(tr, j)
  {
    PostedBy(Run(tr[..j]), tr[j]).value
  }

  // What can happen to the scheduler, as in Engine.Enabled.
  ghost predicate SchedEnabled(q: Sched, e: Event) {
    match e
    case Send(_, _, _, first, second) => q.clock <= first <= second < TWO63
    case Drain(now, batch) => now < TWO63 && Idle(q) && IsDrain(q.queue, now, batch)
    case Fire(_, _) => q.ready != [] && q.left == []
    case Deliver => q.left != [] && q.fired != []
    case _ => true
  }

  function SchedAt(tr: seq<Event>): Sched {
    Run(tr).sched
  }

  lemma RunStep(tr: seq<Event>) returns (q: Sched, e: Event, posted: Option<Delivery>)
    requires Valid(tr) && tr != []
    ensures q == SchedAt(Before(tr)) && e == Last(tr) && posted == PostedBy(Run(Before(tr)), e)
    ensures SchedEnabled(q, e)
    ensures SchedAt(tr) == NextSched(q, e, posted, |tr| - 1)
    ensures posted.Some? ==> e.Send? && posted.value.id == |tr| - 1
    ensures tr[..|tr| - 1] == Before(tr)
  {
    q, e := SchedAt(Before(tr)), Last(tr);
    posted := PostedBy(Run(Before(tr)), e);
  }

  // ---------- exactly once ----------

  lemma LineStep(q: Sched, e: Event, posted: Option<Delivery>, step: Id)
    requires SchedEnabled(q, e)
    ensures Line(NextSched(q, e, posted, step)) == if e.Drain? then Line(q) + e.batch else Line(q)
  {
    if e.Fire? {
      LineFire(q, step);
    }
  }

  lemma LineFire(q: Sched, step: Id)
    requires q.ready != []
    ensures Deliveries(q.fired + [Firing(step, q.ready[0])]) + q.ready[1..] == Deliveries(q.fired) + q.ready
  {
    assert Deliveries(q.fired + [Firing(step, q.ready[0])]) == Deliveries(q.fired) + [q.ready[0]];
  }

  lemma AllStep(q: Sched, e: Event, posted: Option<Delivery>, step: Id)
    requires SchedEnabled(q, e) && (posted.Some? ==> e.Send?)
    ensures All(NextSched(q, e, posted, step)) == if posted.Some? then All(q) + multiset{posted.value} else All(q)
  {
    LineStep(q, e, posted, step);
  }

  // Every delivery occurs once, was posted by an earlier step, and is told by its step.
  ghost predicate Distinct(all: multiset<Delivery>, step: nat) {
    && (forall d :: d in all ==> all[d] == 1 && d.id < step)
    && (forall d, d' :: d in all && d' in all && d.id == d'.id ==> d == d')
  }

  lemma DistinctGrows(all: multiset<Delivery>, d: Delivery, step: nat)
    requires Distinct(all, step) && d.id == step
    ensures Distinct(all + multiset{d}, step + 1)
  {}

  // What the last event of a run added to everything posted.
  lemma AllGained(tr: seq<Event>) returns (posted: Option<Delivery>)
    requires Valid(tr) && tr != []
    ensures posted == PostedBy(Run(Before(tr)), Last(tr))
    ensures posted.Some? ==> posted.value.id == |tr| - 1
    ensures var all := All(SchedAt(Before(tr)));
            All(SchedAt(tr)) == if posted.Some? then all + multiset{posted.value} else all
  {
    var q, e;
    q, e, posted := RunStep(tr);
    AllStep(q, e, posted, |tr| - 1);
  }

  lemma {:induction false} AllDistinct(tr: seq<Event>)
    requires Valid(tr)
    ensures Distinct(All(SchedAt(tr)), |tr|)
  {
    if tr != [] {
      AllDistinct(Before(tr));
      var posted := AllGained(tr);
      if posted.Some? {
        DistinctGrows(All(SchedAt(Before(tr))), posted.value, |tr| - 1);
      }
    }
  }

  lemma {:induction false} AllGrows(tr: seq<Event>, n: nat, d: Delivery)
    requires Valid(tr) && n <= |tr|
    requires d in All(SchedAt(tr[..n]))
    ensures d in All(SchedAt(tr))
  {
    if n == |tr| {
      assert tr[..n] == tr;
    } else {
      assert Before(tr)[..n] == tr[..n];
      AllGrows(Before(tr), n, d);
      var posted := AllGained(tr);
    }
  }

  // What step j did does not depend on what came after it.
  lemma PostedEarlierStays(tr: seq<Event>, j: nat)
    requires tr != [] && AcceptedAt(Before(tr), j)
    ensures AcceptedAt(tr, j) && PostedAt(tr, j) == PostedAt(Before(tr), j)
  {
    assert Before(tr)[..j] == tr[..j];
  }

  lemma PostedLast(tr: seq<Event>)
    requires tr != [] && PostedBy(Run(Before(tr)), Last(tr)).Some?
    ensures AcceptedAt(tr, |tr| - 1) && PostedAt(tr, |tr| - 1) == PostedBy(Run(Before(tr)), Last(tr)).value
  {
    assert tr[..|tr| - 1] == Before(tr);
  }

  lemma {:induction false} OnlyPosted(tr: seq<Event>, d: Delivery)
    requires Valid(tr) && d in All(SchedAt(tr))
    ensures AcceptedAt(tr, d.id) && d == PostedAt(tr, d.id)
  {
    if tr != [] {
      var posted := AllGained(tr);
      if d in All(SchedAt(Before(tr))) {
        OnlyPosted(Before(tr), d);
        PostedEarlierStays(tr, d.id);
      } else {
        PostedLast(tr);
      }
    }
  }

  lemma PostedIsThere(tr: seq<Event>, j: nat)
    requires Valid(tr) && AcceptedAt(tr, j)
    ensures PostedAt(tr, j) in All(SchedAt(tr))
  {
    var past := tr[..j + 1];
    ValidPrefix(tr, j + 1);
    assert past[..j] == tr[..j];
    var posted := AllGained(past);
    AllGrows(tr, j + 1, PostedAt(tr, j));
  }

  /** In every run each accepted Send is, exactly once, pending, about to fire or fired, as the
      delivery that its own moment made; and nothing else ever is. */
  lemma ExactlyOnce(tr: seq<Event>)
    requires Valid(tr)
    ensures forall j: nat :: AcceptedAt(tr, j) ==> All(SchedAt(tr))[PostedAt(tr, j)] == 1
    ensures forall d :: d in All(SchedAt(tr)) ==> AcceptedAt(tr, d.id) && d == PostedAt(tr, d.id)
  {
    AllDistinct(tr);
    forall j: nat | AcceptedAt(tr, j) ensures All(SchedAt(tr))[PostedAt(tr, j)] == 1 {
      PostedIsThere(tr, j);
    }
    forall d | d in All(SchedAt(tr)) ensures AcceptedAt(tr, d.id) && d == PostedAt(tr, d.id) {
      OnlyPosted(tr, d);
    }
  }

  // ---------- in order ----------

  // Of two deliveries posted, the one due strictly earlier is ahead in the line whenever the
  // other is in it.
  ghost predicate Ahead(q: Sched, d: Delivery, d': Delivery) {
    forall y :: 0 <= y < |Line(q)| && Line(q)[y] == d' ==> d in Line(q)[..y]
  }

  // What is in the line has come due.
  ghost predicate LineDue(q: Sched) {
    forall d :: d in Line(q) ==> d.at <= q.clock
  }

  lemma LineDueStep(q: Sched, e: Event, posted: Option<Delivery>, step: Id)
    requires LineDue(q) && SchedEnabled(q, e)
    ensures LineDue(NextSched(q, e, posted, step))
  {
    LineStep(q, e, posted, step);
  }

  lemma {:induction false} LineAlwaysDue(tr: seq<Event>)
    requires Valid(tr)
    ensures LineDue(SchedAt(tr))
  {
    if tr != [] {
      LineAlwaysDue(Before(tr));
      var q, e, posted := RunStep(tr);
      LineDueStep(q, e, posted, |tr| - 1);
    }
  }

  lemma AheadStep(q: Sched, e: Event, posted: Option<Delivery>, step: Id, d: Delivery, d': Delivery)
    requires SchedEnabled(q, e) && Ahead(q, d, d') && d in All(q) && d.at < d'.at
    ensures Ahead(NextSched(q, e, posted, step), d, d')
  {
    LineStep(q, e, posted, step);
    if e.Drain? {
      AheadDrain(q, e.now, e.batch, d, d');
    }
  }

  lemma AheadDrain(q: Sched, now: nat, batch: seq<Delivery>, d: Delivery, d': Delivery)
    requires IsDrain(q.queue, now, batch) && Ahead(q, d, d') && d in All(q) && d.at < d'.at
    ensures forall y :: 0 <= y < |Line(q) + batch| && (Line(q) + batch)[y] == d' ==> d in (Line(q) + batch)[..y]
  {
    var line := Line(q);
    forall y | 0 <= y < |line + batch| && (line + batch)[y] == d' ensures d in (line + batch)[..y] {
      SlicesOfSum(line, batch, y);
      if y >= |line| && d !in line {
        var x := TakenToo(q.queue, now, batch, d, y - |line|);
        assert batch[..y - |line|][x] == d;
      }
    }
  }

  lemma SlicesOfSum(a: seq<Delivery>, b: seq<Delivery>, y: nat)
    requires y <= |a + b|
    ensures (a + b)[..y] == if y < |a| then a[..y] else a + b[..y - |a|]
  {}

  lemma TakenToo(queue: multiset<Delivery>, now: nat, batch: seq<Delivery>, d: Delivery, y: nat) returns (x: nat)
    requires IsDrain(queue, now, batch) && d in queue && y < |batch| && d.at < batch[y].at
    ensures x < y && batch[x] == d
  {
    assert batch[y] in batch;
    assert d in multiset(batch);
    assert d in batch;
    x :| 0 <= x < |batch| && batch[x] == d;
  }

  // The delivery time of send j is not before the readings it was computed from.
  predicate InFuture(tr: seq<Event>, j: nat)
    requires AcceptedAt(tr, j)
  {
    PostedAt(tr, j).at >= tr[j].first
  }

  // Nothing that is due later is in the line when d is posted, unless d is due in the past.
  lemma NotInLineYet(past: seq<Event>, d: Delivery, d': Delivery)
    requires Valid(past) && d.id == |past| && d.at < d'.at
    requires d.id < d'.id || d.at >= SchedAt(past).clock
    ensures d' !in Line(SchedAt(past))
  {
    LineAlwaysDue(past);
    AllDistinct(past);
    assert d' in Line(SchedAt(past)) ==> d' in All(SchedAt(past));
  }

  lemma AheadWhenPosted(tr: seq<Event>, d: Delivery, d': Delivery)
    requires Valid(tr) && tr != [] && d.at < d'.at && Last(tr).Send?
    requires PostedBy(Run(Before(tr)), Last(tr)) == Some(d) && (d.id < d'.id || d.at >= Last(tr).first)
    ensures Ahead(SchedAt(tr), d, d')
  {
    var q, e, posted := RunStep(tr);
    LineStep(q, e, posted, |tr| - 1);
    NotInLineYet(Before(tr), d, d');
  }

  lemma AheadLater(tr: seq<Event>, d: Delivery, d': Delivery)
    requires Valid(tr) && tr != [] && d.at < d'.at
    requires d in All(SchedAt(Before(tr))) && Ahead(SchedAt(Before(tr)), d, d')
    ensures Ahead(SchedAt(tr), d, d')
  {
    var q, e, posted := RunStep(tr);
    AheadStep(q, e, posted, |tr| - 1, d, d');
  }

  lemma {:induction false} AlwaysAhead(tr: seq<Event>, j: nat, d': Delivery)
    requires Valid(tr) && AcceptedAt(tr, j) && PostedAt(tr, j).at < d'.at
    requires j < d'.id || InFuture(tr, j)
    ensures Ahead(SchedAt(tr), PostedAt(tr, j), d')
  {
    if j == |tr| - 1 {
      assert tr[..j] == Before(tr);
      AheadWhenPosted(tr, PostedAt(tr, j), d');
    } else {
      assert Before(tr)[..j] == tr[..j];
      AlwaysAhead(Before(tr), j, d');
      PostedIsThere(Before(tr), j);
      AheadLater(tr, PostedAt(tr, j), d');
    }
  }

  /** Of any two sends, the one due strictly earlier fires first: when the later one has fired,
      the earlier one has fired before it. This holds of the one sent first whatever its time, and
      of the other if its time is not in the past. */
  lemma EarlierFiresFirst(tr: seq<Event>, j: nat, k: nat, y: nat) returns (x: nat)
    requires Valid(tr) && AcceptedAt(tr, j) && AcceptedAt(tr, k)
    requires PostedAt(tr, j).at < PostedAt(tr, k).at
    requires j < k || InFuture(tr, j)
    requires y < |SchedAt(tr).fired| && SchedAt(tr).fired[y].d == PostedAt(tr, k)
    ensures x < y && SchedAt(tr).fired[x].d == PostedAt(tr, j)
  {
    AlwaysAhead(tr, j, PostedAt(tr, k));
    var line := Line(SchedAt(tr));
    assert line[y] == PostedAt(tr, k);
    x :| 0 <= x < y && line[..y][x] == PostedAt(tr, j);
  }

  lemma PlacesDiffer(tr: seq<Event>, x: nat, y: nat)
    requires Valid(tr) && x < y < |Line(SchedAt(tr))|
    ensures Line(SchedAt(tr))[x].id != Line(SchedAt(tr))[y].id
  {
    var line := Line(SchedAt(tr));
    AllDistinct(tr);
    Twice(line, x, y);
    assert line[x] in All(SchedAt(tr)) && line[y] in All(SchedAt(tr));
  }

  lemma Twice(line: seq<Delivery>, x: nat, y: nat)
    requires x < y < |line|
    ensures line[x] == line[y] ==> multiset(line)[line[x]] >= 2
  {
    assert line == line[..y] + line[y..];
    assert line[x] in multiset(line[..y]) && line[y] in multiset(line[y..]);
  }

  /** A frame that is not due in the past never fires after one that is due later, over all drains
      of any run and whatever the other sends are. */
  lemma FiresInTurn(tr: seq<Event>, x: nat, y: nat)
    requires Valid(tr) && x < y < |Line(SchedAt(tr))|
    requires var j := Line(SchedAt(tr))[y].id; AcceptedAt(tr, j) && InFuture(tr, j)
    ensures Line(SchedAt(tr))[x].at <= Line(SchedAt(tr))[y].at
  {
    var line := Line(SchedAt(tr));
    assert line[y] in All(SchedAt(tr));
    OnlyPosted(tr, line[y]);
    if line[y].at < line[x].at {
      AlwaysAhead(tr, line[y].id, line[x]);
      var z :| 0 <= z < x && line[..x][z] == line[y];
      PlacesDiffer(tr, z, y);
    }
  }

  // Nor is one that is still queued due before one in the line.
  lemma QueueIsLater(tr: seq<Event>, x: nat, p: Delivery)
    requires Valid(tr) && x < |Line(SchedAt(tr))| && p in SchedAt(tr).queue
    requires AcceptedAt(tr, p.id) && InFuture(tr, p.id)
    ensures Line(SchedAt(tr))[x].at <= p.at
  {
    var q := SchedAt(tr);
    OnlyPosted(tr, p);
    AllDistinct(tr);
    NotBoth(q, p);
    if p.at < Line(q)[x].at {
      AlwaysAhead(tr, p.id, Line(q)[x]);
    }
  }

  lemma NotBoth(q: Sched, p: Delivery)
    ensures p in q.queue && p in Line(q) ==> All(q)[p] >= 2
  {}

  // None of the frames sent is due in the past.
  ghost predicate AllInFuture(tr: seq<Event>) {
    forall j: nat :: AcceptedAt(tr, j) ==> InFuture(tr, j)
  }

  lemma PlaceInFuture(tr: seq<Event>, d: Delivery)
    requires Valid(tr) && AllInFuture(tr) && d in All(SchedAt(tr))
    ensures AcceptedAt(tr, d.id) && InFuture(tr, d.id)
  {
    OnlyPosted(tr, d);
  }

  /** So in a run none of whose frames is due in the past, the delivery times fired never decrease
      over all drains, and what is still to come is not earlier than what has fired. */
  lemma FiredInOrder(tr: seq<Event>)
    requires Valid(tr) && AllInFuture(tr)
    ensures InOrder(Line(SchedAt(tr)))
    ensures forall x, p :: 0 <= x < |Line(SchedAt(tr))| && p in SchedAt(tr).queue ==> Line(SchedAt(tr))[x].at <= p.at
  {
    var line, queue, all := Line(SchedAt(tr)), SchedAt(tr).queue, All(SchedAt(tr));
    forall x, y | 0 <= x < y < |line| ensures line[x].at <= line[y].at {
      assert line[y] in all;
      PlaceInFuture(tr, line[y]);
      FiresInTurn(tr, x, y);
    }
    forall x, p | 0 <= x < |line| && p in queue ensures line[x].at <= p.at {
      assert p in all;
      PlaceInFuture(tr, p);
      QueueIsLater(tr, x, p);
    }
  }

  // ---------- not too early ----------

  // One more than the number of the last drain's step, or 0 before any drain.
  function LatestDrain(tr: seq<Event>): (c: nat)
    ensures c <= |tr|
    ensures c > 0 ==> tr[c - 1].Drain?
  {
    if tr == [] then 0 else if Last(tr).Drain? then |tr| else LatestDrain(Before(tr))
  }

  // What is ready was sent before the latest drain, which came when it was due.
  ghost predicate DrainedIn(tr: seq<Event>, c: nat, d: Delivery) {
    0 < c <= |tr| && tr[c - 1].Drain? && d.id < c - 1 && d.at <= tr[c - 1].now
  }

  lemma {:induction false} ReadyWasDrained(tr: seq<Event>, d: Delivery)
    requires Valid(tr) && d in SchedAt(tr).ready
    ensures DrainedIn(tr, LatestDrain(tr), d)
  {
    var q, e, posted := RunStep(tr);
    if e.Drain? {
      FromQueue(q, e.now, e.batch, d);
      PostedEarlier(Before(tr), d);
    } else {
      ReadyWas(q, e, posted, |tr| - 1, d);
      ReadyWasDrained(Before(tr), d);
    }
  }

  lemma FromQueue(q: Sched, now: nat, batch: seq<Delivery>, d: Delivery)
    requires IsDrain(q.queue, now, batch) && d in batch
    ensures d in All(q) && d.at <= now
  {
    assert d in multiset(batch);
  }

  lemma PostedEarlier(tr: seq<Event>, d: Delivery)
    requires Valid(tr) && d in All(SchedAt(tr))
    ensures d.id < |tr|
  {
    AllDistinct(tr);
  }

  lemma ReadyWas(q: Sched, e: Event, posted: Option<Delivery>, step: Id, d: Delivery)
    requires SchedEnabled(q, e) && !e.Drain?
    requires d in NextSched(q, e, posted, step).ready
    ensures d in q.ready
  {}

  /** No frame fires before its delivery time, and a drain never fires what was posted after it
      began: whatever fires was sent before the latest drain, whose time had reached its own. */
  lemma NotBeforeItsTime(tr: seq<Event>, k: nat) returns (d: Delivery)
    requires Valid(tr) && k < |tr| && tr[k].Fire?
    ensures SchedAt(tr[..k + 1]).fired == SchedAt(tr[..k]).fired + [Firing(k, d)]
    ensures DrainedIn(tr[..k], LatestDrain(tr[..k]), d)
  {
    ValidPrefix(tr, k + 1);
    ValidPrefix(tr, k);
    assert tr[..k + 1][..k] == tr[..k];
    d := FiredBy(tr[..k + 1]);
    ReadyWasDrained(tr[..k], d);
  }

  lemma FiredBy(tr: seq<Event>) returns (d: Delivery)
    requires Valid(tr) && tr != [] && Last(tr).Fire?
    ensures d in SchedAt(Before(tr)).ready
    ensures SchedAt(tr).fired == SchedAt(Before(tr)).fired + [Firing(|tr| - 1, d)]
  {
    var q, e, posted := RunStep(tr);
    d := q.ready[0];
  }
}
