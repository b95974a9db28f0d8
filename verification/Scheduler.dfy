// The queue of timed deliveries (vbus/src/core/scheduler.cpp).
module Scheduling {
  import opened Engine

  // d is due no later than anything else in the queue.
  ghost predicate IsLeast(queue: multiset<Delivery>, d: Delivery) {
    d in queue && forall x :: x in queue ==> d.at <= x.at
  }

  lemma {:induction false} SomeLeast(queue: multiset<Delivery>) returns (d: Delivery)
    requires queue != multiset{}
    ensures IsLeast(queue, d)
    decreases |queue|
  {
    d :| d in queue;
    var rest := queue - multiset{d};
    assert forall y :: y in queue ==> y == d || y in rest;
    if rest != multiset{} {
      var x := SomeLeast(rest);
      if x.at < d.at {
        d := x;
      }
    }
  }

  /** What a drain takes: every delivery exactly as often as it is queued if it is due at the given time,
      none that is not due, and all in order of time. */
  lemma TakesExactlyDue(queue: multiset<Delivery>, now: nat, batch: seq<Delivery>)
    ensures IsDrain(queue, now, batch) <==>
            && (forall i, j :: 0 <= i < j < |batch| ==> batch[i].at <= batch[j].at)
            && forall d :: multiset(batch)[d] == if d.at <= now then queue[d] else 0
  {
    var taken := multiset(batch);
    if IsDrain(queue, now, batch) {
      forall d ensures taken[d] == if d.at <= now then queue[d] else 0 {
        if d.at <= now {
          assert d !in queue - taken;
        } else {
          assert d !in batch;
        }
      }
    }
    if forall d :: taken[d] == if d.at <= now then queue[d] else 0 {
      forall d | d in batch ensures d.at <= now {
        assert taken[d] > 0;
      }
    }
  }

  class Scheduler {
    // std::priority_queue by its contract: `top` is some least item, and the comparison looks at
    // the time alone.
    var queue: multiset<Delivery>

    constructor ()
      ensures queue == multiset{}
    {
      queue := multiset{};
    }

    method Post(d: Delivery)
      modifies this
      ensures queue == old(queue) + multiset{d}
    {
      queue := queue + multiset{d};
    }

    method Top() returns (d: Delivery)
      requires queue != multiset{}
      ensures IsLeast(queue, d)
    {
      ghost var witness_ := SomeLeast(queue);
      assert witness_ in queue;
      d :| d in queue && forall x :: x in queue ==> d.at <= x.at;
    }

    // The part of run_until under the lock: move everything due into `ready`.
    method Collect(tmax: nat) returns (ready: seq<Delivery>)
      modifies this
      ensures IsDrain(old(queue), tmax, ready)
      ensures queue == old(queue) - multiset(ready)
    {
      ready := [];
      while queue != multiset{}
        invariant Split(old(queue), ready, queue)
        invariant forall d :: d in ready ==> d.at <= tmax
        decreases |queue|
      {
        var top := Top();
        if top.at > tmax {
          break;
        }
        MoveLeast(old(queue), ready, queue, top);
        ready := ready + [top];
        queue := queue - multiset{top};
      }
      SplitRest(old(queue), ready, queue);
    }

    // The part of run under the lock: move everything.
    method CollectAll() returns (ready: seq<Delivery>)
      modifies this
      ensures InOrder(ready) && multiset(ready) == old(queue) && queue == multiset{}
    {
      ready := [];
      while queue != multiset{}
        invariant Split(old(queue), ready, queue)
        decreases |queue|
      {
        var top := Top();
        MoveLeast(old(queue), ready, queue, top);
        ready := ready + [top];
        queue := queue - multiset{top};
      }
    }

    method PostAll(ds: seq<Delivery>)
      modifies this
      ensures queue == old(queue) + multiset(ds)
    {
      for k := 0 to |ds|
        invariant queue == old(queue) + multiset(ds[..k])
      {
        Post(ds[k]);
        assert ds[..k + 1] == ds[..k] + [ds[k]];
      }
      assert ds[..|ds|] == ds;
    }

    // Call what was taken, in order. `posts` is what each call posts in its turn: what it sends
    // from On_rx.
    method Call(ready: seq<Delivery>, posts: Delivery -> seq<Delivery>) returns (ran: seq<Delivery>)
      modifies this
      ensures ran == ready
      ensures queue == old(queue) + multiset(AllPosts(ready, posts))
    {
      ran := [];
      for i := 0 to |ready|
        invariant ran == ready[..i]
        invariant queue == old(queue) + multiset(AllPosts(ready[..i], posts))
      {
        ran := ran + [ready[i]];
        PostAll(posts(ready[i]));
        assert ready[..i + 1][..i] == ready[..i];
      }
      assert ready[..|ready|] == ready;
    }

    // What was due is called, in order of time; what was not, and all that the calls posted,
    // waits, even when it is due already.
    method RunUntil(tmax: nat, posts: Delivery -> seq<Delivery>) returns (ran: seq<Delivery>)
      modifies this
      ensures IsDrain(old(queue), tmax, ran)
      ensures queue == old(queue) - multiset(ran) + multiset(AllPosts(ran, posts))
    {
      var ready := Collect(tmax);
      ran := Call(ready, posts);
    }

    // The same for everything in the queue. It ends even when every call posts again.
    method Run(posts: Delivery -> seq<Delivery>) returns (ran: seq<Delivery>)
      modifies this
      ensures InOrder(ran) && multiset(ran) == old(queue)
      ensures queue == multiset(AllPosts(ran, posts))
    {
      var ready := CollectAll();
      ran := Call(ready, posts);
    }
  }

  function AllPosts(ran: seq<Delivery>, posts: Delivery -> seq<Delivery>): seq<Delivery> {
    if ran == [] then [] else AllPosts(ran[..|ran| - 1], posts) + posts(ran[|ran| - 1])
  }

  // The queue as it was, split into the items taken, in order, and the rest, none of it earlier.
  ghost predicate Split(all: multiset<Delivery>, ready: seq<Delivery>, rest: multiset<Delivery>) {
    && InOrder(ready)
    && multiset(ready) + rest == all
    && (forall i, x :: 0 <= i < |ready| && x in rest ==> ready[i].at <= x.at)
  }

  lemma MoveLeast(all: multiset<Delivery>, ready: seq<Delivery>, rest: multiset<Delivery>, d: Delivery)
    requires Split(all, ready, rest) && IsLeast(rest, d)
    ensures Split(all, ready + [d], rest - multiset{d})
  {
    assert multiset(ready + [d]) == multiset(ready) + multiset{d};
  }

  lemma SplitRest(all: multiset<Delivery>, ready: seq<Delivery>, rest: multiset<Delivery>)
    requires Split(all, ready, rest)
    ensures multiset(ready) <= all && all - multiset(ready) == rest
  {}
}
