// The taps of a bus: which recorder or sink its callbacks reach, read off the commands alone.
module Taps {
  import opened Engine

  // A bus of that name exists after the run: it was created and not deleted since.
  ghost predicate Live(tr: seq<Event>, b: string) {
    exists c :: 0 <= c < |tr| && tr[c].Create? && tr[c].name == b && forall k :: c < k < |tr| ==> tr[k] != Delete(b)
  }

  datatype Tap = Record | Forward

  // The commands that attach a tap to a bus, and those after which the tap that was attached no
  // longer is: a failed or successful new attach, a detach, or the end of the bus.
  predicate Starts(tap: Tap, e: Event, b: string) {
    match tap
    case Record => e.RecordOn? && e.name == b && e.created
    case Forward => e == ForwardOn(b, true)
  }

  predicate Ends(tap: Tap, e: Event, b: string) {
    match tap
    case Record => (e.RecordOn? || e.RecordOff? || e.Delete?) && e.name == b
    case Forward => (e.ForwardOn? || e.ForwardOff? || e.Delete?) && e.name == b
  }

  // Step r attached a tap to a live bus.
  ghost predicate Attached(tr: seq<Event>, tap: Tap, b: string, r: nat) {
    r < |tr| && Starts(tap, tr[r], b) && Live(tr[..r], b)
  }

  // The tap attached by step r is still attached after the run.
  ghost predicate On(tr: seq<Event>, tap: Tap, b: string, r: nat) {
    Attached(tr, tap, b, r) && forall k :: r < k < |tr| ==> !Ends(tap, tr[k], b)
  }

  function Callback(tap: Tap, h: Hub): Option<Id> {
    match tap
    case Record => h.recCb
    case Forward => h.fwdCb
  }

  function BusesAt(tr: seq<Event>): map<string, Wrap> {
    Run(tr).buses
  }

  lemma BusesStep(tr: seq<Event>)
    requires tr != []
    ensures BusesAt(tr) == NextBuses(BusesAt(Before(tr)), Last(tr), |tr| - 1)
  {}

  lemma LiveStep(tr: seq<Event>, b: string)
    requires tr != []
    ensures Live(tr, b) <==>
            (Last(tr).Create? && Last(tr).name == b) || (Last(tr) != Delete(b) && Live(Before(tr), b))
  {
    var n, past := |tr| - 1, Before(tr);
    if Last(tr).Create? && Last(tr).name == b {
      assert tr[n].Create?;
    } else if Last(tr) != Delete(b) && Live(past, b) {
      var c :| 0 <= c < n && past[c].Create? && past[c].name == b && forall k :: c < k < n ==> past[k] != Delete(b);
      assert tr[c].Create? && forall k :: c < k < |tr| ==> tr[k] != Delete(b);
    }
    if Live(tr, b) && !(Last(tr).Create? && Last(tr).name == b) {
      var c :| 0 <= c < |tr| && tr[c].Create? && tr[c].name == b && forall k :: c < k < |tr| ==> tr[k] != Delete(b);
      assert past[c].Create? && forall k :: c < k < n ==> past[k] == tr[k];
    }
  }

  lemma {:induction false} LiveIsThere(tr: seq<Event>, b: string)
    ensures b in BusesAt(tr) <==> Live(tr, b)
  {
    if tr != [] {
      LiveIsThere(Before(tr), b);
      LiveStep(tr, b);
      BusesStep(tr);
    }
  }

  // ---------- what a bus is never changes ----------

  lemma HubStep(buses: map<string, Wrap>, e: Event, step: Id, b: string)
    requires b in NextBuses(buses, e, step)
    ensures var h := NextBuses(buses, e, step)[b].hub;
            if b in buses then h.id == buses[b].hub.id && h.kind == buses[b].hub.kind && h.rate == buses[b].hub.rate
            else e == Create(b, h.kind, h.rate) && h.id == step
  {}

  lemma {:induction false} HubWasCreated(tr: seq<Event>, b: string)
    requires b in BusesAt(tr)
    ensures var h := BusesAt(tr)[b].hub; h.id < |tr| && tr[h.id] == Create(b, h.kind, h.rate)
  {
    BusesStep(tr);
    HubStep(BusesAt(Before(tr)), Last(tr), |tr| - 1, b);
    if b in BusesAt(Before(tr)) {
      HubWasCreated(Before(tr), b);
    }
  }

  lemma StepAt(tr: seq<Event>, k: nat)
    requires 0 < k <= |tr|
    ensures BusesAt(tr[..k]) == NextBuses(BusesAt(tr[..k - 1]), tr[k - 1], k - 1)
  {
    assert Before(tr[..k]) == tr[..k - 1];
    BusesStep(tr[..k]);
  }

  // From step j to step k the bus of that name was not deleted.
  predicate Undeleted(tr: seq<Event>, b: string, j: nat, k: nat)
    requires k <= |tr|
  {
    forall i :: j <= i < k ==> tr[i] != Delete(b)
  }

  // A name stands for the same bus until it is deleted ...
  lemma {:induction false} SameBus(tr: seq<Event>, b: string, j: nat, k: nat)
    requires j <= k <= |tr| && Undeleted(tr, b, j, k)
    requires b in BusesAt(tr[..j])
    ensures b in BusesAt(tr[..k]) && BusesAt(tr[..k])[b].hub.id == BusesAt(tr[..j])[b].hub.id
    decreases k - j
  {
    if j < k {
      SameBus(tr, b, j, k - 1);
      StepAt(tr, k);
      HubStep(BusesAt(tr[..k - 1]), tr[k - 1], k - 1, b);
      StaysThere(BusesAt(tr[..k - 1]), tr[k - 1], k - 1, b);
    }
  }

  lemma StaysThere(buses: map<string, Wrap>, e: Event, step: Id, b: string)
    requires b in buses && e != Delete(b)
    ensures b in NextBuses(buses, e, step)
  {}

  // ... and then for another one.
  lemma {:induction false} CreatedSince(tr: seq<Event>, b: string, i: nat)
    requires b in BusesAt(tr) && i < |tr| && tr[i] == Delete(b)
    ensures BusesAt(tr)[b].hub.id > i
  {
    BusesStep(tr);
    HubStep(BusesAt(Before(tr)), Last(tr), |tr| - 1, b);
    if i < |tr| - 1 && b in BusesAt(Before(tr)) {
      CreatedSince(Before(tr), b, i);
    }
  }

  lemma OnStep(tr: seq<Event>, tap: Tap, b: string, r: nat)
    requires tr != []
    ensures On(tr, tap, b, r) <==>
            || (r == |tr| - 1 && Starts(tap, Last(tr), b) && Live(Before(tr), b))
            || (On(Before(tr), tap, b, r) && !Ends(tap, Last(tr), b))
  {
    var n := |tr| - 1;
    assert tr[..n] == Before(tr);
    if r < n {
      assert tr[..r] == Before(tr)[..r];
      if On(tr, tap, b, r) {
        assert forall k :: r < k < n ==> Before(tr)[k] == tr[k];
      }
      if On(Before(tr), tap, b, r) && !Ends(tap, Last(tr), b) {
        assert forall k :: r < k < n ==> tr[k] == Before(tr)[k];
      }
    }
  }

  lemma CallbackStep(buses: map<string, Wrap>, e: Event, step: Id, tap: Tap, b: string)
    ensures var next := NextBuses(buses, e, step);
            var was := if b in buses then Callback(tap, buses[b].hub) else None;
            var now := if b in next then Callback(tap, next[b].hub) else None;
            now == if Starts(tap, e, b) && b in buses then Some(step)
                   else if Ends(tap, e, b) then None
                   else was
  {}

  /** In every run the record callback of a bus targets the recorder attached last and not since
      detached, and the forward callback the sink; with none attached the callback is not set. */
  lemma {:induction false} CallbackIsTap(tr: seq<Event>, tap: Tap, b: string, r: nat)
    ensures On(tr, tap, b, r) <==> b in BusesAt(tr) && Callback(tap, BusesAt(tr)[b].hub) == Some(r)
  {
    if tr != [] {
      CallbackIsTap(Before(tr), tap, b, r);
      OnStep(tr, tap, b, r);
      LiveIsThere(Before(tr), b);
      BusesStep(tr);
      CallbackStep(BusesAt(Before(tr)), Last(tr), |tr| - 1, tap, b);
    }
  }

  // ---------- owners and callbacks agree ----------

  // The registry's view of a bus and the bus's own callbacks name the same recorder and sink, and
  // the SubInfo of a bus holds a pipe only if the bus's subscription callback is set.
  predicate Coherent(w: Wrap, pipes: Pipes) {
    && w.rec == w.hub.recCb
    && w.sink == w.hub.fwdCb
    && (pipes.Holder(w.hub.id).Some? ==> w.hub.subCb)
  }

  ghost predicate AllCoherent(buses: map<string, Wrap>, pipes: Pipes) {
    forall b :: b in buses ==> Coherent(buses[b], pipes)
  }

  // Buses have identities of their own, made by earlier steps.
  ghost predicate Separate(buses: map<string, Wrap>, step: nat) {
    && (forall b :: b in buses ==> buses[b].hub.id < step)
    && (forall b, b' :: b in buses && b' in buses && buses[b].hub.id == buses[b'].hub.id ==> b == b')
  }

  ghost predicate IsBus(buses: map<string, Wrap>, u: Id) {
    exists b :: b in buses && buses[b].hub.id == u
  }

  // Only live buses hold pipes.
  ghost predicate HoldersLive(buses: map<string, Wrap>, pipes: Pipes) {
    forall u: nat :: pipes.Holder(u).Some? ==> IsBus(buses, u)
  }

  lemma SeparateStep(buses: map<string, Wrap>, e: Event, step: Id)
    requires Separate(buses, step)
    ensures Separate(NextBuses(buses, e, step), step + 1)
  {}

  lemma HolderStep(p: Pipes, e: Event, bus: Option<Id>, step: Id, u: Id)
    ensures var now := NextPipes(p, e, bus, step).Holder(u);
            && (now.Some? ==> p.Holder(u).Some? || (e.Subscribe? && bus == Some(u)))
            && (e.Delete? && bus == Some(u) ==> now.None?)
  {}

  lemma HoldersStep(s: State, e: Event)
    requires HoldersLive(s.buses, s.pipes)
    ensures HoldersLive(NextBuses(s.buses, e, s.step), NextPipes(s.pipes, e, BusOf(s, e), s.step))
  {
    var buses, pipes := NextBuses(s.buses, e, s.step), NextPipes(s.pipes, e, BusOf(s, e), s.step);
    forall u: nat | pipes.Holder(u).Some? ensures IsBus(buses, u) {
      HolderStep(s.pipes, e, BusOf(s, e), s.step, u);
      var b :| b in s.buses && s.buses[b].hub.id == u;
      assert b in buses && buses[b].hub.id == u;
    }
  }

  lemma CoherentStep(s: State, e: Event, b: string)
    requires Separate(s.buses, s.step) && HoldersLive(s.buses, s.pipes)
    requires b in s.buses ==> Coherent(s.buses[b], s.pipes)
    requires b in NextBuses(s.buses, e, s.step)
    ensures Coherent(NextBuses(s.buses, e, s.step)[b], NextPipes(s.pipes, e, BusOf(s, e), s.step))
  {
    var w := NextBuses(s.buses, e, s.step)[b];
    HolderStep(s.pipes, e, BusOf(s, e), s.step, w.hub.id);
    if b !in s.buses {
      assert !IsBus(s.buses, s.step);
    }
  }

  /** After every sequence of commands, failed ones included, each bus's callbacks and owners
      agree, and a pipe is held only for a live bus whose subscription callback is set. */
  lemma {:induction false} TapsCoherent(tr: seq<Event>)
    ensures Separate(Run(tr).buses, |tr|)
    ensures HoldersLive(Run(tr).buses, Run(tr).pipes)
    ensures AllCoherent(Run(tr).buses, Run(tr).pipes)
  {
    if tr != [] {
      var s, e := Run(Before(tr)), Last(tr);
      TapsCoherent(Before(tr));
      SeparateStep(s.buses, e, s.step);
      HoldersStep(s, e);
      forall b | b in Run(tr).buses ensures Coherent(Run(tr).buses[b], Run(tr).pipes) {
        CoherentStep(s, e, b);
      }
    }
  }
}
