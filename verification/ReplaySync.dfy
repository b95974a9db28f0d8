// Replaying several captures against one origin (replay-sync in vbus/src/daemon/vbusd.cpp).
module ReplaySync {
  import opened Arith
  import opened Bytes
  import opened Capture
  import opened Clocks
  import opened Replay

  const MAX := TWO64 - 1

  // The frames of each file.
  function Captures(files: seq<seq<U8>>): (cs: seq<seq<Frame>>)
    requires forall n :: 0 <= n < |files| ==> OpensAsCapture(files[n])
    ensures |cs| == |files|
    ensures forall n :: 0 <= n < |files| ==> cs[n] == Contents(files[n])
  {
    seq(|files|, n requires 0 <= n < |files| => Contents(files[n]))
  }

  // The smallest first time stamp that is not zero, or the largest number if there is none.
  function Earliest(captures: seq<seq<Frame>>): U64 {
    if captures == [] then MAX
    else
      var earlier, last := Earliest(captures[..|captures| - 1]), captures[|captures| - 1];
      if last != [] && 0 < last[0].tsNs < earlier then last[0].tsNs else earlier
  }

  function GlobalOrigin(captures: seq<seq<Frame>>): U64 {
    if Earliest(captures) == MAX then 0 else Earliest(captures)
  }

  // Phase 1: open every file, and find the origin. `usable` is the number of files that opened
  // before one that did not; a file that is absent counts as one without a header.
  method FindOrigin(files: seq<seq<U8>>) returns (usable: nat, origin: U64)
    ensures usable <= |files| && forall n :: 0 <= n < usable ==> OpensAsCapture(files[n])
    ensures usable < |files| ==> !OpensAsCapture(files[usable])
    ensures usable == |files| ==> origin == GlobalOrigin(Captures(files))
  {
    origin := MAX;
    usable := 0;
    while usable < |files|
      invariant usable <= |files| && forall n :: 0 <= n < usable ==> OpensAsCapture(files[n])
      invariant origin == Earliest(Captures(files[..usable]))
    {
      var peek := new Replayer();
      var ok := peek.Open(files[usable], true);
      if !ok {
        return;
      }
      ghost var rest := peek.input[peek.pos..];
      ghost var left := FramesIn(rest);
      var got, f;
      got, f, left := peek.Advance(Frame(0, 0, 0, []), rest, left);
      if got && f.tsNs > 0 && f.tsNs < origin {
        origin := f.tsNs;
      }
      CapturesMore(files, usable);
      usable := usable + 1;
    }
    assert files[..usable] == files;
    if origin == MAX {
      origin := 0;
    }
  }

  lemma CapturesMore(files: seq<seq<U8>>, n: nat)
    requires n < |files| && forall i :: 0 <= i <= n ==> OpensAsCapture(files[i])
    ensures Captures(files[..n + 1])[..n] == Captures(files[..n])
    ensures Captures(files[..n + 1])[n] == Contents(files[n])
  {}

  // Every frame was sent after the common start, and every timed one at its time or later.
  ghost predicate OnTimeSync(log: seq<Sending>, start: U64, origin: U64, mode: Mode) {
    forall i :: 0 <= i < |log| ==>
      log[i].at >= start && (mode.Timed? ==> log[i].at >= FireAt(start, log[i].frame.tsNs, origin, mode.scale))
  }

  // How the frames were waited for, as in Replay.Awaited.
  ghost predicate AwaitedSync(log: seq<Sending>, waits: seq<Wait>, from: nat, start: U64, origin: U64, mode: Mode) {
    |waits| == |log| && forall i :: 0 <= i < |log| ==>
      if mode.Burst? then waits[i].slept == 0
      else && Since(log, from, i) <= waits[i].look <= log[i].at
           && waits[i].Until(FireAt(start, log[i].frame.tsNs, origin, mode.scale))
  }

  lemma AwaitedSyncMore(log: seq<Sending>, waits: seq<Wait>, from: nat, now: nat, start: U64, origin: U64,
                        mode: Mode, s: Sending, w: Wait)
    requires AwaitedSync(log, waits, from, start, origin, mode) && Readings(log, from, now)
    requires if mode.Burst? then w.slept == 0
             else now <= w.look <= s.at && w.Until(FireAt(start, s.frame.tsNs, origin, mode.scale))
    ensures AwaitedSync(log + [s], waits + [w], from, start, origin, mode)
    ensures Slept(waits + [w]) == Slept(waits) + w.slept
  {
    assert (waits + [w])[..|waits|] == waits;
  }

  /** Phase 2, one stream: all frames of the capture, each once and in file order, at readings of the
      clock in that order, none before the common start, and no timed frame before its time. After the
      wait for the common start, burst mode never sleeps, and no timed frame is slept for whose time has
      come. */
  method Stream(file: seq<U8>, clk: Clock, mode: Mode, origin: U64, start: U64)
    returns (log: seq<Sending>, ghost reading: nat, ghost first: Wait, ghost waits: seq<Wait>)
    modifies clk
    ensures !OpensAsCapture(file) ==> log == []
    ensures OpensAsCapture(file) ==> FramesOf(log) == Contents(file)
    ensures clk.t >= old(clk.t) && Readings(log, old(clk.t), clk.t) && OnTimeSync(log, start, origin, mode)
    ensures OpensAsCapture(file) ==> old(clk.t) <= first.look <= reading && first.Until(start)
    ensures !OpensAsCapture(file) ==> first.slept == 0
    ensures Readings(log, reading, clk.t) && AwaitedSync(log, waits, reading, start, origin, mode)
    ensures clk.slept == old(clk.slept) + first.slept + Slept(waits)
    ensures mode.Burst? ==> clk.slept == old(clk.slept) + first.slept
  {
    log, waits, reading, first := [], [], clk.t, Wait(clk.t, 0);
    var rep := new Replayer();
    var ok := rep.Open(file, true);
    if !ok {
      return;
    }
    first := clk.WaitUntil(start);
    reading := clk.t;
    var f := Frame(0, 0, 0, []);
    ghost var rest := rep.input[rep.pos..];
    ghost var all, left := FramesIn(rest), FramesIn(rest);
    while ok
      invariant rep.Valid() && ok == rep.good && fresh(rep) && rest == rep.input[rep.pos..]
      invariant all == FramesOf(log) + left
      invariant left == if ok then FramesIn(rest) else []
      invariant OnTimeSync(log, start, origin, mode) && clk.t >= start
      invariant old(clk.t) <= reading <= clk.t && Readings(log, reading, clk.t)
      invariant AwaitedSync(log, waits, reading, start, origin, mode)
      invariant clk.slept == old(clk.slept) + first.slept + Slept(waits)
      decreases ok, |rest|
    {
      ok, f, left := rep.Advance(f, rest, left);
      rest := rep.input[rep.pos..];
      if ok {
        log, waits := StreamOne(log, f, clk, mode, origin, start, reading, left, waits);
      }
    }
    ReadingsSooner(log, old(clk.t), reading, clk.t);
    if mode.Burst? {
      SleptNothing(waits);
    }
  }

  // The body of the loop. `left` is what is still to be read.
  method StreamOne(log: seq<Sending>, f: Frame, clk: Clock, mode: Mode, origin: U64, start: U64, ghost from: nat,
                   ghost left: seq<Frame>, ghost waits: seq<Wait>)
    returns (log': seq<Sending>, ghost waits': seq<Wait>)
    requires from <= clk.t && Readings(log, from, clk.t)
    requires OnTimeSync(log, start, origin, mode) && clk.t >= start
    requires AwaitedSync(log, waits, from, start, origin, mode)
    modifies clk
    ensures clk.t >= old(clk.t) && Readings(log', from, clk.t)
    ensures FramesOf(log') + left == FramesOf(log) + ([f] + left)
    ensures OnTimeSync(log', start, origin, mode) && clk.t >= start
    ensures AwaitedSync(log', waits', from, start, origin, mode)
    ensures clk.slept - old(clk.slept) == Slept(waits') - Slept(waits)
  {
    ghost var wait := Wait(clk.t, 0);
    if mode.Timed? {
      wait := clk.WaitUntil(FireAt(start, f.tsNs, origin, mode.scale));
    }
    var now := clk.Now();
    ReadingsMore(log, from, old(clk.t), Sending(f, now));
    AwaitedSyncMore(log, waits, from, old(clk.t), start, origin, mode, Sending(f, now), wait);
    log', waits' := log + [Sending(f, now)], waits + [wait];
    assert FramesOf(log') == FramesOf(log) + [f];
    Regrouped(FramesOf(log), f, left);
  }

  // ---------- the streams stay aligned ----------

  lemma {:induction false} EarliestBelow(captures: seq<seq<Frame>>, n: nat)
    requires n < |captures| && captures[n] != [] && captures[n][0].tsNs > 0
    ensures Earliest(captures) <= captures[n][0].tsNs
  {
    if n < |captures| - 1 {
      EarliestBelow(captures[..|captures| - 1], n);
    }
  }

  lemma {:induction false} EarliestIsOne(captures: seq<seq<Frame>>)
    ensures Earliest(captures) > 0
    ensures Earliest(captures) == MAX
            || exists n :: 0 <= n < |captures| && captures[n] != [] && captures[n][0].tsNs == Earliest(captures)
  {
    if captures != [] {
      var earlier := captures[..|captures| - 1];
      EarliestIsOne(earlier);
      if n :| 0 <= n < |earlier| && earlier[n] != [] && earlier[n][0].tsNs == Earliest(earlier) {
        assert captures[n] == earlier[n];
      }
    }
  }

  ghost predicate AllSorted(captures: seq<seq<Frame>>) {
    forall n :: 0 <= n < |captures| ==> Sorted(captures[n])
  }

  // No subtraction of the replay wraps.
  ghost predicate NothingWraps(captures: seq<seq<Frame>>) {
    forall n, i :: 0 <= n < |captures| && 0 <= i < |captures[n]| ==> captures[n][i].tsNs >= GlobalOrigin(captures)
  }

  // Every capture that has frames starts after time zero.
  ghost predicate AllStartLate(captures: seq<seq<Frame>>) {
    forall n :: 0 <= n < |captures| && captures[n] != [] ==> captures[n][0].tsNs > 0
  }

  // No capture gives the origin a value.
  ghost predicate NoneGivesOrigin(captures: seq<seq<Frame>>) {
    forall n :: 0 <= n < |captures| && captures[n] != [] ==> captures[n][0].tsNs == 0 || captures[n][0].tsNs == MAX
  }

  lemma OriginGiven(captures: seq<seq<Frame>>)
    ensures NoneGivesOrigin(captures) <==> Earliest(captures) == MAX
  {
    EarliestIsOne(captures);
    if NoneGivesOrigin(captures) {
      if n :| 0 <= n < |captures| && captures[n] != [] && captures[n][0].tsNs == Earliest(captures) {
        assert captures[n][0].tsNs == MAX;
      }
    } else {
      var n :| 0 <= n < |captures| && captures[n] != [] && captures[n][0].tsNs != 0 && captures[n][0].tsNs != MAX;
      EarliestBelow(captures, n);
    }
  }

  /** The origin is the least of the first time stamps that are not zero; 0 stands for none. */
  lemma OriginIsLeast(captures: seq<seq<Frame>>)
    ensures GlobalOrigin(captures) == 0 <==> NoneGivesOrigin(captures)
    ensures GlobalOrigin(captures) == 0
            || exists n :: 0 <= n < |captures| && captures[n] != [] && captures[n][0].tsNs == GlobalOrigin(captures)
    ensures forall n :: 0 <= n < |captures| && captures[n] != [] && captures[n][0].tsNs > 0 ==>
              GlobalOrigin(captures) <= captures[n][0].tsNs
  {
    OriginGiven(captures);
    EarliestIsOne(captures);
    forall n | 0 <= n < |captures| && captures[n] != [] && captures[n][0].tsNs > 0
      ensures GlobalOrigin(captures) <= captures[n][0].tsNs
    {
      EarliestBelow(captures, n);
    }
  }

  /** The exact condition under which no subtraction wraps, for sorted captures: either all of
      them start after time zero, or none of them gives the origin a value. A capture that starts
      at zero beside one that does not is what breaks it. */
  lemma WrapsExactly(captures: seq<seq<Frame>>)
    requires AllSorted(captures)
    ensures NothingWraps(captures) <==> AllStartLate(captures) || NoneGivesOrigin(captures)
  {
    OriginGiven(captures);
    EarliestIsOne(captures);
    if AllStartLate(captures) && !NoneGivesOrigin(captures) {
      forall n, i | 0 <= n < |captures| && 0 <= i < |captures[n]|
        ensures captures[n][i].tsNs >= GlobalOrigin(captures)
      {
        EarliestBelow(captures, n);
        assert Sorted(captures[n]);
      }
    }
    if !AllStartLate(captures) && !NoneGivesOrigin(captures) {
      var n :| 0 <= n < |captures| && captures[n] != [] && captures[n][0].tsNs == 0;
      assert captures[n][0].tsNs < GlobalOrigin(captures);
    }
  }

  /** Alignment across streams: when no subtraction wraps, of any two frames of any two streams the
      one captured earlier is due no later if and only if the two sums with the start both leave 64
      bits or neither does; they are then due as far apart as captured times the factor, to within a
      nanosecond. */
  lemma Aligned(captures: seq<seq<Frame>>, n: nat, i: nat, m: nat, j: nat, start: U64, k: Scale)
    requires NothingWraps(captures)
    requires n < |captures| && i < |captures[n]| && m < |captures| && j < |captures[m]|
    requires captures[n][i].tsNs <= captures[m][j].tsNs
    requires InRange(captures[m][j].tsNs - GlobalOrigin(captures), k)
    ensures var origin := GlobalOrigin(captures);
            var x, y := captures[n][i].tsNs, captures[m][j].tsNs;
            var elapsed := FireAt(start, y, origin, k) - FireAt(start, x, origin, k);
            && (elapsed >= 0 <==> SameLap(start, x - origin, y - origin, k))
            && (elapsed >= 0 ==> (y - x) * k.num - k.den < k.den * elapsed < (y - x) * k.num + k.den)
  {
    var origin := GlobalOrigin(captures);
    Later(start, captures[n][i].tsNs - origin, captures[m][j].tsNs - origin, k);
  }

  // How often the signed time wraps to be a 64-bit one.
  function Laps(time: int): int {
    if time < 0 then -1 else if time < TWO64 then 0 else 1
  }

  /** In exact mode two frames of any two streams are due exactly as far apart as they were
      captured if and only if their times from the common start lie in the same stretch of 2^64 ns,
      whether or not a subtraction wraps and whatever the captures hold. */
  lemma AlignedExactly(captures: seq<seq<Frame>>, x: Frame, y: Frame, start: U64)
    ensures var origin := GlobalOrigin(captures);
            FireAt(start, y.tsNs, origin, EXACT) - FireAt(start, x.tsNs, origin, EXACT) == y.tsNs - x.tsNs
            <==> Laps(start + x.tsNs - origin) == Laps(start + y.tsNs - origin)
  {
    ExactTime(start, x.tsNs, GlobalOrigin(captures));
    ExactTime(start, y.tsNs, GlobalOrigin(captures));
  }

  /** Two sorted captures, one from time zero and one from a later time: the subtraction wraps for
      the frame at zero. From a start before that later time, it is due some 2^64 ns late. */
  lemma ZeroBesideLater(zero: Frame, later: Frame, start: U64)
    requires zero.tsNs == 0 && 0 < later.tsNs < MAX
    ensures var captures := [[zero], [later]];
            AllSorted(captures) && !NothingWraps(captures)
            && (start < later.tsNs ==>
                  FireAt(start, zero.tsNs, GlobalOrigin(captures), EXACT) == start - later.tsNs + TWO64)
  {
    var captures := [[zero], [later]];
    assert captures[..1][..0] == [] && captures[..1] == [[zero]] && captures[0] == [zero] && captures[1] == [later];
    assert Earliest([[zero]]) == MAX;
    assert Earliest(captures) == later.tsNs;
    assert captures[0][0].tsNs < GlobalOrigin(captures);
    ExactTime(start, 0, later.tsNs);
  }
}
