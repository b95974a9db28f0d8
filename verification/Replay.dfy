// Timed replay of captures (the replay loops of vbus/src/daemon/vbusd.cpp).
module Replay {
  import opened Bytes
  import opened Capture
  import opened Clocks
  import opened Arith

  // The factor of scale:K, as a ratio.
  datatype Ratio = Ratio(num: nat, den: nat)
  type Scale = k: Ratio | k.den > 0 witness Ratio(1, 1)

  const EXACT: Scale := Ratio(1, 1)

  datatype Mode = Burst | Timed(scale: Scale)

  // Unsigned 64-bit subtraction.
  function Sub64(a: U64, b: U64): U64 {
    if a >= b then a - b else a - b + TWO64
  }

  // A time difference scaled and rounded down.
  function Scaled(x: nat, k: Scale): nat {
    x * k.num / k.den
  }

  // The start plus a scaled offset, as an unsigned 64-bit sum.
  function At(start: U64, offset: nat, k: Scale): U64 {
    (start + Scaled(offset, k)) % TWO64
  }

  function FireAt(start: U64, ts: U64, origin: U64, k: Scale): U64 {
    At(start, Sub64(ts, origin), k)
  }

  // One frame handed on, and when.
  datatype Sending = Sending(frame: Frame, at: nat)

  function FramesOf(log: seq<Sending>): (frames: seq<Frame>)
    ensures |frames| == |log|
    ensures forall i :: 0 <= i < |log| ==> frames[i] == log[i].frame
  {
    seq(|log|, i requires 0 <= i < |log| => log[i].frame)
  }

  // ---------- replay and replay-udp: one capture, with its own origin ----------

  // The origin once these frames have been read: the first time stamp that is not zero.
  function Latch(frames: seq<Frame>): U64 {
    if frames == [] then 0
    else
      var earlier := Latch(frames[..|frames| - 1]);
      if earlier == 0 then frames[|frames| - 1].tsNs else earlier
  }

  // When frame i of a capture is to be sent.
  function FireTime(frames: seq<Frame>, i: nat, start: U64, k: Scale): U64
    requires i < |frames|
  {
    FireAt(start, frames[i].tsNs, Latch(frames[..i + 1]), k)
  }

  // Every timed frame was sent at its time or later.
  ghost predicate OnTime(log: seq<Sending>, start: U64, mode: Mode) {
    mode.Timed? ==> forall i :: 0 <= i < |log| ==> log[i].at >= FireTime(FramesOf(log), i, start, mode.scale)
  }

  // The frames were sent one after the other, at readings of the clock between two times.
  ghost predicate Readings(log: seq<Sending>, from: nat, to: nat) {
    if log == [] then from <= to
    else
      var last := log[|log| - 1].at;
      last <= to && Readings(log[..|log| - 1], from, last)
  }

  lemma {:induction false} ReadingsInOrder(log: seq<Sending>, from: nat, to: nat, i: nat, j: nat)
    requires Readings(log, from, to) && i <= j < |log|
    ensures from <= log[i].at <= log[j].at <= to
  {
    var earlier := log[..|log| - 1];
    if j < |log| - 1 {
      ReadingsInOrder(earlier, from, log[|log| - 1].at, i, j);
    } else if i < |log| - 1 {
      ReadingsInOrder(earlier, from, log[|log| - 1].at, i, i);
    } else {
      ReadingsFrom(earlier, from, log[j].at);
    }
  }

  lemma {:induction false} ReadingsFrom(log: seq<Sending>, from: nat, to: nat)
    requires Readings(log, from, to)
    ensures from <= to
  {
    if log != [] {
      ReadingsFrom(log[..|log| - 1], from, log[|log| - 1].at);
    }
  }

  lemma {:induction false} ReadingsSooner(log: seq<Sending>, from: nat, from': nat, to: nat)
    requires Readings(log, from', to) && from <= from'
    ensures Readings(log, from, to)
  {
    if log != [] {
      ReadingsSooner(log[..|log| - 1], from, from', log[|log| - 1].at);
    }
  }

  lemma ReadingsMore(log: seq<Sending>, from: nat, to: nat, s: Sending)
    requires Readings(log, from, to) && to <= s.at
    ensures Readings(log + [s], from, s.at)
  {
    assert (log + [s])[..|log|] == log;
  }

  lemma OnTimeMore(log: seq<Sending>, start: U64, mode: Mode, s: Sending)
    requires OnTime(log, start, mode)
    requires mode.Timed? ==>
               s.at >= FireAt(start, s.frame.tsNs, Latch(FramesOf(log) + [s.frame]), mode.scale)
    ensures OnTime(log + [s], start, mode)
    ensures FramesOf(log + [s]) == FramesOf(log) + [s.frame]
  {
    var frames, more := FramesOf(log), FramesOf(log + [s]);
    assert more == frames + [s.frame];
    if mode.Timed? {
      forall i | 0 <= i < |log + [s]| ensures (log + [s])[i].at >= FireTime(more, i, start, mode.scale) {
        if i < |log| {
          assert more[..i + 1] == frames[..i + 1];
        } else {
          assert more[..i + 1] == more;
        }
      }
    }
  }

  // The clock when the frame before was sent, or when the sending began.
  function Since(log: seq<Sending>, from: nat, i: nat): nat
    requires i < |log|
  {
    if i == 0 then from else log[i - 1].at
  }

  // How the frames were waited for. Burst mode sleeps for none of them. A timed frame's wait begins with
  // a look at the clock, made after the frame before was sent, and sleeps if and only if that look comes
  // before the frame's time.
  ghost predicate Awaited(log: seq<Sending>, waits: seq<Wait>, from: nat, start: U64, mode: Mode) {
    |waits| == |log| && forall i :: 0 <= i < |log| ==> AwaitedAt(log, waits[i], from, start, mode, i)
  }

  ghost predicate AwaitedAt(log: seq<Sending>, w: Wait, from: nat, start: U64, mode: Mode, i: nat)
    requires i < |log|
  {
    if mode.Burst? then w.slept == 0
    else
      && Since(log, from, i) <= w.look <= log[i].at
      && w.Until(FireTime(FramesOf(log), i, start, mode.scale))
  }

  // The last of these frames was waited for as the mode asks, between two times.
  ghost predicate Waited(frames: seq<Frame>, start: U64, mode: Mode, w: Wait, from: nat, to: nat)
    requires frames != []
  {
    if mode.Burst? then w.slept == 0
    else
      var when := FireAt(start, frames[|frames| - 1].tsNs, Latch(frames), mode.scale);
      from <= w.look <= to && when <= to && w.Until(when)
  }

  lemma AwaitedStays(log: seq<Sending>, w: Wait, from: nat, start: U64, mode: Mode, s: Sending, i: nat)
    requires i < |log| && AwaitedAt(log, w, from, start, mode, i)
    ensures AwaitedAt(log + [s], w, from, start, mode, i)
  {
    var frames, more := FramesOf(log), FramesOf(log + [s]);
    assert more == frames + [s.frame];
    assert more[..i + 1] == frames[..i + 1];
    assert Since(log + [s], from, i) == Since(log, from, i);
  }

  lemma AwaitedLast(log: seq<Sending>, w: Wait, from: nat, now: nat, start: U64, mode: Mode, s: Sending)
    requires Readings(log, from, now) && now <= s.at
    requires Waited(FramesOf(log) + [s.frame], start, mode, w, now, s.at)
    ensures AwaitedAt(log + [s], w, from, start, mode, |log|)
  {
    var frames, more := FramesOf(log), FramesOf(log + [s]);
    assert more == frames + [s.frame];
    assert more[..|log| + 1] == more;
  }

  // The time slept for in all.
  function Slept(waits: seq<Wait>): nat {
    if waits == [] then 0 else Slept(waits[..|waits| - 1]) + waits[|waits| - 1].slept
  }

  lemma AwaitedMore(log: seq<Sending>, waits: seq<Wait>, from: nat, now: nat, start: U64, mode: Mode,
                    s: Sending, w: Wait)
    requires Awaited(log, waits, from, start, mode) && Readings(log, from, now) && now <= s.at
    requires Waited(FramesOf(log) + [s.frame], start, mode, w, now, s.at)
    ensures Awaited(log + [s], waits + [w], from, start, mode)
    ensures Slept(waits + [w]) == Slept(waits) + w.slept
  {
    assert (waits + [w])[..|waits|] == waits;
    forall i | 0 <= i < |log + [s]| ensures AwaitedAt(log + [s], (waits + [w])[i], from, start, mode, i) {
      if i < |log| {
        AwaitedStays(log, waits[i], from, start, mode, s, i);
      } else {
        AwaitedLast(log, w, from, now, start, mode, s);
      }
    }
  }

  lemma {:induction false} SleptNothing(waits: seq<Wait>)
    requires forall i :: 0 <= i < |waits| ==> waits[i].slept == 0
    ensures Slept(waits) == 0
  {
    if waits != [] {
      SleptNothing(waits[..|waits| - 1]);
    }
  }

  lemma LatchMore(frames: seq<Frame>, f: Frame)
    ensures Latch(frames + [f]) == if Latch(frames) == 0 then f.tsNs else Latch(frames)
  {
    assert (frames + [f])[..|frames|] == frames;
  }

  /** Every mode sends all frames of the capture, each once and in file order; the mode decides
      only when. The times of sending are readings of the clock, in order and none before the start.
      No timed frame is sent before its time, which counts from the start, a reading of the clock
      made when the file was open, and none is slept for whose time has come. Burst mode never sleeps. */
  method Replay(file: seq<U8>, present: bool, clk: Clock, mode: Mode)
    returns (log: seq<Sending>, start: U64, ghost reading: nat, ghost waits: seq<Wait>)
    modifies clk
    ensures present && OpensAsCapture(file) ==> old(clk.t) <= reading <= clk.t && start == reading % TWO64
    ensures !(present && OpensAsCapture(file)) ==> log == []
    ensures present && OpensAsCapture(file) ==> FramesOf(log) == Contents(file)
    ensures clk.t >= old(clk.t) && Readings(log, reading, clk.t) && OnTime(log, start, mode)
    ensures Awaited(log, waits, reading, start, mode) && clk.slept == old(clk.slept) + Slept(waits)
    ensures mode.Burst? ==> clk.slept == old(clk.slept)
  {
    log, start, reading, waits := [], 0, 0, [];
    var rep := new Replayer();
    var ok := rep.Open(file, present);
    if !ok {
      return;
    }
    var f := Frame(0, 0, 0, []);
    var firstCapTs: U64 := 0;
    var now := clk.Now();
    start, reading := now % TWO64, now;
    ghost var rest := rep.input[rep.pos..];
    ghost var all, left := FramesIn(rest), FramesIn(rest);
    while ok
      invariant rep.Valid() && ok == rep.good && fresh(rep) && rest == rep.input[rep.pos..]
      invariant all == FramesOf(log) + left
      invariant left == if ok then FramesIn(rest) else []
      invariant mode.Timed? ==> firstCapTs == Latch(FramesOf(log))
      invariant OnTime(log, start, mode) && old(clk.t) <= reading <= clk.t && Readings(log, reading, clk.t)
      invariant Awaited(log, waits, reading, start, mode) && clk.slept == old(clk.slept) + Slept(waits)
      decreases ok, |rest|
    {
      ok, f, left := rep.Advance(f, rest, left);
      rest := rep.input[rep.pos..];
      if ok {
        log, firstCapTs, waits := SendOne(log, f, clk, mode, start, reading, firstCapTs, left, waits);
      }
    }
    if mode.Burst? {
      SleptNothing(waits);
    }
  }

  // The body of the loop. `left` is what is still to be read.
  method SendOne(log: seq<Sending>, f: Frame, clk: Clock, mode: Mode, start: U64, ghost reading: nat, origin: U64,
                 ghost left: seq<Frame>, ghost waits: seq<Wait>)
    returns (log': seq<Sending>, origin': U64, ghost waits': seq<Wait>)
    requires reading <= clk.t && Readings(log, reading, clk.t)
    requires OnTime(log, start, mode) && (mode.Timed? ==> origin == Latch(FramesOf(log)))
    requires Awaited(log, waits, reading, start, mode)
    modifies clk
    ensures clk.t >= old(clk.t) && Readings(log', reading, clk.t)
    ensures FramesOf(log') + left == FramesOf(log) + ([f] + left)
    ensures OnTime(log', start, mode) && (mode.Timed? ==> origin' == Latch(FramesOf(log')))
    ensures Awaited(log', waits', reading, start, mode)
    ensures clk.slept - old(clk.slept) == Slept(waits') - Slept(waits)
  {
    ghost var wait;
    origin', wait := AwaitOne(FramesOf(log), f, clk, mode, start, origin);
    var now := clk.Now();
    Sent(log, waits, reading, old(clk.t), start, mode, Sending(f, now), wait);
    Regrouped(FramesOf(log), f, left);
    log', waits' := log + [Sending(f, now)], waits + [wait];
  }

  // The wait for a frame.
  method AwaitOne(ghost earlier: seq<Frame>, f: Frame, clk: Clock, mode: Mode, start: U64, origin: U64)
    returns (origin': U64, ghost wait: Wait)
    requires mode.Timed? ==> origin == Latch(earlier)
    modifies clk
    ensures clk.t >= old(clk.t) && clk.slept == old(clk.slept) + wait.slept
    ensures mode.Timed? ==> origin' == Latch(earlier + [f])
    ensures Waited(earlier + [f], start, mode, wait, old(clk.t), clk.t)
  {
    origin' := origin;
    wait := Wait(clk.t, 0);
    LatchMore(earlier, f);
    if mode.Timed? {
      if origin' == 0 {
        origin' := f.tsNs;
      }
      wait := clk.WaitUntil(FireAt(start, f.tsNs, origin', mode.scale));
    }
  }

  lemma Sent(log: seq<Sending>, waits: seq<Wait>, from: nat, now: nat, start: U64, mode: Mode, s: Sending, w: Wait)
    requires Readings(log, from, now) && OnTime(log, start, mode) && Awaited(log, waits, from, start, mode)
    requires now <= s.at && Waited(FramesOf(log) + [s.frame], start, mode, w, now, s.at)
    ensures FramesOf(log + [s]) == FramesOf(log) + [s.frame]
    ensures Readings(log + [s], from, s.at) && OnTime(log + [s], start, mode)
    ensures Awaited(log + [s], waits + [w], from, start, mode)
    ensures Slept(waits + [w]) == Slept(waits) + w.slept
  {
    ReadingsMore(log, from, now, s);
    OnTimeMore(log, start, mode, s);
    AwaitedMore(log, waits, from, now, start, mode, s, w);
  }

  // ---------- what the times mean ----------

  ghost predicate Sorted(frames: seq<Frame>) {
    forall i, j :: 0 <= i < j < |frames| ==> frames[i].tsNs <= frames[j].tsNs
  }

  // Time stamp i is not before the origin in force when it is used.
  predicate NotBeforeOrigin(frames: seq<Frame>, i: nat)
    requires i < |frames|
  {
    frames[i].tsNs >= Latch(frames[..i + 1])
  }

  lemma {:induction false} LatchIsFirst(frames: seq<Frame>, i: nat)
    requires i < |frames| && frames[i].tsNs > 0
    requires forall j :: 0 <= j < i ==> frames[j].tsNs == 0
    ensures Latch(frames) == frames[i].tsNs
  {
    var earlier := frames[..|frames| - 1];
    if i == |frames| - 1 {
      NothingLatched(earlier);
    } else {
      LatchIsFirst(earlier, i);
    }
  }

  lemma {:induction false} NothingLatched(frames: seq<Frame>)
    ensures Latch(frames) == 0 <==> forall j :: 0 <= j < |frames| ==> frames[j].tsNs == 0
  {
    if frames != [] {
      NothingLatched(frames[..|frames| - 1]);
    }
  }

  lemma {:induction false} LatchStays(frames: seq<Frame>, n: nat)
    requires n <= |frames| && Latch(frames[..n]) != 0
    ensures Latch(frames) == Latch(frames[..n])
  {
    if n == |frames| {
      assert frames[..n] == frames;
    } else {
      var earlier := frames[..|frames| - 1];
      assert earlier[..n] == frames[..n];
      LatchStays(earlier, n);
    }
  }

  /** In a sorted capture no time stamp is before its origin. */
  lemma {:induction false} SortedFromOrigin(frames: seq<Frame>, i: nat)
    requires Sorted(frames) && i < |frames|
    ensures NotBeforeOrigin(frames, i)
    decreases i
  {
    var n := i + 1;
    assert frames[..n][..i] == frames[..i];
    if i > 0 {
      SortedFromOrigin(frames, i - 1);
    }
  }

  /** A scaled difference is the product rounded down. */
  lemma ScaledBetween(x: nat, k: Scale)
    ensures k.den * Scaled(x, k) <= x * k.num < k.den * Scaled(x, k) + k.den
  {
    Product(x, k.num);
    Division(x * k.num, k.den);
  }

  lemma TimesMono(x: nat, y: nat, n: nat)
    requires x <= y
    ensures x * n <= y * n
  {
    assert y * n == x * n + (y - x) * n;
    Product(y - x, n);
  }

  lemma ScaledMono(x: nat, y: nat, k: Scale)
    requires x <= y
    ensures Scaled(x, k) <= Scaled(y, k)
  {
    TimesMono(x, y, k.num);
    Product(x, k.num);
    DivMono(x * k.num, y * k.num, k.den);
  }

  lemma ScaledExact(x: nat)
    ensures Scaled(x, EXACT) == x
  {}

  lemma ScaledDifference(x: nat, y: nat, k: Scale)
    requires x <= y
    ensures (y - x) * k.num - k.den < k.den * (Scaled(y, k) - Scaled(x, k)) < (y - x) * k.num + k.den
    ensures k == EXACT ==> Scaled(y, k) - Scaled(x, k) == y - x
  {
    ScaledBetween(x, k);
    ScaledBetween(y, k);
    assert (y - x) * k.num == y * k.num - x * k.num;
  }

  // The start plus the scaled offset does not leave 64 bits.
  predicate EndsInTime(start: U64, offset: nat, k: Scale) {
    start + Scaled(offset, k) < TWO64
  }

  // The scaled offset itself is within 64 bits; the source's conversion has no meaning beyond.
  predicate InRange(offset: nat, k: Scale) {
    Scaled(offset, k) < TWO64
  }

  // Of two offsets, whether the 64-bit sum wraps for both or for neither.
  predicate SameLap(start: U64, x: nat, y: nat, k: Scale) {
    EndsInTime(start, x, k) <==> EndsInTime(start, y, k)
  }

  lemma AtLap(start: U64, x: nat, k: Scale)
    requires InRange(x, k)
    ensures At(start, x, k) == start + Scaled(x, k) - if EndsInTime(start, x, k) then 0 else TWO64
  {}

  /** The exact condition: of two offsets the larger is due no earlier if and only if both sums
      wrap or neither does; then they are due the scaled distance apart, to within a nanosecond,
      and in exact mode they are due the distance apart if and only if so. */
  lemma Later(start: U64, x: nat, y: nat, k: Scale)
    requires x <= y && InRange(y, k)
    ensures At(start, x, k) <= At(start, y, k) <==> SameLap(start, x, y, k)
    ensures var elapsed := At(start, y, k) - At(start, x, k);
            && (SameLap(start, x, y, k) ==>
                  (y - x) * k.num - k.den < k.den * elapsed < (y - x) * k.num + k.den)
            && (k == EXACT ==> (elapsed == y - x <==> SameLap(start, x, y, k)))
  {
    ScaledMono(x, y, k);
    AtLap(start, x, k);
    AtLap(start, y, k);
    ScaledDifference(x, y, k);
  }

  /** Whatever wraps, in exact mode the time is the start plus the distance from the origin,
      modulo 2^64. A frame before the origin, which only an unsorted capture has, is therefore
      due in the past, or if that is before the clock's zero, 2^64 ns later. */
  lemma ExactTime(start: U64, ts: U64, origin: U64)
    ensures var at := start + ts - origin;
            FireAt(start, ts, origin, EXACT) ==
            if at < 0 then at + TWO64 else if at >= TWO64 then at - TWO64 else at
  {
    ScaledExact(Sub64(ts, origin));
  }

  // ---------- sorted captures ----------

  // How far frame i lies from the origin in force when it is sent.
  function Offset(frames: seq<Frame>, i: nat): nat
    requires i < |frames| && NotBeforeOrigin(frames, i)
  {
    frames[i].tsNs - Latch(frames[..i + 1])
  }

  // How far the last frame does.
  ghost function Span(frames: seq<Frame>): nat
    requires Sorted(frames) && frames != []
  {
    SortedFromOrigin(frames, |frames| - 1);
    Offset(frames, |frames| - 1)
  }

  lemma OffsetsGrow(frames: seq<Frame>, i: nat, j: nat)
    requires Sorted(frames) && i <= j < |frames|
    requires NotBeforeOrigin(frames, i) && NotBeforeOrigin(frames, j)
    ensures Offset(frames, i) <= Offset(frames, j)
    ensures Offset(frames, j) - Offset(frames, i) == frames[j].tsNs - frames[i].tsNs
            <==> frames[i].tsNs > 0 || frames[j].tsNs == 0
  {
    assert frames[..j + 1][..i + 1] == frames[..i + 1];
    if Latch(frames[..i + 1]) == 0 {
      NothingLatched(frames[..i + 1]);
      assert frames[..i + 1][i].tsNs == 0;
      NothingLatched(frames[..j + 1]);
      assert frames[..j + 1][j] == frames[j];
    } else {
      LatchStays(frames[..j + 1], i + 1);
      NothingLatched(frames[..i + 1]);
      LatchPositive(frames, i);
    }
  }

  // Once something is latched, a sorted capture has no zero stamps any more.
  lemma LatchPositive(frames: seq<Frame>, i: nat)
    requires Sorted(frames) && i < |frames| && Latch(frames[..i + 1]) != 0
    ensures frames[i].tsNs > 0
  {
    SortedFromOrigin(frames, i);
  }

  /** In a sorted capture no subtraction wraps: each frame's time is the start plus its scaled
      distance from the origin. Of two frames the later is due no earlier if and only if both of
      these sums leave 64 bits or neither does. */
  lemma SortedReplay(frames: seq<Frame>, i: nat, j: nat, start: U64, k: Scale)
    requires Sorted(frames) && i <= j < |frames| && InRange(Span(frames), k)
    ensures NotBeforeOrigin(frames, i) && NotBeforeOrigin(frames, j)
    ensures Offset(frames, i) <= Offset(frames, j) <= Span(frames) && InRange(Offset(frames, j), k)
    ensures FireTime(frames, i, start, k) == At(start, Offset(frames, i), k)
    ensures FireTime(frames, i, start, k) <= FireTime(frames, j, start, k)
            <==> SameLap(start, Offset(frames, i), Offset(frames, j), k)
  {
    SortedFromOrigin(frames, i);
    SortedFromOrigin(frames, j);
    SortedFromOrigin(frames, |frames| - 1);
    OffsetsGrow(frames, i, j);
    OffsetsGrow(frames, j, |frames| - 1);
    ScaledMono(Offset(frames, j), Span(frames), k);
    Later(start, Offset(frames, i), Offset(frames, j), k);
  }

  // The first frame of a capture is due at the start.
  lemma FirstAtStart(frames: seq<Frame>, start: U64, k: Scale)
    requires frames != []
    ensures FireTime(frames, 0, start, k) == start
  {
    var first := frames[..1];
    assert first[..|first| - 1] == [] && Latch([]) == 0;
    assert Latch(first) == frames[0].tsNs;
    NoOffset(start, k);
  }

  lemma NoOffset(start: U64, k: Scale)
    ensures At(start, 0, k) == start
  {
    assert Scaled(0, k) == 0;
  }

  /** The exact condition for the whole capture: the times never decrease if and only if the last
      of them does not leave 64 bits. */
  lemma NeverBackExactly(frames: seq<Frame>, start: U64, k: Scale)
    requires Sorted(frames) && frames != [] && InRange(Span(frames), k)
    ensures EndsInTime(start, Span(frames), k)
            <==> forall i, j :: 0 <= i <= j < |frames| ==>
                   FireTime(frames, i, start, k) <= FireTime(frames, j, start, k)
  {
    var n := |frames| - 1;
    if EndsInTime(start, Span(frames), k) {
      forall i, j | 0 <= i <= j < |frames| ensures FireTime(frames, i, start, k) <= FireTime(frames, j, start, k) {
        SortedReplay(frames, i, j, start, k);
        ScaledMono(Offset(frames, i), Offset(frames, j), k);
        ScaledMono(Offset(frames, j), Span(frames), k);
      }
    } else {
      FirstAtStart(frames, start, k);
      SortedReplay(frames, 0, n, start, k);
      AtLap(start, Span(frames), k);
      assert FireTime(frames, n, start, k) < FireTime(frames, 0, start, k);
    }
  }

  /** A sorted capture of two frames with the time stamps 1 and 2^64-1 goes back, from any start
      after 1. */
  lemma GoesBack(frames: seq<Frame>, start: U64)
    requires |frames| == 2 && frames[0].tsNs == 1 && frames[1].tsNs == TWO64 - 1 && start > 1
    ensures Sorted(frames) && FireTime(frames, 1, start, EXACT) < FireTime(frames, 0, start, EXACT)
  {
    FirstAtStart(frames, start, EXACT);
    assert frames[..2] == frames && frames[..1][..0] == [];
    ExactTime(start, TWO64 - 1, Latch(frames));
  }

  /** Spacing: unless just one of the two sums leaves 64 bits, the time elapsed between two frames
      is the distance of their offsets times the factor, to within a nanosecond. That distance is
      the captured one if and only if the first frame has a time stamp or the second has none. */
  lemma SpacingKept(frames: seq<Frame>, i: nat, j: nat, start: U64, k: Scale)
    requires Sorted(frames) && i <= j < |frames| && InRange(Span(frames), k)
    ensures NotBeforeOrigin(frames, i) && NotBeforeOrigin(frames, j)
    ensures var elapsed := FireTime(frames, j, start, k) - FireTime(frames, i, start, k);
            var distance := Offset(frames, j) - Offset(frames, i);
            SameLap(start, Offset(frames, i), Offset(frames, j), k) ==>
              distance * k.num - k.den < k.den * elapsed < distance * k.num + k.den
    ensures Offset(frames, j) - Offset(frames, i) == frames[j].tsNs - frames[i].tsNs
            <==> frames[i].tsNs > 0 || frames[j].tsNs == 0
  {
    SortedReplay(frames, i, j, start, k);
    SortedReplay(frames, j, j, start, k);
    OffsetsGrow(frames, i, j);
    Later(start, Offset(frames, i), Offset(frames, j), k);
  }

  /** The exact condition for exact mode: two frames are sent as far apart as captured if and only
      if the first has a time stamp or the second has none, and the sums do not fall on the two
      sides of 2^64. */
  lemma SpacingExactly(frames: seq<Frame>, i: nat, j: nat, start: U64)
    requires Sorted(frames) && i <= j < |frames|
    ensures NotBeforeOrigin(frames, i) && NotBeforeOrigin(frames, j)
    ensures FireTime(frames, j, start, EXACT) - FireTime(frames, i, start, EXACT) == frames[j].tsNs - frames[i].tsNs
            <==> (frames[i].tsNs > 0 || frames[j].tsNs == 0)
                 && SameLap(start, Offset(frames, i), Offset(frames, j), EXACT)
  {
    ScaledExact(Span(frames));
    SortedReplay(frames, i, j, start, EXACT);
    SortedReplay(frames, j, j, start, EXACT);
    OffsetsGrow(frames, i, j);
    Later(start, Offset(frames, i), Offset(frames, j), EXACT);
    AtLap(start, Offset(frames, i), EXACT);
    AtLap(start, Offset(frames, j), EXACT);
    ScaledExact(Offset(frames, i));
    ScaledExact(Offset(frames, j));
  }

  /** A capture that starts at time zero loses the spacing of its first frames: the first that has
      a time stamp is due at the start, like those before it. */
  lemma ZeroStart(frames: seq<Frame>, j: nat, start: U64, k: Scale)
    requires j < |frames| && frames[j].tsNs > 0 && forall i :: 0 <= i < j ==> frames[i].tsNs == 0
    ensures FireTime(frames, j, start, k) == start == FireTime(frames, 0, start, k)
  {
    FirstAtStart(frames, start, k);
    assert frames[..j + 1][j] == frames[j];
    LatchIsFirst(frames[..j + 1], j);
    NoOffset(start, k);
  }
}
