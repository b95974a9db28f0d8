// The token bucket that paces the traffic generator (vbus/src/cli/vbus_bench.cpp).
module Pacer {
  import opened Arith

  datatype Transport = Udp | Tcp

  // One pass through a sender's loop: the clock reading it makes, and what the send call would
  // return if it is made.
  datatype Turn = Turn(now: nat, result: int)

  datatype Bucket = Bucket(tokens: nat, lastFill: nat)

  function PayloadSize(bps: nat): (bytes: nat)
    ensures bytes in {1400, 4096, 16384, 65000}
    ensures bytes > 1400 <==> bps >= 50_000_000
    ensures bytes > 4096 <==> bps >= 500_000_000
    ensures bytes > 16384 <==> bps >= 5_000_000_000
  {
    if bps >= 5_000_000_000 then 65000
    else if bps >= 500_000_000 then 16384
    else if bps >= 50_000_000 then 4096
    else 1400
  }

  /** What the sizes are for: a faster rate never gets smaller packets, and up to 19.8 Gbit/s no
      sender needs more than 38147 of them a second. */
  lemma PacketsAreFew(bps: nat, faster: nat)
    ensures bps <= faster ==> PayloadSize(bps) <= PayloadSize(faster)
    ensures bps <= 19_800_000_000 ==> bps < 38148 * (PayloadSize(bps) * 8)
  {}

  // Bits earned over `elapsed` nanoseconds, rounded down.
  function Earned(rate: nat, elapsed: nat): nat {
    rate * elapsed / BILLION
  }

  // The same as a function of the elapsed time. What follows holds for any refill `earn`
  // that is bounded by the rate as stated.
  function AtRate(rate: nat): nat -> nat {
    elapsed => Earned(rate, elapsed)
  }

  ghost predicate NeverOverpays(earn: nat -> nat, rate: nat) {
    forall e: nat {:trigger Lapse(e)} :: Lapse(e) ==> BILLION * earn(e) <= rate * e
  }

  ghost predicate LosesLessThanABit(earn: nat -> nat, rate: nat) {
    forall e: nat {:trigger Lapse(e)} :: Lapse(e) ==> rate * e < BILLION * earn(e) + BILLION
  }

  // Names the elapsed times to which a bound on the refill is put.
  predicate Lapse(e: nat) {
    true
  }

  lemma FloorRefill(rate: nat)
    ensures NeverOverpays(AtRate(rate), rate) && LosesLessThanABit(AtRate(rate), rate)
  {
    forall e: nat ensures BILLION * AtRate(rate)(e) <= rate * e < BILLION * AtRate(rate)(e) + BILLION {
      EarnedAtMost(rate, e);
    }
  }

  lemma EarnedAtMost(rate: nat, elapsed: nat)
    ensures BILLION * Earned(rate, elapsed) <= rate * elapsed < BILLION * Earned(rate, elapsed) + BILLION
  {}

  function LastTime(from: nat, turns: seq<Turn>): nat {
    if turns == [] then from else turns[|turns| - 1].now
  }

  // Time does not run backwards, and a send call reports at most what it was given.
  ghost predicate Plausible(bytes: nat, from: nat, turns: seq<Turn>) {
    turns != [] ==>
      var last, earlier := turns[|turns| - 1], turns[..|turns| - 1];
      LastTime(from, earlier) <= last.now && last.result <= bytes && Plausible(bytes, from, earlier)
  }

  // What a send takes from the bucket: UDP a whole packet, TCP what was accepted.
  function Charge(proto: Transport, bytes: nat, result: int): nat {
    if result <= 0 then 0
    else match proto
      case Udp => bytes * 8
      case Tcp => result * 8
  }

  function Refilled(earn: nat -> nat, bytes: nat, b: Bucket, now: nat): (r: Bucket)
    requires b.lastFill <= now
    ensures r.tokens <= 4 * (bytes * 8)
  {
    var full := b.tokens + earn(now - b.lastFill);
    Bucket(if full > 4 * (bytes * 8) then 4 * (bytes * 8) else full, now)
  }

  function Sends(earn: nat -> nat, bytes: nat, b: Bucket, turn: Turn): bool
    requires b.lastFill <= turn.now
  {
    Refilled(earn, bytes, b, turn.now).tokens >= bytes * 8
  }

  // Bits that leave in a turn.
  function Bits(earn: nat -> nat, bytes: nat, b: Bucket, turn: Turn): nat
    requires b.lastFill <= turn.now
  {
    if Sends(earn, bytes, b, turn) && turn.result > 0 then turn.result * 8 else 0
  }

  function Next(proto: Transport, earn: nat -> nat, bytes: nat, b: Bucket, turn: Turn): (r: Bucket)
    requires b.lastFill <= turn.now && turn.result <= bytes
    ensures r.lastFill == turn.now && r.tokens <= 4 * (bytes * 8)
    ensures r.tokens + Bits(earn, bytes, b, turn) <= Refilled(earn, bytes, b, turn.now).tokens
  {
    var r := Refilled(earn, bytes, b, turn.now);
    if r.tokens >= bytes * 8 then r.(tokens := r.tokens - Charge(proto, bytes, turn.result)) else r
  }

  // The bucket after a run of turns, and the bits sent in it.
  function After(proto: Transport, earn: nat -> nat, bytes: nat, b: Bucket, turns: seq<Turn>): (r: Bucket)
    requires Plausible(bytes, b.lastFill, turns)
    ensures r.lastFill == LastTime(b.lastFill, turns)
    ensures turns != [] ==> r.tokens <= 4 * (bytes * 8)
  {
    if turns == [] then b
    else Next(proto, earn, bytes, After(proto, earn, bytes, b, turns[..|turns| - 1]), turns[|turns| - 1])
  }

  function Sent(proto: Transport, earn: nat -> nat, bytes: nat, b: Bucket, turns: seq<Turn>): nat
    requires Plausible(bytes, b.lastFill, turns)
  {
    if turns == [] then 0
    else
      var earlier, last := turns[..|turns| - 1], turns[|turns| - 1];
      Sent(proto, earn, bytes, b, earlier) + Bits(earn, bytes, After(proto, earn, bytes, b, earlier), last)
  }

  // ---------- never above the rate ----------

  lemma TurnAtMost(proto: Transport, earn: nat -> nat, rate: nat, bytes: nat, b: Bucket, turn: Turn)
    requires NeverOverpays(earn, rate)
    requires b.lastFill <= turn.now && turn.result <= bytes
    ensures BILLION * (Next(proto, earn, bytes, b, turn).tokens + Bits(earn, bytes, b, turn))
            <= BILLION * b.tokens + rate * (turn.now - b.lastFill)
  {
    var e: nat := turn.now - b.lastFill;
    assert Lapse(e);
  }

  lemma TimesAdd(rate: nat, a: nat, b: nat, c: nat)
    requires a <= b <= c
    ensures rate * (b - a) + rate * (c - b) == rate * (c - a)
  {
    assert (b - a) + (c - b) == c - a;
  }

  /** What is in the bucket and what was sent never exceed what was in it and what was earned. */
  lemma {:induction false} NothingFromNothing(proto: Transport, earn: nat -> nat, rate: nat, bytes: nat, b: Bucket,
                                              turns: seq<Turn>)
    requires NeverOverpays(earn, rate)
    requires Plausible(bytes, b.lastFill, turns)
    ensures var r := After(proto, earn, bytes, b, turns);
            && b.lastFill <= r.lastFill
            && BILLION * (r.tokens + Sent(proto, earn, bytes, b, turns))
               <= BILLION * b.tokens + rate * (r.lastFill - b.lastFill)
  {
    if turns != [] {
      var earlier, last := turns[..|turns| - 1], turns[|turns| - 1];
      NothingFromNothing(proto, earn, rate, bytes, b, earlier);
      var mid := After(proto, earn, bytes, b, earlier);
      TurnAtMost(proto, earn, rate, bytes, mid, last);
      AtMostAdd(rate, b.lastFill, mid.lastFill, last.now, b.tokens, mid.tokens,
                Next(proto, earn, bytes, mid, last).tokens, Sent(proto, earn, bytes, b, earlier),
                Bits(earn, bytes, mid, last));
    }
  }

  lemma AtMostAdd(rate: nat, t0: nat, t1: nat, t2: nat, k0: nat, k1: nat, k2: nat, sent: nat, bits: nat)
    requires t0 <= t1 <= t2
    requires BILLION * (k1 + sent) <= BILLION * k0 + rate * (t1 - t0)
    requires BILLION * (k2 + bits) <= BILLION * k1 + rate * (t2 - t1)
    ensures BILLION * (k2 + (sent + bits)) <= BILLION * k0 + rate * (t2 - t0)
  {
    TimesAdd(rate, t0, t1, t2);
  }

  // A run goes on from the bucket its first part leaves.
  lemma {:induction false} RunsCompose(proto: Transport, earn: nat -> nat, bytes: nat, b: Bucket,
                                             first: seq<Turn>, rest: seq<Turn>)
    requires Plausible(bytes, b.lastFill, first + rest)
    ensures Plausible(bytes, b.lastFill, first)
    ensures var mid := After(proto, earn, bytes, b, first);
            && Plausible(bytes, mid.lastFill, rest)
            && After(proto, earn, bytes, b, first + rest) == After(proto, earn, bytes, mid, rest)
            && Sent(proto, earn, bytes, b, first + rest)
               == Sent(proto, earn, bytes, b, first) + Sent(proto, earn, bytes, mid, rest)
    decreases |rest|
  {
    if rest == [] {
      assert first + rest == first;
    } else {
      assert (first + rest)[..|first + rest| - 1] == first + rest[..|rest| - 1];
      RunsCompose(proto, earn, bytes, b, first, rest[..|rest| - 1]);
    }
  }

  function Fresh(bytes: nat, at: nat): Bucket {
    Bucket(bytes * 8, at)
  }

  /** In every run, after any first part of it, the bits sent in the rest are at most four
      packets and what the rate allows for the time since; from the start, at most one packet.
      As every prefix of a run is a run, this bounds every window of every run. */
  lemma WindowBound(proto: Transport, rate: nat, bytes: nat, start: nat, first: seq<Turn>, rest: seq<Turn>)
    requires Plausible(bytes, start, first + rest)
    ensures Plausible(bytes, start, first)
    ensures var b, earn := Fresh(bytes, start), AtRate(rate);
            var sent := Sent(proto, earn, bytes, b, first + rest) - Sent(proto, earn, bytes, b, first);
            var elapsed := LastTime(start, first + rest) - LastTime(start, first);
            && BILLION * sent <= BILLION * (4 * (bytes * 8)) + rate * elapsed
            && (first == [] ==> BILLION * sent <= BILLION * (bytes * 8) + rate * elapsed)
  {
    FloorRefill(rate);
    Window(proto, AtRate(rate), rate, bytes, Fresh(bytes, start), first, rest);
  }

  lemma Window(proto: Transport, earn: nat -> nat, rate: nat, bytes: nat, b: Bucket, first: seq<Turn>, rest: seq<Turn>)
    requires NeverOverpays(earn, rate)
    requires Plausible(bytes, b.lastFill, first + rest)
    ensures Plausible(bytes, b.lastFill, first)
    ensures var sent := Sent(proto, earn, bytes, b, first + rest) - Sent(proto, earn, bytes, b, first);
            var elapsed := LastTime(b.lastFill, first + rest) - LastTime(b.lastFill, first);
            BILLION * sent <= BILLION * After(proto, earn, bytes, b, first).tokens + rate * elapsed
  {
    RunsCompose(proto, earn, bytes, b, first, rest);
    NothingFromNothing(proto, earn, rate, bytes, After(proto, earn, bytes, b, first), rest);
  }

  // ---------- how far below it ----------

  // Every send goes through whole, and the loop comes round at least once per packet time.
  ghost predicate KeepsUp(earn: nat -> nat, bytes: nat, from: nat, turns: seq<Turn>) {
    turns != [] ==>
      var last, earlier := turns[|turns| - 1], turns[..|turns| - 1];
      && last.result == bytes
      && LastTime(from, earlier) <= last.now && earn(last.now - LastTime(from, earlier)) <= bytes * 8
      && KeepsUp(earn, bytes, from, earlier)
  }

  lemma TurnAtLeast(proto: Transport, earn: nat -> nat, rate: nat, bytes: nat, b: Bucket, turn: Turn)
    requires LosesLessThanABit(earn, rate)
    requires b.lastFill <= turn.now && turn.result == bytes && b.tokens <= bytes * 8
    requires earn(turn.now - b.lastFill) <= bytes * 8
    ensures Next(proto, earn, bytes, b, turn).tokens <= bytes * 8
    ensures BILLION * (Next(proto, earn, bytes, b, turn).tokens + Bits(earn, bytes, b, turn) + 1)
            >= BILLION * b.tokens + rate * (turn.now - b.lastFill)
  {
    var e: nat := turn.now - b.lastFill;
    assert Lapse(e);
  }

  /** A sender that keeps up achieves its rate to within one packet and one bit per turn:
      each refill rounds down and the remainder is not carried over. */
  lemma {:induction false} RateAchieved(proto: Transport, earn: nat -> nat, rate: nat, bytes: nat, b: Bucket,
                                        turns: seq<Turn>)
    requires LosesLessThanABit(earn, rate)
    requires Plausible(bytes, b.lastFill, turns) && b.tokens <= bytes * 8
    requires KeepsUp(earn, bytes, b.lastFill, turns)
    ensures var r := After(proto, earn, bytes, b, turns);
            && b.lastFill <= r.lastFill && r.tokens <= bytes * 8
            && BILLION * (r.tokens + Sent(proto, earn, bytes, b, turns) + |turns|)
               >= BILLION * b.tokens + rate * (r.lastFill - b.lastFill)
  {
    if turns != [] {
      var earlier, last := turns[..|turns| - 1], turns[|turns| - 1];
      RateAchieved(proto, earn, rate, bytes, b, earlier);
      var mid := After(proto, earn, bytes, b, earlier);
      TurnAtLeast(proto, earn, rate, bytes, mid, last);
      AtLeastAdd(rate, b.lastFill, mid.lastFill, last.now, b.tokens, mid.tokens,
                 Next(proto, earn, bytes, mid, last).tokens, Sent(proto, earn, bytes, b, earlier),
                 Bits(earn, bytes, mid, last), |earlier|);
    }
  }

  lemma AtLeastAdd(rate: nat, t0: nat, t1: nat, t2: nat, k0: nat, k1: nat, k2: nat, sent: nat, bits: nat, turns: nat)
    requires t0 <= t1 <= t2
    requires BILLION * (k1 + sent + turns) >= BILLION * k0 + rate * (t1 - t0)
    requires BILLION * (k2 + bits + 1) >= BILLION * k1 + rate * (t2 - t1)
    ensures BILLION * (k2 + (sent + bits) + (turns + 1)) >= BILLION * k0 + rate * (t2 - t0)
  {
    TimesAdd(rate, t0, t1, t2);
  }

  // ---------- the ledger ----------

  // What a turn's refill loses to the cap.
  function Spilled(earn: nat -> nat, bytes: nat, b: Bucket, turn: Turn): nat
    requires b.lastFill <= turn.now
  {
    b.tokens + earn(turn.now - b.lastFill) - Refilled(earn, bytes, b, turn.now).tokens
  }

  // What a turn takes out of the bucket.
  function Paid(proto: Transport, earn: nat -> nat, bytes: nat, b: Bucket, turn: Turn): nat
    requires b.lastFill <= turn.now
  {
    if Sends(earn, bytes, b, turn) then Charge(proto, bytes, turn.result) else 0
  }

  // What came in over a run, what the cap took and what was paid.
  datatype Ledger = Ledger(earned: nat, spilled: nat, paid: nat)

  function Booked(proto: Transport, earn: nat -> nat, bytes: nat, b: Bucket, turns: seq<Turn>): Ledger
    requires Plausible(bytes, b.lastFill, turns)
  {
    if turns == [] then Ledger(0, 0, 0)
    else
      var last, earlier := turns[|turns| - 1], turns[..|turns| - 1];
      Book(proto, earn, bytes, After(proto, earn, bytes, b, earlier), last, Booked(proto, earn, bytes, b, earlier))
  }

  function Book(proto: Transport, earn: nat -> nat, bytes: nat, b: Bucket, turn: Turn, was: Ledger): Ledger
    requires b.lastFill <= turn.now
  {
    Ledger(was.earned + earn(turn.now - b.lastFill), was.spilled + Spilled(earn, bytes, b, turn),
           was.paid + Paid(proto, earn, bytes, b, turn))
  }

  lemma BookBalances(proto: Transport, earn: nat -> nat, bytes: nat, b: Bucket, turn: Turn, was: Ledger, start: nat)
    requires b.lastFill <= turn.now && turn.result <= bytes
    requires b.tokens + was.paid == start + was.earned - was.spilled
    ensures var now := Book(proto, earn, bytes, b, turn, was);
            Next(proto, earn, bytes, b, turn).tokens + now.paid == start + now.earned - now.spilled
  {
    TurnBooked(proto, earn, bytes, b, turn);
  }

  lemma {:induction false} Balance(proto: Transport, earn: nat -> nat, bytes: nat, b: Bucket, turns: seq<Turn>)
    requires Plausible(bytes, b.lastFill, turns)
    ensures var ledger := Booked(proto, earn, bytes, b, turns);
            After(proto, earn, bytes, b, turns).tokens + ledger.paid == b.tokens + ledger.earned - ledger.spilled
  {
    if turns != [] {
      var last, earlier := turns[|turns| - 1], turns[..|turns| - 1];
      Balance(proto, earn, bytes, b, earlier);
      BookBalances(proto, earn, bytes, After(proto, earn, bytes, b, earlier), last,
                   Booked(proto, earn, bytes, b, earlier), b.tokens);
    }
  }

  // No UDP packet is cut short.
  ghost predicate AllWhole(proto: Transport, bytes: nat, turns: seq<Turn>) {
    proto.Tcp? || forall i :: 0 <= i < |turns| ==> turns[i].result <= 0 || turns[i].result == bytes
  }

  lemma {:induction false} PaidForSent(proto: Transport, earn: nat -> nat, bytes: nat, b: Bucket, turns: seq<Turn>)
    requires Plausible(bytes, b.lastFill, turns)
    ensures Booked(proto, earn, bytes, b, turns).paid >= Sent(proto, earn, bytes, b, turns)
    ensures AllWhole(proto, bytes, turns) ==>
              Booked(proto, earn, bytes, b, turns).paid == Sent(proto, earn, bytes, b, turns)
  {
    if turns != [] {
      var last, earlier := turns[|turns| - 1], turns[..|turns| - 1];
      PaidForSent(proto, earn, bytes, b, earlier);
      TurnBooked(proto, earn, bytes, After(proto, earn, bytes, b, earlier), last);
    }
  }

  /** Exactly where the bits are: what is in the bucket and what was paid for sending is what was in
      it at the start and the refills, each rounded as it was made, less what the cap took. What was
      paid is what was sent, but for what a UDP packet that was cut short paid beyond its length. */
  lemma {:induction false} ExactLedger(proto: Transport, earn: nat -> nat, bytes: nat, b: Bucket, turns: seq<Turn>)
    requires Plausible(bytes, b.lastFill, turns)
    ensures var ledger := Booked(proto, earn, bytes, b, turns);
            && After(proto, earn, bytes, b, turns).tokens + ledger.paid == b.tokens + ledger.earned - ledger.spilled
            && ledger.paid >= Sent(proto, earn, bytes, b, turns)
            && (AllWhole(proto, bytes, turns) ==> ledger.paid == Sent(proto, earn, bytes, b, turns))
  {
    Balance(proto, earn, bytes, b, turns);
    PaidForSent(proto, earn, bytes, b, turns);
  }

  lemma TurnBooked(proto: Transport, earn: nat -> nat, bytes: nat, b: Bucket, turn: Turn)
    requires b.lastFill <= turn.now && turn.result <= bytes
    ensures Next(proto, earn, bytes, b, turn).tokens + Paid(proto, earn, bytes, b, turn)
            == b.tokens + earn(turn.now - b.lastFill) - Spilled(earn, bytes, b, turn)
    ensures Paid(proto, earn, bytes, b, turn) >= Bits(earn, bytes, b, turn)
    ensures proto.Tcp? || turn.result <= 0 || turn.result == bytes ==>
              Paid(proto, earn, bytes, b, turn) == Bits(earn, bytes, b, turn)
  {}

  // Every turn comes round in less than the time of one bit.
  ghost predicate TooSoon(rate: nat, from: nat, turns: seq<Turn>) {
    turns != [] ==>
      var last, earlier := turns[|turns| - 1], turns[..|turns| - 1];
      rate * (last.now - LastTime(from, earlier)) < BILLION && TooSoon(rate, from, earlier)
  }

  /** That bit per turn can be everything: a loop that always comes round within one bit time
      earns nothing, so once short of a packet it never sends again. */
  lemma {:induction false} Starves(proto: Transport, rate: nat, bytes: nat, b: Bucket, turns: seq<Turn>)
    requires Plausible(bytes, b.lastFill, turns) && b.tokens < bytes * 8
    requires TooSoon(rate, b.lastFill, turns)
    ensures Sent(proto, AtRate(rate), bytes, b, turns) == 0
    ensures After(proto, AtRate(rate), bytes, b, turns).tokens == b.tokens
  {
    if turns != [] {
      var earlier, last := turns[..|turns| - 1], turns[|turns| - 1];
      EarnedAtMost(rate, last.now - LastTime(b.lastFill, earlier));
      Starves(proto, rate, bytes, b, earlier);
    }
  }

  // ---------- the wait for a short bucket ----------

  function WaitNs(rate: nat, deficit: nat): nat {
    if rate > 0 then deficit * BILLION / rate else 1_000_000
  }

  /** The wait never overshoots, and is short by less than a nanosecond: it earns at most the
      deficit, one nanosecond more earns at least the deficit, and it earns the deficit itself
      exactly when the rate divides the deficit's time evenly. */
  lemma WaitIsTight(rate: nat, deficit: nat)
    requires rate > 0
    ensures var w := WaitNs(rate, deficit);
            && Earned(rate, w) <= deficit <= Earned(rate, w + 1)
            && (Earned(rate, w) == deficit <==> deficit * BILLION % rate == 0)
  {
    var w, target := WaitNs(rate, deficit), deficit * BILLION;
    Division(target, rate);
    assert rate * w <= target < rate * (w + 1);
    EarnedAtMost(rate, w);
    EarnedAtMost(rate, w + 1);
  }

  /** With the packet sizes the code picks, no intermediate product of the pacing arithmetic
      leaves 64 bits. */
  lemma WaitFits(rate: nat, tokens: nat)
    requires tokens <= PayloadSize(rate) * 8
    ensures (PayloadSize(rate) * 8 - tokens) * BILLION < 0x1_0000_0000_0000_0000
    ensures 4 * (PayloadSize(rate) * 8) < 0x1_0000_0000_0000_0000
  {}

  // ---------- the senders ----------

  datatype Totals = Totals(bytes: nat, packets: nat, errors: nat)

  // What the counters show after a run: the bytes and packets sent, and the failed sends.
  function Tally(proto: Transport, earn: nat -> nat, bytes: nat, b: Bucket, turns: seq<Turn>): Totals
    requires Plausible(bytes, b.lastFill, turns)
  {
    if turns == [] then Totals(0, 0, 0)
    else
      var last, earlier := turns[|turns| - 1], turns[..|turns| - 1];
      Tallied(earn, bytes, After(proto, earn, bytes, b, earlier), last, Tally(proto, earn, bytes, b, earlier))
  }

  function Tallied(earn: nat -> nat, bytes: nat, b: Bucket, turn: Turn, was: Totals): Totals
    requires b.lastFill <= turn.now
  {
    if !Sends(earn, bytes, b, turn) then was
    else if turn.result > 0 then was.(bytes := was.bytes + turn.result, packets := was.packets + 1)
    else was.(errors := was.errors + 1)
  }

  // The byte counter is the bits sent.
  lemma {:induction false} TallyIsSent(proto: Transport, earn: nat -> nat, bytes: nat, b: Bucket, turns: seq<Turn>)
    requires Plausible(bytes, b.lastFill, turns)
    ensures Tally(proto, earn, bytes, b, turns).bytes * 8 == Sent(proto, earn, bytes, b, turns)
  {
    if turns != [] {
      TallyIsSent(proto, earn, bytes, b, turns[..|turns| - 1]);
    }
  }

  // Turn i of a run makes a send: the bucket, filled up, holds a packet.
  ghost predicate Tries(proto: Transport, earn: nat -> nat, bytes: nat, b: Bucket, turns: seq<Turn>, i: nat) {
    && i < |turns| && Plausible(bytes, b.lastFill, turns[..i]) && LastTime(b.lastFill, turns[..i]) <= turns[i].now
    && Sends(earn, bytes, After(proto, earn, bytes, b, turns[..i]), turns[i])
  }

  // The turns whose sends succeed, and those whose sends fail.
  ghost function Good(proto: Transport, earn: nat -> nat, bytes: nat, b: Bucket, turns: seq<Turn>): set<nat> {
    set i: nat | i < |turns| && Tries(proto, earn, bytes, b, turns, i) && turns[i].result > 0
  }

  ghost function Bad(proto: Transport, earn: nat -> nat, bytes: nat, b: Bucket, turns: seq<Turn>): set<nat> {
    set i: nat | i < |turns| && Tries(proto, earn, bytes, b, turns, i) && turns[i].result <= 0
  }

  lemma TriesEarlier(proto: Transport, earn: nat -> nat, bytes: nat, b: Bucket, turns: seq<Turn>, n: nat, i: nat)
    requires i < n <= |turns|
    ensures Tries(proto, earn, bytes, b, turns[..n], i) <==> Tries(proto, earn, bytes, b, turns, i)
  {
    assert turns[..n][..i] == turns[..i];
  }

  lemma OneMoreSend(proto: Transport, earn: nat -> nat, bytes: nat, b: Bucket, turns: seq<Turn>)
    requires turns != []
    ensures var n := |turns| - 1;
            var tries := Tries(proto, earn, bytes, b, turns, n);
            && Good(proto, earn, bytes, b, turns)
               == Good(proto, earn, bytes, b, turns[..n]) + (if tries && turns[n].result > 0 then {n} else {})
            && Bad(proto, earn, bytes, b, turns)
               == Bad(proto, earn, bytes, b, turns[..n]) + (if tries && turns[n].result <= 0 then {n} else {})
  {
    var n := |turns| - 1;
    forall i: nat | i < n
      ensures Tries(proto, earn, bytes, b, turns[..n], i) <==> Tries(proto, earn, bytes, b, turns, i)
    {
      TriesEarlier(proto, earn, bytes, b, turns, n, i);
    }
  }

  /** The counters are the sends that succeeded and the sends that failed, each turn counted once and a turn
      without enough tokens not at all. */
  lemma {:induction false} CountersAreSends(proto: Transport, earn: nat -> nat, bytes: nat, b: Bucket,
                                            turns: seq<Turn>)
    requires Plausible(bytes, b.lastFill, turns)
    ensures Tally(proto, earn, bytes, b, turns).packets == |Good(proto, earn, bytes, b, turns)|
    ensures Tally(proto, earn, bytes, b, turns).errors == |Bad(proto, earn, bytes, b, turns)|
  {
    if turns != [] {
      CountersAreSends(proto, earn, bytes, b, turns[..|turns| - 1]);
      OneMoreSend(proto, earn, bytes, b, turns);
    }
  }

  lemma OneMorePacket(bytes: nat, n: nat)
    ensures bytes * 8 * (n + 1) == bytes * 8 * n + bytes * 8
  {}

  /** What was paid, to the bit: a UDP sender pays a whole packet for each send that succeeded, however
      short it was cut; a TCP sender pays what was sent. */
  lemma {:induction false} PaidExactly(proto: Transport, earn: nat -> nat, bytes: nat, b: Bucket, turns: seq<Turn>)
    requires Plausible(bytes, b.lastFill, turns)
    ensures Booked(proto, earn, bytes, b, turns).paid ==
            if proto.Udp? then bytes * 8 * Tally(proto, earn, bytes, b, turns).packets
            else 8 * Tally(proto, earn, bytes, b, turns).bytes
  {
    if turns != [] {
      var earlier := turns[..|turns| - 1];
      PaidExactly(proto, earn, bytes, b, earlier);
      OneMorePacket(bytes, Tally(proto, earn, bytes, b, earlier).packets);
    }
  }

  // ---------- the bounds are tight ----------

  lemma OneTurn(proto: Transport, earn: nat -> nat, bytes: nat, b: Bucket, turns: seq<Turn>, turn: Turn)
    requires Plausible(bytes, b.lastFill, turns) && LastTime(b.lastFill, turns) <= turn.now && turn.result <= bytes
    ensures Plausible(bytes, b.lastFill, turns + [turn])
    ensures var mid := After(proto, earn, bytes, b, turns);
            && After(proto, earn, bytes, b, turns + [turn]) == Next(proto, earn, bytes, mid, turn)
            && Sent(proto, earn, bytes, b, turns + [turn])
               == Sent(proto, earn, bytes, b, turns) + Bits(earn, bytes, mid, turn)
  {
    assert (turns + [turn])[..|turns|] == turns;
  }

  function Burst(now: nat, bytes: nat, n: nat): (turns: seq<Turn>)
    ensures |turns| == n
  {
    if n == 0 then [] else Burst(now, bytes, n - 1) + [Turn(now, bytes)]
  }

  // The bits of some packets.
  function Packets(bytes: nat, n: nat): nat {
    if n == 0 then 0 else Packets(bytes, n - 1) + bytes * 8
  }

  lemma PacketsAre(bytes: nat, n: nat)
    requires n <= 4
    ensures Packets(bytes, n) <= 4 * (bytes * 8)
    ensures Packets(bytes, 4) == 4 * (bytes * 8) && Packets(bytes, 1) == bytes * 8 && Packets(bytes, 0) == 0
  {
    assert Packets(bytes, 2) == Packets(bytes, 1) + bytes * 8;
    assert Packets(bytes, 3) == Packets(bytes, 2) + bytes * 8;
  }

  function Least(m: nat, n: nat): nat {
    if m <= n then m else n
  }

  // All at one moment, `n` of the `full` packets in the bucket have left.
  ghost predicate Left(proto: Transport, earn: nat -> nat, bytes: nat, b: Bucket, turns: seq<Turn>, full: nat, n: nat)
    requires n <= full
  {
    && Plausible(bytes, b.lastFill, turns) && LastTime(b.lastFill, turns) == b.lastFill
    && After(proto, earn, bytes, b, turns) == Bucket(Packets(bytes, full - n), b.lastFill)
    && Sent(proto, earn, bytes, b, turns) == Packets(bytes, n)
  }

  // As many packets as the bucket holds leave at one moment, and no more.
  lemma {:induction false} BurstEmpties(proto: Transport, earn: nat -> nat, bytes: nat, b: Bucket, full: nat, n: nat)
    requires bytes > 0 && earn(0) == 0 && full <= 4 && b.tokens == Packets(bytes, full)
    ensures Left(proto, earn, bytes, b, Burst(b.lastFill, bytes, n), full, Least(n, full))
  {
    if n > 0 {
      BurstEmpties(proto, earn, bytes, b, full, n - 1);
      BurstMore(proto, earn, bytes, b, Burst(b.lastFill, bytes, n - 1), full, Least(n - 1, full));
    }
  }

  lemma BurstMore(proto: Transport, earn: nat -> nat, bytes: nat, b: Bucket, turns: seq<Turn>, full: nat, n: nat)
    requires bytes > 0 && earn(0) == 0 && full <= 4 && n <= full
    requires Left(proto, earn, bytes, b, turns, full, n)
    ensures Left(proto, earn, bytes, b, turns + [Turn(b.lastFill, bytes)], full, Least(n + 1, full))
  {
    var turn := Turn(b.lastFill, bytes);
    OneTurn(proto, earn, bytes, b, turns, turn);
    BurstTurn(proto, earn, bytes, b.lastFill, full - n);
    assert LastTime(b.lastFill, turns + [turn]) == b.lastFill;
    assert n < full ==> Packets(bytes, n + 1) == Packets(bytes, n) + bytes * 8;
  }

  lemma BurstTurn(proto: Transport, earn: nat -> nat, bytes: nat, now: nat, k: nat)
    requires bytes > 0 && earn(0) == 0 && k <= 4
    ensures var b, turn := Bucket(Packets(bytes, k), now), Turn(now, bytes);
            && Next(proto, earn, bytes, b, turn) == Bucket(Packets(bytes, if k > 0 then k - 1 else 0), now)
            && Bits(earn, bytes, b, turn) == if k > 0 then bytes * 8 else 0
  {
    PacketsAre(bytes, k);
  }

  /** A sender starts with one packet: of any number of sends at the very start, exactly one leaves. */
  lemma StartsWithOne(proto: Transport, rate: nat, bytes: nat, start: nat, n: nat)
    requires bytes > 0 && n > 0
    ensures var turns := Burst(start, bytes, n);
            Plausible(bytes, start, turns) && Sent(proto, AtRate(rate), bytes, Fresh(bytes, start), turns) == bytes * 8
  {
    assert AtRate(rate)(0) == 0;
    PacketsAre(bytes, 1);
    BurstEmpties(proto, AtRate(rate), bytes, Fresh(bytes, start), 1, n);
  }

  // A failed send after a long pause leaves the bucket full.
  lemma Filled(proto: Transport, rate: nat, bytes: nat, start: nat, pause: nat)
    requires rate > 0 && bytes > 0 && pause == 4 * (bytes * 8) * BILLION
    ensures var turn := Turn(start + pause, 0);
            Next(proto, AtRate(rate), bytes, Fresh(bytes, start), turn) == Bucket(4 * (bytes * 8), start + pause)
  {
    var full := 4 * (bytes * 8);
    assert rate * pause == full * BILLION + (rate - 1) * (full * BILLION);
    Product(rate - 1, full * BILLION);
    DivMono(full * BILLION, rate * pause, BILLION);
    assert full * BILLION / BILLION == full;
  }

  lemma {:induction false} PlausibleOn(bytes: nat, from: nat, first: seq<Turn>, rest: seq<Turn>)
    requires Plausible(bytes, from, first) && Plausible(bytes, LastTime(from, first), rest)
    ensures Plausible(bytes, from, first + rest)
    ensures LastTime(from, first + rest) == LastTime(LastTime(from, first), rest)
    decreases |rest|
  {
    if rest == [] {
      assert first + rest == first;
    } else {
      assert (first + rest)[..|first + rest| - 1] == first + rest[..|rest| - 1];
      PlausibleOn(bytes, from, first, rest[..|rest| - 1]);
    }
  }

  lemma FirstTurn(proto: Transport, earn: nat -> nat, bytes: nat, b: Bucket, turn: Turn)
    requires b.lastFill <= turn.now && turn.result <= bytes
    ensures Plausible(bytes, b.lastFill, [turn])
    ensures After(proto, earn, bytes, b, [turn]) == Next(proto, earn, bytes, b, turn)
  {
    OneTurn(proto, earn, bytes, b, [], turn);
    assert [] + [turn] == [turn];
  }

  /** The bound of four packets is reached: after a pause that fills the bucket, four packets, and of any
      larger number of sends no more than four, leave in no time at all. */
  lemma FourAtOnce(proto: Transport, rate: nat, bytes: nat, start: nat, n: nat) returns (first: seq<Turn>, now: nat)
    requires rate > 0 && bytes > 0 && n >= 4
    ensures var turns, b, earn := first + Burst(now, bytes, n), Fresh(bytes, start), AtRate(rate);
            && Plausible(bytes, start, turns) && Plausible(bytes, start, first)
            && LastTime(start, turns) == LastTime(start, first)
            && Sent(proto, earn, bytes, b, turns) - Sent(proto, earn, bytes, b, first) == 4 * (bytes * 8)
  {
    now := start + 4 * (bytes * 8) * BILLION;
    first := [Turn(now, 0)];
    Filled(proto, rate, bytes, start, now - start);
    PacketsAre(bytes, 4);
    FirstTurn(proto, AtRate(rate), bytes, Fresh(bytes, start), Turn(now, 0));
    BurstOn(proto, AtRate(rate), bytes, Fresh(bytes, start), first, now, n);
  }

  lemma BurstOn(proto: Transport, earn: nat -> nat, bytes: nat, b: Bucket, first: seq<Turn>, now: nat, n: nat)
    requires bytes > 0 && earn(0) == 0 && n >= 4 && Plausible(bytes, b.lastFill, first)
    requires After(proto, earn, bytes, b, first) == Bucket(Packets(bytes, 4), now)
    ensures var turns := first + Burst(now, bytes, n);
            && Plausible(bytes, b.lastFill, turns) && LastTime(b.lastFill, turns) == LastTime(b.lastFill, first)
            && Sent(proto, earn, bytes, b, turns) - Sent(proto, earn, bytes, b, first) == 4 * (bytes * 8)
  {
    PacketsAre(bytes, 4);
    BurstEmpties(proto, earn, bytes, Bucket(Packets(bytes, 4), now), 4, n);
    PlausibleOn(bytes, b.lastFill, first, Burst(now, bytes, n));
    RunsCompose(proto, earn, bytes, b, first, Burst(now, bytes, n));
  }

  // ---------- when a sender stops ----------

  // A turn that finds the connection gone, which ends a TCP sender.
  predicate Drops(proto: Transport, earn: nat -> nat, bytes: nat, b: Bucket, turn: Turn)
    requires b.lastFill <= turn.now
  {
    proto.Tcp? && Sends(earn, bytes, b, turn) && turn.result < 0
  }

  ghost predicate NoDrop(proto: Transport, earn: nat -> nat, bytes: nat, b: Bucket, turns: seq<Turn>)
    requires Plausible(bytes, b.lastFill, turns)
  {
    turns != [] ==>
      var last, earlier := turns[|turns| - 1], turns[..|turns| - 1];
      NoDrop(proto, earn, bytes, b, earlier) && !Drops(proto, earn, bytes, After(proto, earn, bytes, b, earlier), last)
  }

  // No turn drops but perhaps the last.
  ghost predicate NoDropYet(proto: Transport, earn: nat -> nat, bytes: nat, b: Bucket, turns: seq<Turn>)
    requires Plausible(bytes, b.lastFill, turns)
  {
    turns != [] ==> NoDrop(proto, earn, bytes, b, turns[..|turns| - 1])
  }

  /** No turn drops exactly if the sender is UDP or no send that was tried failed with an error. */
  lemma {:induction false} NoDropExactly(proto: Transport, earn: nat -> nat, bytes: nat, b: Bucket, turns: seq<Turn>)
    requires Plausible(bytes, b.lastFill, turns)
    ensures NoDrop(proto, earn, bytes, b, turns) <==>
            proto.Udp? || forall i: nat :: Tries(proto, earn, bytes, b, turns, i) ==> turns[i].result >= 0
  {
    if turns != [] {
      var n := |turns| - 1;
      NoDropExactly(proto, earn, bytes, b, turns[..n]);
      forall i: nat | i < n
        ensures Tries(proto, earn, bytes, b, turns[..n], i) <==> Tries(proto, earn, bytes, b, turns, i)
      {
        TriesEarlier(proto, earn, bytes, b, turns, n, i);
      }
      var mid := After(proto, earn, bytes, b, turns[..n]);
      assert Tries(proto, earn, bytes, b, turns, n) <==> Sends(earn, bytes, mid, turns[n]);
      if !NoDrop(proto, earn, bytes, b, turns[..n]) {
        var i: nat :| Tries(proto, earn, bytes, b, turns[..n], i) && turns[..n][i].result < 0;
        assert Tries(proto, earn, bytes, b, turns, i) && turns[i].result < 0;
      }
    }
  }

  // Everything a sender knows after the turns so far.
  ghost predicate Reached(proto: Transport, earn: nat -> nat, bytes: nat, start: nat, turns: seq<Turn>,
                          b: Bucket, totals: Totals)
  {
    && Plausible(bytes, start, turns)
    && b == After(proto, earn, bytes, Fresh(bytes, start), turns)
    && totals == Tally(proto, earn, bytes, Fresh(bytes, start), turns)
  }

  // All turns come within the duration; 0 means no limit.
  ghost predicate InTime(durationNs: nat, tStart: nat, turns: seq<Turn>) {
    durationNs > 0 ==> forall i :: 0 <= i < |turns| ==> turns[i].now - tStart < durationNs
  }

  // Why a sender stopped after `taken` turns: the next one is over time, or the last one found the
  // connection gone, or there are no more.
  ghost predicate Stopped(proto: Transport, earn: nat -> nat, bytes: nat, start: nat, durationNs: nat, tStart: nat,
                          turns: seq<Turn>, taken: nat, over: bool)
    requires taken <= |turns| && Plausible(bytes, start, turns[..taken])
  {
    && InTime(durationNs, tStart, turns[..taken])
    && NoDropYet(proto, earn, bytes, Fresh(bytes, start), turns[..taken])
    && (over <==> durationNs > 0 && taken < |turns| && turns[taken].now - tStart >= durationNs
                  && NoDrop(proto, earn, bytes, Fresh(bytes, start), turns[..taken]))
    && (!over && taken < |turns| ==> !NoDrop(proto, earn, bytes, Fresh(bytes, start), turns[..taken]))
  }

  // The turns taken went without a drop, but perhaps the last.
  lemma StopsAt(proto: Transport, earn: nat -> nat, bytes: nat, start: nat, durationNs: nat, tStart: nat,
                turns: seq<Turn>, taken: nat, over: bool)
    requires taken <= |turns| && Plausible(bytes, start, turns[..taken])
    requires Stopped(proto, earn, bytes, start, durationNs, tStart, turns, taken, over)
    ensures !over && taken < |turns| ==>
              proto.Tcp? && taken > 0 && turns[taken - 1].result < 0
              && Tries(proto, earn, bytes, Fresh(bytes, start), turns, taken - 1)
    ensures proto.Tcp? ==> forall i: nat ::
              i < taken - 1 && Tries(proto, earn, bytes, Fresh(bytes, start), turns, i) ==> turns[i].result >= 0
  {
    var b, done := Fresh(bytes, start), turns[..taken];
    if taken > 0 {
      assert done[..taken - 1] == turns[..taken - 1];
      NoDropExactly(proto, earn, bytes, b, turns[..taken - 1]);
      forall i: nat | i < taken - 1
        ensures Tries(proto, earn, bytes, b, turns[..taken - 1], i) <==> Tries(proto, earn, bytes, b, turns, i)
      {
        TriesEarlier(proto, earn, bytes, b, turns, taken - 1, i);
      }
    }
  }

  lemma TimesMore(rate: nat, a: nat, b: nat)
    requires a <= b
    ensures rate * a <= rate * b
  {
    assert rate * b == rate * a + rate * (b - a);
    Product(rate, b - a);
  }

  /** The rate over a whole run with a duration: what is sent is at most one packet and what the rate
      allows from the first filling of the bucket to the end of the duration. */
  lemma TotalBound(proto: Transport, rate: nat, bytes: nat, start: nat, durationNs: nat, tStart: nat, done: seq<Turn>)
    requires start <= tStart && durationNs > 0 && Plausible(bytes, start, done)
    requires forall i :: 0 <= i < |done| ==> done[i].now - tStart < durationNs
    ensures BILLION * (8 * Tally(proto, AtRate(rate), bytes, Fresh(bytes, start), done).bytes)
            <= BILLION * (bytes * 8) + rate * (durationNs + (tStart - start))
  {
    assert [] + done == done;
    TallyIsSent(proto, AtRate(rate), bytes, Fresh(bytes, start), done);
    WindowBound(proto, rate, bytes, start, [], done);
    LastNotBefore(bytes, start, done);
    TimesMore(rate, LastTime(start, done) - start, durationNs + (tStart - start));
  }

  lemma {:induction false} LastNotBefore(bytes: nat, from: nat, turns: seq<Turn>)
    requires Plausible(bytes, from, turns)
    ensures from <= LastTime(from, turns)
  {
    if turns != [] {
      LastNotBefore(bytes, from, turns[..|turns| - 1]);
    }
  }

  /** run_udp_send and run_tcp_send. The script `turns` stands for the clock and the socket; it
      ends where the stop flag is seen. The sender takes turns up to the first that is over time,
      or that finds a TCP connection gone; its bucket, its tokens and all its counters are those of
      the turns taken. A turn that is over time still refills the bucket. With a duration, every turn
      taken comes within it, and so what was sent is bounded as a whole; without one a sender stops only
      at the end of the script or when the connection is gone. */
  method RunSender(proto: Transport, rate: nat, durationNs: nat, start: nat, tStart: nat, turns: seq<Turn>)
    returns (totals: Totals, tokens: nat, taken: nat, over: bool, ghost b: Bucket)
    requires start <= tStart && Plausible(PayloadSize(rate), start, turns)
    ensures taken <= |turns|
    ensures Reached(proto, AtRate(rate), PayloadSize(rate), start, turns[..taken], b, totals)
    ensures Stopped(proto, AtRate(rate), PayloadSize(rate), start, durationNs, tStart, turns, taken, over)
    ensures durationNs > 0 ==> forall i :: 0 <= i < taken ==> turns[i].now - tStart < durationNs
    ensures over ==> durationNs > 0 && taken < |turns| && turns[taken].now - tStart >= durationNs
    ensures !over && taken < |turns| ==> proto.Tcp? && taken > 0 && turns[taken - 1].result < 0
    ensures durationNs > 0 ==>
              BILLION * (8 * totals.bytes) <= BILLION * (PayloadSize(rate) * 8) + rate * (durationNs + (tStart - start))
    ensures over ==> b.lastFill <= turns[taken].now
    ensures tokens == if over then Refilled(AtRate(rate), PayloadSize(rate), b, turns[taken].now).tokens else b.tokens
    ensures tokens <= 4 * (PayloadSize(rate) * 8)
  {
    totals, tokens, taken, over, b := Loop(proto, AtRate(rate), PayloadSize(rate), durationNs, start, tStart, turns);
    StopsAt(proto, AtRate(rate), PayloadSize(rate), start, durationNs, tStart, turns, taken, over);
    if durationNs > 0 {
      TotalBound(proto, rate, PayloadSize(rate), start, durationNs, tStart, turns[..taken]);
    }
  }

  method Loop(proto: Transport, earn: nat -> nat, psize: nat, durationNs: nat, start: nat, tStart: nat,
              turns: seq<Turn>)
    returns (totals: Totals, tokens: nat, taken: nat, over: bool, ghost b: Bucket)
    requires start <= tStart && Plausible(psize, start, turns)
    ensures taken <= |turns|
    ensures Reached(proto, earn, psize, start, turns[..taken], b, totals)
    ensures Stopped(proto, earn, psize, start, durationNs, tStart, turns, taken, over)
    ensures over ==> b.lastFill <= turns[taken].now
    ensures tokens == if over then Refilled(earn, psize, b, turns[taken].now).tokens else b.tokens
    ensures tokens <= 4 * (psize * 8)
  {
    tokens := psize * 8;
    var lastFill: nat := start;
    totals := Totals(0, 0, 0);
    taken, over := 0, false;
    b := Fresh(psize, start);
    var dropped := false;
    ghost var done: seq<Turn> := [];
    while taken < |turns| && !dropped
      invariant taken <= |turns| && !over
      invariant b == Bucket(tokens, lastFill) && tokens <= 4 * (psize * 8)
      invariant done == turns[..taken] && Reached(proto, earn, psize, start, done, b, totals)
      invariant Going(proto, earn, psize, start, durationNs, tStart, done, dropped)
      decreases |turns| - taken
    {
      var turn := turns[taken];
      OneMore(proto, earn, psize, start, turns, taken, b, totals);
      tokens, totals, over, dropped := TakeTurn(proto, earn, psize, durationNs, tStart, tokens, lastFill, totals, turn);
      lastFill := turn.now;
      if over {
        break;
      }
      GoesOn(proto, earn, psize, start, durationNs, tStart, turns, taken, b);
      b := Next(proto, earn, psize, b, turn);
      taken, done := taken + 1, turns[..taken + 1];
    }
  }

  // A sender under way.
  ghost predicate Going(proto: Transport, earn: nat -> nat, bytes: nat, start: nat, durationNs: nat, tStart: nat,
                        done: seq<Turn>, dropped: bool)
    requires Plausible(bytes, start, done)
  {
    && InTime(durationNs, tStart, done)
    && NoDropYet(proto, earn, bytes, Fresh(bytes, start), done)
    && (dropped <==> !NoDrop(proto, earn, bytes, Fresh(bytes, start), done))
  }

  lemma GoesOn(proto: Transport, earn: nat -> nat, bytes: nat, start: nat, durationNs: nat, tStart: nat,
               turns: seq<Turn>, i: nat, b: Bucket)
    requires i < |turns| && Plausible(bytes, start, turns[..i]) && Plausible(bytes, start, turns[..i + 1])
    requires b == After(proto, earn, bytes, Fresh(bytes, start), turns[..i])
    requires b.lastFill <= turns[i].now
    requires Going(proto, earn, bytes, start, durationNs, tStart, turns[..i], false)
    requires durationNs > 0 ==> turns[i].now - tStart < durationNs
    ensures Going(proto, earn, bytes, start, durationNs, tStart, turns[..i + 1], Drops(proto, earn, bytes, b, turns[i]))
  {
    assert turns[..i + 1][..i] == turns[..i];
  }

  // The loop's body: refill, cap, stop when the time is over, and otherwise try to send.
  method TakeTurn(proto: Transport, earn: nat -> nat, bytes: nat, durationNs: nat, tStart: nat,
                  tokens: nat, lastFill: nat, totals: Totals, turn: Turn)
    returns (tokens': nat, totals': Totals, over: bool, dropped: bool)
    requires lastFill <= turn.now && turn.result <= bytes
    ensures over <==> durationNs > 0 && turn.now - tStart >= durationNs
    ensures over ==>
              && tokens' == Refilled(earn, bytes, Bucket(tokens, lastFill), turn.now).tokens
              && totals' == totals && !dropped
    ensures !over ==>
              var b := Bucket(tokens, lastFill);
              && Bucket(tokens', turn.now) == Next(proto, earn, bytes, b, turn)
              && totals' == Tallied(earn, bytes, b, turn, totals)
              && dropped == Drops(proto, earn, bytes, b, turn)
  {
    var pktBits := bytes * 8;
    totals', dropped := totals, false;
    tokens' := tokens + earn(turn.now - lastFill);
    if tokens' > pktBits * 4 {
      tokens' := pktBits * 4;
    }
    over := durationNs > 0 && turn.now - tStart >= durationNs;
    if !over && tokens' >= pktBits {
      if turn.result > 0 {
        totals' := totals.(bytes := totals.bytes + turn.result, packets := totals.packets + 1);
        tokens' := tokens' - (if proto.Udp? then pktBits else turn.result * 8);
      } else {
        totals' := totals.(errors := totals.errors + 1);
        dropped := proto.Tcp? && turn.result < 0;
      }
    }
  }

  lemma OneMore(proto: Transport, earn: nat -> nat, bytes: nat, start: nat, turns: seq<Turn>, i: nat,
                b: Bucket, totals: Totals)
    requires Plausible(bytes, start, turns) && i < |turns|
    requires Reached(proto, earn, bytes, start, turns[..i], b, totals)
    ensures b.lastFill <= turns[i].now && turns[i].result <= bytes
    ensures Reached(proto, earn, bytes, start, turns[..i + 1], Next(proto, earn, bytes, b, turns[i]),
                    Tallied(earn, bytes, b, turns[i], totals))
  {
    PlausiblePrefix(bytes, start, turns, i + 1);
    assert turns[..i + 1][..i] == turns[..i];
  }

  lemma {:induction false} PlausiblePrefix(bytes: nat, from: nat, turns: seq<Turn>, i: nat)
    requires Plausible(bytes, from, turns) && i <= |turns|
    ensures Plausible(bytes, from, turns[..i])
  {
    if i == |turns| {
      assert turns[..i] == turns;
    } else {
      assert turns[..|turns| - 1][..i] == turns[..i];
      PlausiblePrefix(bytes, from, turns[..|turns| - 1], i);
    }
  }
}
