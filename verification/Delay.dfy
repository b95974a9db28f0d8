// When a frame is due: the time it takes on the wire, added to the clock
// (vbus/src/bus/eth_bus.cpp, vbus/src/bus/can_bus.cpp).
module Delay {
  import opened Arith
  import opened Bytes

  datatype Kind = Eth | Can

  const ETH2: U8 := 1
  const CAN20: U8 := 2
  const CANFD: U8 := 3

  // Bits on the wire for a payload: Ethernet adds 18 bytes of framing, CAN 43 bits, CAN FD 67.
  function WireBits(kind: Kind, proto: U8, payload: nat): nat {
    match kind
    case Eth => (payload + 18) * 8
    case Can => (if proto == CANFD then 67 else 43) + payload * 8
  }

  // A number below 2^64 as the clock's signed 64-bit type holds it.
  function AsSigned(x: int): int {
    if x < TWO63 then x else x - TWO64
  }

  // The product is taken modulo 2^64 before the division; a bus of rate 0 has no delay.
  function WireDelay(bits: nat, rate: U64): int {
    if rate > 0 then AsSigned(bits * BILLION % TWO64 / rate) else 0
  }

  // The delivery time for a clock reading: a signed 64-bit sum.
  function Due(base: nat, bits: nat, rate: U64): int {
    AsSigned(base + WireDelay(bits, rate))
  }

  // ---------- when the arithmetic is exact ----------

  // The delay without any overflow, rounded down to a nanosecond.
  function OnWire(bits: nat, rate: U64): nat {
    if rate > 0 then bits * BILLION / rate else 0
  }

  // Neither the product nor the quotient overflows.
  predicate Fits(bits: nat, rate: U64) {
    rate > 0 ==> bits * BILLION < TWO64 && OnWire(bits, rate) < TWO63
  }

  // Nor does the sum.
  predicate FitsAt(base: nat, bits: nat, rate: U64) {
    Fits(bits, rate) && base + OnWire(bits, rate) < TWO63
  }

  lemma Unwrapped(x: nat, rate: nat)
    requires rate > 0 && x < TWO64 && x / rate < TWO63
    ensures AsSigned(x % TWO64 / rate) == x / rate
  {
    assert x % TWO64 == x;
  }

  lemma Wrapped(x: nat, rate: nat)
    requires rate > 0 && x >= TWO64 && rate < TWO64
    ensures AsSigned(x % TWO64 / rate) < x / rate
  {
    var y := x % TWO64;
    assert y + TWO64 <= x;
    DivStrict(y, x, rate);
  }

  /** The computed delay is the exact one exactly when nothing overflows. */
  lemma DelayExact(bits: nat, rate: U64)
    ensures WireDelay(bits, rate) == OnWire(bits, rate) <==> Fits(bits, rate)
    ensures WireDelay(bits, rate) <= OnWire(bits, rate)
  {
    if rate > 0 {
      var x := bits * BILLION;
      if x >= TWO64 {
        Wrapped(x, rate);
      } else if x / rate < TWO63 {
        Unwrapped(x, rate);
      } else {
        assert x % TWO64 == x;
      }
    }
  }

  /** So is the delivery time. */
  lemma DueExact(base: nat, bits: nat, rate: U64)
    requires base < TWO63
    ensures Due(base, bits, rate) == base + OnWire(bits, rate) <==> FitsAt(base, bits, rate)
  {
    DelayExact(bits, rate);
  }

  lemma FitsDown(base: nat, base': nat, bits: nat, bits': nat, rate: U64)
    requires base <= base' && bits <= bits' && FitsAt(base', bits', rate)
    ensures FitsAt(base, bits, rate) && OnWire(bits, rate) <= OnWire(bits', rate)
  {
    if rate > 0 {
      DivMono(bits * BILLION, bits' * BILLION, rate);
    }
  }

  /** A frame that is no shorter and reads the clock no earlier is due no earlier, and strictly
      later if it reads the clock strictly later; neither is due before its reading. */
  lemma DueMonotone(base: nat, base': nat, bits: nat, bits': nat, rate: U64)
    requires base <= base' && bits <= bits' && FitsAt(base', bits', rate)
    ensures FitsAt(base, bits, rate)
    ensures base <= Due(base, bits, rate) <= Due(base', bits', rate)
    ensures base < base' ==> Due(base, bits, rate) < Due(base', bits', rate)
  {
    FitsDown(base, base', bits, bits', rate);
    DueExact(base, bits, rate);
    DueExact(base', bits', rate);
  }

  /** Every payload under a gibibyte is within range, on any bus at any rate, for the first 19
      years of the clock. */
  lemma GibibyteFits(base: nat, kind: Kind, proto: U8, payload: nat, rate: U64)
    requires payload < 0x4000_0000 && base < 600_000_000 * BILLION
    ensures FitsAt(base, WireBits(kind, proto, payload), rate)
  {
    if rate > 0 {
      Shrinks(WireBits(kind, proto, payload) * BILLION, rate);
    }
  }

  // ---------- when a frame is due in the past ----------

  /** A delay is negative exactly on a bus of one bit per second, when the product modulo 2^64
      has its top bit set. */
  lemma NegativeExactly(bits: nat, rate: U64)
    ensures WireDelay(bits, rate) < 0 <==> rate == 1 && bits * BILLION % TWO64 >= TWO63
  {
    if rate > 0 {
      DelaySign(bits * BILLION % TWO64, rate);
    }
  }

  lemma DelaySign(y: nat, rate: nat)
    requires y < TWO64 && rate > 0
    ensures y / rate < TWO64
    ensures AsSigned(y / rate) < 0 <==> rate == 1 && y >= TWO63
  {
    Shrinks(y, rate);
    if rate > 1 {
      Halves(y, rate);
    }
  }

  // The delay is negative, or the sum with the reading reaches 2^63.
  predicate Overflows(base: nat, bits: nat, rate: U64) {
    (rate == 1 && bits * BILLION % TWO64 >= TWO63) || base + WireDelay(bits, rate) >= TWO63
  }

  /** A frame is due before the very reading its delivery time is computed from exactly when the
      arithmetic overflows so. */
  lemma PastExactly(base: nat, bits: nat, rate: U64)
    requires base < TWO63
    ensures Due(base, bits, rate) < base <==> Overflows(base, bits, rate)
  {
    NegativeExactly(bits, rate);
    DelayExact(bits, rate);
    if rate > 0 {
      DelayInRange(bits * BILLION % TWO64, rate);
    }
  }

  lemma DelayInRange(y: nat, rate: nat)
    requires y < TWO64 && rate > 0
    ensures -TWO63 <= AsSigned(y / rate) < TWO63
  {
    Shrinks(y, rate);
  }

  lemma DueInRange(base: nat, bits: nat, rate: U64)
    requires base < TWO63
    ensures Due(base, bits, rate) < TWO63
  {
    if rate > 0 {
      DelayInRange(bits * BILLION % TWO64, rate);
    }
  }

  // The shortest payload whose delay comes out negative on an Ethernet bus of one bit per second.
  const TOO_LONG := 1_152_921_487

  /** On the bus that `create b eth 1` makes, a payload of 1152921487 bytes is due in the past at
      every reading; one byte less is, from five seconds after the start of the clock on. */
  lemma PastOnSlowBus(base: nat)
    requires base < TWO63
    ensures Overflows(base, WireBits(Eth, ETH2, TOO_LONG), 1)
    ensures Fits(WireBits(Eth, ETH2, TOO_LONG - 1), 1)
    ensures Overflows(base, WireBits(Eth, ETH2, TOO_LONG - 1), 1) <==> base >= 4_854_775_808
  {}
}
