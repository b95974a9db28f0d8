// The monotonic clock (vbus/src/core/clock.h) and waiting on it.
module Clocks {
  const STEP := 100_000

  // How a wait went: its first look at the clock, and how long it slept for in all.
  datatype Wait = Wait(look: nat, slept: nat) {
    // It sleeps exactly if that look came before the time waited for, in steps of 100 us, and for no more
    // than one step beyond what was missing.
    ghost predicate Until(when: nat) {
      && (slept > 0 <==> look < when)
      && slept % 100_000 == 0 && (slept > 0 ==> slept < when - look + 100_000)
    }
  }

  class Clock {
    var t: nat
    // The time slept for so far.
    ghost var slept: nat

    constructor (t: nat)
      ensures this.t == t
    {
      this.t, slept := t, 0;
    }

    // A reading; any time may have passed since the last.
    method Now() returns (now: nat)
      modifies this
      ensures now == t >= old(t) && slept == old(slept)
    {
      var passed :| 0 <= passed;
      t := t + passed;
      now := t;
    }

    method SleepFor(ns: nat)
      modifies this
      ensures t >= old(t) + ns && slept == old(slept) + ns
    {
      var passed :| 0 <= passed;
      t, slept := t + ns + passed, slept + ns;
    }

    // The polling loop of the replay threads.
    method WaitUntil(when: nat) returns (ghost wait: Wait)
      modifies this
      ensures t >= when && old(t) <= wait.look <= t
      ensures wait.Until(when) && slept == old(slept) + wait.slept
    {
      var now := Now();
      wait := Wait(now, 0);
      while now < when
        invariant now == t >= wait.look >= old(t) && slept == old(slept) + wait.slept && wait.slept % STEP == 0
        invariant if wait.slept == 0 then now == wait.look
                  else wait.look < when && wait.slept < when - wait.look + STEP && now >= wait.look + wait.slept
        decreases when - now
      {
        SleepFor(STEP);
        wait := wait.(slept := wait.slept + STEP);
        now := Now();
      }
    }
  }
}
