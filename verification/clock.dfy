/** Timekeeping arithmetic: tick timeouts that never end early, and the 32-to-64-bit clock extender. */
module Clock {
  import opened Words
  import opened Sequences

  const TWO32: nat := 0x1_0000_0000
  const TWO64: nat := 0x1_0000_0000_0000_0000
  const SECOND: nat := 1_000_000

  // ----- tick timeouts -----------------------------------------------------------------------------

  /** The quotient rounded up, as `x / SECOND + (x % SECOND != 0 ? 1 : 0)`. */
  function CeilSeconds(x: nat): nat {
    x / SECOND + (if x % SECOND != 0 then 1 else 0)
  }

  /** The ticks of the sub-second part of the remaining time, from a product that may wrap. */
  function FractionTicks(remaining: nat, rate: nat): nat {
    CeilSeconds((remaining % SECOND * rate) % TWO64)
  }

  /** `platform_timeout_ticks`, in 64-bit arithmetic. */
  function TimeoutTicks(now: nat, deadline: nat, rate: nat, maximum: nat): nat {
    if deadline <= now || rate == 0 || maximum == 0 then 0
    else
      var remaining := deadline - now;
      var whole := remaining / SECOND;
      if whole > maximum / rate then maximum
      else
        var ticks := (whole * rate) % TWO64;
        var fraction := FractionTicks(remaining, rate);
        if fraction > (maximum - ticks) % TWO64 then maximum else (ticks + fraction) % TWO64
  }

  lemma WholeWithin(whole: nat, rate: nat, maximum: nat)
    requires rate > 0
    ensures whole <= maximum / rate ==> whole * rate <= maximum
    ensures whole > maximum / rate ==> whole * rate > maximum
  {
    var q, r := maximum / rate, maximum % rate;
    assert maximum == q * rate + r;
    if whole <= q {
      Scale(whole, q, rate);
    } else {
      Scale(q + 1, whole, rate);
      assert (q + 1) * rate == q * rate + rate;
    }
  }

  lemma Scale(a: nat, b: nat, c: nat)
    requires a <= b
    ensures a * c <= b * c
  {
  }

  lemma CeilAdds(whole: nat, x: nat)
    ensures CeilSeconds(whole * SECOND + x) == whole + CeilSeconds(x)
  {
  }

  lemma CeilMonotone(a: nat, b: nat)
    ensures a <= b ==> CeilSeconds(a) <= CeilSeconds(b)
    ensures a + SECOND <= b ==> CeilSeconds(a) < CeilSeconds(b)
  {
  }

  lemma Product(remaining: nat, rate: nat)
    ensures remaining * rate == (remaining / SECOND * rate) * SECOND + remaining % SECOND * rate
  {
    var w, f := remaining / SECOND, remaining % SECOND;
    assert remaining == w * SECOND + f;
    Distribute(w * SECOND, f, rate);
    assert (w * SECOND) * rate == (w * rate) * SECOND;
  }

  lemma Distribute(a: nat, b: nat, c: nat)
    ensures (a + b) * c == a * c + b * c
  {
  }

  /**
   The timeout is the remaining time in ticks, rounded up and capped, exactly when the product of
   the sub-second part and the rate fits 64 bits, or the wrapped product still reaches the cap.
   */
  lemma TimeoutExactIff(now: nat, deadline: nat, rate: nat, maximum: nat)
    requires now < deadline < TWO64 && 0 < rate < TWO64 && 0 < maximum < TWO64
    ensures var remaining := deadline - now;
            TimeoutTicks(now, deadline, rate, maximum) == Min(maximum, CeilSeconds(remaining * rate)) <==>
            || remaining % SECOND * rate < TWO64
            || remaining / SECOND > maximum / rate
            || FractionTicks(remaining, rate) >= maximum - remaining / SECOND * rate
  {
    hide CeilSeconds;
    var remaining := deadline - now;
    var whole, product := remaining / SECOND, remaining % SECOND * rate;
    WholeWithin(whole, rate, maximum);
    Product(remaining, rate);
    CeilAdds(whole * rate, product);
    if whole <= maximum / rate {
      ModSmall(whole * rate, TWO64);
      ModSmall(maximum - whole * rate, TWO64);
      var fraction := FractionTicks(remaining, rate);
      if fraction <= maximum - whole * rate {
        ModSmall(whole * rate + fraction, TWO64);
      }
      if product < TWO64 {
        ModSmall(product, TWO64);
      } else {
        CeilMonotone(product % TWO64, product);
      }
    }
  }

  /** With any rate for which 999999 times it fits 64 bits the conversion is exact. */
  lemma TimeoutExact(now: nat, deadline: nat, rate: nat, maximum: nat)
    requires now < deadline < TWO64 && 0 < rate && (SECOND - 1) * rate < TWO64 && 0 < maximum < TWO64
    ensures TimeoutTicks(now, deadline, rate, maximum) == Min(maximum, CeilSeconds((deadline - now) * rate))
  {
    Scale((deadline - now) % SECOND, SECOND - 1, rate);
    TimeoutExactIff(now, deadline, rate, maximum);
  }

  /** A rate for which the product wraps and the timeout comes out too short. */
  lemma HugeRateIsWrong()
    ensures TimeoutTicks(0, 999_999, 0x8000_0000_0000_0000, TWO64 - 1)
            < Min(TWO64 - 1, CeilSeconds(999_999 * 0x8000_0000_0000_0000))
  {
  }

  /** A timer never resumes early: an uncapped timeout covers the whole remaining time. */
  lemma NeverEarly(now: nat, deadline: nat, rate: nat, maximum: nat)
    requires now < deadline < TWO64 && 0 < rate && (SECOND - 1) * rate < TWO64 && 0 < maximum < TWO64
    ensures var ticks := TimeoutTicks(now, deadline, rate, maximum);
            && 0 < ticks <= maximum
            && (ticks < maximum ==> ticks * SECOND >= (deadline - now) * rate > (ticks - 1) * SECOND)
  {
    TimeoutExact(now, deadline, rate, maximum);
    Scale(1, deadline - now, rate);
  }

  /** `platform_ticks_until`: the largest tick count means forever, and ticks are 32-bit. */
  function TicksUntil(now: nat, deadline: nat, rate: nat, forever: nat): nat
    requires forever > 0
  {
    if deadline == TWO64 - 1 then forever else TimeoutTicks(now, deadline, rate, forever - 1) % TWO32
  }

  /** A finite deadline is never taken for forever, and the narrowing cast loses nothing. */
  lemma FiniteStaysFinite(now: nat, deadline: nat, rate: nat, forever: nat)
    requires now < TWO64 && deadline < TWO64 - 1 && 0 < rate && (SECOND - 1) * rate < TWO64 && 1 < forever < TWO32
    ensures TicksUntil(now, deadline, rate, forever) == TimeoutTicks(now, deadline, rate, forever - 1) < forever
    ensures TicksUntil(now, deadline, rate, forever) == 0 <==> deadline <= now
  {
    if now < deadline {
      NeverEarly(now, deadline, rate, forever - 1);
    }
    ModSmall(TimeoutTicks(now, deadline, rate, forever - 1), TWO32);
  }

  /** The wait is endless exactly for the largest deadline, which stands for none. */
  lemma ForeverIff(now: nat, deadline: nat, rate: nat, forever: nat)
    requires now < TWO64 && deadline < TWO64 && 0 < rate && (SECOND - 1) * rate < TWO64 && 1 < forever < TWO32
    ensures TicksUntil(now, deadline, rate, forever) == forever <==> deadline == TWO64 - 1
  {
    if deadline < TWO64 - 1 {
      FiniteStaysFinite(now, deadline, rate, forever);
    }
  }

  /** There is nothing to wait for exactly when the deadline has passed, or when there are no ticks to wait. */
  lemma ZeroIff(now: nat, deadline: nat, rate: nat, maximum: nat)
    requires now < TWO64 && deadline < TWO64 && maximum < TWO64 && (SECOND - 1) * rate < TWO64
    ensures TimeoutTicks(now, deadline, rate, maximum) == 0 <==> deadline <= now || rate == 0 || maximum == 0
  {
    if now < deadline && rate > 0 && maximum > 0 {
      NeverEarly(now, deadline, rate, maximum);
    }
  }

  // ----- the clock extender --------------------------------------------------------------------------

  datatype Extender = Extender(last: nat, wraps: nat)

  function Value(e: Extender): nat { e.wraps * TWO32 + e.last }

  /** `Micros32Extender`, whose two fields are 32-bit words. */
  class Micros32Extender {
    var last: nat
    var wraps: nat

    function View(): Extender
      reads this
    {
      Extender(last, wraps)
    }

    constructor ()
      ensures View() == Extender(0, 0)
    {
      last, wraps := 0, 0;
    }

    method Extend(now32: nat) returns (r: nat)
      requires now32 < TWO32
      modifies this
      ensures View() == Extended(old(View()), now32) && r == Value(View())
    {
      if now32 < last {
        wraps := (wraps + 1) % TWO32;
      }
      last := now32;
      r := wraps * TWO32 + now32;
    }
  }

  function Extended(e: Extender, now32: nat): Extender {
    Extender(now32, if now32 < e.last then (e.wraps + 1) % TWO32 else e.wraps)
  }

  /** The state that has seen the true time `t`. */
  predicate Tracks(e: Extender, t: nat) { e.last == t % TWO32 && e.wraps == t / TWO32 }

  /** One sample of a 64-bit monotonic clock is widened exactly when less than one full turn passed. */
  lemma ExtendsExactly(e: Extender, before: nat, t: nat)
    requires Tracks(e, before) && before <= t < TWO64
    ensures Value(Extended(e, t % TWO32)) == t <==> t - before < TWO32
    ensures t - before < TWO32 ==> Tracks(Extended(e, t % TWO32), t)
  {
    var q, q' := before / TWO32, t / TWO32;
    assert q <= q' < TWO32;
    if t % TWO32 < e.last {
      assert q < q';
      ModSmall(q + 1, TWO32);
    }
  }

  /** The values that the extender returns for the true times `ts`, from state `e` on. */
  function Readings(e: Extender, ts: seq<nat>): seq<nat>
    decreases |ts|
  {
    if ts == [] then []
    else
      var e' := Extended(e, ts[0] % TWO32);
      [Value(e')] + Readings(e', ts[1..])
  }

  predicate Monotonic(before: nat, ts: seq<nat>)
    decreases |ts|
  {
    ts == [] || (before <= ts[0] < TWO64 && Monotonic(ts[0], ts[1..]))
  }

  /** Every gap, the one from `before` included, is below one turn of the 32-bit counter. */
  predicate SmallGaps(before: nat, ts: seq<nat>)
    decreases |ts|
  {
    ts == [] || (ts[0] < before + TWO32 && SmallGaps(ts[0], ts[1..]))
  }

  lemma {:induction false} ReadingsFrom(e: Extender, before: nat, ts: seq<nat>)
    requires Tracks(e, before) && Monotonic(before, ts)
    ensures Readings(e, ts) == ts <==> SmallGaps(before, ts)
    decreases |ts|
  {
    if ts != [] {
      var e' := Extended(e, ts[0] % TWO32);
      ExtendsExactly(e, before, ts[0]);
      assert ts == [ts[0]] + ts[1..];
      assert Readings(e, ts)[0] == Value(e') && Readings(e, ts)[1..] == Readings(e', ts[1..]);
      if ts[0] < before + TWO32 {
        ReadingsFrom(e', ts[0], ts[1..]);
      }
    }
  }

  /**
   Over any run of samples of a 64-bit monotonic clock, the readings are the true times exactly when
   the first sample and all gaps are below 2^32 microseconds.
   */
  lemma RunIsExactIff(ts: seq<nat>)
    requires Monotonic(0, ts)
    ensures Readings(Extender(0, 0), ts) == ts <==> SmallGaps(0, ts)
  {
    ReadingsFrom(Extender(0, 0), 0, ts);
  }
}
