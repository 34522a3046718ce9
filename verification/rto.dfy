/** The round-trip estimator of the data channel: smoothed RTT, its variation, and the retransmission
    timeout derived from them (section 2 of RFC 6298). RTT figures are milliseconds as reals; clock
    readings and the timeout itself are nanoseconds, as Go's time.Duration counts them. */
module Rto {
  const NS_PER_MS: int := 1_000_000

  const DEFAULT_TRANSMISSION_TIMEOUT: int := 200 * NS_PER_MS
  const DEFAULT_ROUND_TRIP_TIME: real := 100.0
  const DEFAULT_ROUND_TRIP_TIME_VARIATION: real := 0.0
  const RTT_CONSTANT: real := 0.125
  const RTTV_CONSTANT: real := 0.25
  const CLOCK_GRANULARITY: int := 10 * NS_PER_MS
  const MAX_TRANSMISSION_TIMEOUT: int := 1000 * NS_PER_MS

  datatype Estimator = Estimator(rtt: real, rttvar: real, rto: int)

  const INITIAL: Estimator := Estimator(DEFAULT_ROUND_TRIP_TIME, DEFAULT_ROUND_TRIP_TIME_VARIATION,
                                        DEFAULT_TRANSMISSION_TIMEOUT)

  function Abs(x: real): real {
    if x < 0.0 then -x else x
  }

  function Max(x: real, y: real): real {
    if x < y then y else x
  }

  /** Go's conversion of a float to an integer: towards zero. */
  function Truncate(x: real): int {
    if x < 0.0 then -((-x).Floor) else x.Floor
  }

  /** Whole milliseconds between two clock readings; Go's integer division rounds towards zero. */
  function MillisBetween(sent: int, now: int): int {
    if now < sent then -((sent - now) / NS_PER_MS) else (now - sent) / NS_PER_MS
  }

  function Timeout(rtt: real, rttvar: real): int {
    var rto := Truncate(rtt + Max((CLOCK_GRANULARITY / NS_PER_MS) as real, 4.0 * rttvar)) * NS_PER_MS;
    if rto > MAX_TRANSMISSION_TIMEOUT then MAX_TRANSMISSION_TIMEOUT else rto
  }

  /** One measurement. The variation is updated first, against the RTT before this sample. */
  function Update(e: Estimator, sample: real): Estimator {
    var rttvar := (1.0 - RTTV_CONSTANT) * e.rttvar + RTTV_CONSTANT * Abs(e.rtt - sample);
    var rtt := (1.0 - RTT_CONSTANT) * e.rtt + RTT_CONSTANT * sample;
    Estimator(rtt, rttvar, Timeout(rtt, rttvar))
  }

  /** The estimator after a whole history of samples, oldest first. */
  function UpdateAll(e: Estimator, samples: seq<real>): Estimator {
    if samples == [] then e
    else Update(UpdateAll(e, samples[..|samples| - 1]), samples[|samples| - 1])
  }

  /** RTT lies in [lo, hi] and the variation does not exceed the width of that interval. */
  ghost predicate InHull(e: Estimator, lo: real, hi: real) {
    lo <= e.rtt <= hi && 0.0 <= e.rttvar <= hi - lo
  }

  /** The timeout lies between the clock granularity and the upper limit. */
  predicate TimeoutInBounds(e: Estimator) {
    CLOCK_GRANULARITY <= e.rto <= MAX_TRANSMISSION_TIMEOUT
  }

  /** Any estimator a channel can have after samples of its own. */
  type Settled = e: Estimator | 0.0 <= e.rtt && TimeoutInBounds(e) witness INITIAL

  lemma UpdateStaysInHull(e: Estimator, sample: real, lo: real, hi: real)
    requires InHull(e, lo, hi) && lo <= sample <= hi
    ensures InHull(Update(e, sample), lo, hi)
  {
    assert Abs(e.rtt - sample) <= hi - lo;
  }

  lemma TimeoutBounds(rtt: real, rttvar: real)
    requires 0.0 <= rtt
    ensures CLOCK_GRANULARITY <= Timeout(rtt, rttvar) <= MAX_TRANSMISSION_TIMEOUT
  {
    assert (rtt + Max(10.0, 4.0 * rttvar)).Floor >= 10;
  }

  /** Over every history of samples drawn from an interval of non-negative values that also holds the
      initial 100 ms: RTT never leaves the interval, the variation never exceeds its width, and the
      timeout stays within 10 ms and 1 s. */
  lemma {:induction false} EstimatorBounds(samples: seq<real>, lo: real, hi: real)
    requires 0.0 <= lo <= DEFAULT_ROUND_TRIP_TIME <= hi
    requires forall i :: 0 <= i < |samples| ==> lo <= samples[i] <= hi
    ensures InHull(UpdateAll(INITIAL, samples), lo, hi)
    ensures TimeoutInBounds(UpdateAll(INITIAL, samples))
  {
    if samples != [] {
      var before := samples[..|samples| - 1];
      var last := samples[|samples| - 1];
      EstimatorBounds(before, lo, hi);
      UpdateStaysInHull(UpdateAll(INITIAL, before), last, lo, hi);
      var e := UpdateAll(INITIAL, samples);
      TimeoutBounds(e.rtt, e.rttvar);
    }
  }

  function Pow(b: real, n: nat): real {
    if n == 0 then 1.0 else b * Pow(b, n - 1)
  }

  function Repeat(r: real, n: nat): (s: seq<real>)
    ensures |s| == n
  {
    if n == 0 then [] else Repeat(r, n - 1) + [r]
  }

  lemma {:induction false} PowPositive(b: real, n: nat)
    requires 0.0 < b
    ensures 0.0 < Pow(b, n)
  {
    if n > 0 { PowPositive(b, n - 1); }
  }

  /** Estimate f, reached by decay factors p (error) and q (variation) from an initial error x and
      initial variation v, under the constant sample r. */
  ghost predicate ClosedForm(f: Estimator, r: real, p: real, q: real, x: real, v: real) {
    && f.rtt - r == p * x
    && Abs(f.rtt - r) == p * Abs(x)
    && f.rttvar == q * v + 2.0 * Abs(x) * (p - q)
  }

  /** Under a constant sample r, from any starting estimate: after n samples the error has shrunk by
      exactly (7/8)^n, and the variation is (3/4)^n v0 + 2 D ((7/8)^n - (3/4)^n). */
  lemma {:induction false} ConstantSampleClosedForm(e: Estimator, r: real, n: nat)
    ensures ClosedForm(UpdateAll(e, Repeat(r, n)), r, Pow(0.875, n), Pow(0.75, n), e.rtt - r, e.rttvar)
  {
    if n == 0 {
      NothingMeasured(e, r);
    } else {
      ConstantSampleClosedForm(e, r, n - 1);
      PowPositive(0.875, n - 1);
      UpdateAllLast(e, Repeat(r, n - 1), r);
      NextClosedForm(UpdateAll(e, Repeat(r, n - 1)), UpdateAll(e, Repeat(r, n)), r, Pow(0.875, n - 1),
                     Pow(0.75, n - 1), Pow(0.875, n), Pow(0.75, n), e.rtt - r, e.rttvar);
    }
  }

  lemma NothingMeasured(e: Estimator, r: real)
    ensures ClosedForm(e, r, 1.0, 1.0, e.rtt - r, e.rttvar)
  {}

  lemma NextClosedForm(g: Estimator, f: Estimator, r: real, p: real, q: real, p': real, q': real, x: real, v: real)
    requires 0.0 < p && ClosedForm(g, r, p, q, x, v)
    requires f == Update(g, r) && p' == 0.875 * p && q' == 0.75 * q
    ensures ClosedForm(f, r, p', q', x, v)
  {
    ConstantSampleStep(g, r, p, q, x, v);
  }

  lemma UpdateAllLast(e: Estimator, samples: seq<real>, last: real)
    ensures UpdateAll(e, samples + [last]) == Update(UpdateAll(e, samples), last)
  {
    assert (samples + [last])[..|samples|] == samples;
  }

  lemma ConstantSampleStep(g: Estimator, r: real, p: real, q: real, x: real, v: real)
    requires 0.0 < p && ClosedForm(g, r, p, q, x, v)
    ensures ClosedForm(Update(g, r), r, 0.875 * p, 0.75 * q, x, v)
  {
    assert Update(g, r).rtt - r == 0.875 * (p * x);
    Associates(0.875, p, x);
    AbsScales(0.875 * p, x);
    VariationStep(p, q, Abs(x), v);
  }

  lemma Associates(a: real, b: real, c: real)
    ensures (a * b) * c == a * (b * c)
  {}

  lemma AbsScales(p: real, x: real)
    requires 0.0 < p
    ensures Abs(p * x) == p * Abs(x)
  {
    if x < 0.0 { assert p * x < 0.0; } else { assert p * x >= 0.0; }
  }

  /** The arithmetic of one step of the variation recurrence. */
  lemma VariationStep(p: real, q: real, d: real, v: real)
    ensures 0.75 * (q * v + 2.0 * d * (p - q)) + 0.25 * (p * d)
            == (0.75 * q) * v + 2.0 * d * (0.875 * p - 0.75 * q)
  {
    assert 2.0 * d * (p - q) == 2.0 * (p * d) - 2.0 * (q * d);
    assert 2.0 * d * (0.875 * p - 0.75 * q) == 1.75 * (p * d) - 1.5 * (q * d);
  }

  /* ---------- the timeout itself ---------- */

  /** t is m milliseconds, cut off after whole ones, or one second if m is that much. */
  ghost predicate Rounded(t: int, m: real) {
    if m < 1000.0 then t % NS_PER_MS == 0 && t as real <= m * 1000000.0 < t as real + 1000000.0
    else t == 1_000_000_000
  }

  lemma MillisRounded(m: real)
    requires 0.0 <= m < 1000.0
    ensures Rounded(m.Floor * NS_PER_MS, m)
  {
    var k := m.Floor;
    assert k as real <= m < k as real + 1.0;
    assert (k * NS_PER_MS) as real == k as real * 1000000.0;
  }

  /** Smoothed round trip plus four times its variation, the variation counting for ten milliseconds at least
      (section 2.3 of RFC 6298). */
  lemma TimeoutIs(rtt: real, rttvar: real)
    requires 0.0 <= rtt
    ensures Rounded(Timeout(rtt, rttvar), rtt + if rttvar < 2.5 then 10.0 else 4.0 * rttvar)
  {
    var m := rtt + if rttvar < 2.5 then 10.0 else 4.0 * rttvar;
    assert m == rtt + Max(10.0, 4.0 * rttvar);
    if m < 1000.0 {
      MillisRounded(m);
    } else {
      assert m.Floor >= 1000;
    }
  }

  predicate NonNegative(samples: seq<real>) {
    forall i :: 0 <= i < |samples| ==> 0.0 <= samples[i]
  }

  lemma {:induction false} RttNonNegative(e: Estimator, samples: seq<real>)
    requires 0.0 <= e.rtt && NonNegative(samples)
    ensures 0.0 <= UpdateAll(e, samples).rtt
  {
    if samples != [] {
      RttNonNegative(e, samples[..|samples| - 1]);
      assert 0.0 <= samples[|samples| - 1];
    }
  }

  /** The timeout that belongs to an estimate. */
  ghost predicate TimeoutFits(rto: int, rtt: real, rttvar: real) {
    Rounded(rto, rtt + if rttvar < 2.5 then 10.0 else 4.0 * rttvar)
  }

  /** Over every history of non-negative samples. */
  lemma HistoryTimeout(e: Settled, samples: seq<real>)
    requires samples != [] && NonNegative(samples)
    ensures var f := UpdateAll(e, samples); 0.0 <= f.rtt && TimeoutFits(f.rto, f.rtt, f.rttvar)
  {
    RttNonNegative(e, samples);
    var f := UpdateAll(e, samples);
    TimeoutIs(f.rtt, f.rttvar);
  }

  /** A measured round trip counts in whole milliseconds, cut off. */
  lemma MillisBetweenIs(sent: int, now: int)
    requires sent <= now
    ensures var m := MillisBetween(sent, now); 0 <= m && m * 1_000_000 <= now - sent < (m + 1) * 1_000_000
  {}
}
