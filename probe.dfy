/** The arithmetic of one pairwise measurement. The responder thread, the
    two atomics and their acquire/release ping-pong are not part of this
    model: what the controlling thread observes of them is the duration of
    each timed batch of 100 round trips, given here as a Timer. */
module Probe {

  /** std::chrono::nanoseconds::max(): the largest signed 64-bit count. */
  const NanosMax: int := 0x7FFF_FFFF_FFFF_FFFF

  /** trip(i, j, m) is ts2 - ts1 of the m-th timed batch for the CPUs at
      positions i and j of the enumerated list. */
  type Timer = (nat, nat, nat) -> int

  /** steady_clock is monotonic and nanoseconds is a signed 64-bit count, so
      every observed duration lies in [0, NanosMax]. */
  ghost predicate Monotonic(trip: Timer)
  {
    forall i, j, m :: 0 <= trip(i, j, m) <= NanosMax
  }

  /** std::min(a, b): a unless b is smaller. */
  function Min(a: int, b: int): int
  {
    if b < a then b else a
  }

  /** rtt after the first `nsamples` repetitions of the sampling loop. */
  function SampledRtt(trip: Timer, i: nat, j: nat, nsamples: int): int
    decreases if nsamples < 0 then 0 else nsamples
  {
    if nsamples <= 0 then NanosMax
    else Min(SampledRtt(trip, i, j, nsamples - 1), trip(i, j, nsamples - 1))
  }

  /** With at least one sample, rtt is the minimum of the samples: it is one
      of them and no sample is smaller. */
  lemma {:induction false} SampledRttIsMinimum(trip: Timer, i: nat, j: nat, nsamples: int)
    requires Monotonic(trip)
    requires nsamples >= 1
    ensures exists m :: 0 <= m < nsamples && SampledRtt(trip, i, j, nsamples) == trip(i, j, m)
    ensures forall m :: 0 <= m < nsamples ==> SampledRtt(trip, i, j, nsamples) <= trip(i, j, m)
  {
    var last := trip(i, j, nsamples - 1);
    assert last <= NanosMax;
    if nsamples > 1 {
      SampledRttIsMinimum(trip, i, j, nsamples - 1);
      var prev := SampledRtt(trip, i, j, nsamples - 1);
      if last < prev {
        assert SampledRtt(trip, i, j, nsamples) == trip(i, j, nsamples - 1);
      } else {
        var m :| 0 <= m < nsamples - 1 && prev == trip(i, j, m);
        assert SampledRtt(trip, i, j, nsamples) == trip(i, j, m);
      }
    } else {
      assert SampledRtt(trip, i, j, nsamples) == trip(i, j, 0);
    }
  }

  /** rtt never leaves the range of durations the clock can report. */
  lemma {:induction false} SampledRttBounds(trip: Timer, i: nat, j: nat, nsamples: int)
    requires Monotonic(trip)
    ensures 0 <= SampledRtt(trip, i, j, nsamples) <= NanosMax
    decreases if nsamples < 0 then 0 else nsamples
  {
    if nsamples > 0 {
      SampledRttBounds(trip, i, j, nsamples - 1);
      assert 0 <= trip(i, j, nsamples - 1) <= NanosMax;
    }
  }

  /** The controlling thread's sampling loop for the pair (i, j): rtt starts
      at nanoseconds::max() and is lowered to each batch's duration in turn. */
  method MeasurePair(trip: Timer, i: nat, j: nat, nsamples: int) returns (rtt: int)
    requires Monotonic(trip)
    ensures rtt == SampledRtt(trip, i, j, nsamples)
    ensures nsamples <= 0 ==> rtt == NanosMax
    ensures nsamples >= 1 ==> exists m :: 0 <= m < nsamples && rtt == trip(i, j, m)
    ensures forall m :: 0 <= m < nsamples ==> rtt <= trip(i, j, m)
  {
    rtt := NanosMax;
    var m := 0;
    while m < nsamples
      invariant 0 <= m <= if nsamples < 0 then 0 else nsamples
      invariant rtt == SampledRtt(trip, i, j, m)
    {
      rtt := Min(rtt, trip(i, j, m));
      m := m + 1;
    }
    if nsamples < 1 {
      assert m == 0;
    } else {
      assert m == nsamples;
      SampledRttIsMinimum(trip, i, j, nsamples);
    }
  }

  /** Integer division as C++ defines it: the quotient is truncated toward
      zero, so the remainder has the sign of the dividend. */
  function TruncDiv(a: int, d: int): (q: int)
    requires d > 0
    ensures a >= 0 ==> 0 <= a - q * d < d
    ensures a < 0 ==> -d < a - q * d <= 0
  {
    if a >= 0 then a / d else -((-a) / d)
  }

  /** Halving and then dividing by 100, each truncating, is one truncating
      division by 200. */
  lemma HalveThenDivide(rtt: int)
    ensures TruncDiv(TruncDiv(rtt, 2), 100) == TruncDiv(rtt, 200)
  {
    var a := if rtt >= 0 then rtt else -rtt;
    var h := a / 2;
    var q := h / 100;
    assert a == 2 * h + a % 2;
    assert h == 100 * q + h % 100;
    assert a == q * 200 + (2 * (h % 100) + a % 2);
    assert a / 200 == q;
  }

  /** The stored one-way latency, rtt / 2 / 100 on the signed count: one
      truncating division by 200, so a non-negative rtt gives a non-negative
      result no larger than rtt. */
  function OneWay(rtt: int): (r: int)
    ensures r == TruncDiv(rtt, 200)
    ensures rtt >= 0 ==> r == rtt / 200 && 0 <= r <= rtt
  {
    HalveThenDivide(rtt);
    TruncDiv(TruncDiv(rtt, 2), 100)
  }

  /** A faster round trip never gives a larger one-way latency. */
  lemma OneWayMonotone(x: int, y: int)
    requires x <= y
    ensures OneWay(x) <= OneWay(y)
  {
    if 0 <= x {
      assert x / 200 <= y / 200;
    } else if y < 0 {
      assert (-y) / 200 <= (-x) / 200;
    }
  }
}
