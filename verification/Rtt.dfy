/** Round-trip time statistics of one peer (crates/mesh/src/rtt.rs).

    Durations are whole nanoseconds.  The moving average is computed exactly and then
    rounded once to the nearest nanosecond, ties to even. */
module Rtt {
  import opened Common

  /** The longest representable duration: 2^64 - 1 seconds and 999 999 999 nanoseconds. */
  const MAX_NANOS: nat := 0xFFFF_FFFF_FFFF_FFFF * 1_000_000_000 + 999_999_999

  type Duration = d: nat | d <= MAX_NANOS

  /** `sample_count` is a 32-bit counter. */
  const COUNT_MODULUS: nat := 0x1_0000_0000

  datatype Stats = Stats(current: Option<Duration>, avg: Duration, min: Duration, max: Duration, count: nat)

  const DEFAULT := Stats(None, 0, MAX_NANOS, 0, 0)

  /** x / 8 rounded to the nearest integer, ties to even. */
  function RoundEighth(x: nat): (r: nat)
    ensures -4 <= 8 * r - x <= 4
    ensures (8 * r - x == 4 || 8 * r - x == -4) ==> r % 2 == 0
  {
    var q, rem := x / 8, x % 8;
    if rem < 4 || (rem == 4 && q % 2 == 0) then q else q + 1
  }

  /** Rounding a 7:1 mixture never leaves the interval spanned by its two ends. */
  lemma MixtureStaysBetween(prev: nat, x: nat, lo: nat, hi: nat)
    requires lo <= prev <= hi && lo <= x <= hi
    ensures lo <= RoundEighth(7 * prev + x) <= hi
  {
  }

  function Mixed(prev: Duration, x: Duration): (r: Duration)
    ensures -4 <= 8 * r - (7 * prev + x) <= 4
  {
    MixtureStaysBetween(prev, x, 0, MAX_NANOS);
    RoundEighth(7 * prev + x)
  }

  /** The effect of one sample on the statistics. */
  function Updated(s: Stats, rtt: Duration): Stats {
    var count := (s.count + 1) % COUNT_MODULUS;
    Stats(
      Some(rtt),
      if count == 1 then rtt else Mixed(s.avg, rtt),
      if rtt < s.min then rtt else s.min,
      if rtt > s.max then rtt else s.max,
      count)
  }

  /** The statistics after a whole history of samples. */
  function StatsOf(h: seq<Duration>): Stats {
    if h == [] then DEFAULT else Updated(StatsOf(h[..|h| - 1]), h[|h| - 1])
  }

  /** The moving average of a history in exact arithmetic (section 2 of RFC 6298, alpha = 1/8),
      restarted whenever the 32-bit counter comes round to one. */
  ghost function ExactAverage(h: seq<Duration>): real {
    if h == [] then 0.0
    else if |h| % COUNT_MODULUS == 1 then h[|h| - 1] as real
    else (7.0 * ExactAverage(h[..|h| - 1]) + h[|h| - 1] as real) / 8.0
  }

  /** The statistics object itself, updated in place. */
  class RttStats {
    var currentRtt: Option<Duration>
    var avgRtt: Duration
    var minRtt: Duration
    var maxRtt: Duration
    var sampleCount: nat

    function View(): Stats
      reads this
    {
      Stats(currentRtt, avgRtt, minRtt, maxRtt, sampleCount)
    }

    constructor ()
      ensures View() == StatsOf([])
    {
      currentRtt, avgRtt, minRtt, maxRtt, sampleCount := None, 0, MAX_NANOS, 0, 0;
    }

    method Update(rtt: Duration)
      modifies this
      ensures View() == Updated(old(View()), rtt)
      ensures forall h: seq<Duration> :: old(View()) == StatsOf(h) ==> View() == StatsOf(h + [rtt])
    {
      forall h: seq<Duration> | View() == StatsOf(h) ensures StatsOf(h + [rtt]) == Updated(View(), rtt) {
        assert (h + [rtt])[..|h|] == h;
      }
      currentRtt := Some(rtt);
      sampleCount := (sampleCount + 1) % COUNT_MODULUS;
      if rtt < minRtt {
        minRtt := rtt;
      }
      if rtt > maxRtt {
        maxRtt := rtt;
      }
      if sampleCount == 1 {
        avgRtt := rtt;
        return;
      }
      avgRtt := Mixed(avgRtt, rtt);
    }
  }

  // ----- histories

  ghost predicate IsMinimum(m: nat, h: seq<Duration>) { m in h && forall x :: x in h ==> m <= x }

  ghost predicate IsMaximum(m: nat, h: seq<Duration>) { m in h && forall x :: x in h ==> x <= m }

  /** What the statistics say about the history they were computed from. */
  ghost predicate Describes(s: Stats, h: seq<Duration>) {
    && h != []
    && s.count == |h| % 0x1_0000_0000
    && s.current == Some(h[|h| - 1])
    && IsMinimum(s.min, h) && IsMaximum(s.max, h)
    && s.min <= s.avg <= s.max
  }

  lemma UpdateDescribes(s: Stats, h: seq<Duration>, x: Duration)
    requires Describes(s, h)
    ensures Describes(Updated(s, x), h + [x])
  {
    var t := Updated(s, x);
    MixtureStaysBetween(s.avg, x, t.min, t.max);
    assert forall y :: y in h + [x] <==> y in h || y == x;
    CountStep(|h|);
  }

  lemma CountStep(n: nat)
    ensures (n % COUNT_MODULUS + 1) % COUNT_MODULUS == (n + 1) % COUNT_MODULUS
  {
  }

  /** After any non-empty history the counter is the history's length modulo 2^32, the last
      sample is the current one, the extremes are those of the history, and the stored average
      lies between them. */
  lemma {:induction false} StatisticsDescribeHistory(h: seq<Duration>)
    requires h != []
    ensures Describes(StatsOf(h), h)
  {
    var front, x := h[..|h| - 1], h[|h| - 1];
    assert h == front + [x];
    if front == [] {
      assert StatsOf(front) == DEFAULT;
    } else {
      StatisticsDescribeHistory(front);
      UpdateDescribes(StatsOf(front), front, x);
    }
  }

  /** One rounding step: an error e becomes at most 7e/8 + 1/2. */
  lemma RoundingStep(avg: Duration, x: Duration, exact: real, e: real)
    requires -e <= avg as real - exact <= e
    ensures var next := (7.0 * exact + x as real) / 8.0;
      -(7.0 * e / 8.0 + 0.5) <= Mixed(avg, x) as real - next <= 7.0 * e / 8.0 + 0.5
  {
    var r := Mixed(avg, x);
    assert -4.0 <= 8.0 * r as real - (7.0 * avg as real + x as real) <= 4.0;
  }

  /** The stored average never drifts more than 4 ns from the exact one. */
  lemma {:induction false} AverageErrorBound(h: seq<Duration>)
    ensures -4.0 <= StatsOf(h).avg as real - ExactAverage(h) <= 4.0
  {
    if h != [] {
      var front, x := h[..|h| - 1], h[|h| - 1];
      AverageErrorBound(front);
      StatisticsDescribeHistory(h);
      if |h| % COUNT_MODULUS != 1 {
        RoundingStep(StatsOf(front).avg, x, ExactAverage(front), 4.0);
      }
    }
  }

  /** d multiplied k times by 7/8. */
  ghost function Shrunk(d: real, k: nat): real {
    if k == 0 then d else 7.0 * Shrunk(d, k - 1) / 8.0
  }

  /** The counter does not come round to one within the last m samples of a history of n + m. */
  ghost predicate NoRestart(n: nat, m: nat) {
    forall k | n < k <= n + m :: k % COUNT_MODULUS != 1
  }

  /** Two histories that share their last |xs| samples, none of which restarts either average: the
      difference of their exact averages shrinks by 7/8 with every shared sample, whatever the
      samples are. */
  lemma {:induction false} SharedSuffixContracts(p: seq<Duration>, q: seq<Duration>, xs: seq<Duration>)
    requires NoRestart(|p|, |xs|) && NoRestart(|q|, |xs|)
    ensures ExactAverage(p + xs) - ExactAverage(q + xs)
         == Shrunk(ExactAverage(p) - ExactAverage(q), |xs|)
  {
    if xs == [] {
      assert p + xs == p && q + xs == q;
    } else {
      var front, x := xs[..|xs| - 1], xs[|xs| - 1];
      SharedSuffixContracts(p, q, front);
      assert p + xs == (p + front) + [x] && q + xs == (q + front) + [x];
      ExactStep(p + front, x);
      ExactStep(q + front, x);
    }
  }

  lemma ExactStep(h: seq<Duration>, x: Duration)
    requires (|h| + 1) % COUNT_MODULUS != 1
    ensures ExactAverage(h + [x]) == (7.0 * ExactAverage(h) + x as real) / 8.0
  {
    assert (h + [x])[..|h|] == h;
  }

  /** So the stored averages of two such histories differ by at most that plus 8 ns. */
  lemma StoredAveragesConverge(p: seq<Duration>, q: seq<Duration>, xs: seq<Duration>)
    requires NoRestart(|p|, |xs|) && NoRestart(|q|, |xs|)
    ensures var d := Shrunk(ExactAverage(p) - ExactAverage(q), |xs|);
      d - 8.0 <= StatsOf(p + xs).avg as real - StatsOf(q + xs).avg as real <= d + 8.0
  {
    SharedSuffixContracts(p, q, xs);
    AverageErrorBound(p + xs);
    AverageErrorBound(q + xs);
  }
}
