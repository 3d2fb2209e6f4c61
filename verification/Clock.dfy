/** Durations as Go computes them: signed 64-bit nanoseconds. Instants are nanoseconds, unbounded. */
module Clock {
  const MIN_DURATION := -0x8000_0000_0000_0000
  const MAX_DURATION := 0x7FFF_FFFF_FFFF_FFFF
  const SECOND := 1_000_000_000

  type Duration = d: int | MIN_DURATION <= d <= MAX_DURATION

  /** Subtraction of instants saturates. */
  function Sub(later: int, earlier: int): Duration {
    var d := later - earlier;
    if d < MIN_DURATION then MIN_DURATION else if d > MAX_DURATION then MAX_DURATION else d
  }

  /** Saturation never changes the outcome of waiting for a positive duration. */
  lemma SaturationIsHarmless(later: int, earlier: int, wait: Duration)
    requires wait > MIN_DURATION
    ensures Sub(later, earlier) >= wait <==> later - earlier >= wait
  {
    if later - earlier > MAX_DURATION {
      assert Sub(later, earlier) == MAX_DURATION;
    }
  }

  /** Multiplication of a 64-bit number of seconds by a second wraps around. */
  function Seconds(n: Duration): Duration {
    (n * SECOND + 0x8000_0000_0000_0000) % 0x1_0000_0000_0000_0000 - 0x8000_0000_0000_0000
  }

  /** A number of seconds of at least zero survives the conversion exactly if it is at most 9,223,372,036. */
  lemma SecondsExactly(n: Duration)
    requires n >= 0
    ensures Seconds(n) == n * 1_000_000_000 <==> n <= 9_223_372_036
  {
    if n <= 9_223_372_036 {
      assert 0 <= n * SECOND <= MAX_DURATION;
    } else {
      assert n * SECOND > MAX_DURATION >= Seconds(n);
    }
  }
}
