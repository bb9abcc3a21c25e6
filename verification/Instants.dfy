/** Time as the code uses it: nanoseconds since the Unix epoch, read back as whole seconds by `Unix()`. */
module Instants {
  type Instant = int
  type Duration = int

  const SECOND: Duration := 1_000_000_000
  const MINUTE: Duration := 60 * SECOND
  const HOUR: Duration := 3600 * SECOND

  /** Go's zero `time.Time`: midnight, 1 January of year 1. */
  const ZERO_TIME: Instant := -62_135_596_800 * SECOND

  predicate IsZero(t: Instant) {
    t == ZERO_TIME
  }

  /** `t.Unix()`: rounds down, also before the epoch. */
  function Unix(t: Instant): int {
    t / SECOND
  }

  /** `time.Unix(sec, 0)` */
  function FromUnix(sec: int): Instant {
    sec * SECOND
  }

  /** The second-granular comparisons decide exactly what their nanosecond counterparts decide. */
  lemma UnixComparisons(now: Instant, sec: int)
    ensures Unix(now) >= sec <==> now >= FromUnix(sec)
    ensures sec > Unix(now) <==> FromUnix(sec) > now
    ensures FromUnix(Unix(now)) <= now < FromUnix(Unix(now)) + SECOND
  {
    assert now == SECOND * (now / SECOND) + now % SECOND;
  }

  lemma UnixMonotone(a: Instant, b: Instant)
    requires a <= b
    ensures Unix(a) <= Unix(b)
  {
    UnixComparisons(b, Unix(a));
    UnixComparisons(a, Unix(a));
  }

  lemma UnixShift(t: Instant, seconds: int)
    ensures Unix(t + FromUnix(seconds)) == Unix(t) + seconds
  {
    var u := Unix(t);
    UnixComparisons(t, u);
    UnixComparisons(t + FromUnix(seconds), u + seconds);
    UnixComparisons(t + FromUnix(seconds), u + seconds + 1);
  }
}
