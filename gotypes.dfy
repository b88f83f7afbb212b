/**
 * The Go base types the core relies on: bytes, 64-bit signed integers with
 * two's-complement wrap-around and truncating division, and time.Time /
 * time.Duration as integer nanoseconds.
 */
module GoTypes {

  type byte = x: int | 0 <= x < 256

  const MinInt64: int := -0x8000_0000_0000_0000
  const MaxInt64: int := 0x7fff_ffff_ffff_ffff

  /** A value of Go's `int` / `int64` (the model assumes a 64-bit platform). */
  type int64 = x: int | MinInt64 <= x <= MaxInt64

  /** The int64 that Go's wrapping arithmetic yields for the exact value x. */
  function Wrap64(x: int): (r: int64)
    ensures (r - x) % 0x1_0000_0000_0000_0000 == 0
    ensures MinInt64 <= x <= MaxInt64 ==> r == x
  {
    var m := (x - MinInt64) % 0x1_0000_0000_0000_0000;
    m + MinInt64
  }

  /** Go's integer division, which truncates toward zero. */
  function Quot(a: int, b: int): (q: int)
    requires b > 0
    ensures a >= 0 ==> 0 <= a - b * q < b
    ensures a < 0 ==> -b < a - b * q <= 0
  {
    if a >= 0 then a / b else -((-a) / b)
  }

  /** time.Time as nanoseconds since an arbitrary epoch. */
  type Instant = int
  /** time.Duration in nanoseconds. */
  type Duration = int

  const Second: Duration := 1_000_000_000
  const Minute: Duration := 60 * Second
  const Hour: Duration := 60 * Minute

  /** t.Add(d) (the saturation Go applies near the ends of its range is not modelled). */
  function Add(t: Instant, d: Duration): Instant { t + d }

  /** t.After(u): t is strictly later than u. */
  predicate After(t: Instant, u: Instant) { t > u }
}
