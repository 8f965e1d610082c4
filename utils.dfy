/** Shared vocabulary: optional values, monotonic time in nanoseconds, the
    angle constants, uninterpreted trigonometry and decimal formatting of
    counters (the `{}` formatting of an unsigned integer). */
module Utils {

  datatype Option<+T> = None | Some(value: T)

  /** Nanoseconds in one second and in one millisecond. */
  const NanosPerSecond: nat := 1_000_000_000
  const NanosPerMilli: nat := 1_000_000

  /** `later - earlier` on monotonic instants: the subtraction saturates at
      zero, as `Instant::duration_since` does. */
  function Elapsed(later: nat, earlier: nat): (d: nat)
    ensures earlier <= later ==> earlier + d == later
    ensures later <= earlier ==> d == 0
  {
    if later >= earlier then later - earlier else 0
  }

  /** A nanosecond count as (fractional) seconds. */
  function Seconds(ns: nat): (s: real)
    ensures s >= 0.0
    ensures s * (NanosPerSecond as real) == ns as real
  {
    (ns as real) / (NanosPerSecond as real)
  }

  /** Smallest tick interval the tasks integrate or slew over, in seconds. */
  const MinDt: real := 0.001

  /** The measured interval between two ticks, in seconds, floored at one
      millisecond (`(now - last).as_secs_f*().max(1e-3)`). */
  function TickDt(lastUpdateNs: nat, nowNs: nat): (dt: real)
    ensures dt >= MinDt
    ensures Seconds(Elapsed(nowNs, lastUpdateNs)) >= MinDt ==> dt == Seconds(Elapsed(nowNs, lastUpdateNs))
    ensures Seconds(Elapsed(nowNs, lastUpdateNs)) < MinDt ==> dt == MinDt
  {
    Max(Seconds(Elapsed(nowNs, lastUpdateNs)), MinDt)
  }

  function Max(a: real, b: real): (m: real)
    ensures m >= a && m >= b
    ensures m == a || m == b
  {
    if a >= b then a else b
  }

  function Min(a: real, b: real): (m: real)
    ensures m <= a && m <= b
    ensures m == a || m == b
  {
    if a <= b then a else b
  }

  function Abs(x: real): (a: real)
    ensures a >= 0.0
    ensures a == x || a == -x
  {
    if x >= 0.0 then x else -x
  }

  /** The double-precision value of pi, taken as an exact rational. */
  const Pi: real := 3.141592653589793
  const TwoPi: real := 2.0 * Pi

  /** Degrees to radians (`to_radians`). */
  function ToRadians(deg: real): (rad: real)
    ensures rad * 180.0 == deg * Pi
  {
    deg * Pi / 180.0
  }

  /** Sine and cosine stay uninterpreted: the model is parametric in them.
      `Anchored` holds of the pair when sin 0 = 0 and cos 0 = 1. */
  datatype Trig = Trig(sin: real -> real, cos: real -> real)
  {
    predicate Anchored() { sin(0.0) == 0.0 && cos(0.0) == 1.0 }
  }

  /** Decimal digits of a counter, most significant first, no leading zero. */
  function DecimalString(n: nat): (s: string)
    ensures |s| >= 1
    ensures forall i :: 0 <= i < |s| ==> '0' <= s[i] <= '9'
    ensures |s| > 1 ==> s[0] != '0'
    decreases n
  {
    if n < 10 then [Digit(n)] else DecimalString(n / 10) + [Digit(n % 10)]
  }

  function Digit(d: nat): (c: char)
    requires d < 10
    ensures '0' <= c <= '9' && (c as int) - ('0' as int) == d
  {
    (('0' as int) + d) as char
  }

  /** Reads back a string of decimal digits. */
  function ParseDecimal(s: string): (n: nat)
    requires forall i :: 0 <= i < |s| ==> '0' <= s[i] <= '9'
    decreases |s|
  {
    if s == [] then 0
    else ParseDecimal(s[..|s| - 1]) * 10 + ((s[|s| - 1] as int) - ('0' as int))
  }

  /** Decimal formatting loses nothing: the digits read back to the counter. */
  lemma {:induction false} DecimalRoundTrip(n: nat)
    ensures ParseDecimal(DecimalString(n)) == n
    decreases n
  {
    if n >= 10 {
      DecimalRoundTrip(n / 10);
      var s := DecimalString(n);
      assert s[..|s| - 1] == DecimalString(n / 10);
    }
  }

  /** Hence different counters format to different strings. */
  lemma DecimalInjective(m: nat, n: nat)
    requires m != n
    ensures DecimalString(m) != DecimalString(n)
  {
    DecimalRoundTrip(m);
    DecimalRoundTrip(n);
  }
}
