/**
 * Timestamp arithmetic: Rust's truncating `/` and `%`, the conversion of a
 * count of time units to `Timestamp { seconds, nanoseconds }`, and the
 * conversion of a `Decimal128(38, 9)` number of seconds.
 */
module Timestamps {
  import opened Wrappers
  import Arrow
  import opened Rows

  const NanosPerSecond: int := 1_000_000_000
  const I64Min: int := -0x8000_0000_0000_0000
  const I64Max: int := 0x7fff_ffff_ffff_ffff

  /** Rust's `/` on signed integers: the quotient rounded toward zero. */
  function Quot(a: int, b: int): int
    requires b > 0
  {
    if a >= 0 then a / b else -((-a) / b)
  }

  lemma QuotBounds(a: int, b: int)
    requires b > 0
    ensures a >= 0 ==> 0 <= a - Quot(a, b) * b < b
    ensures a < 0 ==> -b < a - Quot(a, b) * b <= 0
  {
    var n := if a >= 0 then a else -a;
    var q := n / b;
    assert n == b * q + n % b;
    assert 0 <= n % b < b;
    if a < 0 {
      assert Quot(a, b) * b == -(q * b);
    }
  }

  /** Rust's `%` on signed integers: the remainder takes the sign of the dividend. */
  function Rem(a: int, b: int): (r: int)
    requires b > 0
    ensures a == Quot(a, b) * b + r
    ensures a >= 0 ==> 0 <= r < b
    ensures a < 0 ==> -b < r <= 0
  {
    QuotBounds(a, b);
    a - Quot(a, b) * b
  }

  /** The number of units per second of each Arrow time unit. */
  function Ratio(u: Arrow.TimeUnit): (r: int)
    ensures r > 0 && NanosPerSecond % r == 0
  {
    match u
    case Second => 1
    case Millisecond => 1_000
    case Microsecond => 1_000_000
    case Nanosecond => 1_000_000_000
  }

  /** `impl_timestamp!`: `seconds: s / ratio`, `nanoseconds: (s % ratio) * (1_000_000_000 / ratio)`. */
  function FromUnit(s: int, u: Arrow.TimeUnit): (r: Timestamp)
    ensures u == Arrow.Second ==> r == Timestamp(s, 0)
  {
    var ratio := Ratio(u);
    Timestamp(Quot(s, ratio), Rem(s, ratio) * (NanosPerSecond / ratio))
  }

  /** `timestamp_from_decimal128`: split at 10^9 and refuse seconds beyond the `i64` range. */
  function FromDecimal128(s: int): (r: Result<Timestamp, DeserializationError>)
    ensures r.Success? ==> -NanosPerSecond < r.value.nanoseconds < NanosPerSecond
    ensures r.Failure? ==> r.error.TimestampOverflow? && (r.error.overflowSeconds < I64Min || I64Max < r.error.overflowSeconds)
  {
    var seconds := Quot(s, NanosPerSecond);
    if I64Min <= seconds <= I64Max then Success(Timestamp(seconds, Rem(s, NanosPerSecond)))
    else Failure(TimestampOverflow(seconds))
  }

  /** The instant a timestamp denotes, in nanoseconds. */
  function Instant(ts: Timestamp): int {
    ts.seconds * NanosPerSecond + ts.nanoseconds
  }

  /**
   * A count of units keeps its instant exactly; the nanoseconds stay within
   * one second and carry the sign of the count, and whole-second columns
   * never have nanoseconds.
   */
  lemma FromUnitExact(s: int, u: Arrow.TimeUnit)
    ensures Instant(FromUnit(s, u)) == s * (NanosPerSecond / Ratio(u))
    ensures -NanosPerSecond < FromUnit(s, u).nanoseconds < NanosPerSecond
    ensures s >= 0 ==> FromUnit(s, u).nanoseconds >= 0
    ensures s < 0 ==> FromUnit(s, u).nanoseconds <= 0
    ensures u == Arrow.Second ==> FromUnit(s, u) == Timestamp(s, 0)
  {
    var q, r := Quot(s, Ratio(u)), Rem(s, Ratio(u));
    assert s == q * Ratio(u) + r;
    match u
    case Second =>
      assert Quot(s, 1) == s by { QuotBounds(s, 1); }
    case Millisecond =>
      assert FromUnit(s, u) == Timestamp(q, r * 1_000_000);
    case Microsecond =>
      assert FromUnit(s, u) == Timestamp(q, r * 1_000);
    case Nanosecond =>
      assert FromUnit(s, u) == Timestamp(q, r);
  }

  /** A decimal timestamp keeps its instant and nanoseconds within one second, unless the seconds overflow. */
  lemma FromDecimal128Exact(s: int)
    ensures FromDecimal128(s).Success? <==> I64Min <= Quot(s, NanosPerSecond) <= I64Max
    ensures FromDecimal128(s).Success? ==>
      Instant(FromDecimal128(s).value) == s && -NanosPerSecond < FromDecimal128(s).value.nanoseconds < NanosPerSecond
    ensures FromDecimal128(s).Failure? ==> FromDecimal128(s).error == TimestampOverflow(Quot(s, NanosPerSecond))
  {
  }

  /** Truncation, not flooring: the nanoseconds of a negative instant are negative. */
  lemma NegativeDecimalExample()
    ensures FromDecimal128(-2198229903900000000) == Success(Timestamp(-2198229903, -900000000))
  {
    assert Quot(-2198229903900000000, NanosPerSecond) == -2198229903;
  }

  /** Milliseconds before the epoch truncate toward zero as well. */
  lemma NegativeMillisecondExample()
    ensures FromUnit(-1500, Arrow.Millisecond) == Timestamp(-1, -500000000)
  {
    assert Quot(-1500, 1000) == -1;
  }

  /** An `i128` number of seconds beyond the `i64` range is an overflow, reporting those seconds. */
  lemma OverflowExample()
    ensures FromDecimal128((I64Max + 1) * NanosPerSecond) == Failure(TimestampOverflow(I64Max + 1))
  {
    assert Quot((I64Max + 1) * NanosPerSecond, NanosPerSecond) == I64Max + 1;
  }
}
