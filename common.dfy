/** Shared vocabulary of the backtester model: optional and fallible results, the exceptions
    the .NET code can raise on the paths modelled here, timestamps, and decimal rounding. */
module Common {

  datatype Option<+T> = None | Some(value: T)

  /** The outcome of a computation that may raise one of the modelled exceptions. */
  datatype Result<+T> = Success(value: T) | Failure(error: Fault) {
    predicate IsFailure() {
      Failure?
    }

    function PropagateFailure<U>(): Result<U>
      requires Failure?
    {
      Failure(error)
    }

    function Extract(): T
      requires Success?
    {
      value
    }
  }

  /** The .NET exceptions that the modelled code can raise. */
  datatype Fault =
    | FormatException        // DateTime.Parse / Convert.ToDecimal on malformed text
    | IndexOutOfRange        // a row with fewer than six comma-separated fields
    | OtherParseException    // any other field-conversion failure (decimal overflow, ...)
    | InvalidOperation       // First() on an empty group of candles
    | DivideByZero           // decimal division by zero
    | KeyNotFound            // dictionary indexer on a missing key
    | DuplicateKey           // Dictionary.Add on an existing key
    | NullReference          // dereferencing a missing stop-loss order
    | ArgumentOutOfRange     // TimeOnly constructed with an hour or minute out of range

  /** A .NET DateTime: `date` counts days since 0001-01-01 (a Monday), `secondOfDay` is the
      time of day in seconds. */
  datatype DateTime = DateTime(date: nat, secondOfDay: nat)

  const SecondsPerDay: nat := 86400

  /** DayOfWeek == Sunday; .NET computes the weekday as (days + 1) % 7 with Sunday = 0. */
  predicate IsSunday(t: DateTime) {
    (t.date + 1) % 7 == 0
  }

  /** The session key: ToShortDateString, which depends only on the calendar date. */
  function DateKey(t: DateTime): int {
    t.date
  }

  function Abs(x: real): (r: real)
    ensures r >= 0.0 && (r == x || r == -x)
  {
    if x < 0.0 then -x else x
  }

  function Max(x: real, y: real): (r: real)
    ensures r >= x && r >= y && (r == x || r == y)
  {
    if x >= y then x else y
  }

  function Min(x: real, y: real): (r: real)
    ensures r <= x && r <= y && (r == x || r == y)
  {
    if x <= y then x else y
  }

  /** `x` has at most two decimal places. */
  predicate IsCents(x: real) {
    (x * 100.0).Floor as real == x * 100.0
  }

  /** Math.Round(x, 2) on decimal: round to two places, ties to the even hundredth. */
  function Round2(x: real): (r: real)
    ensures IsCents(r)
    ensures -0.005 <= r - x <= 0.005
    ensures r - x == 0.005 || x - r == 0.005 ==> (r * 100.0).Floor % 2 == 0
  {
    var y := x * 100.0;
    var f := y.Floor;
    var frac := y - f as real;
    var n := if frac < 0.5 then f
             else if frac > 0.5 then f + 1
             else if f % 2 == 0 then f else f + 1;
    Hundredths(n, x);
    assert (n as real / 100.0) * 100.0 == n as real;
    assert n as real / 100.0 - x == 0.005 || x - n as real / 100.0 == 0.005 ==> frac == 0.5;
    n as real / 100.0
  }

  /** `n` hundredths is a value with two decimal places, within half a hundredth of `x` when `n`
      is within half a unit of `x * 100`. */
  lemma Hundredths(n: int, x: real)
    requires -0.5 <= n as real - x * 100.0 <= 0.5
    ensures IsCents(n as real / 100.0)
    ensures -0.005 <= n as real / 100.0 - x <= 0.005
  {
    var r := n as real / 100.0;
    assert r * 100.0 == n as real;
    assert (r - x) * 100.0 == n as real - x * 100.0;
  }

  /** A value that already has two decimal places is left unchanged by rounding. */
  lemma Round2OfCents(x: real)
    requires IsCents(x)
    ensures Round2(x) == x
  {
    var y := x * 100.0;
    assert y - y.Floor as real == 0.0;
  }

  /** Rounding keeps the sign: a non-negative value never rounds below zero. */
  lemma Round2NonNegative(x: real)
    requires x >= 0.0
    ensures Round2(x) >= 0.0
  {
    var r := Round2(x);
    var n := (r * 100.0).Floor;
    assert n as real == r * 100.0;
    assert r * 100.0 >= -0.5;
  }

  /** Rounding keeps the sign: a non-positive value never rounds above zero. */
  lemma Round2NonPositive(x: real)
    requires x <= 0.0
    ensures Round2(x) <= 0.0
  {
    var r := Round2(x);
    var n := (r * 100.0).Floor;
    assert n as real == r * 100.0;
    assert r * 100.0 <= 0.5;
  }
}
