/** Go's `strconv.ParseInt(s, 10, 64)` and `strconv.FormatInt(n, 10)`.
    Both the JSON decoder (a number literal stored into an `int64` field) and
    `DynamoDBAttributeValue.Integer()` (the text of a Number attribute) read a
    timestamp through ParseInt; both encoders write one through FormatInt. */
module Strconv {
  import opened Basics

  /** `strconv.ErrSyntax` and `strconv.ErrRange`. */
  datatype NumError = ErrSyntax | ErrRange

  predicate IsDigit(c: char) {
    '0' <= c <= '9'
  }

  function DigitValue(c: char): nat
    requires IsDigit(c)
  {
    c as int - '0' as int
  }

  function DigitChar(d: nat): char
    requires d < 10
  {
    ('0' as int + d) as char
  }

  /** The state of ParseUint's loop after it has consumed `s`: it stops with
      a syntax error at the first character that is not a digit, and with a
      range error at the first digit after which the value exceeds 2^64 - 1. */
  function ScanDigits(s: string): Result<nat, NumError>
    decreases |s|
  {
    if s == [] then Ok(0)
    else
      match ScanDigits(s[..|s| - 1])
      case Err(e) => Err(e)
      case Ok(n) =>
        var c := s[|s| - 1];
        if !IsDigit(c) then Err(ErrSyntax)
        else if n * 10 + DigitValue(c) > MaxUint64 then Err(ErrRange)
        else Ok(n * 10 + DigitValue(c))
  }

  /** `strconv.ParseUint(s, 10, 64)`. */
  function ParseUint(s: string): Result<nat, NumError> {
    if s == [] then Err(ErrSyntax) else ScanDigits(s)
  }

  /** `strconv.ParseInt(s, 10, 64)`: an optional sign, then ParseUint of the
      rest, then the signed range check. It accepts exactly the optionally
      signed decimal literals whose value is an int64, and returns that
      value. */
  function ParseInt(s: string): (r: Result<Int64, NumError>)
    ensures r.Ok? <==> IsDecimal(s) && MinInt64 <= SignedValue(s) <= MaxInt64
    ensures r.Ok? ==> r.value == SignedValue(s)
  {
    if s == [] then Err(ErrSyntax)
    else
      var neg := s[0] == '-';
      var digits := if s[0] == '+' || s[0] == '-' then s[1..] else s;
      ScanDigitsCorrect(digits);
      match ParseUint(digits)
      case Err(e) => Err(e)
      case Ok(u) =>
        if !neg && u > MaxInt64 then Err(ErrRange)
        else if neg && u > -MinInt64 then Err(ErrRange)
        else Ok(if neg then -(u as int) else u)
  }

  // The reference reading of a decimal literal, independent of any scan.

  predicate AllDigits(s: string) {
    forall i :: 0 <= i < |s| ==> IsDigit(s[i])
  }

  /** The number that a string of decimal digits denotes. */
  function Value(s: string): nat
    requires AllDigits(s)
    decreases |s|
  {
    if s == [] then 0 else Value(s[..|s| - 1]) * 10 + DigitValue(s[|s| - 1])
  }

  /** `s` without its sign, if it has one. */
  function Unsigned(s: string): string {
    if |s| > 0 && (s[0] == '+' || s[0] == '-') then s[1..] else s
  }

  predicate IsDecimal(s: string) {
    |Unsigned(s)| > 0 && AllDigits(Unsigned(s))
  }

  function SignedValue(s: string): int
    requires IsDecimal(s)
  {
    if s[0] == '-' then -(Value(Unsigned(s)) as int) else Value(Unsigned(s))
  }

  /** The scan succeeds exactly on digit strings whose value fits in 64 bits,
      and then it yields that value. */
  lemma {:induction false} ScanDigitsCorrect(s: string)
    ensures ScanDigits(s).Ok? <==> AllDigits(s) && Value(s) <= MaxUint64
    ensures ScanDigits(s).Ok? ==> ScanDigits(s).value == Value(s)
    decreases |s|
  {
    if s != [] {
      var p := s[..|s| - 1];
      ScanDigitsCorrect(p);
      if AllDigits(s) {
        assert AllDigits(p) by {
          forall i | 0 <= i < |p| ensures IsDigit(p[i]) {
            assert p[i] == s[i];
          }
        }
      } else if AllDigits(p) && IsDigit(s[|s| - 1]) {
        forall i | 0 <= i < |s| ensures IsDigit(s[i]) {
          if i < |p| { assert s[i] == p[i]; }
        }
        assert false;
      }
    }
  }

  /** The decimal digits of `n`, most significant first, without leading
      zeros. */
  function DecimalDigits(n: nat): string
    decreases n
  {
    if n < 10 then [DigitChar(n)] else DecimalDigits(n / 10) + [DigitChar(n % 10)]
  }

  lemma {:induction false} DecimalDigitsValue(n: nat)
    ensures |DecimalDigits(n)| > 0 && AllDigits(DecimalDigits(n))
    ensures Value(DecimalDigits(n)) == n
    decreases n
  {
    if n >= 10 {
      var s := DecimalDigits(n);
      DecimalDigitsValue(n / 10);
      assert s[..|s| - 1] == DecimalDigits(n / 10);
      forall i | 0 <= i < |s| ensures IsDigit(s[i]) {
        if i < |s| - 1 { assert s[i] == DecimalDigits(n / 10)[i]; }
      }
    }
  }

  /** `strconv.FormatInt(n, 10)`: a minus sign for a negative number, then
      the digits of its magnitude. Reading it back with ParseInt gives the
      same int64. */
  function FormatInt(n: Int64): (s: string)
    ensures |s| > 0 && (s[0] == '-' <==> n < 0)
    ensures ParseInt(s) == Ok(n)
  {
    var m: nat := if n < 0 then -(n as int) else n;
    var d := DecimalDigits(m);
    DecimalDigitsValue(m);
    assert IsDigit(d[0]);
    var s := if n < 0 then "-" + d else d;
    assert n < 0 ==> s[1..] == d;
    assert Unsigned(s) == d;
    s
  }
}
