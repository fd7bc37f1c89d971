/**
 * The C++ string primitives the HTTP layer relies on: `std::string::find`,
 * `std::stoull`, `std::stoll` (decimal base, "C" locale) and `std::to_string`
 * on non-negative integers.
 */
module Text {
  import opened Wrappers
  import opened Models

  predicate IsDigit(c: char) {
    '0' <= c <= '9'
  }

  /** `isspace` in the "C" locale. */
  predicate IsSpace(c: char) {
    c == ' ' || c == '\t' || c == '\n' || c == '\U{000B}' || c == '\U{000C}' || c == '\r'
  }

  predicate AllDigits(s: string) {
    forall i :: 0 <= i < |s| ==> IsDigit(s[i])
  }

  function DigitValue(c: char): nat
    requires IsDigit(c)
  {
    (c as int) - ('0' as int)
  }

  function DigitChar(d: nat): char
    requires d < 10
  {
    (('0' as int) + d) as char
  }

  /** Index of the first occurrence of `c` in `s`, or None (`std::string::npos`). */
  function Find(s: string, c: char): (r: Option<nat>)
    ensures r.Some? ==> r.value < |s| && s[r.value] == c
    ensures r.Some? ==> forall i :: 0 <= i < r.value ==> s[i] != c
    ensures r.None? <==> forall i :: 0 <= i < |s| ==> s[i] != c
  {
    if |s| == 0 then None
    else if s[0] == c then Some(0)
    else match Find(s[1..], c)
      case None => None
      case Some(k) => Some(k + 1)
  }

  /** Length of the longest prefix of `s` made of decimal digits. */
  function DigitRun(s: string): (n: nat)
    ensures n <= |s|
    ensures forall i :: 0 <= i < n ==> IsDigit(s[i])
    ensures n < |s| ==> !IsDigit(s[n])
  {
    if |s| == 0 || !IsDigit(s[0]) then 0 else 1 + DigitRun(s[1..])
  }

  /** Length of the longest prefix of `s` made of white space. */
  function SpaceRun(s: string): (n: nat)
    ensures n <= |s|
    ensures forall i :: 0 <= i < n ==> IsSpace(s[i])
    ensures n < |s| ==> !IsSpace(s[n])
  {
    if |s| == 0 || !IsSpace(s[0]) then 0 else 1 + SpaceRun(s[1..])
  }

  /** The number a string of decimal digits denotes (most significant digit first). */
  function DigitsValue(s: string): nat
    requires AllDigits(s)
  {
    if |s| == 0 then 0 else DigitsValue(s[..|s| - 1]) * 10 + DigitValue(s[|s| - 1])
  }

  /** Why a conversion throws: `std::invalid_argument` or `std::out_of_range`. */
  datatype ConversionError = InvalidArgument | OutOfRange

  /** What `strtoull`/`strtoll` read: a sign and the magnitude of the digit run. */
  datatype Scanned = Scanned(negative: bool, magnitude: nat)

  /**
   * Skips leading white space, reads an optional sign, then the longest run
   * of decimal digits; anything after that run is ignored. No digit at all
   * means no conversion could be performed.
   */
  function ScanInteger(s: string): Result<Scanned, ConversionError> {
    var rest := s[SpaceRun(s)..];
    var signLength := if |rest| > 0 && (rest[0] == '+' || rest[0] == '-') then 1 else 0;
    var digits := rest[signLength..];
    var n := DigitRun(digits);
    if n == 0 then Failure(InvalidArgument)
    else Success(Scanned(signLength == 1 && rest[0] == '-', DigitsValue(digits[..n])))
  }

  /**
   * `std::stoull(s)`: a magnitude above 2^64 - 1 is out of range, and a
   * leading minus sign negates the magnitude modulo 2^64.
   */
  function Stoull(s: string): Result<U64, ConversionError> {
    match ScanInteger(s)
    case Failure(e) => Failure(e)
    case Success(Scanned(negative, m)) =>
      if m >= UINT64_LIMIT then Failure(OutOfRange)
      else if negative then Success(WrapU64(-(m as int)))
      else Success(m)
  }

  /** `std::stoll(s)`: the signed value must fit in 64 bits. */
  function Stoll(s: string): Result<I64, ConversionError> {
    match ScanInteger(s)
    case Failure(e) => Failure(e)
    case Success(Scanned(negative, m)) =>
      var v: int := if negative then -(m as int) else m;
      if v < INT64_MIN || v > INT64_MAX then Failure(OutOfRange) else Success(v)
  }

  /** `std::to_string(n)`: canonical decimal, no sign, no leading zero. */
  function NatToString(n: nat): (s: string)
    ensures |s| > 0 && AllDigits(s)
    ensures s[0] == '0' ==> n == 0
  {
    if n < 10 then [DigitChar(n)] else NatToString(n / 10) + [DigitChar(n % 10)]
  }

  /** `std::to_string` on a signed value. */
  function IntToString(i: int): string {
    if i < 0 then "-" + NatToString(-i) else NatToString(i)
  }

  /** Reading back what `NatToString` wrote gives the number again. */
  lemma {:induction false} NatToStringValue(n: nat)
    ensures DigitsValue(NatToString(n)) == n
  {
    var s := NatToString(n);
    if n < 10 {
      assert s[..|s| - 1] == [];
    } else {
      assert s[..|s| - 1] == NatToString(n / 10);
      NatToStringValue(n / 10);
    }
  }

  /** The digit run of `d + rest` is exactly `d` when `rest` does not go on with a digit. */
  lemma {:induction false} DigitRunOfPrefix(d: string, rest: string)
    requires AllDigits(d)
    requires rest == [] || !IsDigit(rest[0])
    ensures DigitRun(d + rest) == |d|
  {
    if |d| > 0 {
      assert (d + rest)[1..] == d[1..] + rest;
      DigitRunOfPrefix(d[1..], rest);
    }
  }

  /** A digit string followed by a non-digit scans as its own value, unsigned. */
  lemma {:induction false} ScanDigitsThenRest(d: string, rest: string)
    requires |d| > 0 && AllDigits(d)
    requires rest == [] || !IsDigit(rest[0])
    ensures ScanInteger(d + rest) == Success(Scanned(false, DigitsValue(d)))
  {
    var s := d + rest;
    assert !IsSpace(s[0]);
    assert SpaceRun(s) == 0;
    assert s[0..] == s;
    DigitRunOfPrefix(d, rest);
    assert s[..|d|] == d;
  }

  /**
   * `stoull` reads back what `to_string` wrote, ignoring whatever follows
   * that is not a digit; values from 2^64 on are out of range.
   */
  lemma {:induction false} StoullReadsNatToString(n: nat, rest: string)
    requires rest == [] || !IsDigit(rest[0])
    ensures n < UINT64_LIMIT ==> Stoull(NatToString(n) + rest) == Success(n)
    ensures n >= UINT64_LIMIT ==> Stoull(NatToString(n) + rest) == Failure(OutOfRange)
  {
    ScanDigitsThenRest(NatToString(n), rest);
    NatToStringValue(n);
  }

  /** `stoll` reads back what `to_string` wrote for every 64-bit value. */
  lemma {:induction false} StollReadsIntToString(i: I64)
    ensures Stoll(IntToString(i)) == Success(i)
  {
    if i < 0 {
      var m: nat := -(i as int);
      assert IntToString(i) == "-" + NatToString(m);
      SignedDigitsScan(m);
      NatToStringValue(m);
      var scanned := ScanInteger(IntToString(i));
      assert scanned == Success(Scanned(true, m));
    } else {
      ScanDigitsThenRest(NatToString(i), []);
      assert NatToString(i) + [] == IntToString(i);
      NatToStringValue(i);
      var scanned := ScanInteger(IntToString(i));
      assert scanned == Success(Scanned(false, i as nat));
    }
  }

  /** `stoll` refuses the decimal form of a number above 2^63 - 1 as out of range. */
  lemma {:induction false} StollOutOfRange(n: nat)
    requires n > INT64_MAX
    ensures Stoll(NatToString(n)) == Failure(OutOfRange)
  {
    ScanDigitsThenRest(NatToString(n), []);
    assert NatToString(n) + [] == NatToString(n);
    NatToStringValue(n);
  }

  /** A minus sign followed by a canonical number scans as that number, negated. */
  lemma {:induction false} SignedDigitsScan(m: nat)
    ensures ScanInteger("-" + NatToString(m)) == Success(Scanned(true, DigitsValue(NatToString(m))))
  {
    var d := NatToString(m);
    var s := "-" + d;
    assert !IsSpace(s[0]);
    assert SpaceRun(s) == 0;
    assert s[0..] == s;
    assert s[1..] == d + [];
    DigitRunOfPrefix(d, []);
    assert (d + [])[..|d|] == d;
  }

  /** A string with no digit at all never converts. */
  lemma {:induction false} NoDigitNoConversion(s: string)
    requires forall i :: 0 <= i < |s| ==> !IsDigit(s[i])
    ensures ScanInteger(s) == Failure(InvalidArgument)
    ensures Stoull(s) == Failure(InvalidArgument)
  {
    var rest := s[SpaceRun(s)..];
    var signLength := if |rest| > 0 && (rest[0] == '+' || rest[0] == '-') then 1 else 0;
    var digits := rest[signLength..];
    if |digits| > 0 {
      assert digits[0] == s[SpaceRun(s) + signLength];
    }
  }

  /** A leading minus sign makes `stoull` wrap: "-1" reads as 2^64 - 1. */
  lemma {:induction false} StoullNegativeWraps(n: nat)
    requires 0 < n < UINT64_LIMIT
    ensures Stoull("-" + NatToString(n)) == Success(UINT64_LIMIT - n)
  {
    SignedDigitsScan(n);
    NatToStringValue(n);
    assert ScanInteger("-" + NatToString(n)) == Success(Scanned(true, n));
    WrapNegative(n);
  }
}
