/** The parts of Go's strconv package that the populator relies on:
    base-10 ParseInt and ParseUint with a bit-size bound, ParseBool, and
    the decimal formatting (Itoa, FormatBool) used to state round trips.
    All failures are collapsed into None: the populator only forwards them. */
module Strconv {

  datatype Option<T> = None | Some(value: T)

  /** The bit sizes a Go integer type can have. */
  type BitWidth = b: nat | b == 8 || b == 16 || b == 32 || b == 64 witness 64

  function Pow2(n: nat): (r: nat)
    ensures r >= 1
  {
    if n == 0 then 1 else 2 * Pow2(n - 1)
  }

  predicate IsDigit(c: char) {
    '0' <= c <= '9'
  }

  predicate AllDigits(s: string) {
    forall i :: 0 <= i < |s| ==> IsDigit(s[i])
  }

  function DigitValue(c: char): (d: nat)
    requires IsDigit(c)
    ensures d < 10
  {
    (c as int - '0' as int) as nat
  }

  function DigitChar(d: nat): (c: char)
    requires d < 10
    ensures IsDigit(c) && DigitValue(c) == d
  {
    (d + '0' as int) as char
  }

  /** The value of a non-empty run of decimal digits (leading zeros allowed). */
  function DecValue(s: string): nat
    requires AllDigits(s)
  {
    if |s| == 0 then 0 else 10 * DecValue(s[..|s| - 1]) + DigitValue(s[|s| - 1])
  }

  /** Unsigned base-10 digits, as strconv accepts them with base 10: no sign,
      no underscores, no prefix, at least one digit. */
  function ParseDec(s: string): (r: Option<nat>)
    ensures r.Some? <==> |s| > 0 && AllDigits(s)
    ensures r.Some? ==> r.value == DecValue(s)
  {
    if |s| > 0 && AllDigits(s) then Some(DecValue(s)) else None
  }

  /** strconv.ParseUint(s, 10, bits): digits only, value below 2^bits. */
  function ParseUint(s: string, bits: BitWidth): (r: Option<nat>)
    ensures r.Some? ==> r.value < Pow2(bits)
  {
    match ParseDec(s)
    case None => None
    case Some(n) => if n < Pow2(bits) then Some(n) else None
  }

  /** strconv.ParseInt(s, 10, bits): an optional '+' or '-' and then the
      ParseUint digits; the value lies in [-2^(bits-1), 2^(bits-1)). */
  function ParseInt(s: string, bits: BitWidth): (r: Option<int>)
    ensures r.Some? ==> -(Pow2(bits - 1) as int) <= r.value < Pow2(bits - 1)
  {
    if |s| == 0 then None
    else
      var neg := s[0] == '-';
      var digits := if s[0] == '+' || s[0] == '-' then s[1..] else s;
      match ParseDec(digits)
      case None => None
      case Some(n) =>
        if !neg && n < Pow2(bits - 1) then Some(n)
        else if neg && n <= Pow2(bits - 1) then Some(-(n as int))
        else None
  }

  /** strconv.ParseBool: exactly twelve spellings are accepted. Each is one
      to five characters long, its first character alone decides the value,
      and Go's own spellings "true" and "false" are among them. */
  function ParseBool(s: string): (r: Option<bool>)
    ensures r.Some? ==> 1 <= |s| <= 5
    ensures r == Some(true) ==> s[0] == '1' || s[0] == 't' || s[0] == 'T'
    ensures r == Some(false) ==> s[0] == '0' || s[0] == 'f' || s[0] == 'F'
    ensures s == FormatBool(true) ==> r == Some(true)
    ensures s == FormatBool(false) ==> r == Some(false)
  {
    if s == "1" || s == "t" || s == "T" || s == "TRUE" || s == "true" || s == "True" then Some(true)
    else if s == "0" || s == "f" || s == "F" || s == "FALSE" || s == "false" || s == "False" then Some(false)
    else None
  }

  /** The shortest decimal spelling of n (strconv.FormatUint(n, 10)). */
  function FormatDec(n: nat): (s: string)
    ensures |s| > 0 && AllDigits(s)
  {
    if n < 10 then [DigitChar(n)] else FormatDec(n / 10) + [DigitChar(n % 10)]
  }

  /** strconv.Itoa. */
  function FormatInt(n: int): string {
    if n < 0 then "-" + FormatDec(-n) else FormatDec(n)
  }

  /** strconv.FormatBool. */
  function FormatBool(b: bool): string {
    if b then "true" else "false"
  }

  lemma {:induction false} DecValueOfFormat(n: nat)
    ensures DecValue(FormatDec(n)) == n
  {
    var s := FormatDec(n);
    if n >= 10 {
      DecValueOfFormat(n / 10);
      assert s[..|s| - 1] == FormatDec(n / 10);
    }
  }

  /** Decimal formatting and parsing are inverse on all naturals. */
  lemma ParseDecFormat(n: nat)
    ensures ParseDec(FormatDec(n)) == Some(n)
  {
    DecValueOfFormat(n);
  }

  /** ParseUint accepts the decimal spelling of n exactly when n fits. */
  lemma ParseUintFormat(n: nat, bits: BitWidth)
    ensures ParseUint(FormatDec(n), bits) == if n < Pow2(bits) then Some(n) else None
  {
    ParseDecFormat(n);
  }

  /** ParseInt accepts Itoa(n) exactly when n lies in the signed range. */
  lemma ParseIntFormat(n: int, bits: BitWidth)
    ensures ParseInt(FormatInt(n), bits) ==
      if -(Pow2(bits - 1) as int) <= n < Pow2(bits - 1) then Some(n) else None
  {
    var s := FormatInt(n);
    if n < 0 {
      ParseDecFormat(-n);
      assert s[1..] == FormatDec(-n);
    } else {
      ParseDecFormat(n);
    }
  }

  /** Leading zeros do not change the parsed value. */
  lemma {:induction false} DecValueLeadingZero(s: string)
    requires AllDigits(s)
    ensures AllDigits("0" + s) && DecValue("0" + s) == DecValue(s)
  {
    var t := "0" + s;
    assert AllDigits(t) by {
      forall i | 0 <= i < |t| ensures IsDigit(t[i]) {
        if i > 0 { assert t[i] == s[i - 1]; }
      }
    }
    if |s| > 0 {
      assert t[..|t| - 1] == "0" + s[..|s| - 1];
      DecValueLeadingZero(s[..|s| - 1]);
    }
  }

  /** ParseBool inverts FormatBool. */
  lemma ParseBoolFormat(b: bool)
    ensures ParseBool(FormatBool(b)) == Some(b)
  {
  }

  /** ParseBool is not case-insensitive beyond its listed spellings. */
  lemma ParseBoolRejectsMixedCase()
    ensures ParseBool("tRUE") == None && ParseBool("yes") == None && ParseBool("") == None
  {
  }
}
