/**
  The part of Go's `strconv` package that the request binder relies on:
  base-10 integer parsing limited to a bit width, boolean parsing, and the
  decimal formatting that inverts the integer parsers.

  A failed parse is `None`. Go reports the failure as a `*NumError` whose
  `Err` is either `ErrSyntax` or `ErrRange`; the binder maps both to the same
  status, so only success or failure is kept here.
 */
module Strconv {
  import opened Wrappers

  /** The bit widths `reflect.Type.Bits` reports for Go's integer kinds
      (`int` and `uint` are 64 bits wide on the 64-bit platforms modelled). */
  type IntWidth = b: nat | b == 8 || b == 16 || b == 32 || b == 64 witness 8

  function Pow2(n: nat): (r: nat)
    ensures r >= 1
  {
    if n == 0 then 1 else 2 * Pow2(n - 1)
  }

  predicate IsDigit(c: char) {
    '0' <= c <= '9'
  }

  predicate AllDigits(s: string) {
    forall i :: 0 <= i < |s| ==> IsDigit(s[i])
  }

  function DigitValue(c: char): nat
    requires IsDigit(c)
  {
    c as nat - '0' as nat
  }

  function DigitChar(d: nat): (c: char)
    requires d < 10
    ensures IsDigit(c) && DigitValue(c) == d
  {
    ('0' as nat + d) as char
  }

  /** The number a string of decimal digits denotes, most significant first;
      leading zeros are allowed, as Go's parser allows them. */
  function DigitsValue(s: string): nat
    requires AllDigits(s)
  {
    if |s| == 0 then 0 else 10 * DigitsValue(s[..|s| - 1]) + DigitValue(s[|s| - 1])
  }

  /** `strconv.FormatUint(n, 10)`: shortest decimal spelling, no sign. */
  function FormatUint(n: nat): (s: string)
    ensures |s| > 0 && AllDigits(s)
  {
    if n < 10 then [DigitChar(n)] else FormatUint(n / 10) + [DigitChar(n % 10)]
  }

  /** `strconv.FormatInt(x, 10)`: a minus sign before the magnitude of a
      negative number. */
  function FormatInt(x: int): (s: string)
    ensures |s| > 0
    ensures x < 0 <==> s[0] == '-'
    ensures s[0] != '+'
  {
    if x < 0 then "-" + FormatUint(-x) else FormatUint(x)
  }

  /** `strconv.ParseUint(s, 10, bits)`: one or more decimal digits (no sign,
      no underscore, no prefix) whose value fits in `bits` bits. */
  function ParseUint(s: string, bits: IntWidth): (r: Option<nat>)
    ensures r.Some? <==> |s| > 0 && AllDigits(s) && DigitsValue(s) < Pow2(bits)
    ensures r.Some? ==> r.value == DigitsValue(s)
  {
    if |s| == 0 || !AllDigits(s) then None
    else
      var n := DigitsValue(s);
      if n < Pow2(bits) then Some(n) else None
  }

  /** The unsigned magnitude part of a signed decimal: what follows an optional
      leading '+' or '-'. */
  function Magnitude(s: string): string
    requires |s| > 0
  {
    if s[0] == '+' || s[0] == '-' then s[1..] else s
  }

  /** `strconv.ParseInt(s, 10, bits)`: an optional sign, then the digits
      `ParseUint` accepts; the value must lie in the two's-complement range
      of `bits` bits. */
  function ParseInt(s: string, bits: IntWidth): (r: Option<int>)
    ensures r.Some? <==>
      && |s| > 0 && |Magnitude(s)| > 0 && AllDigits(Magnitude(s))
      && var v := if s[0] == '-' then -(DigitsValue(Magnitude(s)) as int) else DigitsValue(Magnitude(s)) as int;
         -(Pow2(bits - 1) as int) <= v < Pow2(bits - 1)
    ensures r.Some? ==> -(Pow2(bits - 1) as int) <= r.value < Pow2(bits - 1)
    ensures r.Some? ==> r.value == if s[0] == '-' then -(DigitsValue(Magnitude(s)) as int) else DigitsValue(Magnitude(s))
  {
    if |s| == 0 then None
    else
      var neg := s[0] == '-';
      var body := Magnitude(s);
      if |body| == 0 || !AllDigits(body) then None
      else
        var un := DigitsValue(body);
        var cutoff := Pow2(bits - 1);
        if !neg && un >= cutoff then None
        else if neg && un > cutoff then None
        else Some(if neg then -(un as int) else un)
  }

  const TrueSpellings: set<string> := {"1", "t", "T", "TRUE", "true", "True"}
  const FalseSpellings: set<string> := {"0", "f", "F", "FALSE", "false", "False"}

  /** `strconv.ParseBool`: exactly the twelve spellings Go accepts. */
  function ParseBool(s: string): (r: Option<bool>)
    ensures r.Some? <==> s in TrueSpellings + FalseSpellings
    ensures r == Some(true) <==> s in TrueSpellings
    ensures r == Some(false) <==> s in FalseSpellings
  {
    if s in {"1", "t", "T", "TRUE", "true", "True"} then Some(true)
    else if s in {"0", "f", "F", "FALSE", "false", "False"} then Some(false)
    else None
  }

  /** `strconv.FormatBool`. */
  function FormatBool(b: bool): string {
    if b then "true" else "false"
  }

  lemma {:induction false} DigitsValueAppend(s: string, c: char)
    requires AllDigits(s) && IsDigit(c)
    ensures AllDigits(s + [c])
    ensures DigitsValue(s + [c]) == 10 * DigitsValue(s) + DigitValue(c)
  {
    assert (s + [c])[..|s|] == s;
  }

  /** Decimal formatting and parsing are inverse on the naturals. */
  lemma {:induction false} DigitsValueFormat(n: nat)
    ensures DigitsValue(FormatUint(n)) == n
  {
    if n >= 10 {
      DigitsValueFormat(n / 10);
      DigitsValueAppend(FormatUint(n / 10), DigitChar(n % 10));
    }
  }

  /** Round trip of `ParseUint` over `FormatUint`: the value comes back exactly
      when it fits in the width, and the parse fails otherwise. */
  lemma UintRoundTrip(n: nat, bits: IntWidth)
    ensures ParseUint(FormatUint(n), bits) == if n < Pow2(bits) then Some(n) else None
  {
    DigitsValueFormat(n);
  }

  /** Round trip of `ParseInt` over `FormatInt`: every value of the width's
      two's-complement range comes back exactly, and every value outside it is
      a conversion error. */
  lemma IntRoundTrip(x: int, bits: IntWidth)
    ensures ParseInt(FormatInt(x), bits)
         == if -(Pow2(bits - 1) as int) <= x < Pow2(bits - 1) then Some(x) else None
  {
    var s := FormatInt(x);
    if x < 0 {
      assert Magnitude(s) == FormatUint(-x);
      DigitsValueFormat(-x);
    } else {
      assert Magnitude(s) == FormatUint(x);
      DigitsValueFormat(x);
    }
  }

  /** `ParseBool` inverts `FormatBool`. */
  lemma BoolRoundTrip(b: bool)
    ensures ParseBool(FormatBool(b)) == Some(b)
  {
  }

  /** Go accepts spellings `FormatInt` never writes: a leading '+', leading
      zeros and "-0"; the range check applies to the signed value, so the
      most negative value of a width parses while its negation does not. */
  lemma IntSpellings()
    ensures ParseInt("+5", 8) == Some(5)
    ensures ParseInt("007", 8) == Some(7)
    ensures ParseInt("-0", 8) == Some(0)
    ensures ParseInt("-128", 8) == Some(-128)
    ensures ParseInt("128", 8).None?
    ensures ParseInt("+", 8).None? && ParseInt("1_0", 16).None?
  {
    assert "+5"[1..] == "5";
    assert "-0"[1..] == "0";
    assert "007"[..2] == "00" && "00"[..1] == "0";
    assert "-128"[1..] == "128";
    assert "128"[..2] == "12" && "12"[..1] == "1";
  }

  /** `ParseBool` is case-sensitive beyond the three capitalisations Go lists. */
  lemma BoolSpellings()
    ensures ParseBool("True") == Some(true) && ParseBool("F") == Some(false)
    ensures ParseBool("tRUE").None? && ParseBool("yes").None?
  {
  }

  /** The empty string is never a number or a boolean. */
  lemma EmptyNeverParses(bits: IntWidth)
    ensures ParseInt("", bits).None?
    ensures ParseUint("", bits).None?
    ensures ParseBool("").None?
  {
  }
}
