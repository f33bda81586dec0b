/**
 * Models of the two parsers of Go's strconv package that the core calls:
 * ParseFloat on the tokens of the expression engine, and ParseInt(s, 10, 64)
 * on the configured operation times. Values are exact (`real`, `int`).
 */
module Strconv {
  import opened Wrappers

  const MaxInt64: int := 0x7FFF_FFFF_FFFF_FFFF
  const MinInt64: int := -0x8000_0000_0000_0000

  /** Go's int64. */
  type Int64 = x: int | MinInt64 <= x <= MaxInt64

  predicate IsDigit(c: char) { '0' <= c <= '9' }

  predicate AllDigits(s: string) { forall i :: 0 <= i < |s| ==> IsDigit(s[i]) }

  /** The value of a string of decimal digits, most significant digit first. */
  function DigitsValue(s: string): nat
    requires AllDigits(s)
  {
    if s == [] then 0 else DigitsValue(s[..|s| - 1]) * 10 + (s[|s| - 1] as int - '0' as int)
  }

  function Pow10(n: nat): (r: nat)
    ensures r > 0
  {
    if n == 0 then 1 else 10 * Pow10(n - 1)
  }

  /** The position of the first '.' in `s`, or |s| when there is none. */
  function DotIndex(s: string): (k: nat)
    ensures k <= |s|
    ensures k < |s| ==> s[k] == '.'
    ensures forall i :: 0 <= i < k ==> s[i] != '.'
  {
    if s == [] || s[0] == '.' then 0 else 1 + DotIndex(s[1..])
  }

  /**
   * A plain decimal literal: digits and at most one '.', with at least one
   * digit ("12", "1.5", "1.", ".5"; not ".", "1.2.3" or "1,5").
   */
  predicate IsDecimalLiteral(s: string) {
    && (forall i :: 0 <= i < |s| ==> IsDigit(s[i]) || s[i] == '.')
    && (forall i, j :: 0 <= i < j < |s| && s[i] == '.' ==> s[j] != '.')
    && (exists i :: 0 <= i < |s| && IsDigit(s[i]))
  }

  /**
   * strconv.ParseFloat(s, 64) on strings built from digits, '.', ',' and
   * single other characters -- the only strings the evaluator ever parses.
   * It succeeds exactly on decimal literals, with their exact value. Go's
   * range error on a literal beyond float64 has no counterpart here.
   */
  function ParseFloat(s: string): Option<real> {
    var k := DotIndex(s);
    var whole := s[..k];
    var frac := if k < |s| then s[k + 1..] else [];
    if AllDigits(whole) && AllDigits(frac) && |whole| + |frac| > 0 then
      Some(DigitsValue(whole) as real + DigitsValue(frac) as real / Pow10(|frac|) as real)
    else
      None
  }

  /** ParseFloat succeeds exactly on decimal literals; in particular never on a token with ','. */
  lemma ParseFloatSucceedsIff(s: string)
    ensures ParseFloat(s).Some? <==> IsDecimalLiteral(s)
  {
    if IsDecimalLiteral(s) { DecimalLiteralParses(s); }
    if ParseFloat(s).Some? { ParsedIsDecimalLiteral(s); }
  }

  lemma DecimalLiteralParses(s: string)
    requires IsDecimalLiteral(s)
    ensures ParseFloat(s).Some?
  {
    var k := DotIndex(s);
    var whole := s[..k];
    var frac := if k < |s| then s[k + 1..] else [];
    assert AllDigits(whole) by {
      forall i | 0 <= i < |whole| ensures IsDigit(whole[i]) { assert whole[i] == s[i]; }
    }
    assert AllDigits(frac) by {
      forall i | 0 <= i < |frac| ensures IsDigit(frac[i]) {
        assert frac[i] == s[k + 1 + i];
      }
    }
    var d :| 0 <= d < |s| && IsDigit(s[d]);
    if d < k { assert whole[d] == s[d]; } else { assert frac[d - k - 1] == s[d]; }
  }

  lemma ParsedIsDecimalLiteral(s: string)
    requires ParseFloat(s).Some?
    ensures IsDecimalLiteral(s)
  {
    var k := DotIndex(s);
    var whole := s[..k];
    var frac := if k < |s| then s[k + 1..] else [];
    assert k == |s| ==> whole == s;
    forall i | 0 <= i < |s| ensures IsDigit(s[i]) || s[i] == '.' {
      if i < k { assert s[i] == whole[i]; } else if i > k { assert s[i] == frac[i - k - 1]; }
    }
    forall i, j | 0 <= i < j < |s| && s[i] == '.' ensures s[j] != '.' {
      assert s[j] == frac[j - k - 1];
    }
    if |whole| > 0 { assert s[0] == whole[0]; } else { assert s[k + 1] == frac[0]; }
  }

  /** A literal without a '.' parses to its integer value. */
  lemma ParseFloatDigits(s: string)
    requires |s| > 0 && AllDigits(s)
    ensures ParseFloat(s) == Some(DigitsValue(s) as real)
  {
    var k := DotIndex(s);
    assert forall i :: 0 <= i < |s| ==> s[i] != '.';
    assert s[..k] == s;
    assert DigitsValue([]) == 0 && Pow10(0) == 1;
  }

  const MaxUint64: int := 0xFFFF_FFFF_FFFF_FFFF

  /** `s` without one leading sign. */
  function Unsigned(s: string): (u: string)
    ensures |u| <= |s|
  {
    if |s| > 0 && (s[0] == '+' || s[0] == '-') then s[1..] else s
  }

  /** The position of the first character of `s` that is not a digit, or |s|. */
  function NonDigitIndex(s: string): (k: nat)
    ensures k <= |s|
    ensures k < |s| ==> !IsDigit(s[k])
    ensures AllDigits(s[..k])
  {
    if s == [] || !IsDigit(s[0]) then 0
    else
      var k := 1 + NonDigitIndex(s[1..]);
      assert forall i :: 1 <= i < k ==> s[..k][i] == s[1..][..k - 1][i - 1];
      k
  }

  /**
   * strconv.ParseInt(s, 10, 64) with its error ignored, as createNewTask uses
   * it. An optional sign is followed by the digits, which are read from the
   * left. A digit that takes the value past the uint64 range is a range
   * error, and then the result is the int64 bound of the sign, whatever
   * follows. Otherwise a character that is not a digit (or no digit at all)
   * is a syntax error, and the result is 0. A complete number beyond the
   * int64 range is a range error too, with the nearest bound as result.
   */
  function ParseInt(s: string): (r: Int64)
  {
    var neg := |s| > 0 && s[0] == '-';
    var digits := Unsigned(s);
    var k := NonDigitIndex(digits);
    var magnitude := DigitsValue(digits[..k]);
    if digits == [] || (k < |digits| && magnitude <= MaxUint64) then 0
    else if neg then (if magnitude > -MinInt64 then MinInt64 else -(magnitude as int))
    else (if magnitude > MaxInt64 then MaxInt64 else magnitude)
  }

  /** In a string of digits the first non-digit is past the end. */
  lemma {:induction false} NonDigitIndexAll(s: string)
    requires AllDigits(s)
    ensures NonDigitIndex(s) == |s| && s[..|s|] == s
  {
    if s != [] {
      NonDigitIndexAll(s[1..]);
    }
  }

  /** A non-digit with only digits before it is the first non-digit. */
  lemma {:induction false} NonDigitIndexAt(s: string, i: nat)
    requires i < |s| && !IsDigit(s[i]) && AllDigits(s[..i])
    ensures NonDigitIndex(s) == i
  {
    if i > 0 {
      assert IsDigit(s[..i][0]);
      assert s[1..][..i - 1] == s[..i][1..];
      assert s[1..][i - 1] == s[i];
      NonDigitIndexAt(s[1..], i - 1);
    }
  }

  /** Decimal digits of `n`, without leading zeros: the reference printer for the parsers. */
  function FormatNat(n: nat): (s: string)
    ensures |s| > 0 && AllDigits(s)
    ensures s[0] != '0' || n == 0
  {
    if n < 10 then [('0' as int + n) as char]
    else FormatNat(n / 10) + [('0' as int + n % 10) as char]
  }

  /** strconv.FormatInt(n, 10). */
  function FormatInt(n: int): string {
    if n < 0 then "-" + FormatNat(-n) else FormatNat(n)
  }

  lemma {:induction false} DigitsValueOfFormat(n: nat)
    ensures DigitsValue(FormatNat(n)) == n
  {
    var s := FormatNat(n);
    if n >= 10 {
      DigitsValueOfFormat(n / 10);
      assert s[..|s| - 1] == FormatNat(n / 10);
    }
  }

  /** Parsing what FormatInt prints gives the number back, for every int64. */
  lemma ParseIntFormatInt(n: Int64)
    ensures ParseInt(FormatInt(n)) == n
  {
    var s := FormatInt(n);
    if n < 0 {
      var m: nat := -(n as int);
      DigitsValueOfFormat(m);
      assert s[1..] == FormatNat(m);
      NonDigitIndexAll(s[1..]);
      assert s[0] == '-';
      assert DigitsValue(s[1..]) == m <= -MinInt64;
    } else {
      DigitsValueOfFormat(n);
      NonDigitIndexAll(s);
      assert IsDigit(s[0]);
      assert DigitsValue(s) == n <= MaxInt64;
    }
  }

  /** A number printed without a fraction parses back to itself as a float. */
  lemma ParseFloatFormatNat(n: nat)
    ensures ParseFloat(FormatNat(n)) == Some(n as real)
  {
    DigitsValueOfFormat(n);
    ParseFloatDigits(FormatNat(n));
  }

  /** A signed text of an integer too large for int64 is clamped, not rejected. */
  lemma ParseIntClamps(n: nat)
    requires n > MaxInt64
    ensures ParseInt(FormatNat(n)) == MaxInt64
    ensures ParseInt("-" + FormatNat(n + 1)) == MinInt64
  {
    DigitsValueOfFormat(n);
    DigitsValueOfFormat(n + 1);
    NonDigitIndexAll(FormatNat(n));
    NonDigitIndexAll(FormatNat(n + 1));
    assert ("-" + FormatNat(n + 1))[1..] == FormatNat(n + 1);
  }

  /**
   * A syntax error for ParseInt: nothing after the sign, or a character that
   * is not a digit, reached while the digits before it still fit in a uint64.
   */
  predicate NotInteger(s: string) {
    var u := Unsigned(s);
    u == [] || exists i :: 0 <= i < |u| && !IsDigit(u[i]) && AllDigits(u[..i]) && DigitsValue(u[..i]) <= MaxUint64
  }

  /** A syntax error reads as 0. */
  lemma ParseIntSyntaxError(s: string)
    requires NotInteger(s)
    ensures ParseInt(s) == 0
  {
    var u := Unsigned(s);
    if u != [] {
      var i :| 0 <= i < |u| && !IsDigit(u[i]) && AllDigits(u[..i]) && DigitsValue(u[..i]) <= MaxUint64;
      NonDigitIndexAt(u, i);
    }
  }

  /**
   * The range error wins over a later syntax error: a number past the uint64
   * range followed by any text that starts with a non-digit reads as the bound.
   */
  lemma ParseIntRangeBeforeSyntax(n: nat, rest: string)
    requires n > MaxUint64 && rest != [] && !IsDigit(rest[0])
    ensures ParseInt(FormatNat(n) + rest) == MaxInt64
    ensures ParseInt("-" + (FormatNat(n) + rest)) == MinInt64
  {
    var t := FormatNat(n) + rest;
    DigitsValueOfFormat(n);
    DigitsOnlyIndex(FormatNat(n), rest);
    assert DigitsValue(t[..NonDigitIndex(t)]) == n;
    assert ("-" + t)[0] == '-' && ("-" + t)[1..] == t;
    assert Unsigned("-" + t) == t;
  }

  /** The first non-digit of `f + rest` is at |f| when `f` is all digits and `rest` starts with a non-digit. */
  lemma DigitsOnlyIndex(f: string, rest: string)
    requires |f| > 0 && AllDigits(f) && rest != [] && !IsDigit(rest[0])
    ensures Unsigned(f + rest) == f + rest
    ensures NonDigitIndex(f + rest) == |f| && (f + rest)[..|f|] == f
  {
    var t := f + rest;
    assert t[|f|] == rest[0] && t[..|f|] == f;
    NonDigitIndexAt(t, |f|);
  }
}
