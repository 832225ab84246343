/**
 * The JavaScript values that reach the modelled code (route parameters, query-string
 * values, JSON bodies, SQL parameters) and the coercions the source applies to them:
 * `Number(x)`, `Number.isInteger`, `parseInt(x, 10)`, truthiness, `== null`, and the
 * decimal text that a template literal gives an integer.
 */
module Js {
  import opened Wrappers

  /** A JavaScript number. Finite numbers are exact reals: IEEE-754 rounding is not modelled. */
  datatype Number = NaN | Infinity(negative: bool) | Finite(v: real)

  /** A JavaScript value, told apart as far as `typeof` and the coercions below need. */
  datatype Value =
    | Undefined
    | Null
    | Bool(b: bool)
    | Num(n: Number)
    | Str(s: string)
    | Obj  // any object or array

  /** `v == null`: true of `null` and `undefined` only. */
  predicate IsNullish(v: Value)
  {
    v.Undefined? || v.Null?
  }

  /** JavaScript truthiness (`if (v)`). */
  predicate Truthy(v: Value)
  {
    match v
    case Undefined => false
    case Null => false
    case Bool(b) => b
    case Num(n) => n.Infinity? || (n.Finite? && n.v != 0.0)
    case Str(s) => s != []
    case Obj => true
  }

  /** `Number.isInteger(n)`. */
  predicate IsInteger(n: Number)
  {
    n.Finite? && n.v.Floor as real == n.v
  }

  function IntegerValue(n: Number): int
    requires IsInteger(n)
  {
    n.v.Floor
  }

  /** `n - 1`. */
  function MinusOne(n: Number): (r: Number)
    ensures IsInteger(r) <==> IsInteger(n)
    ensures IsInteger(n) ==> IntegerValue(r) == IntegerValue(n) - 1
  {
    match n
    case Finite(v) => FloorMinusOne(v); Finite(v - 1.0)
    case _ => n
  }

  lemma FloorMinusOne(v: real)
    ensures (v - 1.0).Floor == v.Floor - 1
  {
    var k := v.Floor;
    assert k as real <= v < k as real + 1.0;
    assert (k - 1) as real <= v - 1.0 < (k - 1) as real + 1.0;
  }

  /** `Number(v)`. Objects and arrays are taken to convert to NaN. */
  function ToNumber(v: Value): Number
  {
    match v
    case Undefined => NaN
    case Null => Finite(0.0)
    case Bool(b) => Finite(if b then 1.0 else 0.0)
    case Num(n) => n
    case Str(s) => StringToNumber(s)
    case Obj => NaN
  }

  /** The id guard used throughout: `Number.isInteger(Number(v))`. */
  predicate IntegerLike(v: Value)
  {
    IsInteger(ToNumber(v))
  }

  // ---------------------------------------------------------------------------
  // Characters and digits

  /** The white space that `Number` and `parseInt` skip (the Unicode space separators other than U+00A0 are left out). */
  predicate IsSpace(c: char)
  {
    c in {' ', '\t', '\n', '\r', '\U{B}', '\U{C}', '\U{A0}', '\U{FEFF}', '\U{2028}', '\U{2029}'}
  }

  /** The value of a digit in any radix up to 36; 36 for a character that is no digit at all. */
  function DigitValue(c: char): nat
  {
    if '0' <= c <= '9' then c as nat - '0' as nat
    else if 'a' <= c <= 'z' then c as nat - 'a' as nat + 10
    else if 'A' <= c <= 'Z' then c as nat - 'A' as nat + 10
    else 36
  }

  predicate IsDecimalDigit(c: char)
  {
    DigitValue(c) < 10
  }

  predicate AllDigits(s: string, radix: nat)
  {
    forall i :: 0 <= i < |s| ==> DigitValue(s[i]) < radix
  }

  /** The number a string of digits denotes in the given radix. */
  function DigitsValue(s: string, radix: nat): nat
  {
    if s == [] then 0 else DigitsValue(s[..|s| - 1], radix) * radix + DigitValue(s[|s| - 1])
  }

  function DigitChar(d: nat): (c: char)
    requires d < 10
    ensures IsDecimalDigit(c) && DigitValue(c) == d
  {
    ('0' as int + d) as char
  }

  function Pow10(k: nat): (r: nat)
    ensures r >= 1
  {
    if k == 0 then 1 else 10 * Pow10(k - 1)
  }

  // ---------------------------------------------------------------------------
  // Searching and trimming

  /** The index of the first character of `s` that is in `cs`, if any. */
  function IndexOfAny(s: string, cs: set<char>): (r: Option<nat>)
    ensures r.None? <==> forall i :: 0 <= i < |s| ==> s[i] !in cs
    ensures r.Some? ==> r.value < |s| && s[r.value] in cs
    ensures r.Some? ==> forall i :: 0 <= i < r.value ==> s[i] !in cs
  {
    if s == [] then None
    else if s[0] in cs then Some(0)
    else match IndexOfAny(s[1..], cs)
      case None => None
      case Some(k) => Some(k + 1)
  }

  /** `s.split(c)[0]`: the part of `s` before the first `c`, or all of `s`. */
  function BeforeFirst(s: string, c: char): (r: string)
    ensures r <= s && c !in r
    ensures r == s || s[|r|] == c
  {
    match IndexOfAny(s, {c})
    case None => s
    case Some(k) => s[..k]
  }

  function TrimStart(s: string): (r: string)
    ensures |r| <= |s| && r == s[|s| - |r|..]
    ensures r == [] || !IsSpace(r[0])
  {
    if s != [] && IsSpace(s[0]) then TrimStart(s[1..]) else s
  }

  function TrimEnd(s: string): (r: string)
    ensures r <= s
    ensures r == [] || !IsSpace(r[|r| - 1])
  {
    if s != [] && IsSpace(s[|s| - 1]) then TrimEnd(s[..|s| - 1]) else s
  }

  // ---------------------------------------------------------------------------
  // Number(string)

  /**
   * `Number(s)` for a string: surrounding white space is ignored, the empty string is 0,
   * `Infinity` may carry a sign, `0x`/`0o`/`0b` prefixes select radix 16/8/2 (unsigned),
   * and otherwise the text must be a signed decimal literal with optional fraction and exponent.
   */
  function StringToNumber(s: string): Number
  {
    TrimmedToNumber(TrimEnd(TrimStart(s)))
  }

  function TrimmedToNumber(t: string): Number
  {
    if t == [] then Finite(0.0)
    else if t == "Infinity" || t == "+Infinity" then Infinity(false)
    else if t == "-Infinity" then Infinity(true)
    else if IsRadixPrefixed(t) then RadixToNumber(t[2..], PrefixRadix(t[1]))
    else DecimalToNumber(t)
  }

  /** `0x…`, `0o…` or `0b…` with at least one character after the prefix. */
  predicate IsRadixPrefixed(t: string)
  {
    |t| > 2 && t[0] == '0' && PrefixRadix(t[1]) != 0
  }

  function RadixToNumber(digits: string, radix: nat): Number
  {
    if AllDigits(digits, radix) then Finite(DigitsValue(digits, radix) as real) else NaN
  }

  function DecimalToNumber(t: string): Number
  {
    match SignedDecimal(t)
    case Some(v) => Finite(v)
    case None => NaN
  }

  function PrefixRadix(c: char): nat
  {
    if c in {'x', 'X'} then 16 else if c in {'o', 'O'} then 8 else if c in {'b', 'B'} then 2 else 0
  }

  function SignedDecimal(t: string): Option<real>
  {
    if t != [] && t[0] in {'+', '-'} then
      match UnsignedDecimal(t[1..])
      case Some(v) => Some(if t[0] == '-' then -v else v)
      case None => None
    else UnsignedDecimal(t)
  }

  function UnsignedDecimal(u: string): Option<real>
  {
    match IndexOfAny(u, {'e', 'E'})
    case None => Mantissa(u)
    case Some(k) =>
      match (Mantissa(u[..k]), Exponent(u[k + 1..]))
      case (Some(m), Some(e)) => Some(if e >= 0 then m * Pow10(e) as real else m / Pow10(-e) as real)
      case _ => None
  }

  /** Digits with at most one decimal point and at least one digit. */
  function Mantissa(m: string): Option<real>
  {
    match IndexOfAny(m, {'.'})
    case None =>
      if m != [] && AllDigits(m, 10) then Some(DigitsValue(m, 10) as real) else None
    case Some(k) =>
      var whole, fraction := m[..k], m[k + 1..];
      if (whole != [] || fraction != []) && AllDigits(whole, 10) && AllDigits(fraction, 10)
      then Some(DigitsValue(whole, 10) as real + DigitsValue(fraction, 10) as real / Pow10(|fraction|) as real)
      else None
  }

  function Exponent(x: string): Option<int>
  {
    var negative := x != [] && x[0] == '-';
    var digits := if x != [] && x[0] in {'+', '-'} then x[1..] else x;
    if digits != [] && AllDigits(digits, 10)
    then Some(if negative then -(DigitsValue(digits, 10) as int) else DigitsValue(digits, 10))
    else None
  }

  // ---------------------------------------------------------------------------
  // parseInt(s, 10)

  /** The longest prefix of `u` made of decimal digits. */
  function LeadingDigits(u: string): (r: string)
    ensures r <= u && AllDigits(r, 10)
    ensures |r| < |u| ==> !IsDecimalDigit(u[|r|])
  {
    if u != [] && IsDecimalDigit(u[0]) then [u[0]] + LeadingDigits(u[1..]) else []
  }

  /** `parseInt(s, 10)`: `None` is NaN. Leading white space and a sign are skipped, trailing junk is ignored. */
  function ParseInt(s: string): Option<int>
  {
    var t := TrimStart(s);
    var negative := t != [] && t[0] == '-';
    var u := if t != [] && t[0] in {'+', '-'} then t[1..] else t;
    var d := LeadingDigits(u);
    if d == [] then None else Some(if negative then -(DigitsValue(d, 10) as int) else DigitsValue(d, 10))
  }

  // ---------------------------------------------------------------------------
  // Decimal text of integers (what a template literal or `String(n)` gives)

  function NatToString(n: nat): (r: string)
    ensures r != [] && AllDigits(r, 10)
    ensures r[0] == '0' ==> r == "0"
  {
    if n < 10 then [DigitChar(n)] else NatToString(n / 10) + [DigitChar(n % 10)]
  }

  function IntToString(i: int): (r: string)
    ensures r != []
  {
    if i < 0 then "-" + NatToString(-i) else NatToString(i)
  }

  /** The text of an integer holds only decimal digits and possibly a leading minus sign. */
  lemma IntToStringChars(i: int, c: char)
    requires c in IntToString(i)
    ensures c == '-' || IsDecimalDigit(c)
  {
    var ds := NatToString(if i < 0 then -i else i);
    assert AllDigits(ds, 10);
    if c in ds {
      var j :| 0 <= j < |ds| && ds[j] == c;
    }
  }

  /** In particular it never holds a query-string separator. */
  lemma NoSeparatorInInt(i: int)
    ensures '&' !in IntToString(i)
  {
    if '&' in IntToString(i) {
      IntToStringChars(i, '&');
    }
  }

  // ---------------------------------------------------------------------------
  // Round trips

  /** The decimal digits of `n` denote `n`. */
  lemma {:induction false} NatToStringValue(n: nat)
    ensures DigitsValue(NatToString(n), 10) == n
  {
    if n >= 10 {
      var s := NatToString(n);
      NatToStringValue(n / 10);
      assert s[..|s| - 1] == NatToString(n / 10);
    }
  }

  lemma TrimmedAlready(s: string)
    requires s != [] && !IsSpace(s[0]) && !IsSpace(s[|s| - 1])
    ensures TrimEnd(TrimStart(s)) == s
  {
  }

  lemma DecimalDigitsAreUnsignedDecimal(s: string)
    requires s != [] && AllDigits(s, 10)
    ensures UnsignedDecimal(s) == Some(DigitsValue(s, 10) as real)
  {
    assert IndexOfAny(s, {'e', 'E'}) == None by {
      forall i | 0 <= i < |s| ensures s[i] !in {'e', 'E'} {
        assert DigitValue(s[i]) < 10;
      }
    }
    assert IndexOfAny(s, {'.'}) == None by {
      forall i | 0 <= i < |s| ensures s[i] !in {'.'} {
        assert DigitValue(s[i]) < 10;
      }
    }
  }

  lemma NotInfinityText(t: string)
    requires t != [] && t[0] != 'I' && t[0] != '+' && (t[0] == '-' ==> |t| > 1 && t[1] != 'I')
    ensures t != "Infinity" && t != "+Infinity" && t != "-Infinity"
  {
    assert t[0] != "Infinity"[0] && t[0] != "+Infinity"[0];
    if t[0] == '-' { assert t[1] != "-Infinity"[1]; } else { assert t[0] != "-Infinity"[0]; }
  }

  lemma StringToNumberUntrimmed(t: string)
    requires t != [] && !IsSpace(t[0]) && !IsSpace(t[|t| - 1])
    ensures StringToNumber(t) == TrimmedToNumber(t)
  {
    TrimmedAlready(t);
  }

  lemma TrimmedDecimal(t: string)
    requires t != [] && t[0] != 'I' && t[0] != '+' && (t[0] == '-' ==> |t| > 1 && t[1] != 'I')
    requires t[0] == '0' ==> |t| == 1
    ensures TrimmedToNumber(t) == DecimalToNumber(t)
  {
    NotInfinityText(t);
    assert !IsRadixPrefixed(t);
  }

  /** A text without surrounding space that is neither `Infinity` nor radix-prefixed converts as a signed decimal literal. */
  lemma StringToNumberDecimal(t: string)
    requires t != [] && !IsSpace(t[0]) && !IsSpace(t[|t| - 1])
    requires t[0] != 'I' && t[0] != '+' && (t[0] == '-' ==> |t| > 1 && t[1] != 'I')
    requires t[0] == '0' ==> |t| == 1
    ensures StringToNumber(t) == DecimalToNumber(t)
  {
    StringToNumberUntrimmed(t);
    TrimmedDecimal(t);
  }

  /** A decimal digit is neither white space, a sign, nor the start of `Infinity`. */
  lemma DigitIsPlain(c: char)
    requires IsDecimalDigit(c)
    ensures !IsSpace(c) && c != '-' && c != '+' && c != 'I'
  {
    assert '0' <= c <= '9';
  }

  lemma DecimalOfDigits(d: string)
    requires d != [] && AllDigits(d, 10)
    ensures DecimalToNumber(d) == Finite(DigitsValue(d, 10) as real)
  {
    DecimalDigitsAreUnsignedDecimal(d);
    DigitIsPlain(d[0]);
  }

  lemma DecimalOfNegativeDigits(d: string)
    requires d != [] && AllDigits(d, 10)
    ensures DecimalToNumber("-" + d) == Finite(-(DigitsValue(d, 10) as real))
  {
    DecimalDigitsAreUnsignedDecimal(d);
    assert ("-" + d)[1..] == d;
  }

  /** `Number` of a digit string is its value. */
  lemma StringToNumberOfDigits(d: string, v: int)
    requires d != [] && AllDigits(d, 10) && (d[0] == '0' ==> |d| == 1) && DigitsValue(d, 10) == v
    ensures StringToNumber(d) == Finite(v as real)
  {
    DigitIsPlain(d[0]);
    DigitIsPlain(d[|d| - 1]);
    StringToNumberDecimal(d);
    DecimalOfDigits(d);
  }

  /** `Number` of a minus sign followed by a digit string is the negated value. */
  lemma StringToNumberOfNegativeDigits(t: string, d: string, v: int)
    requires d != [] && AllDigits(d, 10) && t == "-" + d && DigitsValue(d, 10) == -v
    ensures StringToNumber(t) == Finite(v as real)
  {
    assert t[1] == d[0] && t[|t| - 1] == d[|d| - 1];
    DigitIsPlain(d[0]);
    DigitIsPlain(d[|d| - 1]);
    assert !IsSpace('-');
    StringToNumberDecimal(t);
    DecimalOfNegativeDigits(d);
  }

  lemma StringToNumberOfNat(i: int)
    requires i >= 0
    ensures StringToNumber(IntToString(i)) == Finite(i as real)
  {
    NatToStringValue(i);
    StringToNumberOfDigits(IntToString(i), i);
  }

  lemma StringToNumberOfNegative(i: int)
    requires i < 0
    ensures StringToNumber(IntToString(i)) == Finite(i as real)
  {
    NatToStringValue(-i);
    StringToNumberOfNegativeDigits(IntToString(i), NatToString(-i), i);
  }

  /** `Number(String(i)) === i`: the decimal text of an integer converts back to it. */
  lemma StringToNumberOfInt(i: int)
    ensures StringToNumber(IntToString(i)) == Finite(i as real)
  {
    if i < 0 {
      StringToNumberOfNegative(i);
    } else {
      StringToNumberOfNat(i);
    }
  }

  lemma LeadingDigitsOfDigits(s: string)
    requires AllDigits(s, 10)
    ensures LeadingDigits(s) == s
  {
  }

  /** `parseInt` of a digit string is its value. */
  lemma ParseIntOfDigits(d: string, v: int)
    requires d != [] && AllDigits(d, 10) && DigitsValue(d, 10) == v
    ensures ParseInt(d) == Some(v)
  {
    DigitIsPlain(d[0]);
    assert TrimStart(d) == d;
    LeadingDigitsOfDigits(d);
  }

  /** `parseInt` of a minus sign followed by a digit string is the negated value. */
  lemma ParseIntOfNegativeDigits(t: string, d: string, v: int)
    requires d != [] && AllDigits(d, 10) && t == "-" + d && DigitsValue(d, 10) == -v
    ensures ParseInt(t) == Some(v)
  {
    assert !IsSpace('-');
    assert TrimStart(t) == t;
    assert t[1..] == d;
    LeadingDigitsOfDigits(d);
  }

  lemma ParseIntOfNat(i: int)
    requires i >= 0
    ensures ParseInt(IntToString(i)) == Some(i)
  {
    NatToStringValue(i);
    ParseIntOfDigits(IntToString(i), i);
  }

  lemma ParseIntOfNegative(i: int)
    requires i < 0
    ensures ParseInt(IntToString(i)) == Some(i)
  {
    NatToStringValue(-i);
    ParseIntOfNegativeDigits(IntToString(i), NatToString(-i), i);
  }

  /** `parseInt(String(i), 10) === i`. */
  lemma ParseIntOfInt(i: int)
    ensures ParseInt(IntToString(i)) == Some(i)
  {
    if i < 0 {
      ParseIntOfNegative(i);
    } else {
      ParseIntOfNat(i);
    }
  }

  /** Distinct integers have distinct decimal text. */
  lemma IntToStringInjective(i: int, j: int)
    requires IntToString(i) == IntToString(j)
    ensures i == j
  {
    ParseIntOfInt(i);
    ParseIntOfInt(j);
  }

  /** The decimal text of any integer passes the id guard. */
  lemma IntegerTextIsIntegerLike(k: int)
    ensures IntegerLike(Str(IntToString(k)))
  {
    StringToNumberOfInt(k);
  }
}
