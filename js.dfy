/**
 * The small part of JavaScript's built-in string and BigInt behaviour that the
 * voting client relies on: decimal `toString()` of integers, the `BigInt(string)`
 * conversion, and `String.prototype.trim`, `includes`, `slice` and `toLowerCase`.
 * Strings are sequences of UTF-16 code units in JavaScript; here they are
 * `seq<char>`, which agrees for every string the client handles (decimal numbers,
 * hexadecimal addresses, ASCII error reasons).
 */
module Js {

  datatype Option<T> = None | Some(value: T)

  /** An optional string is truthy when present and non-empty. */
  predicate Truthy(s: Option<string>)
  {
    s.Some? && s.value != ""
  }

  /** The outcome of a call that may throw: `Err` carries the error's message. */
  datatype Result<T> = Ok(value: T) | Err(message: string)

  // ---------------------------------------------------------------------------
  // Digits in any radix up to 36, as `BigInt` and `Number.prototype.toString` use them
  // ---------------------------------------------------------------------------

  /** The value of a digit character in radix 36, or 36 for a character that is no digit. */
  function DigitValue(c: char): (d: nat)
    ensures d <= 36
  {
    if '0' <= c <= '9' then (c as int) - ('0' as int)
    else if 'a' <= c <= 'z' then (c as int) - ('a' as int) + 10
    else if 'A' <= c <= 'Z' then (c as int) - ('A' as int) + 10
    else 36
  }

  predicate AllDigits(s: string, radix: nat)
  {
    forall i :: 0 <= i < |s| ==> DigitValue(s[i]) < radix
  }

  /** The value of a non-empty run of digits, most significant first. */
  function RadixValue(s: string, radix: nat): nat
    requires AllDigits(s, radix)
  {
    if s == [] then 0
    else RadixValue(s[..|s| - 1], radix) * radix + DigitValue(s[|s| - 1])
  }

  /** The lower-case digit character for `d`, as `toString(radix)` prints it. */
  function DigitChar(d: nat): (c: char)
    requires d < 16
    ensures DigitValue(c) == d
  {
    "0123456789abcdef"[d]
  }

  /** `n.toString()` for a non-negative integer: decimal digits, no leading zeros. */
  function NatToDecimal(n: nat): (s: string)
    ensures |s| >= 1 && AllDigits(s, 10)
    ensures |s| > 1 ==> s[0] != '0'
    decreases n
  {
    if n < 10 then [DigitChar(n)] else NatToDecimal(n / 10) + [DigitChar(n % 10)]
  }

  /** `x.toString()` for a BigInt that may be negative. */
  function IntToDecimal(x: int): (s: string)
    ensures |s| >= 1
    ensures x >= 0 ==> s == NatToDecimal(x)
    ensures x < 0 ==> s == "-" + NatToDecimal(-x)
  {
    if x < 0 then "-" + NatToDecimal(-x) else NatToDecimal(x)
  }

  lemma {:induction false} RadixValueAppend(s: string, c: char, radix: nat)
    requires AllDigits(s, radix) && DigitValue(c) < radix
    ensures AllDigits(s + [c], radix)
    ensures RadixValue(s + [c], radix) == RadixValue(s, radix) * radix + DigitValue(c)
  {
    assert (s + [c])[..|s + [c]| - 1] == s;
  }

  /** Printing a natural number in decimal and reading the digits back gives the number. */
  lemma {:induction false} DecimalRoundTrip(n: nat)
    ensures RadixValue(NatToDecimal(n), 10) == n
    decreases n
  {
    if n >= 10 {
      DecimalRoundTrip(n / 10);
      RadixValueAppend(NatToDecimal(n / 10), DigitChar(n % 10), 10);
    }
  }

  /** Two numbers with the same decimal string are the same number. */
  lemma DecimalInjective(a: nat, b: nat)
    requires NatToDecimal(a) == NatToDecimal(b)
    ensures a == b
  {
    DecimalRoundTrip(a);
    DecimalRoundTrip(b);
  }

  // ---------------------------------------------------------------------------
  // String.prototype.trim
  // ---------------------------------------------------------------------------

  /** The characters `trim` removes: ECMAScript WhiteSpace and LineTerminator. */
  predicate IsJsWhitespace(c: char)
  {
    c == '\t' || c == '\n' || c == '\U{000B}' || c == '\U{000C}' || c == '\r' || c == ' '
    || c == '\U{00A0}' || c == '\U{1680}' || ('\U{2000}' <= c <= '\U{200A}')
    || c == '\U{2028}' || c == '\U{2029}' || c == '\U{202F}' || c == '\U{205F}'
    || c == '\U{3000}' || c == '\U{FEFF}'
  }

  function TrimStart(s: string): string
  {
    if s != [] && IsJsWhitespace(s[0]) then TrimStart(s[1..]) else s
  }

  function TrimEnd(s: string): string
  {
    if s != [] && IsJsWhitespace(s[|s| - 1]) then TrimEnd(s[..|s| - 1]) else s
  }

  /** `s.trim()`: drop leading and trailing whitespace. */
  function Trim(s: string): string
  {
    TrimEnd(TrimStart(s))
  }

  /** `TrimStart` drops a run of whitespace from the front and stops at a non-whitespace character. */
  lemma {:induction false} TrimStartSpec(s: string)
    ensures |TrimStart(s)| <= |s| && TrimStart(s) == s[|s| - |TrimStart(s)|..]
    ensures TrimStart(s) != [] ==> !IsJsWhitespace(TrimStart(s)[0])
    ensures forall i :: 0 <= i < |s| - |TrimStart(s)| ==> IsJsWhitespace(s[i])
  {
    if s != [] && IsJsWhitespace(s[0]) {
      TrimStartSpec(s[1..]);
      assert forall i :: 1 <= i < |s| ==> s[i] == s[1..][i - 1];
    }
  }

  /** `TrimEnd` drops a run of whitespace from the back and stops at a non-whitespace character. */
  lemma {:induction false} TrimEndSpec(s: string)
    ensures |TrimEnd(s)| <= |s| && TrimEnd(s) == s[..|TrimEnd(s)|]
    ensures TrimEnd(s) != [] ==> !IsJsWhitespace(TrimEnd(s)[|TrimEnd(s)| - 1])
    ensures forall i :: |TrimEnd(s)| <= i < |s| ==> IsJsWhitespace(s[i])
  {
    if s != [] && IsJsWhitespace(s[|s| - 1]) {
      TrimEndSpec(s[..|s| - 1]);
    }
  }

  /**
   * What `trim` promises: the result is the input with a run of whitespace removed
   * at each end, and neither end of the result is whitespace.
   */
  lemma TrimIsInfix(s: string)
    ensures exists k :: OccursAt(s, Trim(s), k)
    ensures Trim(s) != [] ==> !IsJsWhitespace(Trim(s)[0]) && !IsJsWhitespace(Trim(s)[|Trim(s)| - 1])
  {
    var a := TrimStart(s);
    TrimStartSpec(s);
    TrimEndSpec(a);
    var k := |s| - |a|;
    assert OccursAt(s, Trim(s), k);
  }

  /** The trimmed string is empty exactly when every character is whitespace. */
  lemma TrimEmptyIff(s: string)
    ensures Trim(s) == [] <==> forall i :: 0 <= i < |s| ==> IsJsWhitespace(s[i])
  {
    var a := TrimStart(s);
    TrimStartSpec(s);
    TrimEndSpec(a);
    if a != [] {
      assert a[0] == s[|s| - |a|];
      assert TrimEnd(a) != [];
    }
  }

  /** Trimming twice is trimming once. */
  lemma TrimIdempotent(s: string)
    ensures Trim(Trim(s)) == Trim(s)
  {
    var t := Trim(s);
    TrimIsInfix(s);
    assert TrimStart(t) == t;
    assert TrimEnd(t) == t;
  }

  /** A string with no whitespace in it is its own trim. */
  lemma TrimNoWhitespace(s: string)
    requires forall i :: 0 <= i < |s| ==> !IsJsWhitespace(s[i])
    ensures Trim(s) == s
  {
    assert TrimStart(s) == s;
    assert TrimEnd(s) == s;
  }

  // ---------------------------------------------------------------------------
  // BigInt(string)
  // ---------------------------------------------------------------------------

  /** The radix a `0x`/`0o`/`0b` prefix (either case) selects, or 0 when `t` has none. */
  function RadixPrefix(t: string): (radix: nat)
    ensures radix in {0, 2, 8, 16}
  {
    if |t| >= 2 && t[0] == '0' then
      if t[1] == 'x' || t[1] == 'X' then 16
      else if t[1] == 'o' || t[1] == 'O' then 8
      else if t[1] == 'b' || t[1] == 'B' then 2
      else 0
    else 0
  }

  /** The unsigned decimal run after an optional sign, or `None`. */
  function SignedDecimal(t: string): (r: Option<int>)
  {
    var sign := if t != [] && (t[0] == '-' || t[0] == '+') then 1 else 0;
    var digits := t[sign..];
    if digits != [] && AllDigits(digits, 10) then
      var v: int := RadixValue(digits, 10);
      Some(if sign == 1 && t[0] == '-' then -v else v)
    else None
  }

  /**
   * `BigInt(s)` for a string `s`: `None` stands for the `SyntaxError` it throws.
   * Surrounding whitespace is ignored and a blank string is 0. A `0x`, `0o` or `0b`
   * prefix selects radix 16, 8 or 2 (no sign allowed then); otherwise the string is
   * an optionally signed decimal.
   */
  function BigIntOf(s: string): (r: Option<int>)
  {
    var t := Trim(s);
    if t == [] then Some(0)
    else
      var radix := RadixPrefix(t);
      if radix != 0 then
        if |t| > 2 && AllDigits(t[2..], radix) then Some(RadixValue(t[2..], radix)) else None
      else SignedDecimal(t)
  }

  /** Decimal digits are neither whitespace nor a sign. */
  lemma DecimalDigitsPlain(d: string)
    requires AllDigits(d, 10)
    ensures forall i :: 0 <= i < |d| ==> '0' <= d[i] <= '9'
    ensures forall i :: 0 <= i < |d| ==> !IsJsWhitespace(d[i])
  {
    forall i | 0 <= i < |d| ensures '0' <= d[i] <= '9' {
      assert DigitValue(d[i]) < 10;
    }
  }

  /** Without surrounding whitespace or a radix prefix, `BigInt` reads a signed decimal. */
  lemma ParsePlainDecimal(s: string)
    requires s != [] && RadixPrefix(s) == 0
    requires forall i :: 0 <= i < |s| ==> !IsJsWhitespace(s[i])
    ensures BigIntOf(s) == SignedDecimal(s)
  {
    TrimNoWhitespace(s);
  }

  /** Without surrounding whitespace, a `0x`/`0o`/`0b` literal reads as its digits in that radix. */
  lemma ParsePlainPrefixed(s: string)
    requires |s| > 2 && RadixPrefix(s) != 0 && AllDigits(s[2..], RadixPrefix(s))
    requires forall i :: 0 <= i < |s| ==> !IsJsWhitespace(s[i])
    ensures BigIntOf(s) == Some(RadixValue(s[2..], RadixPrefix(s)) as int)
  {
    TrimNoWhitespace(s);
  }

  lemma HexLiteralPlain(h: string)
    requires AllDigits(h, 16)
    ensures forall i :: 0 <= i < |"0x" + h| ==> !IsJsWhitespace(("0x" + h)[i])
  {
    var s := "0x" + h;
    forall i | 2 <= i < |s| ensures !IsJsWhitespace(s[i]) {
      assert s[i] == h[i - 2];
      assert DigitValue(h[i - 2]) < 16;
    }
  }

  /** `BigInt("0x" + h)` for a non-empty run of hex digits `h` is their value. */
  lemma HexLiteralParse(h: string)
    requires |h| > 0 && AllDigits(h, 16)
    ensures BigIntOf("0x" + h) == Some(RadixValue(h, 16) as int)
  {
    var s := "0x" + h;
    HexLiteralPlain(h);
    assert s[2..] == h;
    assert RadixPrefix(s) == 16;
    ParsePlainPrefixed(s);
  }

  lemma DigitsParse(d: string)
    requires d != [] && AllDigits(d, 10)
    ensures BigIntOf(d) == Some(RadixValue(d, 10) as int)
  {
    DecimalDigitsPlain(d);
    ParsePlainDecimal(d);
    assert d[0..] == d;
  }

  lemma NegDigitsParse(d: string)
    requires d != [] && AllDigits(d, 10)
    ensures BigIntOf("-" + d) == Some(-(RadixValue(d, 10) as int))
  {
    var s := "-" + d;
    assert forall i :: 0 <= i < |s| ==> !IsJsWhitespace(s[i]) by {
      DecimalDigitsPlain(d);
      assert forall i :: 1 <= i < |s| ==> s[i] == d[i - 1];
    }
    assert RadixPrefix(s) == 0;
    ParsePlainDecimal(s);
    assert SignedDecimal(s) == Some(-(RadixValue(d, 10) as int)) by {
      assert s[1..] == d;
    }
  }

  /** Reading back the decimal string of any BigInt gives that BigInt. */
  lemma IntDecimalRoundTrip(x: int)
    ensures BigIntOf(IntToDecimal(x)) == Some(x)
  {
    var n: nat := if x < 0 then -x else x;
    DecimalRoundTrip(n);
    if x < 0 { NegDigitsParse(NatToDecimal(n)); } else { DigitsParse(NatToDecimal(n)); }
  }

  /** The decimal strings that `toString` prints are never empty and never fail to parse. */
  lemma DecimalParses(n: nat)
    ensures NatToDecimal(n) != "" && BigIntOf(NatToDecimal(n)) == Some(n as int)
  {
    IntDecimalRoundTrip(n);
  }

  // ---------------------------------------------------------------------------
  // String.prototype.includes, slice, toLowerCase
  // ---------------------------------------------------------------------------

  /** `sub` occurs in `s` starting at index `k`. */
  predicate OccursAt(s: string, sub: string, k: int)
  {
    0 <= k <= |s| - |sub| && s[k..k + |sub|] == sub
  }

  /** `s.includes(sub)`: `sub` occurs in `s` at some position. */
  predicate Contains(s: string, sub: string)
    decreases |s|
  {
    sub <= s || (s != [] && Contains(s[1..], sub))
  }

  /** `Contains` holds exactly when `sub` occurs at some index of `s`. */
  lemma {:induction false} ContainsIff(s: string, sub: string)
    ensures Contains(s, sub) <==> exists k :: OccursAt(s, sub, k)
    decreases |s|
  {
    if sub <= s {
      assert OccursAt(s, sub, 0);
    } else if s != [] {
      ContainsIff(s[1..], sub);
      if exists k :: OccursAt(s, sub, k) {
        var k :| OccursAt(s, sub, k);
        assert k != 0;
        assert OccursAt(s[1..], sub, k - 1);
      }
      if Contains(s[1..], sub) {
        var k :| OccursAt(s[1..], sub, k);
        assert OccursAt(s, sub, k + 1);
      }
    }
  }

  /** Occurs in a middle part, occurs in the whole. */
  lemma ContainsInfix(a: string, sub: string, b: string)
    ensures Contains(a + sub + b, sub)
  {
    var s := a + sub + b;
    assert OccursAt(s, sub, |a|);
    ContainsIff(s, sub);
  }

  /** `s.slice(0, n)` for n >= 0: the first n characters, or all of a shorter string. */
  function SliceFirst(s: string, n: nat): (r: string)
    ensures |r| == if |s| < n then |s| else n
    ensures r <= s
  {
    if |s| < n then s else s[..n]
  }

  /** `s.slice(-n)` for n > 0: the last n characters, or all of a shorter string. */
  function SliceLast(s: string, n: nat): (r: string)
    ensures |r| == if |s| < n then |s| else n
    ensures r == s[|s| - |r|..]
  {
    if |s| < n then s else s[|s| - n..]
  }

  /** `toLowerCase` on one character; only the ASCII letters are mapped. */
  function LowerChar(c: char): (d: char)
    ensures 'A' <= c <= 'Z' ==> d as int == c as int + 32
    ensures !('A' <= c <= 'Z') ==> d == c
  {
    if 'A' <= c <= 'Z' then (c as int + 32) as char else c
  }

  /** `s.toLowerCase()` on ASCII letters: every character lower-cased on its own. */
  function ToLower(s: string): string
  {
    seq(|s|, i requires 0 <= i < |s| => LowerChar(s[i]))
  }

  /** Two characters are the same letter up to ASCII case. */
  predicate SameIgnoringCase(c: char, d: char)
  {
    c == d
    || ('A' <= c <= 'Z' && d as int == c as int + 32)
    || ('A' <= d <= 'Z' && c as int == d as int + 32)
  }

  lemma LowerCharEqIff(c: char, d: char)
    ensures LowerChar(c) == LowerChar(d) <==> SameIgnoringCase(c, d)
  {
  }

  /** Lower-casing both sides and comparing is a character-wise case-insensitive comparison. */
  lemma ToLowerEqIff(a: string, b: string)
    ensures ToLower(a) == ToLower(b)
        <==> |a| == |b| && forall i :: 0 <= i < |a| ==> SameIgnoringCase(a[i], b[i])
  {
    var la, lb := ToLower(a), ToLower(b);
    if la == lb {
      forall i | 0 <= i < |a| ensures SameIgnoringCase(a[i], b[i]) {
        assert la[i] == lb[i];
        LowerCharEqIff(a[i], b[i]);
      }
    }
    if |a| == |b| && forall i :: 0 <= i < |a| ==> SameIgnoringCase(a[i], b[i]) {
      forall i | 0 <= i < |a| ensures la[i] == lb[i] {
        LowerCharEqIff(a[i], b[i]);
      }
      assert la == lb;
    }
  }
}
