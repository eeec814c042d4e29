/**
 * The JavaScript string and number built-ins the client relies on:
 * `startsWith`, `replace` with a string pattern, `split` on one character,
 * `parseInt`, number-to-string conversion, `+ 1` and ASCII lower-casing.
 * `parseInt` follows the ECMAScript definition (section 19.2.5 of ECMA-262,
 * "parseInt ( string, radix )") on integers.
 */
module JsText {
  import opened Values

  predicate StartsWith(s: string, prefix: string) {
    |prefix| <= |s| && s[..|prefix|] == prefix
  }

  /** The first index at or after `k` where `pat` occurs in `s`, or -1. */
  function IndexOfFrom(s: string, pat: string, k: nat): (i: int)
    ensures i == -1 || (k <= i && i + |pat| <= |s| && s[i..i + |pat|] == pat)
    decreases |s| - k
  {
    if k + |pat| > |s| then -1
    else if s[k..k + |pat|] == pat then k
    else IndexOfFrom(s, pat, k + 1)
  }

  /** `s.replace(pat, rep)` with a string pattern: only the first occurrence is replaced. */
  function ReplaceFirst(s: string, pat: string, rep: string): string {
    var i := IndexOfFrom(s, pat, 0);
    if i < 0 then s else s[..i] + rep + s[i + |pat|..]
  }

  /** `s.split(sep)` for a one-character separator; "" splits into [""]. */
  function Split(s: string, sep: char): (parts: seq<string>)
    ensures |parts| >= 1
  {
    if s == [] then [""]
    else
      var rest := Split(s[1..], sep);
      if s[0] == sep then [""] + rest else [[s[0]] + rest[0]] + rest[1..]
  }

  /** `parts.join(sep)`. */
  function Join(parts: seq<string>, sep: char): string
    requires |parts| >= 1
  {
    if |parts| == 1 then parts[0] else parts[0] + [sep] + Join(parts[1..], sep)
  }

  function Count(s: string, c: char): nat {
    if s == [] then 0 else (if s[0] == c then 1 else 0) + Count(s[1..], c)
  }

  /** WhiteSpace and LineTerminator code points, which parseInt skips at the start. */
  predicate IsJsWhitespace(c: char) {
    c == '\t' || c == '\n' || c == '\U{000B}' || c == '\U{000C}' || c == '\r' || c == ' '
    || c == '\U{00A0}' || c == '\U{1680}' || ('\U{2000}' <= c <= '\U{200A}')
    || c == '\U{2028}' || c == '\U{2029}' || c == '\U{202F}' || c == '\U{205F}'
    || c == '\U{3000}' || c == '\U{FEFF}'
  }

  function TrimStart(s: string): string {
    if s != [] && IsJsWhitespace(s[0]) then TrimStart(s[1..]) else s
  }

  /** The value of `c` as a digit of radix up to 36; 36 for a character that is no digit. */
  function DigitValue(c: char): nat {
    if '0' <= c <= '9' then c as int - '0' as int
    else if 'a' <= c <= 'z' then c as int - 'a' as int + 10
    else if 'A' <= c <= 'Z' then c as int - 'A' as int + 10
    else 36
  }

  /** The longest prefix of `s` made of radix-`radix` digits. */
  function LeadingDigits(s: string, radix: nat): string {
    if s != [] && DigitValue(s[0]) < radix then [s[0]] + LeadingDigits(s[1..], radix) else []
  }

  /** The number the digit string `z` denotes in radix `radix`. */
  function DigitsValue(z: string, radix: nat): nat {
    if z == [] then 0 else DigitsValue(z[..|z| - 1], radix) * radix + DigitValue(z[|z| - 1])
  }

  /**
   * `parseInt(input, radix)`; `radix == 0` stands for an omitted radix.
   * Leading white space is skipped, one sign is read, a "0x"/"0X" prefix switches
   * to radix 16 when the radix is omitted or 16, and the longest run of digits
   * that follows is read; no digit at all gives NaN.
   */
  function ParseInt(input: string, radix: int): JsNumber {
    var s := TrimStart(input);
    var sign := if s != [] && s[0] == '-' then -1 else 1;
    var s1 := if s != [] && (s[0] == '-' || s[0] == '+') then s[1..] else s;
    if radix != 0 && (radix < 2 || radix > 36) then NaN
    else
      var stripPrefix := radix == 0 || radix == 16;
      var hasPrefix := stripPrefix && |s1| >= 2 && s1[0] == '0' && (s1[1] == 'x' || s1[1] == 'X');
      var s2 := if hasPrefix then s1[2..] else s1;
      var r: nat := if hasPrefix then 16 else if radix == 0 then 10 else radix;
      var z := LeadingDigits(s2, r);
      if z == [] then NaN else Int(sign * DigitsValue(z, r))
  }

  function DecimalDigit(d: nat): char
    requires d < 10
  {
    ('0' as int + d) as char
  }

  /** The decimal numeral of `n`, without leading zeros. */
  function DecimalString(n: nat): string {
    if n < 10 then [DecimalDigit(n)] else DecimalString(n / 10) + [DecimalDigit(n % 10)]
  }

  /** `String(x)` for the numbers the client formats. */
  function NumberToString(x: JsNumber): string {
    match x
    case NaN => "NaN"
    case Int(i) => if i < 0 then "-" + DecimalString(-i) else DecimalString(i)
  }

  /** `x + 1`. */
  function AddOne(x: JsNumber): JsNumber {
    match x
    case NaN => NaN
    case Int(i) => Int(i + 1)
  }

  /** `toLocaleLowerCase` on ASCII letters. */
  function LowerChar(c: char): char {
    if 'A' <= c <= 'Z' then (c as int + 32) as char else c
  }

  function Lower(s: string): (r: string)
    ensures |r| == |s|
  {
    if s == [] then [] else [LowerChar(s[0])] + Lower(s[1..])
  }

  predicate IsLower(s: string) {
    Lower(s) == s
  }

  // ---------------------------------------------------------------- lemmas

  lemma {:induction false} LowerIsIdempotent(s: string)
    ensures IsLower(Lower(s))
  {
    if s != [] {
      LowerIsIdempotent(s[1..]);
      assert Lower(s)[1..] == Lower(s[1..]);
    }
  }

  lemma {:induction false} ReplacePrefix(s: string, pat: string)
    requires StartsWith(s, pat)
    ensures ReplaceFirst(s, pat, "") == s[|pat|..]
  {
    assert s[0..|pat|] == pat;
  }

  lemma {:induction false} SplitWithoutSeparator(s: string, sep: char)
    requires sep !in s
    ensures Split(s, sep) == [s]
  {
    if s != [] {
      SplitWithoutSeparator(s[1..], sep);
      assert [s[0]] + s[1..] == s;
    }
  }

  /** Splitting at the first separator. */
  lemma {:induction false} SplitAtFirst(x: string, sep: char, y: string)
    requires sep !in x
    ensures Split(x + [sep] + y, sep) == [x] + Split(y, sep)
  {
    if x == [] {
      assert (x + [sep] + y)[1..] == y;
    } else {
      assert (x + [sep] + y)[1..] == x[1..] + [sep] + y;
      SplitAtFirst(x[1..], sep, y);
      assert [x[0]] + x[1..] == x;
    }
  }

  /** One more part than separators. */
  lemma {:induction false} SplitCount(s: string, sep: char)
    ensures |Split(s, sep)| == Count(s, sep) + 1
  {
    if s != [] {
      SplitCount(s[1..], sep);
    }
  }

  /** No part holds the separator, and joining the parts gives the string back. */
  lemma {:induction false} SplitJoin(s: string, sep: char)
    ensures forall i :: 0 <= i < |Split(s, sep)| ==> sep !in Split(s, sep)[i]
    ensures Join(Split(s, sep), sep) == s
  {
    if s != [] {
      SplitJoin(s[1..], sep);
      var rest := Split(s[1..], sep);
      if s[0] == sep {
        assert Split(s, sep)[1..] == rest;
      } else {
        var parts := Split(s, sep);
        assert parts[1..] == rest[1..];
        if |rest| == 1 {
          assert Join(parts, sep) == [s[0]] + rest[0];
        } else {
          assert Join(rest, sep) == rest[0] + [sep] + Join(rest[1..], sep);
        }
        assert [s[0]] + s[1..] == s;
      }
    }
  }

  lemma {:induction false} DecimalStringShape(n: nat)
    ensures |DecimalString(n)| >= 1
    ensures forall i :: 0 <= i < |DecimalString(n)| ==> '0' <= DecimalString(n)[i] <= '9'
    ensures n >= 10 ==> DecimalString(n)[0] != '0'
    ensures DecimalString(n)[0] != '0' || n == 0
  {
    if n >= 10 {
      DecimalStringShape(n / 10);
    }
  }

  lemma {:induction false} LeadingDigitsOfDigits(z: string, radix: nat)
    requires forall i :: 0 <= i < |z| ==> DigitValue(z[i]) < radix
    ensures LeadingDigits(z, radix) == z
  {
    if z != [] {
      LeadingDigitsOfDigits(z[1..], radix);
      assert [z[0]] + z[1..] == z;
    }
  }

  lemma {:induction false} DecimalValue(n: nat)
    ensures DigitsValue(DecimalString(n), 10) == n
  {
    if n >= 10 {
      DecimalValue(n / 10);
      var z := DecimalString(n);
      assert z[..|z| - 1] == DecimalString(n / 10);
    }
  }

  /** The digit run stops at the first character that is no digit of the radix. */
  lemma {:induction false} LeadingDigitsStop(z: string, t: string, radix: nat)
    requires forall i :: 0 <= i < |z| ==> DigitValue(z[i]) < radix
    requires t == [] || DigitValue(t[0]) >= radix
    ensures LeadingDigits(z + t, radix) == z
  {
    if z == [] {
      assert z + t == t;
    } else {
      assert (z + t)[1..] == z[1..] + t;
      LeadingDigitsStop(z[1..], t, radix);
      assert [z[0]] + z[1..] == z;
    }
  }

  /** Text that ends a decimal numeral: no digit, and no "x" that would turn a leading "0" into a hexadecimal prefix. */
  predicate EndsNumeral(t: string) {
    t == [] || (DigitValue(t[0]) >= 10 && t[0] != 'x' && t[0] != 'X')
  }

  /**
   * Decimal numerals read back, `parseInt(String(n) + t) == n`, whatever text `t`
   * follows the numeral as long as it ends the numeral.
   */
  lemma {:induction false} ParseDecimalPrefix(n: nat, t: string)
    requires EndsNumeral(t)
    ensures ParseInt(DecimalString(n) + t, 0) == Int(n)
  {
    var z := DecimalString(n);
    DecimalStringShape(n);
    assert (z + t)[0] == z[0];
    assert !IsJsWhitespace(z[0]);
    assert TrimStart(z + t) == z + t;
    if |z| >= 2 {
      assert (z + t)[1] == z[1];
    } else if t != [] {
      assert (z + t)[1] == t[0];
    }
    forall i | 0 <= i < |z| ensures DigitValue(z[i]) < 10 { }
    LeadingDigitsStop(z, t, 10);
    DecimalValue(n);
  }

  /** Decimal numerals read back: `parseInt(String(n)) == n`. */
  lemma ParseDecimal(n: nat)
    ensures ParseInt(DecimalString(n), 0) == Int(n)
  {
    ParseDecimalPrefix(n, []);
    assert DecimalString(n) + [] == DecimalString(n);
  }
}
