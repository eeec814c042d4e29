/**
 * Hexadecimal text as the `buffer` package writes and reads it: `toString("hex")`
 * writes two lower-case digits per byte; `Buffer.from(text, "hex")` reads the text
 * pair by pair with `parseInt(pair, 16)`, stops at the first pair that gives NaN,
 * ignores an odd last character, and stores each number modulo 256.
 */
module Hex {
  import opened Values
  import opened JsText

  function HexDigit(d: nat): char
    requires d < 16
  {
    if d < 10 then ('0' as int + d) as char else ('a' as int + d - 10) as char
  }

  /** The two lower-case hex digits of one byte. */
  function ByteHex(x: Byte): string {
    [HexDigit(x as int / 16), HexDigit(x as int % 16)]
  }

  /** `Buffer.from(bytes).toString("hex")`. */
  function HexEncode(b: seq<Byte>): (h: string)
    ensures |h| == 2 * |b|
  {
    if b == [] then "" else ByteHex(b[0]) + HexEncode(b[1..])
  }

  /** Storing a number into a `Uint8Array` element keeps it modulo 256. */
  function ToUint8(n: int): Byte {
    (n % 256) as Byte
  }

  /** One pair of characters read with `parseInt(pair, 16)` and stored into a byte; None for NaN. */
  function PairByte(pair: string): Option<Byte> {
    match ParseInt(pair, 16)
    case NaN => None
    case Int(v) => Some(ToUint8(v))
  }

  /** `Buffer.from(s, "hex")`. */
  function HexDecode(s: string): (b: seq<Byte>)
    ensures |b| <= |s| / 2
  {
    if |s| < 2 then []
    else
      match PairByte(s[..2])
      case None => []
      case Some(x) => [x] + HexDecode(s[2..])
  }

  predicate IsHexDigit(c: char) {
    DigitValue(c) < 16
  }

  /** Text that is hexadecimal throughout: digits of either case, two per byte. */
  predicate IsHexText(s: string) {
    |s| % 2 == 0 && forall i :: 0 <= i < |s| ==> IsHexDigit(s[i])
  }

  /** The byte two hex digits in front of a text denote. */
  function PairValue(s: string): Byte
    requires |s| >= 2 && IsHexDigit(s[0]) && IsHexDigit(s[1])
  {
    (DigitValue(s[0]) * 16 + DigitValue(s[1])) as Byte
  }

  // ---------------------------------------------------------------- lemmas

  lemma HexDigitValue(d: nat)
    requires d < 16
    ensures DigitValue(HexDigit(d)) == d && IsHexDigit(HexDigit(d))
    ensures HexDigit(d) != 'x' && HexDigit(d) != 'X' && !IsJsWhitespace(HexDigit(d))
    ensures HexDigit(d) != '-' && HexDigit(d) != '+'
  {
  }

  /** A hex digit of either case, written back, is its lower-case form. */
  lemma HexDigitOfValue(c: char)
    requires IsHexDigit(c)
    ensures HexDigit(DigitValue(c)) == LowerChar(c)
  {
  }

  /** Two hex digits in front of any text parse as the number they denote. */
  lemma {:induction false} ParsePair(s: string)
    requires |s| >= 2 && IsHexDigit(s[0]) && IsHexDigit(s[1])
    ensures ParseInt(s[..2], 16) == Int(DigitValue(s[0]) * 16 + DigitValue(s[1]))
  {
    var p := s[..2];
    assert p[0] == s[0] && p[1] == s[1];
    assert TrimStart(p) == p;
    LeadingDigitsOfDigits(p, 16);
    assert DigitsValue(p[..1], 16) == DigitValue(p[0]) by {
      assert p[..1][..0] == [];
    }
    assert p[..|p| - 1] == p[..1];
  }

  /** Each byte's two digits read back as that byte. */
  lemma {:induction false} ByteHexParses(x: Byte)
    ensures ParseInt(ByteHex(x), 16) == Int(x as int)
  {
    var h := ByteHex(x);
    HexDigitValue(x as int / 16);
    HexDigitValue(x as int % 16);
    ParsePair(h);
    assert h[..2] == h;
  }

  lemma ByteHexPair(x: Byte)
    ensures PairByte(ByteHex(x)) == Some(x)
  {
    ByteHexParses(x);
  }

  /** Decoding inverts encoding: `Buffer.from(Buffer.from(b).toString("hex"), "hex")` is `b`. */
  lemma {:induction false} HexRoundTrip(b: seq<Byte>)
    ensures HexDecode(HexEncode(b)) == b
  {
    if b != [] {
      var h := HexEncode(b);
      assert h[..2] == ByteHex(b[0]);
      assert h[2..] == HexEncode(b[1..]);
      ByteHexParses(b[0]);
      HexRoundTrip(b[1..]);
    }
  }

  /** The encoding is injective: distinct byte strings give distinct texts. */
  lemma HexEncodeInjective(a: seq<Byte>, b: seq<Byte>)
    requires HexEncode(a) == HexEncode(b)
    ensures a == b
  {
    HexRoundTrip(a);
    HexRoundTrip(b);
  }

  /** Encoded text is hexadecimal throughout and lower-case. */
  lemma {:induction false} HexEncodeIsHexText(b: seq<Byte>)
    ensures IsHexText(HexEncode(b)) && IsLower(HexEncode(b))
  {
    if b != [] {
      HexEncodeIsHexText(b[1..]);
      var x := b[0];
      HexDigitValue(x as int / 16);
      HexDigitValue(x as int % 16);
      var h := HexEncode(b);
      assert h == ByteHex(x) + HexEncode(b[1..]);
      assert Lower(h)[..2] == Lower(ByteHex(x)) by {
        LowerAppend(ByteHex(x), HexEncode(b[1..]));
      }
      LowerAppend(ByteHex(x), HexEncode(b[1..]));
      assert Lower(ByteHex(x)) == [LowerChar(ByteHex(x)[0])] + Lower(ByteHex(x)[1..]);
      assert ByteHex(x)[1..][1..] == [];
    }
  }

  lemma {:induction false} LowerAppend(a: string, b: string)
    ensures Lower(a + b) == Lower(a) + Lower(b)
  {
    if a == [] {
      assert a + b == b;
    } else {
      assert (a + b)[0] == a[0];
      assert (a + b)[1..] == a[1..] + b;
      LowerAppend(a[1..], b);
    }
  }

  lemma HexPairByte(s: string)
    requires |s| >= 2 && IsHexDigit(s[0]) && IsHexDigit(s[1])
    ensures PairByte(s[..2]) == Some(PairValue(s))
  {
    ParsePair(s);
  }

  /**
   * Conversely, hexadecimal text decodes to the bytes whose encoding is the text
   * in lower case: upper-case digits are accepted and nothing is lost.
   */
  lemma {:induction false} HexTextRoundTrip(s: string)
    requires IsHexText(s)
    ensures |HexDecode(s)| == |s| / 2
    ensures HexEncode(HexDecode(s)) == Lower(s)
  {
    if |s| >= 2 {
      HexTextTail(s);
      HexTextRoundTrip(s[2..]);
      HexTextStep(s);
    }
  }

  lemma HexTextTail(s: string)
    requires IsHexText(s) && |s| >= 2
    ensures IsHexText(s[2..])
  {
    forall i | 0 <= i < |s[2..]| ensures IsHexDigit(s[2..][i]) {
      assert s[2..][i] == s[i + 2];
    }
  }

  /** One pair in front, given the rest of the text round-trips. */
  lemma HexTextStep(s: string)
    requires IsHexText(s) && |s| >= 2
    requires |HexDecode(s[2..])| == |s[2..]| / 2 && HexEncode(HexDecode(s[2..])) == Lower(s[2..])
    ensures |HexDecode(s)| == |s| / 2
    ensures HexEncode(HexDecode(s)) == Lower(s)
  {
    var x := PairValue(s);
    HexPairByte(s);
    HexDecodeStep(s, x);
    HexPairLower(s);
    HexEncodeCons(x, HexDecode(s[2..]));
  }

  lemma HexEncodeCons(x: Byte, b: seq<Byte>)
    ensures HexEncode([x] + b) == ByteHex(x) + HexEncode(b)
  {
    assert ([x] + b)[1..] == b;
  }

  /** The two digits of the first pair's byte are the pair in lower case. */
  lemma HexPairLower(s: string)
    requires |s| >= 2 && IsHexDigit(s[0]) && IsHexDigit(s[1])
    ensures Lower(s) == ByteHex(PairValue(s)) + Lower(s[2..])
  {
    PairValueDigits(s);
    HexDigitOfValue(s[0]);
    HexDigitOfValue(s[1]);
    LowerFrontTwo(s);
  }

  /** The byte of a pair is written back as the pair's digit values. */
  lemma PairValueDigits(s: string)
    requires |s| >= 2 && IsHexDigit(s[0]) && IsHexDigit(s[1])
    ensures ByteHex(PairValue(s)) == [HexDigit(DigitValue(s[0])), HexDigit(DigitValue(s[1]))]
  {
    var hi, lo := DigitValue(s[0]), DigitValue(s[1]);
    PairDigits(hi, lo);
    assert PairValue(s) as int == hi * 16 + lo;
  }

  lemma PairDigits(hi: nat, lo: nat)
    requires hi < 16 && lo < 16
    ensures (hi * 16 + lo) / 16 == hi && (hi * 16 + lo) % 16 == lo
  {
  }

  lemma LowerFrontTwo(s: string)
    requires |s| >= 2
    ensures Lower(s) == [LowerChar(s[0]), LowerChar(s[1])] + Lower(s[2..])
  {
    assert s[1..][0] == s[1] && s[1..][1..] == s[2..];
  }

  lemma HexDecodeStep(t: string, x: Byte)
    requires |t| >= 2 && PairByte(t[..2]) == Some(x)
    ensures HexDecode(t) == [x] + HexDecode(t[2..])
  {
  }

  lemma EncodedFront(b: seq<Byte>, rest: string)
    requires b != []
    ensures |HexEncode(b) + rest| >= 2
    ensures (HexEncode(b) + rest)[..2] == ByteHex(b[0])
    ensures (HexEncode(b) + rest)[2..] == HexEncode(b[1..]) + rest
  {
    assert HexEncode(b) + rest == ByteHex(b[0]) + (HexEncode(b[1..]) + rest);
  }

  /** An odd last character is ignored. */
  lemma {:induction false} HexDecodeIgnoresOddTail(b: seq<Byte>, c: char)
    ensures HexDecode(HexEncode(b) + [c]) == b
  {
    if b == [] {
      assert HexEncode(b) + [c] == [c];
    } else {
      var t := HexEncode(b) + [c];
      EncodedFront(b, [c]);
      ByteHexPair(b[0]);
      HexDecodeStep(t, b[0]);
      HexDecodeIgnoresOddTail(b[1..], c);
      assert b == [b[0]] + b[1..];
    }
  }

  /** Decoding stops at the first pair that is no number and drops what follows. */
  lemma {:induction false} HexDecodeStopsAtInvalidPair(b: seq<Byte>, rest: string)
    requires |rest| >= 2 && PairByte(rest[..2]).None?
    ensures HexDecode(HexEncode(b) + rest) == b
  {
    if b == [] {
      assert HexEncode(b) + rest == rest;
    } else {
      var t := HexEncode(b) + rest;
      EncodedFront(b, rest);
      ByteHexPair(b[0]);
      HexDecodeStep(t, b[0]);
      HexDecodeStopsAtInvalidPair(b[1..], rest);
      assert b == [b[0]] + b[1..];
    }
  }
}
