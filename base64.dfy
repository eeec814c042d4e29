/**
 * Base64 text as the `buffer` package writes and reads it.  `toString("base64")`
 * writes the padded encoding of section 4 of RFC 4648.  `Buffer.from(text, "base64")`
 * is lenient: it cuts the text at the first "=", drops every character outside the
 * standard and URL-safe alphabets, and decodes groups of four characters into
 * three bytes, a final group of three into two bytes and of two into one byte; a
 * single final character is ignored.
 */
module Base64 {
  import opened Values
  import opened JsText

  /** The character of one six-bit group in the standard alphabet. */
  function SextetChar(d: nat): (c: char)
    requires d < 64
    ensures IsBase64Char(c) && c != '=' && c != '-' && c != '_'
  {
    if d < 26 then ('A' as int + d) as char
    else if d < 52 then ('a' as int + d - 26) as char
    else if d < 62 then ('0' as int + d - 52) as char
    else if d == 62 then '+'
    else '/'
  }

  /** The characters the decoder keeps: both alphabets, "-" and "_" standing for "+" and "/". */
  predicate IsBase64Char(c: char) {
    ('A' <= c <= 'Z') || ('a' <= c <= 'z') || ('0' <= c <= '9') || c == '+' || c == '/' || c == '-' || c == '_'
  }

  /** The decoder's reverse lookup table; 0 for characters that cleaning removes. */
  function SextetValue(c: char): (d: nat)
    ensures d < 64
  {
    if 'A' <= c <= 'Z' then c as int - 'A' as int
    else if 'a' <= c <= 'z' then c as int - 'a' as int + 26
    else if '0' <= c <= '9' then c as int - '0' as int + 52
    else if c == '+' || c == '-' then 62
    else if c == '/' || c == '_' then 63
    else 0
  }

  function B(n: int): Byte
    requires 0 <= n < 256
  {
    n as Byte
  }

  /** The four characters of three bytes. */
  function EncodeTriple(x: Byte, y: Byte, z: Byte): (e: string)
    ensures |e| == 4
  {
    var (x, y, z) := (x as int, y as int, z as int);
    [SextetChar(x / 4), SextetChar(x % 4 * 16 + y / 16), SextetChar(y % 16 * 4 + z / 64), SextetChar(z % 64)]
  }

  /** The encoding without its padding: a last group of one or two bytes gives two or three characters. */
  function EncodeUnpadded(b: seq<Byte>): string
  {
    if |b| >= 3 then EncodeTriple(b[0], b[1], b[2]) + EncodeUnpadded(b[3..])
    else if |b| == 2 then EncodeTriple(b[0], b[1], 0)[..3]
    else if |b| == 1 then EncodeTriple(b[0], 0, 0)[..2]
    else []
  }

  /** The "=" characters that complete the last group to four characters. */
  function Padding(n: nat): string {
    if n % 3 == 1 then "==" else if n % 3 == 2 then "=" else ""
  }

  /** `Buffer.from(b).toString("base64")`. */
  function Base64Encode(b: seq<Byte>): string {
    EncodeUnpadded(b) + Padding(|b|)
  }

  /** The text before the first "=". */
  function BeforePadding(s: string): string {
    Split(s, '=')[0]
  }

  /** The characters the decoder keeps, in order. */
  function KeepAlphabet(s: string): (t: string)
    ensures |t| <= |s|
  {
    if s == [] then [] else (if IsBase64Char(s[0]) then [s[0]] else []) + KeepAlphabet(s[1..])
  }

  /** The cleaning step: cut at "=", drop foreign characters, and drop a text shorter than two characters. */
  function Clean(s: string): string {
    var t := KeepAlphabet(BeforePadding(s));
    if |t| < 2 then [] else t
  }

  function Decode4(c0: char, c1: char, c2: char, c3: char): seq<Byte> {
    var (d0, d1, d2, d3) := (SextetValue(c0), SextetValue(c1), SextetValue(c2), SextetValue(c3));
    [B((d0 * 4 + d1 / 16) % 256), B((d1 % 16 * 16 + d2 / 4) % 256), B((d2 % 4 * 64 + d3) % 256)]
  }

  /** The decoding of cleaned text, four characters at a time. */
  function DecodeClean(t: string): seq<Byte> {
    if |t| >= 4 then Decode4(t[0], t[1], t[2], t[3]) + DecodeClean(t[4..])
    else if |t| == 3 then Decode4(t[0], t[1], t[2], 'A')[..2]
    else if |t| == 2 then Decode4(t[0], t[1], 'A', 'A')[..1]
    else []
  }

  /** `Buffer.from(s, "base64")`. */
  function Base64Decode(s: string): seq<Byte> {
    DecodeClean(Clean(s))
  }

  /** The length of a decoding: three bytes per group of four kept characters, then two or one for a tail of three or two. */
  function DecodedLength(n: nat): nat {
    3 * (n / 4) + (if n % 4 == 3 then 2 else if n % 4 == 2 then 1 else 0)
  }

  // ---------------------------------------------------------------- lemmas

  lemma SextetRoundTrip(d: nat)
    requires d < 64
    ensures SextetValue(SextetChar(d)) == d && IsBase64Char(SextetChar(d)) && SextetChar(d) != '='
  {
  }

  lemma FirstOfTriple(x: int, y: int)
    requires 0 <= x < 256 && 0 <= y < 256
    ensures (x / 4 * 4 + (x % 4 * 16 + y / 16) / 16) % 256 == x
  {
    var t := y / 16;
    assert 0 <= t < 16;
    assert (x % 4 * 16 + t) / 16 == x % 4;
  }

  lemma SecondOfTriple(x: int, y: int, z: int)
    requires 0 <= x < 256 && 0 <= y < 256 && 0 <= z < 256
    ensures ((x % 4 * 16 + y / 16) % 16 * 16 + (y % 16 * 4 + z / 64) / 4) % 256 == y
  {
    var t := y / 16;
    assert 0 <= t < 16;
    assert (x % 4 * 16 + t) % 16 == t;
    var u := z / 64;
    assert 0 <= u < 4;
    assert (y % 16 * 4 + u) / 4 == y % 16;
  }

  lemma ThirdOfTriple(y: int, z: int)
    requires 0 <= y < 256 && 0 <= z < 256
    ensures ((y % 16 * 4 + z / 64) % 4 * 64 + z % 64) % 256 == z
  {
    var u := z / 64;
    assert 0 <= u < 4;
    assert (y % 16 * 4 + u) % 4 == u;
  }

  lemma TripleRoundTrip(x: Byte, y: Byte, z: Byte)
    ensures var e := EncodeTriple(x, y, z); Decode4(e[0], e[1], e[2], e[3]) == [x, y, z]
  {
    var e := EncodeTriple(x, y, z);
    TripleSextets(x, y, z);
    Decode4OfSextets(e[0], e[1], e[2], e[3], x as int, y as int, z as int);
  }

  /** The six-bit groups of the four characters of three bytes. */
  lemma TripleSextets(x: Byte, y: Byte, z: Byte)
    ensures var (xi, yi, zi) := (x as int, y as int, z as int);
      var e := EncodeTriple(x, y, z);
      SextetValue(e[0]) == xi / 4 && SextetValue(e[1]) == xi % 4 * 16 + yi / 16
      && SextetValue(e[2]) == yi % 16 * 4 + zi / 64 && SextetValue(e[3]) == zi % 64
  {
    var (xi, yi, zi) := (x as int, y as int, z as int);
    SextetRoundTrip(xi / 4);
    SextetRoundTrip(xi % 4 * 16 + yi / 16);
    SextetRoundTrip(yi % 16 * 4 + zi / 64);
    SextetRoundTrip(zi % 64);
  }

  /** Four characters carrying the six-bit groups of three bytes decode to those bytes. */
  lemma Decode4OfSextets(c0: char, c1: char, c2: char, c3: char, x: int, y: int, z: int)
    requires 0 <= x < 256 && 0 <= y < 256 && 0 <= z < 256
    requires SextetValue(c0) == x / 4 && SextetValue(c1) == x % 4 * 16 + y / 16
    requires SextetValue(c2) == y % 16 * 4 + z / 64 && SextetValue(c3) == z % 64
    ensures Decode4(c0, c1, c2, c3) == [B(x), B(y), B(z)]
  {
    FirstOfTriple(x, y);
    SecondOfTriple(x, y, z);
    ThirdOfTriple(y, z);
  }

  lemma {:induction false} UnpaddedLength(b: seq<Byte>)
    ensures |EncodeUnpadded(b)| == 4 * (|b| / 3) + (if |b| % 3 == 0 then 0 else |b| % 3 + 1)
  {
    if |b| >= 3 {
      UnpaddedLength(b[3..]);
    }
  }

  /** The unpadded encoding uses only the standard alphabet. */
  lemma {:induction false} UnpaddedAlphabet(b: seq<Byte>)
    ensures forall i :: 0 <= i < |EncodeUnpadded(b)| ==>
      var c := EncodeUnpadded(b)[i]; IsBase64Char(c) && c != '=' && c != '-' && c != '_'
  {
    if |b| >= 3 {
      UnpaddedAlphabet(b[3..]);
      var e := EncodeTriple(b[0], b[1], b[2]);
      var u := EncodeUnpadded(b);
      assert u == e + EncodeUnpadded(b[3..]);
      forall i | 0 <= i < |u|
        ensures IsBase64Char(u[i]) && u[i] != '=' && u[i] != '-' && u[i] != '_'
      {
        if i >= 4 {
          assert u[i] == EncodeUnpadded(b[3..])[i - 4];
        } else {
          assert u[i] == e[i];
        }
      }
    }
  }

  /** The encoding has four characters per started group of three bytes. */
  lemma Base64EncodeLength(b: seq<Byte>)
    ensures |Base64Encode(b)| == 4 * ((|b| + 2) / 3)
  {
    UnpaddedLength(b);
    var n := |b|;
    var q, r := n / 3, n % 3;
    assert n == 3 * q + r;
    if r == 0 {
      assert (n + 2) / 3 == q;
    } else if r == 1 {
      assert |Padding(n)| == 2;
      assert (n + 2) / 3 == q + 1;
    } else {
      assert |Padding(n)| == 1;
      assert (n + 2) / 3 == q + 1;
    }
  }

  /** The padded encoding comes in whole groups of four characters. */
  lemma Base64EncodeWholeGroups(b: seq<Byte>)
    ensures |Base64Encode(b)| % 4 == 0
  {
    Base64EncodeLength(b);
    MultipleOfFour(|Base64Encode(b)|, (|b| + 2) / 3);
  }

  lemma MultipleOfFour(n: int, k: int)
    requires n == 4 * k
    ensures n % 4 == 0
  {
  }

  /** The encoding uses only the standard alphabet, then "=" padding. */
  lemma Base64EncodeAlphabet(b: seq<Byte>)
    ensures var e := Base64Encode(b); var u := |EncodeUnpadded(b)|;
      (forall i :: 0 <= i < u ==> IsBase64Char(e[i]) && e[i] != '-' && e[i] != '_')
      && (forall i :: u <= i < |e| ==> e[i] == '=')
  {
    UnpaddedAlphabet(b);
    var e := Base64Encode(b);
    var u := EncodeUnpadded(b);
    forall i | 0 <= i < |u| ensures e[i] == u[i] { }
  }

  lemma {:induction false} KeepAlphabetOfAlphabet(s: string)
    requires forall i :: 0 <= i < |s| ==> IsBase64Char(s[i])
    ensures KeepAlphabet(s) == s
  {
    if s != [] {
      KeepAlphabetOfAlphabet(s[1..]);
      assert [s[0]] + s[1..] == s;
    }
  }

  /** The first two bytes of a group do not depend on its last character, the first byte not on its last two. */
  lemma Decode4Prefix(c0: char, c1: char, c2: char, c3: char, c2': char, c3': char)
    ensures Decode4(c0, c1, c2, c3)[..2] == Decode4(c0, c1, c2, c3')[..2]
    ensures Decode4(c0, c1, c2, c3)[..1] == Decode4(c0, c1, c2', c3')[..1]
  {
  }

  lemma DecodeCleanShort(t: string)
    requires 2 <= |t| <= 3
    ensures |t| == 3 ==> DecodeClean(t) == Decode4(t[0], t[1], t[2], 'A')[..2]
    ensures |t| == 2 ==> DecodeClean(t) == Decode4(t[0], t[1], 'A', 'A')[..1]
  {
  }

  lemma DecodeTwoTail(x: Byte, y: Byte)
    ensures DecodeClean(EncodeTriple(x, y, 0)[..3]) == [x, y]
  {
    var e := EncodeTriple(x, y, 0);
    var t := e[..3];
    TripleRoundTrip(x, y, 0);
    DecodeCleanShort(t);
    assert t[0] == e[0] && t[1] == e[1] && t[2] == e[2];
    Decode4Prefix(e[0], e[1], e[2], e[3], e[2], 'A');
  }

  lemma DecodeOneTail(x: Byte)
    ensures DecodeClean(EncodeTriple(x, 0, 0)[..2]) == [x]
  {
    var e := EncodeTriple(x, 0, 0);
    var t := e[..2];
    TripleRoundTrip(x, 0, 0);
    DecodeCleanShort(t);
    assert t[0] == e[0] && t[1] == e[1];
    Decode4Prefix(e[0], e[1], e[2], e[3], 'A', 'A');
  }

  lemma DecodeFront(e: string, rest: string)
    requires |e| == 4
    ensures DecodeClean(e + rest) == Decode4(e[0], e[1], e[2], e[3]) + DecodeClean(rest)
  {
    var t := e + rest;
    assert t[0] == e[0] && t[1] == e[1] && t[2] == e[2] && t[3] == e[3];
    assert t[4..] == rest;
  }

  /** A whole encoded group in front decodes to its three bytes. */
  lemma DecodeGroup(x: Byte, y: Byte, z: Byte, rest: string)
    ensures DecodeClean(EncodeTriple(x, y, z) + rest) == [x, y, z] + DecodeClean(rest)
  {
    DecodeFront(EncodeTriple(x, y, z), rest);
    TripleRoundTrip(x, y, z);
  }

  lemma UnpaddedTwo(b: seq<Byte>)
    requires |b| == 2
    ensures DecodeClean(EncodeUnpadded(b)) == b
  {
    var t := EncodeTriple(b[0], b[1], 0)[..3];
    assert EncodeUnpadded(b) == t;
    DecodeTwoTail(b[0], b[1]);
    assert b == [b[0], b[1]];
  }

  lemma UnpaddedOne(b: seq<Byte>)
    requires |b| == 1
    ensures DecodeClean(EncodeUnpadded(b)) == b
  {
    var t := EncodeTriple(b[0], 0, 0)[..2];
    assert EncodeUnpadded(b) == t;
    DecodeOneTail(b[0]);
    assert b == [b[0]];
  }

  /** One whole group in front, given the rest decodes back. */
  lemma UnpaddedStep(b: seq<Byte>)
    requires |b| >= 3
    requires DecodeClean(EncodeUnpadded(b[3..])) == b[3..]
    ensures DecodeClean(EncodeUnpadded(b)) == b
  {
    var rest := EncodeUnpadded(b[3..]);
    UnpaddedFront(b);
    DecodeGroup(b[0], b[1], b[2], rest);
    SplitThree(b);
  }

  lemma UnpaddedFront(b: seq<Byte>)
    requires |b| >= 3
    ensures EncodeUnpadded(b) == EncodeTriple(b[0], b[1], b[2]) + EncodeUnpadded(b[3..])
  {
  }

  lemma SplitThree<T>(b: seq<T>)
    requires |b| >= 3
    ensures b == [b[0], b[1], b[2]] + b[3..]
  {
  }

  lemma {:induction false} DecodeUnpadded(b: seq<Byte>)
    ensures DecodeClean(EncodeUnpadded(b)) == b
  {
    if |b| >= 3 {
      DecodeUnpadded(b[3..]);
      UnpaddedStep(b);
    } else if |b| == 2 {
      UnpaddedTwo(b);
    } else if |b| == 1 {
      UnpaddedOne(b);
    }
  }

  lemma {:induction false} BeforePaddingOf(u: string, pad: string)
    requires '=' !in u
    requires pad == [] || pad[0] == '='
    ensures BeforePadding(u + pad) == u
  {
    if pad == [] {
      SplitWithoutSeparator(u, '=');
      assert u + pad == u;
    } else {
      SplitAtFirst(u, '=', pad[1..]);
      assert u + pad == u + ['='] + pad[1..];
    }
  }

  /** Decoding inverts encoding: `Buffer.from(Buffer.from(b).toString("base64"), "base64")` is `b`. */
  lemma Base64RoundTrip(b: seq<Byte>)
    ensures Base64Decode(Base64Encode(b)) == b
  {
    var u := EncodeUnpadded(b);
    UnpaddedAlphabet(b);
    UnpaddedLength(b);
    assert '=' !in u by {
      forall i | 0 <= i < |u| ensures u[i] != '=' { }
    }
    BeforePaddingOf(u, Padding(|b|));
    KeepAlphabetOfAlphabet(u);
    DecodeUnpadded(b);
    if |u| < 2 {
      assert b == [];
    }
  }

  /** The encoding is injective. */
  lemma Base64EncodeInjective(a: seq<Byte>, b: seq<Byte>)
    requires Base64Encode(a) == Base64Encode(b)
    ensures a == b
  {
    Base64RoundTrip(a);
    Base64RoundTrip(b);
  }

  lemma {:induction false} DecodeCleanLength(t: string)
    ensures |DecodeClean(t)| == DecodedLength(|t|)
  {
    if |t| >= 4 {
      DecodeCleanLength(t[4..]);
    }
  }

  /** How many bytes a text decodes to depends only on how many characters survive cleaning. */
  lemma Base64DecodeLength(s: string)
    ensures |Base64Decode(s)| == DecodedLength(|Clean(s)|)
  {
    DecodeCleanLength(Clean(s));
  }

  /** Everything from the first "=" on is ignored. */
  lemma {:induction false} Base64DecodeIgnoresAfterPadding(s: string, rest: string)
    requires '=' !in s
    ensures Base64Decode(s + "=" + rest) == Base64Decode(s)
  {
    SplitAtFirst(s, '=', rest);
    SplitWithoutSeparator(s, '=');
  }

  lemma {:induction false} KeepAlphabetAppend(a: string, b: string)
    ensures KeepAlphabet(a + b) == KeepAlphabet(a) + KeepAlphabet(b)
  {
    if a == [] {
      assert a + b == b;
    } else {
      var ab := a + b;
      assert ab[0] == a[0];
      assert ab[1..] == a[1..] + b;
      KeepAlphabetAppend(a[1..], b);
      var h := if IsBase64Char(a[0]) then [a[0]] else [];
      assert KeepAlphabet(ab) == h + KeepAlphabet(ab[1..]);
      assert KeepAlphabet(a) == h + KeepAlphabet(a[1..]);
    }
  }

  /** Characters outside both alphabets, such as white space and line breaks, are skipped. */
  lemma Base64DecodeSkipsForeign(a: string, c: char, b: string)
    requires !IsBase64Char(c) && c != '=' && '=' !in a
    ensures Base64Decode(a + [c] + b) == Base64Decode(a + b)
  {
    SplitAtFirstOrNone(a, [c] + b);
    SplitAtFirstOrNone(a, b);
    assert a + [c] + b == a + ([c] + b);
    var head1 := BeforePadding([c] + b);
    var head2 := BeforePadding(b);
    assert head1 == [c] + head2 by {
      if b == [] {
        SplitWithoutSeparator([c], '=');
        SplitWithoutSeparator(b, '=');
        assert [c] + b == [c];
      } else {
        assert ([c] + b)[1..] == b;
      }
    }
    KeepAlphabetAppend(a, head1);
    KeepAlphabetAppend(a, head2);
    assert KeepAlphabet(head1) == KeepAlphabet(head2) by {
      assert head1[1..] == head2;
    }
  }

  /** Cutting at "=" after a text that holds none. */
  lemma SplitAtFirstOrNone(a: string, b: string)
    requires '=' !in a
    ensures BeforePadding(a + b) == a + BeforePadding(b)
  {
    SplitPrefixWithoutSeparator(a, b, '=');
  }

  lemma {:induction false} SplitPrefixWithoutSeparator(a: string, b: string, sep: char)
    requires sep !in a
    ensures Split(a + b, sep)[0] == a + Split(b, sep)[0]
  {
    if a == [] {
      assert a + b == b;
    } else {
      assert (a + b)[0] == a[0];
      assert (a + b)[1..] == a[1..] + b;
      SplitPrefixWithoutSeparator(a[1..], b, sep);
      assert [a[0]] + (a[1..] + Split(b, sep)[0]) == a + Split(b, sep)[0];
    }
  }

  /** "-" and "_" decode as "+" and "/": URL-safe text decodes like the standard alphabet. */
  lemma UrlSafeAlphabet()
    ensures SextetValue('-') == SextetValue('+') && SextetValue('_') == SextetValue('/')
  {
  }
}
