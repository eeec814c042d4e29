/**
 * Argument validation of the conode client: the constructor-name type test,
 * public-key validation and conode address validation.
 */
module Helper {
  import opened Values
  import opened JsText

  const PUBLIC_KEY_BYTE_LENGTH := 32
  const BASE_URL_TCP := "tcp://"
  const URL_PORT_SPLITTER := ':'
  const PORT_MIN := 0
  /** One above the largest accepted port: the websocket listens on the port plus one. */
  const PORT_MAX := 65535

  /**
   * The curve library, left uninterpreted.  `unmarshal` decodes a marshalled point,
   * returns undefined, or throws.  `aggregate` adds up points and marshals the sum.
   */
  datatype Crypto<!P> = Crypto(unmarshal: seq<Byte> -> Unmarshalled<P>, aggregate: seq<P> -> seq<Byte>)

  /** The three outcomes of `Crypto.unmarshal(bytes)`. */
  datatype Unmarshalled<P> = Point(point: P) | NotAPoint | UnmarshalThrows

  /**
   * `isOfType(object, type)`: throws unless `object` is a non-undefined value of
   * `typeof` "object" and `type` a string; reading `constructor` of null throws too.
   * Otherwise compares the constructor's name with `type`.
   */
  function IsOfType(obj: Value, typeName: Value): (r: Result<bool>)
    ensures r.Err? <==> obj.Undefined? || obj.Null? || TypeOf(obj) != "object" || !typeName.Str?
    ensures r.Ok? ==> (r.value <==> ConstructorName(obj) == typeName.s)
  {
    if !(!obj.Undefined? && TypeOf(obj) == "object") then Err(BadArgument("object"))
    else if !typeName.Str? then Err(BadArgument("type"))
    else if obj.Null? then Err(EngineTypeError)
    else Ok(ConstructorName(obj) == typeName.s)
  }

  /** The test every builder performs: `isOfType(v, name)` returns true. */
  predicate HasType(v: Value, name: string) {
    IsOfType(v, Str(name)) == Ok(true)
  }

  /**
   * The dynamic test is a tag test: a value passes the check for a record's type
   * name exactly when it is a record built with that constructor.
   */
  lemma TypeCheckIsTag(v: Value, m: Message)
    ensures HasType(v, MessageTypeName(m)) <==> v.Msg? && MessageTypeName(v.msg) == MessageTypeName(m)
  {
  }

  /**
   * `isValidPublicKey(publicKey)`: throws for a non-Uint8Array; true exactly for a
   * 32-byte key that the curve library unmarshals to a point; `undefined` and a
   * caught throw both give false.
   */
  function IsValidPublicKey<P>(publicKey: Value, crypto: Crypto<P>): (r: Result<bool>)
    ensures r.Err? <==> !publicKey.Bytes?
    ensures r == Ok(true) <==>
      publicKey.Bytes? && |publicKey.data| == PUBLIC_KEY_BYTE_LENGTH && crypto.unmarshal(publicKey.data).Point?
  {
    if !publicKey.Bytes? then Err(BadArgument("publicKey"))
    else if |publicKey.data| == PUBLIC_KEY_BYTE_LENGTH then Ok(crypto.unmarshal(publicKey.data).Point?)
    else Ok(false)
  }

  predicate IsDigit(c: char) {
    '0' <= c <= '9'
  }

  /** `[0-9][0-9]?` */
  predicate OneOrTwoDigits(p: string) {
    (|p| == 1 && IsDigit(p[0])) || (|p| == 2 && IsDigit(p[0]) && IsDigit(p[1]))
  }

  /** One octet of the address pattern, `25[0-5]|2[0-4][0-9]|[01]?[0-9][0-9]?`, matched in full. */
  predicate OctetPattern(p: string) {
    (|p| == 3 && p[0] == '2' && p[1] == '5' && '0' <= p[2] <= '5')
    || (|p| == 3 && p[0] == '2' && '0' <= p[1] <= '4' && IsDigit(p[2]))
    || OneOrTwoDigits(p)
    || (|p| >= 2 && (p[0] == '0' || p[0] == '1') && OneOrTwoDigits(p[1..]))
  }

  /**
   * The anchored pattern `^O\.O\.O\.O$` with O the octet pattern.  No O matches a
   * dot, so a host matches exactly when splitting it at dots gives four parts
   * that each match O.
   */
  predicate IpPattern(host: string) {
    var parts := Split(host, '.');
    |parts| == 4 && OctetPattern(parts[0]) && OctetPattern(parts[1])
    && OctetPattern(parts[2]) && OctetPattern(parts[3])
  }

  /** `PORT_MIN <= port && port < PORT_MAX`; every comparison with NaN is false. */
  predicate PortInRange(port: JsNumber) {
    port.Int? && PORT_MIN <= port.n < PORT_MAX
  }

  /** The address test on a string argument. */
  predicate ValidAddressText(s: string) {
    StartsWith(s, BASE_URL_TCP) &&
    var parts := Split(ReplaceFirst(s, BASE_URL_TCP, ""), URL_PORT_SPLITTER);
    |parts| == 2 && IpPattern(parts[0]) && PortInRange(ParseInt(parts[1], 0))
  }

  /** `isValidAddress(address)`: throws for a non-string. */
  function IsValidAddress(address: Value): (r: Result<bool>)
    ensures r.Err? <==> !address.Str?
    ensures r.Ok? ==> r.value == ValidAddressText(address.s)
  {
    if !address.Str? then Err(BadArgument("address")) else Ok(ValidAddressText(address.s))
  }

  // ---------------------------------------------------------------- lemmas

  predicate AllDigits(p: string) {
    forall i :: 0 <= i < |p| ==> IsDigit(p[i])
  }

  /**
   * An independent reading of the octet pattern: one to three decimal digits,
   * leading zeros allowed, denoting at most 255.
   */
  lemma OctetPatternIsByteNumeral(p: string)
    ensures OctetPattern(p) <==> 1 <= |p| <= 3 && AllDigits(p) && DigitsValue(p, 10) <= 255
  {
    if 1 <= |p| <= 3 {
      assert DigitsValue(p[..1], 10) == DigitValue(p[0]) by {
        assert p[..1][..0] == [];
      }
    }
    if |p| == 3 {
      assert p[..2][..1] == p[..1];
      assert DigitsValue(p, 10) == (DigitValue(p[0]) * 10 + DigitValue(p[1])) * 10 + DigitValue(p[2]);
      if AllDigits(p) {
        assert IsDigit(p[0]) && IsDigit(p[1]) && IsDigit(p[2]);
      }
    } else if |p| == 2 {
      assert DigitsValue(p, 10) == DigitValue(p[0]) * 10 + DigitValue(p[1]);
      if AllDigits(p) {
        assert IsDigit(p[0]) && IsDigit(p[1]);
      }
    } else if |p| == 1 {
      if AllDigits(p) {
        assert IsDigit(p[0]);
      }
    }
  }

  /** An address is the prefix, a host and a port text around a single colon. */
  lemma {:induction false} AddressFromParts(host: string, port: string)
    requires URL_PORT_SPLITTER !in host && URL_PORT_SPLITTER !in port
    ensures ValidAddressText(BASE_URL_TCP + host + [URL_PORT_SPLITTER] + port)
            == (IpPattern(host) && PortInRange(ParseInt(port, 0)))
  {
    var rest := host + [URL_PORT_SPLITTER] + port;
    AfterTcpPrefix(rest);
    SplitHostPort(host, port);
    assert BASE_URL_TCP + host + [URL_PORT_SPLITTER] + port == BASE_URL_TCP + rest;
  }

  lemma AfterTcpPrefix(rest: string)
    ensures StartsWith(BASE_URL_TCP + rest, BASE_URL_TCP)
    ensures ReplaceFirst(BASE_URL_TCP + rest, BASE_URL_TCP, "") == rest
  {
    var s := BASE_URL_TCP + rest;
    assert s[..|BASE_URL_TCP|] == BASE_URL_TCP;
    ReplacePrefix(s, BASE_URL_TCP);
    assert s[|BASE_URL_TCP|..] == rest;
  }

  lemma SplitHostPort(host: string, port: string)
    requires URL_PORT_SPLITTER !in host && URL_PORT_SPLITTER !in port
    ensures Split(host + [URL_PORT_SPLITTER] + port, URL_PORT_SPLITTER) == [host, port]
  {
    SplitAtFirst(host, URL_PORT_SPLITTER, port);
    SplitWithoutSeparator(port, URL_PORT_SPLITTER);
  }

  /** Conversely, every accepted address has that shape. */
  lemma {:induction false} AcceptedAddressShape(s: string)
    requires ValidAddressText(s)
    ensures var parts := Split(s[|BASE_URL_TCP|..], URL_PORT_SPLITTER);
            |parts| == 2 && s == BASE_URL_TCP + parts[0] + [URL_PORT_SPLITTER] + parts[1]
            && URL_PORT_SPLITTER !in parts[0] && URL_PORT_SPLITTER !in parts[1]
            && IpPattern(parts[0]) && PortInRange(ParseInt(parts[1], 0))
  {
    ReplacePrefix(s, BASE_URL_TCP);
    var rest := s[|BASE_URL_TCP|..];
    SplitInTwo(rest, URL_PORT_SPLITTER);
    PrefixThenRest(s, BASE_URL_TCP);
  }

  /** A text that splits into two parts is the two parts around the one separator. */
  lemma SplitInTwo(rest: string, sep: char)
    requires |Split(rest, sep)| == 2
    ensures var parts := Split(rest, sep);
            rest == parts[0] + [sep] + parts[1] && sep !in parts[0] && sep !in parts[1]
  {
    SplitJoin(rest, sep);
    var parts := Split(rest, sep);
    assert Join(parts, sep) == parts[0] + [sep] + parts[1];
  }

  lemma PrefixThenRest(s: string, prefix: string)
    requires StartsWith(s, prefix)
    ensures s == prefix + s[|prefix|..]
  {
    assert s == s[..|prefix|] + s[|prefix|..];
  }

  lemma {:induction false} CountAppend(a: string, b: string, c: char)
    ensures Count(a + b, c) == Count(a, c) + Count(b, c)
  {
    if a != [] {
      assert (a + b)[0] == a[0];
      assert (a + b)[1..] == a[1..] + b;
      CountAppend(a[1..], b, c);
    } else {
      assert a + b == b;
    }
  }

  /**
   * An accepted address holds exactly two colons, the scheme's and the one before
   * the port; any other number of colons is rejected.
   */
  lemma {:induction false} AddressNeedsTwoColons(s: string)
    requires Count(s, URL_PORT_SPLITTER) != 2
    ensures IsValidAddress(Str(s)) == Ok(false)
  {
    if StartsWith(s, BASE_URL_TCP) {
      ReplacePrefix(s, BASE_URL_TCP);
      var rest := s[|BASE_URL_TCP|..];
      assert s == BASE_URL_TCP + rest;
      CountAppend(BASE_URL_TCP, rest, URL_PORT_SPLITTER);
      assert Count(BASE_URL_TCP, URL_PORT_SPLITTER) == 1;
      SplitCount(rest, URL_PORT_SPLITTER);
    }
  }

  /** Anything not starting with "tcp://" is rejected, and a non-string throws. */
  lemma AddressNeedsTcpPrefix(address: Value)
    ensures !address.Str? ==> IsValidAddress(address).Err?
    ensures address.Str? && !StartsWith(address.s, BASE_URL_TCP) ==> IsValidAddress(address) == Ok(false)
  {
  }

  /** Four parts without dots, joined by dots, split back into those parts. */
  lemma {:induction false} SplitQuad(a: string, b: string, c: string, d: string)
    requires '.' !in a && '.' !in b && '.' !in c && '.' !in d
    ensures Split(a + "." + b + "." + c + "." + d, '.') == [a, b, c, d]
  {
    SplitWithoutSeparator(d, '.');
    SplitAtFirst(c, '.', d);
    SplitAtFirst(b, '.', c + ['.'] + d);
    SplitAtFirst(a, '.', b + ['.'] + (c + ['.'] + d));
    assert a + "." + b + "." + c + "." + d == a + ['.'] + (b + ['.'] + (c + ['.'] + d));
  }

  /** The IPv4 pattern, read independently: four byte numerals joined by dots. */
  lemma {:induction false} IpPatternIsFourOctets(a: string, b: string, c: string, d: string)
    requires '.' !in a && '.' !in b && '.' !in c && '.' !in d
    ensures IpPattern(a + "." + b + "." + c + "." + d) <==>
      OctetPattern(a) && OctetPattern(b) && OctetPattern(c) && OctetPattern(d)
  {
    SplitQuad(a, b, c, d);
  }

  function DottedQuad(a: nat, b: nat, c: nat, d: nat): string {
    DecimalString(a) + "." + DecimalString(b) + "." + DecimalString(c) + "." + DecimalString(d)
  }

  lemma {:induction false} OctetNumeral(n: nat)
    requires n <= 255
    ensures OctetPattern(DecimalString(n)) && '.' !in DecimalString(n) && ':' !in DecimalString(n)
  {
    var z := DecimalString(n);
    DecimalStringShape(n);
    DecimalValue(n);
    DecimalStringShort(n);
    OctetPatternIsByteNumeral(z);
  }

  lemma {:induction false} DecimalStringShort(n: nat)
    ensures n < 10 ==> |DecimalString(n)| == 1
    ensures n < 100 ==> |DecimalString(n)| <= 2
    ensures n < 1000 ==> |DecimalString(n)| <= 3
  {
    if n >= 10 {
      DecimalStringShort(n / 10);
    }
  }

  /** A host written as four decimal numbers up to 255 matches the IPv4 pattern. */
  lemma {:induction false} DottedQuadMatches(a: nat, b: nat, c: nat, d: nat)
    requires a <= 255 && b <= 255 && c <= 255 && d <= 255
    ensures IpPattern(DottedQuad(a, b, c, d)) && ':' !in DottedQuad(a, b, c, d)
  {
    OctetNumeral(a);
    OctetNumeral(b);
    OctetNumeral(c);
    OctetNumeral(d);
    IpPatternIsFourOctets(DecimalString(a), DecimalString(b), DecimalString(c), DecimalString(d));
  }

  /** Every canonical `tcp://a.b.c.d:port` with octets up to 255 and port below 65535 is accepted. */
  lemma {:induction false} CanonicalAddressAccepted(a: nat, b: nat, c: nat, d: nat, port: nat)
    requires a <= 255 && b <= 255 && c <= 255 && d <= 255 && port < PORT_MAX
    ensures IsValidAddress(Str(BASE_URL_TCP + DottedQuad(a, b, c, d) + ":" + DecimalString(port))) == Ok(true)
  {
    DottedQuadMatches(a, b, c, d);
    DecimalStringShape(port);
    ParseDecimal(port);
    AddressFromParts(DottedQuad(a, b, c, d), DecimalString(port));
  }

  /** Ports 65535 and above, negative ports and ports without leading digits are rejected. */
  lemma {:induction false} OutOfRangePortRejected(host: string, port: string)
    requires ':' !in host && ':' !in port
    requires ParseInt(port, 0).NaN? || ParseInt(port, 0).n < 0 || ParseInt(port, 0).n >= PORT_MAX
    ensures IsValidAddress(Str(BASE_URL_TCP + host + ":" + port)) == Ok(false)
  {
    AddressFromParts(host, port);
  }

  lemma ExampleHost()
    ensures IpPattern("10.0.2.2") && ':' !in "10.0.2.2"
  {
    IpPatternIsFourOctets("10", "0", "2", "2");
    assert "10" + "." + "0" + "." + "2" + "." + "2" == "10.0.2.2";
  }

  lemma ExamplePortBounds()
    ensures ParseInt("65534", 0) == Int(65534) && ParseInt("65535", 0) == Int(65535)
  {
    assert DecimalString(6) == "6";
    assert DecimalString(65) == "65";
    assert DecimalString(655) == "655";
    assert DecimalString(6553) == "6553";
    assert DecimalString(65534) == "65534";
    assert DecimalString(65535) == "65535";
    ParseDecimal(65534);
    ParseDecimal(65535);
  }

  lemma ExampleNegativePort()
    ensures ParseInt("-1", 0) == Int(-1)
  {
    assert TrimStart("-1") == "-1";
    assert "-1"[1..] == "1";
    assert DigitsValue("1", 10) == 1 by { assert "1"[..0] == []; }
  }

  lemma ExampleHexPortValue()
    ensures ParseInt("0x1F", 0) == Int(31)
  {
    assert TrimStart("0x1F") == "0x1F";
    assert LeadingDigits("1F", 16) == "1F";
    assert "1F"[..1] == "1";
    assert DigitsValue("1", 16) == 1 by { assert "1"[..0] == []; }
  }

  /** 65535, the bound itself, is refused after any host: the websocket port would be out of range. */
  lemma MaxPortRejected(host: string)
    requires ':' !in host
    ensures IsValidAddress(Str(BASE_URL_TCP + host + ":" + "65535")) == Ok(false)
  {
    ExamplePortBounds();
    OutOfRangePortRejected(host, "65535");
  }

  /** 65534 is the largest port accepted after a matching host. */
  lemma LargestPortAccepted(host: string)
    requires ':' !in host && IpPattern(host)
    ensures IsValidAddress(Str(BASE_URL_TCP + host + ":" + "65534")) == Ok(true)
  {
    ExamplePortBounds();
    AddressFromParts(host, "65534");
    assert BASE_URL_TCP + host + ":" + "65534" == BASE_URL_TCP + host + [URL_PORT_SPLITTER] + "65534";
  }

  /** A negative port is refused after any host. */
  lemma NegativePortRejected(host: string)
    requires ':' !in host
    ensures IsValidAddress(Str(BASE_URL_TCP + host + ":" + "-1")) == Ok(false)
  {
    ExampleNegativePort();
    OutOfRangePortRejected(host, "-1");
  }

  /** Another scheme is refused, whatever follows it. */
  lemma OtherSchemeRejected(rest: string)
    ensures IsValidAddress(Str("udp://" + rest)) == Ok(false)
  {
    var s := "udp://" + rest;
    assert s[0] == 'u';
    AddressNeedsTcpPrefix(Str(s));
  }

  /** Text after a decimal port's digits is ignored: "7002abc" is accepted as 7002. */
  lemma {:induction false} PortTrailingTextIgnored(host: string, port: nat, t: string)
    requires ':' !in host && ':' !in t
    requires EndsNumeral(t)
    ensures IsValidAddress(Str(BASE_URL_TCP + host + ":" + DecimalString(port) + t))
         == IsValidAddress(Str(BASE_URL_TCP + host + ":" + DecimalString(port)))
  {
    DecimalStringShape(port);
    ParseDecimalPrefix(port, t);
    ParseDecimal(port);
    AddressFromParts(host, DecimalString(port) + t);
    AddressFromParts(host, DecimalString(port));
    assert BASE_URL_TCP + host + ":" + DecimalString(port) + t
        == BASE_URL_TCP + host + [URL_PORT_SPLITTER] + (DecimalString(port) + t);
  }

  /** `parseInt` reads a "0x" port as hexadecimal: port "0x1F" is port 31. */
  lemma HexPortAccepted(host: string)
    requires ':' !in host && IpPattern(host)
    ensures IsValidAddress(Str(BASE_URL_TCP + host + ":" + "0x1F")) == Ok(true)
  {
    ExampleHexPortValue();
    AddressFromParts(host, "0x1F");
    assert BASE_URL_TCP + host + ":" + "0x1F" == BASE_URL_TCP + host + [URL_PORT_SPLITTER] + "0x1F";
  }
}
