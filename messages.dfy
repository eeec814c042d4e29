/**
 * The message builders of the cothority client.  Each `create*` builder checks the
 * type of every argument and then builds a typed record (`Message`) or the fields of
 * a request that the protobuf encoder serialises (`Request`).  Also here: the
 * hexadecimal helpers `buf2hex`/`hex2Buf`, the websocket URL helper `si_to_ws`
 * and the per-address socket cache of `createSocket`.
 */
module CothorityMessages {
  import opened Values
  import opened JsText
  import opened Helper
  import opened Hex

  const SERVER_IDENTITY := "ServerIdentity"
  const ROSTER := "Roster"
  const POP_DESC := "PopDesc"
  const FINAL_STATEMENT := "FinalStatement"
  const POP_TOKEN := "PopToken"

  /** The fields handed to the protobuf encoder, one constructor per request message. */
  datatype Request =
    | SignatureRequest(message: seq<Byte>, roster: Message)
    | ClockRequest(roster: Message)
    | LatestBlockRequest(latestId: seq<Byte>)
    | StoreSkipBlockRequest(latestId: seq<Byte>, newBlock: SkipBlock)
    | StoreConfig(desc: Value, signature: seq<Byte>)
    | FinalizeRequest(descId: seq<Byte>, attendees: seq<Value>, signature: seq<Byte>)
    | PinRequest(pin: string, publicKey: seq<Byte>)
    | FetchRequest(id: seq<Byte>)

  /** The new block of a store request; its roster holds only the list, unchecked. */
  datatype SkipBlock = SkipBlock(maxHeight: int, baseHeight: int, data: seq<Byte>, rosterList: Value)

  /** `array[0]`: undefined for an empty array. */
  function First(elems: seq<Value>): Value {
    if elems == [] then Undefined else elems[0]
  }

  /** The test `Helper.isOfType(v, name)` used as a guard: its exception propagates, false becomes `onFalse`. */
  function RequireType(v: Value, name: string, onFalse: string): (r: Result<bool>)
    ensures r.Ok? <==> HasType(v, name)
  {
    var t :- IsOfType(v, Str(name));
    if t then Ok(true) else Err(BadArgument(onFalse))
  }

  /** `createServerIdentity(publicKey, id, address, desc)`. */
  function CreateServerIdentity(publicKey: Value, id: Value, address: Value, desc: Value): (r: Result<Message>)
    ensures r.Ok? <==> publicKey.Bytes? && id.Bytes? && address.Str? && desc.Str?
    ensures r.Ok? ==> r.value.ServerIdentity?
  {
    if !publicKey.Bytes? then Err(BadArgument("publicKey"))
    else if !id.Bytes? then Err(BadArgument("id"))
    else if !address.Str? then Err(BadArgument("address"))
    else if !desc.Str? then Err(BadArgument("desc"))
    else Ok(ServerIdentity(publicKey.data, id.data, address.s, desc.s))
  }

  /** `createRoster(id, list, aggregate)`: only the list's first element is checked. */
  function CreateRoster(id: Value, list: Value, aggregate: Value): (r: Result<Message>)
    ensures r.Ok? <==> (id.Undefined? || id.Bytes?) && list.Array? && HasType(First(list.elems), SERVER_IDENTITY) && aggregate.Bytes?
    ensures r.Ok? ==> r.value.Roster?
  {
    if !(id.Undefined? || id.Bytes?) then Err(BadArgument("id"))
    else if !list.Array? then Err(BadArgument("list"))
    else
      var _ :- RequireType(First(list.elems), SERVER_IDENTITY, "list[i]");
      if !aggregate.Bytes? then Err(BadArgument("id"))
      else Ok(Roster(if id.Undefined? then None else Some(id.data), list.elems, aggregate.data))
  }

  /** `createPopDesc(name, dateTime, location, roster)`. */
  function CreatePopDesc(name: Value, dateTime: Value, location: Value, roster: Value): (r: Result<Message>)
    ensures r.Ok? <==> name.Str? && dateTime.Str? && location.Str? && HasType(roster, ROSTER)
    ensures r.Ok? ==> r.value.PopDesc?
  {
    if !name.Str? then Err(BadArgument("name"))
    else if !dateTime.Str? then Err(BadArgument("dateTime"))
    else if !location.Str? then Err(BadArgument("location"))
    else
      var _ :- RequireType(roster, ROSTER, "roster");
      Ok(PopDesc(name.s, dateTime.s, location.s, roster))
  }

  /** `createFinalStatement(desc, attendees, signature, merged)`. */
  function CreateFinalStatement(desc: Value, attendees: Value, signature: Value, merged: Value): (r: Result<Message>)
    ensures r.Ok? <==> HasType(desc, POP_DESC) && attendees.Array? && First(attendees.elems).Bytes?
                       && signature.Bytes? && merged.Bool?
    ensures r.Ok? ==> r.value.FinalStatement?
  {
    var _ :- RequireType(desc, POP_DESC, "desc");
    if !attendees.Array? then Err(BadArgument("attendees"))
    else if !First(attendees.elems).Bytes? then Err(BadArgument("attendees[i]"))
    else if !signature.Bytes? then Err(BadArgument("signature"))
    else if !merged.Bool? then Err(BadArgument("merged"))
    else Ok(FinalStatement(desc, attendees.elems, signature.data, merged.b))
  }

  /** `createFinalStatementToml(desc, attendees, signature, merged)`: the same with text attendees and signature. */
  function CreateFinalStatementToml(desc: Value, attendees: Value, signature: Value, merged: Value): (r: Result<Message>)
    ensures r.Ok? <==> HasType(desc, POP_DESC) && attendees.Array? && First(attendees.elems).Str?
                       && signature.Str? && merged.Bool?
    ensures r.Ok? ==> r.value.FinalStatementToml?
  {
    var _ :- RequireType(desc, POP_DESC, "desc");
    if !attendees.Array? then Err(BadArgument("attendees"))
    else if !First(attendees.elems).Str? then Err(BadArgument("attendees[i]"))
    else if !signature.Str? then Err(BadArgument("signature"))
    else if !merged.Bool? then Err(BadArgument("merged"))
    else Ok(FinalStatementToml(desc, attendees.elems, signature.s, merged.b))
  }

  /** `createPopToken(final, privateKey, publicKey)`. */
  function CreatePopToken(final: Value, privateKey: Value, publicKey: Value): (r: Result<Message>)
    ensures r.Ok? <==> HasType(final, FINAL_STATEMENT) && privateKey.Bytes? && publicKey.Bytes?
    ensures r.Ok? ==> r.value.PopToken?
  {
    var _ :- RequireType(final, FINAL_STATEMENT, "final");
    if !privateKey.Bytes? then Err(BadArgument("privateKey"))
    else if !publicKey.Bytes? then Err(BadArgument("publicKey"))
    else Ok(PopToken(final, privateKey.data, publicKey.data))
  }

  /** `createPopTokenToml(final, privateKey, publicKey)`: the final statement is checked as a FinalStatement. */
  function CreatePopTokenToml(final: Value, privateKey: Value, publicKey: Value): (r: Result<Message>)
    ensures r.Ok? <==> HasType(final, FINAL_STATEMENT) && privateKey.Str? && publicKey.Str?
    ensures r.Ok? ==> r.value.PopTokenToml?
  {
    var _ :- RequireType(final, FINAL_STATEMENT, "final");
    if !privateKey.Str? then Err(BadArgument("privateKey"))
    else if !publicKey.Str? then Err(BadArgument("publicKey"))
    else Ok(PopTokenToml(final, privateKey.s, publicKey.s))
  }

  /** `createSignatureRequest(message, servers, aggregate)`: the servers and aggregate go into a roster without id. */
  function CreateSignatureRequest(message: Value, servers: Value, aggregate: Value): (r: Result<Request>)
    ensures r.Ok? <==> message.Bytes? && servers.Array? && HasType(First(servers.elems), SERVER_IDENTITY) && aggregate.Bytes?
  {
    if !message.Bytes? then Err(BadArgument("message"))
    else if !servers.Array? then Err(BadArgument("servers"))
    else
      var _ :- RequireType(First(servers.elems), SERVER_IDENTITY, "servers[i]");
      if !aggregate.Bytes? then Err(BadArgument("aggregate"))
      else Ok(SignatureRequest(message.data, Roster(None, servers.elems, aggregate.data)))
  }

  /** `createClockRequest(servers, aggregate)`: no checks of its own, those of `createRoster`. */
  function CreateClockRequest(servers: Value, aggregate: Value): (r: Result<Request>)
    ensures r.Ok? <==> CreateRoster(Undefined, servers, aggregate).Ok?
  {
    var roster :- CreateRoster(Undefined, servers, aggregate);
    Ok(ClockRequest(roster))
  }

  /** `createLatestBlockRequest(id)`. */
  function CreateLatestBlockRequest(id: Value): (r: Result<Request>)
    ensures r.Ok? <==> id.Bytes?
  {
    if !id.Bytes? then Err(BadArgument("message")) else Ok(LatestBlockRequest(id.data))
  }

  /** `createStoreSkipBlockRequest(id, servers)`: a block of heights 1, no data, and the servers as roster list. */
  function CreateStoreSkipBlockRequest(id: Value, servers: Value): (r: Result<Request>)
    ensures r.Ok? <==> id.Bytes?
  {
    if !id.Bytes? then Err(BadArgument("message"))
    else Ok(StoreSkipBlockRequest(id.data, SkipBlock(1, 1, [], servers)))
  }

  /** `createStoreConfig(desc, signature)`. */
  function CreateStoreConfig(desc: Value, signature: Value): (r: Result<Request>)
    ensures r.Ok? <==> HasType(desc, POP_DESC) && signature.Bytes?
  {
    var _ :- RequireType(desc, POP_DESC, "desc");
    if !signature.Bytes? then Err(BadArgument("signature")) else Ok(StoreConfig(desc, signature.data))
  }

  /** `createFinalizeRequest(descId, attendees, signature)`. */
  function CreateFinalizeRequest(descId: Value, attendees: Value, signature: Value): (r: Result<Request>)
    ensures r.Ok? <==> descId.Bytes? && attendees.Array? && First(attendees.elems).Bytes? && signature.Bytes?
  {
    if !descId.Bytes? then Err(BadArgument("descId"))
    else if !(attendees.Array? && First(attendees.elems).Bytes?) then Err(BadArgument("attendees"))
    else if !signature.Bytes? then Err(BadArgument("signature"))
    else Ok(FinalizeRequest(descId.data, attendees.elems, signature.data))
  }

  /** `createPinRequest(pin, publicKey)`. */
  function CreatePinRequest(pin: Value, publicKey: Value): (r: Result<Request>)
    ensures r.Ok? <==> pin.Str? && publicKey.Bytes?
  {
    if !pin.Str? then Err(BadArgument("pin"))
    else if !publicKey.Bytes? then Err(BadArgument("publicKey"))
    else Ok(PinRequest(pin.s, publicKey.data))
  }

  /** `createFetchRequest(id)`. */
  function CreateFetchRequest(id: Value): (r: Result<Request>)
    ensures r.Ok? <==> id.Bytes?
  {
    if !id.Bytes? then Err(BadArgument("id")) else Ok(FetchRequest(id.data))
  }

  // ---------------------------------------------------------------- builder lemmas

  /** A built server identity holds exactly the four schema fields, with the arguments' values. */
  lemma ServerIdentityLayout(publicKey: seq<Byte>, id: seq<Byte>, address: string, desc: string, key: string)
    ensures var r := CreateServerIdentity(Bytes(publicKey), Bytes(id), Str(address), Str(desc));
      r.Ok? && MessageField(r.value, "public") == Bytes(publicKey) && MessageField(r.value, "id") == Bytes(id)
      && MessageField(r.value, "address") == Str(address) && MessageField(r.value, "description") == Str(desc)
      && (key !in {"public", "id", "address", "description"} ==> MessageField(r.value, key) == Undefined)
  {
  }

  /** An empty list is rejected, because its first element is undefined and the type test throws. */
  lemma RosterRejectsEmptyList(id: Value, aggregate: Value)
    ensures CreateRoster(id, Array([]), aggregate) == Err(BadArgument("object")) || CreateRoster(id, Array([]), aggregate) == Err(BadArgument("id"))
    ensures CreateRoster(id, Array([]), aggregate).Err?
  {
  }

  /** Only the first element is checked: after one server identity, anything may follow. */
  lemma RosterChecksOnlyFirst(si: Message, rest: seq<Value>, aggregate: seq<Byte>)
    requires si.ServerIdentity?
    ensures CreateRoster(Undefined, Array([Msg(si)] + rest), Bytes(aggregate))
         == Ok(Roster(None, [Msg(si)] + rest, aggregate))
  {
    TypeCheckIsTag(Msg(si), si);
  }

  /** The id field is present exactly when an id is given, and then holds it. */
  lemma RosterIdPresence(id: Value, list: Value, aggregate: Value)
    requires CreateRoster(id, list, aggregate).Ok?
    ensures var m := CreateRoster(id, list, aggregate).value;
      (MessageField(m, "id") == Undefined <==> id.Undefined?)
      && (id.Bytes? ==> MessageField(m, "id") == id)
      && MessageField(m, "list") == list && MessageField(m, "aggregate") == aggregate
  {
  }

  /** The empty placeholders used as defaults elsewhere cannot be built: an empty roster is rejected. */
  lemma EmptyPlaceholdersRejected()
    ensures CreateRoster(Bytes([]), Array([]), Bytes([])).Err?
    ensures CreateFinalStatement(Undefined, Array([]), Bytes([]), Bool(false)).Err?
  {
  }

  /** A final statement needs at least one attendee, and the first must be a byte array. */
  lemma FinalStatementNeedsAttendee(desc: Value, signature: Value, merged: Value, attendees: seq<Value>)
    requires attendees == [] || !attendees[0].Bytes?
    ensures CreateFinalStatement(desc, Array(attendees), signature, merged).Err?
    ensures CreateFinalizeRequest(Bytes([]), Array(attendees), signature).Err?
  {
  }

  /**
   * The signature request carries the roster that `createRoster` builds from the
   * servers and aggregate without id: its own checks imply those of `createRoster`.
   */
  lemma SignatureRequestRoster(message: Value, servers: Value, aggregate: Value)
    requires CreateSignatureRequest(message, servers, aggregate).Ok?
    ensures CreateRoster(Undefined, servers, aggregate).Ok?
    ensures var r := CreateSignatureRequest(message, servers, aggregate).value;
      r.roster == CreateRoster(Undefined, servers, aggregate).value && r.roster.rosterId == None
      && r.message == message.data
  {
  }

  /** The store request's block has heights 1, empty data and the servers, unchecked, as its roster list. */
  lemma StoreSkipBlockLayout(id: seq<Byte>, servers: Value)
    ensures CreateStoreSkipBlockRequest(Bytes(id), servers)
         == Ok(StoreSkipBlockRequest(id, SkipBlock(1, 1, [], servers)))
  {
  }

  // ---------------------------------------------------------------- buf2hex / hex2Buf

  /** `x.toString(16)`: the lower-case hexadecimal numeral of `x`. */
  function RadixHex(n: nat): (s: string)
    ensures |s| >= 1
  {
    if n < 16 then [HexDigit(n)] else RadixHex(n / 16) + [HexDigit(n % 16)]
  }

  /** `("00" + x.toString(16)).slice(-2)`. */
  function TwoDigits(x: Byte): (s: string)
    ensures |s| == 2
  {
    var t := "00" + RadixHex(x as int);
    t[|t| - 2..]
  }

  /** `buf2hex(buffer)`. */
  function Buf2Hex(b: seq<Byte>): string {
    if b == [] then "" else TwoDigits(b[0]) + Buf2Hex(b[1..])
  }

  /** Padding the numeral and keeping two characters gives the byte's two digits. */
  lemma TwoDigitsIsByteHex(x: Byte)
    ensures TwoDigits(x) == ByteHex(x)
  {
    var n := x as int;
    if n >= 16 {
      assert RadixHex(n / 16) == [HexDigit(n / 16)];
    }
  }

  /** `buf2hex` writes exactly two lower-case hex digits per byte: the same text as `toString("hex")`. */
  lemma {:induction false} Buf2HexIsHexEncode(b: seq<Byte>)
    ensures Buf2Hex(b) == HexEncode(b)
    ensures |Buf2Hex(b)| == 2 * |b| && IsHexText(Buf2Hex(b)) && IsLower(Buf2Hex(b))
  {
    if b != [] {
      TwoDigitsIsByteHex(b[0]);
      Buf2HexIsHexEncode(b[1..]);
    }
    HexEncodeIsHexText(b);
  }

  /** `Uint8Array.from` stores NaN as 0 and any other number modulo 256. */
  function NumberToUint8(x: JsNumber): Byte {
    match x
    case NaN => 0
    case Int(n) => ToUint8(n)
  }

  /** `string.substring(i, i + 2)`, clamped to the end of the text. */
  function Chunk(s: string, i: nat): string
    requires i < |s|
  {
    if i + 2 <= |s| then s[i..i + 2] else s[i..]
  }

  /** What `hex2Buf(s)` returns: one byte per started pair of characters, NaN becoming 0. */
  function Hex2BufOf(s: string): (r: seq<Byte>)
    ensures |r| == (|s| + 1) / 2
  {
    seq((|s| + 1) / 2, k requires 0 <= k < (|s| + 1) / 2 => NumberToUint8(ParseInt(Chunk(s, 2 * k), 16)))
  }

  /** `hex2Buf(string)`: parse each pair into a list, then copy the list into a byte array. */
  method Hex2Buf(s: string) returns (r: seq<Byte>)
    ensures r == Hex2BufOf(s)
  {
    var temp: seq<JsNumber> := [];
    var i := 0;
    while i < |s|
      invariant i % 2 == 0 && 0 <= i <= |s| + 1
      invariant |temp| == i / 2
      invariant forall k :: 0 <= k < |temp| ==> temp[k] == ParseInt(Chunk(s, 2 * k), 16)
    {
      temp := temp + [ParseInt(Chunk(s, i), 16)];
      i := i + 2;
    }
    assert |temp| == (|s| + 1) / 2;
    r := seq(|temp|, k requires 0 <= k < |temp| => NumberToUint8(temp[k]));
  }

  lemma {:induction false} HexEncodeChunk(b: seq<Byte>, k: nat)
    requires k < |b|
    ensures Chunk(HexEncode(b), 2 * k) == ByteHex(b[k])
  {
    if k > 0 {
      HexEncodeChunk(b[1..], k - 1);
      assert HexEncode(b) == ByteHex(b[0]) + HexEncode(b[1..]);
      assert HexEncode(b)[2 * k..2 * k + 2] == HexEncode(b[1..])[2 * (k - 1)..2 * (k - 1) + 2];
    }
  }

  /** `hex2Buf` inverts `buf2hex`. */
  lemma Hex2BufRoundTrip(b: seq<Byte>)
    ensures Hex2BufOf(Buf2Hex(b)) == b
  {
    Buf2HexIsHexEncode(b);
    var r := Hex2BufOf(HexEncode(b));
    forall k | 0 <= k < |b| ensures r[k] == b[k] {
      ChunkOfEncoding(b, k);
    }
  }

  lemma ChunkOfEncoding(b: seq<Byte>, k: nat)
    requires k < |b|
    ensures NumberToUint8(ParseInt(Chunk(HexEncode(b), 2 * k), 16)) == b[k]
  {
    HexEncodeChunk(b, k);
    ByteHexValue(Chunk(HexEncode(b), 2 * k), b[k]);
  }

  lemma ByteHexValue(c: string, x: Byte)
    requires c == ByteHex(x)
    ensures NumberToUint8(ParseInt(c, 16)) == x
  {
    ByteHexParses(x);
  }

  /**
   * `hex2Buf` reads text that `Buffer.from(_, "hex")` would cut short: a pair that is
   * no number becomes a 0 byte instead of ending the result, and an odd last
   * character becomes a byte of its own.
   */
  lemma Hex2BufDiffersOnMalformedText()
    ensures Hex2BufOf("zz") == [0] && HexDecode("zz") == []
    ensures Hex2BufOf("f") == [15] && HexDecode("f") == []
  {
    assert Chunk("zz", 0) == "zz";
    assert LeadingDigits("zz", 16) == [];
    assert Chunk("f", 0) == "f";
    assert LeadingDigits("f", 16) == "f";
    assert DigitsValue("f", 16) == 15 by {
      assert "f"[..0] == [];
    }
  }

  // ---------------------------------------------------------------- si_to_ws

  /** `si_to_ws(si, path)`: the second part of the address becomes the port plus one; all parts are kept. */
  function SiToWs(si: Value, path: Value): (r: Result<string>)
    ensures r.Err? <==> si.Undefined? || si.Null? || !Get(si, "address").value.Str?
  {
    var address :- Get(si, "address");
    if !address.Str? then Err(EngineTypeError)
    else
      var parts := TcpParts(address.s);
      var ipPort := [parts[0], NextPortText(parts)] + After2(parts);
      Ok("ws://" + Join(ipPort, ':') + ValueText(path))
  }

  /** `address.replace("tcp://", "").split(":")`. */
  function TcpParts(address: string): (parts: seq<string>)
    ensures |parts| >= 1
  {
    Split(ReplaceFirst(address, "tcp://", ""), ':')
  }

  /** The parts after the port, which `si_to_ws` keeps. */
  function After2(parts: seq<string>): seq<string> {
    if |parts| >= 2 then parts[2..] else []
  }

  /** `parseInt(parts[1]) + 1` as text; a missing port reads as "undefined", which gives NaN. */
  function NextPortText(parts: seq<string>): string {
    NumberToString(AddOne(ParseInt(if |parts| >= 2 then parts[1] else "undefined", 0)))
  }

  /**
   * `String(v)`, which `"ws://" + ... + path` applies to the path.  Arrays, byte
   * arrays and built records are not rendered; they read as "undefined" here.
   */
  function ValueText(v: Value): string {
    match v
    case Undefined => "undefined"
    case Null => "null"
    case Bool(b) => if b then "true" else "false"
    case Num(x) => NumberToString(x)
    case Str(s) => s
    case Object(_) => "[object Object]"
    case _ => "undefined"
  }

  lemma SiToWsValue(si: Message, path: string)
    requires si.ServerIdentity?
    ensures var parts := TcpParts(si.address);
      SiToWs(Msg(si), Str(path)) == Ok("ws://" + Join([parts[0], NextPortText(parts)] + After2(parts), ':') + path)
  {
    assert Get(Msg(si), "address") == Ok(Str(si.address));
  }

  /** For `tcp://host:port` the websocket URL is `ws://host:(port+1)` followed by the path. */
  lemma SiToWsOfAddress(si: Message, host: string, port: nat, path: string)
    requires si.ServerIdentity? && si.address == "tcp://" + host + ":" + DecimalString(port)
    requires ':' !in host && ':' !in DecimalString(port)
    ensures SiToWs(Msg(si), Str(path)) == Ok("ws://" + host + ":" + DecimalString(port + 1) + path)
  {
    AddressParts(si.address, host, DecimalString(port));
    SiToWsValue(si, path);
    TwoPartsUrl(host, port, path);
  }

  /** The same for a path of any type, which is converted with `String(path)`. */
  lemma SiToWsPathText(si: Message, host: string, port: nat, path: Value)
    requires si.ServerIdentity? && si.address == "tcp://" + host + ":" + DecimalString(port)
    requires ':' !in host && ':' !in DecimalString(port)
    ensures SiToWs(Msg(si), path) == Ok("ws://" + host + ":" + DecimalString(port + 1) + ValueText(path))
    ensures path.Null? ==> SiToWs(Msg(si), path) == Ok("ws://" + host + ":" + DecimalString(port + 1) + "null")
    ensures path == Num(Int(7)) ==> SiToWs(Msg(si), path) == Ok("ws://" + host + ":" + DecimalString(port + 1) + "7")
  {
    SiToWsOfAddress(si, host, port, ValueText(path));
    SiToWsValue(si, ValueText(path));
    var parts := TcpParts(si.address);
    assert SiToWs(Msg(si), path) == SiToWs(Msg(si), Str(ValueText(path)));
    if path == Num(Int(7)) {
      assert DecimalString(7) == "7";
    }
  }

  lemma TwoPartsUrl(host: string, port: nat, path: string)
    ensures var parts := [host, DecimalString(port)];
      "ws://" + Join([parts[0], NextPortText(parts)] + After2(parts), ':') + path
      == "ws://" + host + ":" + DecimalString(port + 1) + path
  {
    var parts := [host, DecimalString(port)];
    var next := DecimalString(port + 1);
    PortPlusOne(port);
    assert [parts[0], NextPortText(parts)] + After2(parts) == [host, next];
    JoinPair(host, next, ':');
    assert "ws://" + (host + [':'] + next) + path == "ws://" + host + ":" + next + path;
  }

  lemma JoinPair(a: string, b: string, sep: char)
    ensures Join([a, b], sep) == a + [sep] + b
  {
    assert [a, b][1..] == [b];
  }

  /** `tcp://host:port` without further colons splits into host and port. */
  lemma AddressParts(address: string, host: string, port: string)
    requires address == "tcp://" + host + ":" + port && ':' !in host && ':' !in port
    ensures TcpParts(address) == [host, port]
  {
    var rest := host + [':'] + port;
    assert address == "tcp://" + rest;
    assert StartsWith(address, "tcp://");
    ReplacePrefix(address, "tcp://");
    assert address[6..] == rest;
    SplitAtFirst(host, ':', port);
    SplitWithoutSeparator(port, ':');
  }

  lemma PortPlusOne(port: nat)
    ensures ':' !in DecimalString(port)
    ensures NumberToString(AddOne(ParseInt(DecimalString(port), 0))) == DecimalString(port + 1)
  {
    DecimalStringShape(port);
    ParseDecimal(port);
  }

  // ---------------------------------------------------------------- socket cache

  /** A browser websocket: its URL, its `readyState` and what was handed to `send`. */
  class WebSocket {
    const url: string
    /** 0 connecting, 1 open, 2 closing, 3 closed. */
    var readyState: int
    var sent: seq<seq<Byte>>
    /** Messages whose `send` waits for the `open` event. */
    var sendOnOpen: seq<seq<Byte>>

    constructor (url: string)
      ensures this.url == url && readyState == 0 && sent == [] && sendOnOpen == []
    {
      this.url := url;
      readyState := 0;
      sent := [];
      sendOnOpen := [];
    }

    /** The `open` event: the connection is up and the deferred sends run, in order. */
    method Open()
      requires readyState == 0
      modifies this
      ensures readyState == 1 && sent == old(sent) + old(sendOnOpen) && sendOnOpen == []
    {
      readyState := 1;
      sent := sent + sendOnOpen;
      sendOnOpen := [];
    }
  }

  /** The address-keyed table of open sockets that callers keep between requests. */
  class SocketCache {
    var sockets: map<string, WebSocket>

    constructor ()
      ensures sockets == map[]
    {
      sockets := map[];
    }
  }

  /** Whether `createSocket` keeps the cached socket for an address. */
  predicate Reusable(sock: WebSocket)
    reads sock
  {
    sock.readyState <= 2
  }

  /**
   * `createSocket(socket, address, message, ...)`: reuse the cached socket unless it
   * is missing or closed, otherwise open a new one and cache it; then send now, or on
   * `open` while the socket is still connecting.
   */
  method CreateSocket(cache: SocketCache, address: string, message: seq<Byte>) returns (sock: WebSocket)
    modifies cache, if address in cache.sockets then {cache.sockets[address]} else {}
    ensures cache.sockets == old(cache.sockets)[address := sock]
    ensures old(address in cache.sockets && Reusable(cache.sockets[address])) ==>
      sock == old(cache.sockets[address]) && sock.readyState == old(sock.readyState)
      && (if sock.readyState == 0
          then sock.sendOnOpen == old(sock.sendOnOpen) + [message] && sock.sent == old(sock.sent)
          else sock.sent == old(sock.sent) + [message] && sock.sendOnOpen == old(sock.sendOnOpen))
    ensures !old(address in cache.sockets && Reusable(cache.sockets[address])) ==>
      fresh(sock) && sock.url == address && sock.readyState == 0 && sock.sendOnOpen == [message] && sock.sent == []
  {
    if address in cache.sockets && Reusable(cache.sockets[address]) {
      sock := cache.sockets[address];
    } else {
      sock := new WebSocket(address);
      cache.sockets := cache.sockets[address := sock];
    }
    if sock.readyState == 0 {
      sock.sendOnOpen := sock.sendOnOpen + [message];
    } else {
      sock.sent := sock.sent + [message];
    }
  }
}
