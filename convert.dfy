/**
 * The conversions of the conode client: byte arrays to and from hexadecimal and
 * base64 text, server addresses to websocket URLs, public keys to conode ids, and
 * roster documents (JSON, or TOML with capitalised keys) to `Roster` records.
 * The JSON and TOML text parsers are parameters: the model starts from the
 * document they produce.
 */
module Convert {
  import opened Values
  import opened JsText
  import opened Helper
  import opened Hex
  import opened Base64
  import opened CothorityMessages

  const BASE_URL_WS := "ws://"
  const BASE_URL_CONODE_ID := "https://dedis.epfl.ch/id/"

  // ---------------------------------------------------------------- byte conversions

  /** `byteArrayToHex(byteArray)`. */
  function ByteArrayToHex(byteArray: Value): (r: Result<string>)
    ensures r.Err? <==> !byteArray.Bytes?
    ensures r.Ok? ==> |r.value| == 2 * |byteArray.data| && IsHexText(r.value) && IsLower(r.value)
  {
    if !byteArray.Bytes? then Err(BadArgument("byteArray"))
    else
      HexEncodeIsHexText(byteArray.data);
      Ok(HexEncode(byteArray.data))
  }

  /** `hexToByteArray(hexString)`. */
  function HexToByteArray(hexString: Value): (r: Result<seq<Byte>>)
    ensures r.Err? <==> !hexString.Str?
    ensures r.Ok? ==> |r.value| <= |hexString.s| / 2
  {
    if !hexString.Str? then Err(BadArgument("hexString")) else Ok(HexDecode(hexString.s))
  }

  /** `hexToBase64(hexString)`. */
  function HexToBase64(hexString: Value): (r: Result<string>)
    ensures r.Err? <==> !hexString.Str?
    ensures r.Ok? ==> |r.value| % 4 == 0
  {
    if !hexString.Str? then Err(BadArgument("hexString"))
    else
      Base64EncodeWholeGroups(HexDecode(hexString.s));
      Ok(Base64Encode(HexDecode(hexString.s)))
  }

  /** `base64ToHex(base64String)`. */
  function Base64ToHex(base64String: Value): (r: Result<string>)
    ensures r.Err? <==> !base64String.Str?
    ensures r.Ok? ==> IsHexText(r.value) && IsLower(r.value)
  {
    if !base64String.Str? then Err(BadArgument("base64String"))
    else
      HexEncodeIsHexText(Base64Decode(base64String.s));
      Ok(HexEncode(Base64Decode(base64String.s)))
  }

  /** `byteArrayToBase64(byteArray)`: through hexadecimal text. */
  function ByteArrayToBase64(byteArray: Value): (r: Result<string>)
    ensures r.Err? <==> !byteArray.Bytes?
  {
    if !byteArray.Bytes? then Err(BadArgument("byteArray"))
    else
      HexToBase64(Str(ByteArrayToHex(byteArray).value))
  }

  /** `base64ToByteArray(base64String)`: through hexadecimal text. */
  function Base64ToByteArray(base64String: Value): (r: Result<seq<Byte>>)
    ensures r.Err? <==> !base64String.Str?
  {
    if !base64String.Str? then Err(BadArgument("base64String"))
    else
      HexToByteArray(Str(Base64ToHex(base64String).value))
  }

  /** The detour through hexadecimal text is lossless: the result is the base64 text of the bytes. */
  lemma ByteArrayToBase64IsEncode(b: seq<Byte>)
    ensures ByteArrayToBase64(Bytes(b)) == Ok(Base64Encode(b))
  {
    HexRoundTrip(b);
  }

  /** Likewise the result of `base64ToByteArray` is the decoded base64 text. */
  lemma Base64ToByteArrayIsDecode(s: string)
    ensures Base64ToByteArray(Str(s)) == Ok(Base64Decode(s))
  {
    HexRoundTrip(Base64Decode(s));
  }

  /** Bytes survive base64 text: `base64ToByteArray(byteArrayToBase64(b))` is `b`. */
  lemma Base64BytesRoundTrip(b: seq<Byte>)
    ensures Base64ToByteArray(Str(ByteArrayToBase64(Bytes(b)).value)) == Ok(b)
  {
    ByteArrayToBase64IsEncode(b);
    Base64ToByteArrayIsDecode(Base64Encode(b));
    Base64RoundTrip(b);
  }

  /** Bytes survive hexadecimal text: `hexToByteArray(byteArrayToHex(b))` is `b`. */
  lemma HexBytesRoundTrip(b: seq<Byte>)
    ensures HexToByteArray(Str(ByteArrayToHex(Bytes(b)).value)) == Ok(b)
  {
    HexRoundTrip(b);
  }

  /** Hexadecimal text through base64 and back comes out in lower case, otherwise unchanged. */
  lemma HexBase64RoundTrip(s: string)
    requires IsHexText(s)
    ensures Base64ToHex(Str(HexToBase64(Str(s)).value)) == Ok(Lower(s))
  {
    Base64RoundTrip(HexDecode(s));
    HexTextRoundTrip(s);
  }

  // ---------------------------------------------------------------- websocket URL

  /** `tcpToWebsocket(serverIdentity, path)`: keeps the first two parts of the address, the port plus one. */
  function TcpToWebsocket(si: Value, path: Value): (r: Result<string>)
    ensures r.Ok? <==> HasType(si, SERVER_IDENTITY) && path.Str?
  {
    var t :- IsOfType(si, Str(SERVER_IDENTITY));
    // a value that passes the test is a server identity record (`TypeCheckIsTag`)
    if !t || !si.Msg? || !si.msg.ServerIdentity? then Err(BadArgument("serverIdentity"))
    else if !path.Str? then Err(BadArgument("path"))
    else
      var parts := TcpParts(si.msg.address);
      Ok(BASE_URL_WS + parts[0] + [URL_PORT_SPLITTER] + NextPortText(parts) + path.s)
  }

  /**
   * `si_to_ws` and `tcpToWebsocket` agree when the address holds at most one colon
   * after the scheme; with more, `si_to_ws` keeps the extra parts and gives a longer URL.
   */
  lemma WebsocketHelpersAgree(si: Message, path: string)
    requires si.ServerIdentity?
    ensures var parts := TcpParts(si.address);
      (|parts| <= 2 ==> SiToWs(Msg(si), Str(path)) == TcpToWebsocket(Msg(si), Str(path)))
      && (|parts| > 2 ==> |SiToWs(Msg(si), Str(path)).value| > |TcpToWebsocket(Msg(si), Str(path)).value|)
  {
    var parts := TcpParts(si.address);
    TcpToWebsocketValue(si, path);
    SiToWsValue(si, path);
    UrlsAgree(parts[0], NextPortText(parts), After2(parts), path);
  }

  /** The two ways of assembling the URL agree without further parts; further parts only add text. */
  lemma UrlsAgree(host: string, port: string, rest: seq<string>, path: string)
    ensures rest == [] ==>
      "ws://" + Join([host, port] + rest, ':') + path == BASE_URL_WS + host + [URL_PORT_SPLITTER] + port + path
    ensures rest != [] ==>
      |"ws://" + Join([host, port] + rest, ':') + path| > |BASE_URL_WS + host + [URL_PORT_SPLITTER] + port + path|
  {
    JoinHostPort(host, port, rest);
  }

  /** Joining host, port and further parts: the extra parts follow after another colon. */
  lemma JoinHostPort(host: string, port: string, rest: seq<string>)
    ensures rest == [] ==> Join([host, port] + rest, ':') == host + [':'] + port
    ensures rest != [] ==> Join([host, port] + rest, ':') == host + [':'] + port + [':'] + Join(rest, ':')
  {
    var all := [host, port] + rest;
    assert all[1..] == [port] + rest;
    assert all[1..][1..] == rest;
  }

  lemma TcpToWebsocketValue(si: Message, path: string)
    requires si.ServerIdentity?
    ensures TcpToWebsocket(Msg(si), Str(path))
         == Ok(BASE_URL_WS + TcpParts(si.address)[0] + [URL_PORT_SPLITTER] + NextPortText(TcpParts(si.address)) + path)
  {
    TypeCheckIsTag(Msg(si), si);
  }

  /** For `tcp://host:port` the websocket URL is `ws://host:(port+1)` followed by the path. */
  lemma WebsocketOfAddress(si: Message, host: string, port: nat, path: string)
    requires si.ServerIdentity? && si.address == "tcp://" + host + ":" + DecimalString(port)
    requires ':' !in host && ':' !in DecimalString(port)
    ensures TcpToWebsocket(Msg(si), Str(path)) == Ok("ws://" + host + ":" + DecimalString(port + 1) + path)
  {
    AddressParts(si.address, host, DecimalString(port));
    WebsocketHelpersAgree(si, path);
    SiToWsOfAddress(si, host, port, path);
  }

  /**
   * Every address `isValidAddress` accepts gives a websocket URL on the same host
   * whose port, the address's port plus one, lies in 1..65535.
   */
  lemma WebsocketPortInRange(si: Message, path: string)
    requires si.ServerIdentity? && ValidAddressText(si.address)
    ensures var parts := TcpParts(si.address);
      var port := ParseInt(parts[1], 0);
      port.Int? && 1 <= port.n + 1 <= PORT_MAX
      && TcpToWebsocket(Msg(si), Str(path)) == Ok(BASE_URL_WS + parts[0] + ":" + NumberToString(Int(port.n + 1)) + path)
  {
    TcpToWebsocketValue(si, path);
  }

  // ---------------------------------------------------------------- conode ids

  /** The URL a conode id is derived from: the fixed base followed by the key in hexadecimal. */
  function UuidName(publicKey: seq<Byte>): string {
    BASE_URL_CONODE_ID + HexEncode(publicKey)
  }

  /**
   * `publicKeyToUuid(publicKey)`: a name-based (version 5) UUID of the key's URL;
   * `uuid` is the UUID library, a function of the name.
   */
  function PublicKeyToUuid(publicKey: Value, uuid: string -> seq<Byte>): (r: Result<seq<Byte>>)
    ensures r.Err? <==> !publicKey.Bytes?
    ensures r.Ok? ==> r.value == uuid(UuidName(publicKey.data))
  {
    if !publicKey.Bytes? then Err(BadArgument("publicKey"))
    else
      Ok(uuid(BASE_URL_CONODE_ID + ByteArrayToHex(publicKey).value))
  }

  /** Distinct keys have distinct names, so an injective UUID function gives them distinct ids. */
  lemma UuidNameInjective(a: seq<Byte>, b: seq<Byte>)
    requires UuidName(a) == UuidName(b)
    ensures a == b
  {
    assert HexEncode(a) == UuidName(a)[|BASE_URL_CONODE_ID|..];
    HexEncodeInjective(a, b);
  }

  /** `toServerIdentity(address, publicKey, description, id)`: a missing id is derived from the key. */
  function ToServerIdentity<P>(address: Value, publicKey: Value, description: Value, id: Value,
                               crypto: Crypto<P>, uuid: string -> seq<Byte>): (r: Result<Message>)
    ensures r.Ok? <==> address.Str? && ValidAddressText(address.s)
                       && publicKey.Bytes? && |publicKey.data| == PUBLIC_KEY_BYTE_LENGTH && crypto.unmarshal(publicKey.data).Point?
                       && description.Str? && (id.Undefined? || id.Bytes?)
    ensures r.Ok? ==> r.value.ServerIdentity? && r.value.publicKey == publicKey.data && r.value.address == address.s
                      && r.value.description == description.s
                      && r.value.id == (if id.Bytes? then id.data else uuid(UuidName(publicKey.data)))
  {
    if !address.Str? || !IsValidAddress(address).value then Err(BadArgument("address"))
    else if !publicKey.Bytes? || !IsValidPublicKey(publicKey, crypto).value then Err(BadArgument("publicKey"))
    else if !description.Str? then Err(BadArgument("description"))
    else if !(id.Undefined? || id.Bytes?) then Err(BadArgument("id"))
    else
      var serverId := if id.Undefined? then Bytes(PublicKeyToUuid(publicKey, uuid).value) else id;
      CreateServerIdentity(publicKey, serverId, address, description)
  }

  // ---------------------------------------------------------------- JSON rosters

  /** `base64ToByteArray(v)` applied to a field only when it is present. */
  function DecodeIfPresent(v: Value): (r: Result<Value>)
    ensures r.Err? <==> !v.Undefined? && !v.Str?
    ensures r.Ok? ==> (r.value.Undefined? <==> v.Undefined?) && (v.Str? ==> r.value == Bytes(Base64Decode(v.s)))
  {
    if v.Undefined? then Ok(Undefined)
    else
      var b :- Base64ToByteArray(v);
      Base64ToByteArrayIsDecode(v.s);
      Ok(Bytes(b))
  }

  /**
   * `Crypto.unmarshal(base64ToByteArray(server.public))`: the value pushed into the
   * points, a point or None for `undefined`; a throw of the curve library propagates.
   */
  function ServerPoint<P>(server: Value, crypto: Crypto<P>): Result<Option<P>> {
    var pub :- Get(server, "public");
    var key :- Base64ToByteArray(pub);
    match crypto.unmarshal(key)
    case UnmarshalThrows => Err(CurveError)
    case NotAPoint => Ok(None)
    case Point(p) => Ok(Some(p))
  }

  /**
   * The points collected for one server: one when the document has no aggregate key.
   * When the key unmarshals to `undefined`, that is pushed and the callback goes on
   * to `toServerIdentity`, which rejects the same key: the callback fails with the
   * error of the server's entry.
   */
  function PointsOf<P>(server: Value, collect: bool, crypto: Crypto<P>, uuid: string -> seq<Byte>): (r: Result<seq<P>>)
    ensures r.Ok? ==> |r.value| == (if collect then 1 else 0)
  {
    if !collect then Ok([])
    else
      var p :- ServerPoint(server, crypto);
      match p
      case Some(point) => Ok([point])
      case None =>
        NotAPointEntryFails(server, crypto, uuid);
        Err(ServerEntry(server, crypto, uuid).error)
  }

  /** One server of the list, as the callback of `roster.list.map` converts it after the points. */
  function ServerEntry<P>(server: Value, crypto: Crypto<P>, uuid: string -> seq<Byte>): Result<Value> {
    var sid :- Get(server, "id");
    var serverId :- DecodeIfPresent(sid);
    // `server` is neither null nor undefined from here on, so reading its properties succeeds
    var address := Get(server, "address").value;
    var pub := Get(server, "public").value;
    var key :- Base64ToByteArray(pub);
    var description := Get(server, "description").value;
    var si :- ToServerIdentity(address, Bytes(key), description, serverId, crypto, uuid);
    Ok(Msg(si))
  }

  datatype Parsed<P> = Parsed(list: seq<Value>, points: seq<P>)

  /**
   * A `map` over the servers whose callback first produces the server's points and
   * then its entry: the list and the points after each server in order; the first
   * failure wins.
   */
  function MapServers<P>(servers: seq<Value>, point: Value -> Result<seq<P>>, entry: Value -> Result<Value>): Result<Parsed<P>>
    decreases |servers|
  {
    if servers == [] then Ok(Parsed([], []))
    else
      var before :- MapServers(servers[..|servers| - 1], point, entry);
      var pts :- point(servers[|servers| - 1]);
      var e :- entry(servers[|servers| - 1]);
      Ok(Parsed(before.list + [e], before.points + pts))
  }

  function PointStep<P>(collect: bool, crypto: Crypto<P>, uuid: string -> seq<Byte>): Value -> Result<seq<P>> {
    server => PointsOf(server, collect, crypto, uuid)
  }

  function EntryStep<P>(crypto: Crypto<P>, uuid: string -> seq<Byte>): Value -> Result<Value> {
    server => ServerEntry(server, crypto, uuid)
  }

  /** The callback of `roster.list.map` in `parseJsonRoster`, run on every server. */
  function ServersOf<P>(servers: seq<Value>, collect: bool, crypto: Crypto<P>, uuid: string -> seq<Byte>): Result<Parsed<P>> {
    MapServers(servers, PointStep(collect, crypto, uuid), EntryStep(crypto, uuid))
  }

  /** What `parseJsonRoster` returns for a parsed document. */
  function RosterOfDocument<P>(doc: Value, crypto: Crypto<P>, uuid: string -> seq<Byte>): Result<Message> {
    var list :- Get(doc, "list");
    if !list.Array? then Err(BadArgument("roster.list"))
    else
      var rosterId :- DecodeIfPresent(Get(doc, "id").value);
      var given :- DecodeIfPresent(Get(doc, "aggregate").value);
      var parsed :- ServersOf(list.elems, given.Undefined?, crypto, uuid);
      var aggregate := if given.Undefined? then Bytes(crypto.aggregate(parsed.points)) else given;
      CreateRoster(rosterId, Array(parsed.list), aggregate)
  }

  /** What `parseJsonRoster(jsonString)` returns; `parseJson` is `JSON.parse`, throwing as an `Err`. */
  function JsonRosterOf<P>(text: Value, parseJson: string -> Result<Value>, crypto: Crypto<P>, uuid: string -> seq<Byte>): Result<Message> {
    if !text.Str? then Err(BadArgument("jsonString"))
    else
      var doc :- parseJson(text.s);
      RosterOfDocument(doc, crypto, uuid)
  }

  /** One more server: the `map` so far, followed by the callback on that server. */
  lemma MapSnoc<P>(servers: seq<Value>, i: nat, point: Value -> Result<seq<P>>, entry: Value -> Result<Value>, before: Parsed<P>)
    requires i < |servers| && MapServers(servers[..i], point, entry) == Ok(before)
    ensures point(servers[i]).Err? ==> MapServers(servers[..i + 1], point, entry) == Err(point(servers[i]).error)
    ensures point(servers[i]).Ok? && entry(servers[i]).Err? ==> MapServers(servers[..i + 1], point, entry) == Err(entry(servers[i]).error)
    ensures point(servers[i]).Ok? && entry(servers[i]).Ok? ==>
      MapServers(servers[..i + 1], point, entry) == Ok(Parsed(before.list + [entry(servers[i]).value], before.points + point(servers[i]).value))
  {
    assert servers[..i + 1][..i] == servers[..i];
  }

  lemma {:induction false} MapErrPropagates<P>(servers: seq<Value>, i: nat, point: Value -> Result<seq<P>>, entry: Value -> Result<Value>)
    requires 0 < i <= |servers| && MapServers(servers[..i], point, entry).Err?
    ensures MapServers(servers, point, entry) == MapServers(servers[..i], point, entry)
    decreases |servers| - i
  {
    if i < |servers| {
      var front := servers[..|servers| - 1];
      assert front[..i] == servers[..i];
      MapErrPropagates(front, i, point, entry);
    } else {
      assert servers[..i] == servers;
    }
  }

  /** `parseJsonRoster(jsonString)`. */
  method ParseJsonRoster<P>(text: Value, parseJson: string -> Result<Value>, crypto: Crypto<P>, uuid: string -> seq<Byte>)
    returns (r: Result<Message>)
    ensures r == JsonRosterOf(text, parseJson, crypto, uuid)
  {
    if !text.Str? {
      return Err(BadArgument("jsonString"));
    }
    var parsedDoc := parseJson(text.s);
    if parsedDoc.Err? {
      return Err(parsedDoc.error);
    }
    r := RosterFromDocument(parsedDoc.value, crypto, uuid);
  }

  /** The body of `parseJsonRoster` after `JSON.parse`. */
  method RosterFromDocument<P>(doc: Value, crypto: Crypto<P>, uuid: string -> seq<Byte>) returns (r: Result<Message>)
    ensures r == RosterOfDocument(doc, crypto, uuid)
  {
    var listField := Get(doc, "list");
    if listField.Err? {
      return Err(listField.error);
    }
    if !listField.value.Array? {
      return Err(BadArgument("roster.list"));
    }
    var rosterId := DecodeIfPresent(Get(doc, "id").value);
    if rosterId.Err? {
      return Err(rosterId.error);
    }
    var aggregate := DecodeIfPresent(Get(doc, "aggregate").value);
    if aggregate.Err? {
      return Err(aggregate.error);
    }
    var collect := aggregate.value.Undefined?;
    var parsed := ConvertServers(listField.value.elems, collect, crypto, uuid);
    if parsed.Err? {
      return Err(parsed.error);
    }
    var aggregateBytes := if collect then Bytes(crypto.aggregate(parsed.value.points)) else aggregate.value;
    r := CreateRoster(rosterId.value, Array(parsed.value.list), aggregateBytes);
  }

  /** `roster.list.map(...)`: convert each server in order, pushing its point first when the points are collected. */
  method ConvertServers<P>(servers: seq<Value>, collect: bool, crypto: Crypto<P>, uuid: string -> seq<Byte>)
    returns (r: Result<Parsed<P>>)
    ensures r == ServersOf(servers, collect, crypto, uuid)
  {
    var pointStep := PointStep(collect, crypto, uuid);
    var entryStep := EntryStep(crypto, uuid);
    var list: seq<Value> := [];
    var points: seq<P> := [];
    var i := 0;
    while i < |servers|
      invariant 0 <= i <= |servers|
      invariant MapServers(servers[..i], pointStep, entryStep) == Ok(Parsed(list, points))
    {
      MapSnoc(servers, i, pointStep, entryStep, Parsed(list, points));
      var converted := ConvertServer(servers[i], collect, crypto, uuid);
      if converted.Err? {
        MapErrPropagates(servers, i + 1, pointStep, entryStep);
        return Err(converted.error);
      }
      var (pts, entry) := converted.value;
      points := points + pts;
      list := list + [entry];
      i := i + 1;
    }
    assert servers[..i] == servers;
    r := Ok(Parsed(list, points));
  }

  /** The callback on one server: its point when the points are collected, then `toServerIdentity` on its fields. */
  method ConvertServer<P>(server: Value, collect: bool, crypto: Crypto<P>, uuid: string -> seq<Byte>)
    returns (r: Result<(seq<P>, Value)>)
    ensures PointsOf(server, collect, crypto, uuid).Err? ==> r == Err(PointsOf(server, collect, crypto, uuid).error)
    ensures PointsOf(server, collect, crypto, uuid).Ok? && ServerEntry(server, crypto, uuid).Err? ==>
      r == Err(ServerEntry(server, crypto, uuid).error)
    ensures PointsOf(server, collect, crypto, uuid).Ok? && ServerEntry(server, crypto, uuid).Ok? ==>
      r == Ok((PointsOf(server, collect, crypto, uuid).value, ServerEntry(server, crypto, uuid).value))
  {
    var pts: seq<P> := [];
    if collect {
      var point := ServerPoint(server, crypto);
      if point.Err? {
        return Err(point.error);
      }
      match point.value {
        case Some(p) =>
          pts := [p];
        case None =>
          // `undefined` is pushed; the entry below cannot succeed on this key
          NotAPointEntryFails(server, crypto, uuid);
      }
    }
    var entry := ServerEntry(server, crypto, uuid);
    if entry.Err? {
      return Err(entry.error);
    }
    r := Ok((pts, entry.value));
  }

  // ---------------------------------------------------------------- roster lemmas

  /** A key that unmarshals to `undefined` fails `isValidPublicKey`, so the server's entry fails. */
  lemma NotAPointEntryFails<P>(server: Value, crypto: Crypto<P>, uuid: string -> seq<Byte>)
    requires ServerPoint(server, crypto) == Ok(None)
    ensures ServerEntry(server, crypto, uuid).Err?
  {
    var key := Base64ToByteArray(Get(server, "public").value).value;
    assert crypto.unmarshal(key).NotAPoint?;
  }

  /** The `map` succeeds exactly when the callback succeeds on every server. */
  lemma {:induction false} MapOkIff<P>(servers: seq<Value>, point: Value -> Result<seq<P>>, entry: Value -> Result<Value>)
    ensures MapServers(servers, point, entry).Ok? <==>
      forall k :: 0 <= k < |servers| ==> point(servers[k]).Ok? && entry(servers[k]).Ok?
    decreases |servers|
  {
    if servers != [] {
      var front := servers[..|servers| - 1];
      MapOkIff(front, point, entry);
      assert forall k :: 0 <= k < |front| ==> front[k] == servers[k];
    }
  }

  /** The `map` keeps the order: position k of the list holds the entry of server k. */
  lemma {:induction false} MapEntriesInOrder<P>(servers: seq<Value>, point: Value -> Result<seq<P>>, entry: Value -> Result<Value>)
    requires MapServers(servers, point, entry).Ok?
    ensures var p := MapServers(servers, point, entry).value;
      |p.list| == |servers| && (forall k :: 0 <= k < |servers| ==> entry(servers[k]) == Ok(p.list[k]))
    decreases |servers|
  {
    if servers != [] {
      var front := servers[..|servers| - 1];
      var last := servers[|servers| - 1];
      MapEntriesInOrder(front, point, entry);
      var before := MapServers(front, point, entry).value;
      var p := MapServers(servers, point, entry).value;
      assert p.list == before.list + [entry(last).value];
      forall k | 0 <= k < |servers| ensures entry(servers[k]) == Ok(p.list[k]) {
        if k < |front| {
          assert servers[k] == front[k];
        }
      }
    }
  }

  /** When each server gives one point, the points are those of the servers, in the same order. */
  lemma {:induction false} MapPointsInOrder<P>(servers: seq<Value>, point: Value -> Result<seq<P>>, entry: Value -> Result<Value>)
    requires MapServers(servers, point, entry).Ok?
    requires forall k :: 0 <= k < |servers| ==> point(servers[k]).Ok? && |point(servers[k]).value| == 1
    ensures var p := MapServers(servers, point, entry).value;
      |p.points| == |servers| && forall k :: 0 <= k < |servers| ==> point(servers[k]) == Ok([p.points[k]])
    decreases |servers|
  {
    if servers != [] {
      var front := servers[..|servers| - 1];
      var last := servers[|servers| - 1];
      assert forall k :: 0 <= k < |front| ==> front[k] == servers[k];
      MapPointsInOrder(front, point, entry);
      var before := MapServers(front, point, entry).value;
      var p := MapServers(servers, point, entry).value;
      assert p.points == before.points + point(last).value;
      forall k | 0 <= k < |servers| ensures point(servers[k]) == Ok([p.points[k]]) {
        if k < |front| {
          assert servers[k] == front[k];
        } else {
          assert point(last).value == [point(last).value[0]];
        }
      }
    }
  }

  /** When no server gives a point, there are none. */
  lemma {:induction false} MapNoPoints<P>(servers: seq<Value>, point: Value -> Result<seq<P>>, entry: Value -> Result<Value>)
    requires MapServers(servers, point, entry).Ok?
    requires forall k :: 0 <= k < |servers| ==> point(servers[k]) == Ok([])
    ensures MapServers(servers, point, entry).value.points == []
    decreases |servers|
  {
    if servers != [] {
      var front := servers[..|servers| - 1];
      assert forall k :: 0 <= k < |front| ==> front[k] == servers[k];
      MapNoPoints(front, point, entry);
    }
  }

  /** The list converts exactly when every server converts (and gives its point, when collected). */
  lemma ServersOkIff<P>(servers: seq<Value>, collect: bool, crypto: Crypto<P>, uuid: string -> seq<Byte>)
    ensures ServersOf(servers, collect, crypto, uuid).Ok? <==>
      forall k :: 0 <= k < |servers| ==> ServerEntry(servers[k], crypto, uuid).Ok? && (collect ==> ServerPoint(servers[k], crypto).Ok? && ServerPoint(servers[k], crypto).value.Some?)
  {
    MapOkIff(servers, PointStep(collect, crypto, uuid), EntryStep(crypto, uuid));
  }

  /**
   * The servers are converted one by one and in order: the result holds, at each
   * position, the conversion of the server at that position, and the points of all
   * servers, in the same order, when they are collected.
   */
  lemma ServersInOrder<P>(servers: seq<Value>, collect: bool, crypto: Crypto<P>, uuid: string -> seq<Byte>)
    requires ServersOf(servers, collect, crypto, uuid).Ok?
    ensures var p := ServersOf(servers, collect, crypto, uuid).value;
      |p.list| == |servers| && (forall k :: 0 <= k < |servers| ==> ServerEntry(servers[k], crypto, uuid) == Ok(p.list[k]))
      && (collect ==> |p.points| == |servers| && forall k :: 0 <= k < |servers| ==> ServerPoint(servers[k], crypto) == Ok(Some(p.points[k])))
      && (!collect ==> p.points == [])
  {
    var pointStep, entryStep := PointStep(collect, crypto, uuid), EntryStep(crypto, uuid);
    MapOkIff(servers, pointStep, entryStep);
    MapEntriesInOrder(servers, pointStep, entryStep);
    if collect {
      MapPointsInOrder(servers, pointStep, entryStep);
    } else {
      MapNoPoints(servers, pointStep, entryStep);
    }
  }

  /** A document without a list array is rejected, and so is an empty list. */
  lemma RosterNeedsServers<P>(doc: Value, crypto: Crypto<P>, uuid: string -> seq<Byte>)
    requires Get(doc, "list").Ok? && (!Get(doc, "list").value.Array? || Get(doc, "list").value.elems == [])
    ensures RosterOfDocument(doc, crypto, uuid).Err?
  {
  }

  /** The servers of a parsed roster, as `parseJsonRoster` converts them. */
  function ParsedServers<P>(doc: Value, crypto: Crypto<P>, uuid: string -> seq<Byte>): Result<Parsed<P>>
    requires Get(doc, "list").Ok? && Get(doc, "list").value.Array?
  {
    var given := DecodeIfPresent(Get(doc, "aggregate").value);
    ServersOf(Get(doc, "list").value.elems, given.Ok? && given.value.Undefined?, crypto, uuid)
  }

  /** A parsed roster is built from the converted servers, with the decoded id and aggregate. */
  lemma RosterOfDocumentParts<P>(doc: Value, crypto: Crypto<P>, uuid: string -> seq<Byte>)
    requires RosterOfDocument(doc, crypto, uuid).Ok?
    ensures Get(doc, "list").Ok? && Get(doc, "list").value.Array?
    ensures DecodeIfPresent(Get(doc, "id").value).Ok? && DecodeIfPresent(Get(doc, "aggregate").value).Ok?
    ensures ParsedServers(doc, crypto, uuid).Ok?
    ensures var given := DecodeIfPresent(Get(doc, "aggregate").value).value;
      var parsed := ParsedServers(doc, crypto, uuid).value;
      RosterOfDocument(doc, crypto, uuid)
      == CreateRoster(DecodeIfPresent(Get(doc, "id").value).value, Array(parsed.list),
                      if given.Undefined? then Bytes(crypto.aggregate(parsed.points)) else given)
  {
  }

  /** A parsed roster lists the converted servers in document order, and there is at least one. */
  lemma RosterListInOrder<P>(doc: Value, crypto: Crypto<P>, uuid: string -> seq<Byte>)
    requires RosterOfDocument(doc, crypto, uuid).Ok?
    ensures var m := RosterOfDocument(doc, crypto, uuid).value;
      var servers := Get(doc, "list").value.elems;
      m.Roster? && servers != []
      && |m.list| == |servers| && forall k :: 0 <= k < |servers| ==> ServerEntry(servers[k], crypto, uuid) == Ok(m.list[k])
  {
    RosterOfDocumentParts(doc, crypto, uuid);
    var given := DecodeIfPresent(Get(doc, "aggregate").value).value;
    ServersInOrder(Get(doc, "list").value.elems, given.Undefined?, crypto, uuid);
  }

  /** The roster id is absent without an `id` key, and otherwise the decoded `id` text. */
  lemma RosterIdField<P>(doc: Value, crypto: Crypto<P>, uuid: string -> seq<Byte>)
    requires RosterOfDocument(doc, crypto, uuid).Ok?
    ensures var m := RosterOfDocument(doc, crypto, uuid).value;
      var idText := Get(doc, "id").value;
      m.Roster? && (idText.Undefined? <==> m.rosterId == None)
      && (idText.Str? ==> m.rosterId == Some(Base64Decode(idText.s)))
  {
    RosterOfDocumentParts(doc, crypto, uuid);
  }

  /** With an `aggregate` key, the aggregate is its decoded text. */
  lemma RosterAggregateGiven<P>(doc: Value, crypto: Crypto<P>, uuid: string -> seq<Byte>)
    requires RosterOfDocument(doc, crypto, uuid).Ok? && Get(doc, "aggregate").value.Str?
    ensures RosterOfDocument(doc, crypto, uuid).value.aggregate == Base64Decode(Get(doc, "aggregate").value.s)
  {
    RosterOfDocumentParts(doc, crypto, uuid);
  }

  /** The points of the servers' public keys, in list order: a reference definition by plain recursion. */
  function PublicPoints<P>(servers: seq<Value>, crypto: Crypto<P>): (r: Result<seq<P>>)
    ensures r.Ok? ==> |r.value| == |servers|
  {
    if servers == [] then Ok([])
    else
      var p :- ServerPoint(servers[0], crypto);
      if p.None? then Err(BadArgument("publicKey"))
      else
        var rest :- PublicPoints(servers[1..], crypto);
        Ok([p.value] + rest)
  }

  lemma {:induction false} PublicPointsElementwise<P>(servers: seq<Value>, crypto: Crypto<P>, points: seq<P>)
    requires |points| == |servers| && forall k :: 0 <= k < |servers| ==> ServerPoint(servers[k], crypto) == Ok(Some(points[k]))
    ensures PublicPoints(servers, crypto) == Ok(points)
  {
    if servers != [] {
      assert forall k :: 0 <= k < |servers[1..]| ==> servers[1..][k] == servers[k + 1] && points[1..][k] == points[k + 1];
      PublicPointsElementwise(servers[1..], crypto, points[1..]);
      PublicPointsCons(servers, crypto, points);
    }
  }

  lemma PublicPointsCons<P>(servers: seq<Value>, crypto: Crypto<P>, points: seq<P>)
    requires servers != [] && |points| == |servers|
    requires ServerPoint(servers[0], crypto) == Ok(Some(points[0])) && PublicPoints(servers[1..], crypto) == Ok(points[1..])
    ensures PublicPoints(servers, crypto) == Ok(points)
  {
    HeadAndTail(points);
  }

  lemma HeadAndTail<T>(s: seq<T>)
    requires s != []
    ensures s == [s[0]] + s[1..]
  {
  }

  /** Without an `aggregate` key, the aggregate is that of the points of all servers' public keys, in list order. */
  lemma RosterAggregateComputed<P>(doc: Value, crypto: Crypto<P>, uuid: string -> seq<Byte>)
    requires RosterOfDocument(doc, crypto, uuid).Ok? && Get(doc, "aggregate").value.Undefined?
    ensures PublicPoints(Get(doc, "list").value.elems, crypto).Ok?
    ensures RosterOfDocument(doc, crypto, uuid).value.aggregate
         == crypto.aggregate(PublicPoints(Get(doc, "list").value.elems, crypto).value)
  {
    var servers := Get(doc, "list").value.elems;
    AggregateOfPoints(doc, crypto, uuid);
    var points := ServersOf(servers, true, crypto, uuid).value.points;
    ServersInOrder(servers, true, crypto, uuid);
    PublicPointsElementwise(servers, crypto, points);
  }

  lemma AggregateOfPoints<P>(doc: Value, crypto: Crypto<P>, uuid: string -> seq<Byte>)
    requires RosterOfDocument(doc, crypto, uuid).Ok? && Get(doc, "aggregate").value.Undefined?
    ensures Get(doc, "list").Ok? && Get(doc, "list").value.Array?
    ensures ServersOf(Get(doc, "list").value.elems, true, crypto, uuid).Ok?
    ensures RosterOfDocument(doc, crypto, uuid).value.aggregate
         == crypto.aggregate(ServersOf(Get(doc, "list").value.elems, true, crypto, uuid).value.points)
  {
    RosterOfDocumentParts(doc, crypto, uuid);
    assert DecodeIfPresent(Get(doc, "aggregate").value) == Ok(Undefined);
  }

  /** Each converted server is a server identity with a valid address and key, taken from the document's texts. */
  lemma ServerEntryFields<P>(server: Value, crypto: Crypto<P>, uuid: string -> seq<Byte>)
    requires ServerEntry(server, crypto, uuid).Ok?
    ensures var e := ServerEntry(server, crypto, uuid).value;
      var pub := Get(server, "public").value;
      var sid := Get(server, "id").value;
      e.Msg? && e.msg.ServerIdentity? && pub.Str?
      && e.msg.publicKey == Base64Decode(pub.s) && |e.msg.publicKey| == PUBLIC_KEY_BYTE_LENGTH
      && Get(server, "address").value == Str(e.msg.address) && ValidAddressText(e.msg.address)
      && Get(server, "description").value == Str(e.msg.description)
      && e.msg.id == (if sid.Str? then Base64Decode(sid.s) else uuid(UuidName(e.msg.publicKey)))
  {
    Base64ToByteArrayIsDecode(Get(server, "public").value.s);
  }

  // ---------------------------------------------------------------- TOML rosters

  /** One step of the renaming: `server[lower] = server[name]; delete server[name]` when they differ. */
  function LowerCaseKey(props: seq<Prop>, name: string): seq<Prop> {
    var lowered := Lower(name);
    if lowered == name then props else DeleteProp(SetProp(props, lowered, Lookup(props, name)), name)
  }

  /** The renaming applied to each of the names, in order. */
  function LowerCaseKeys(props: seq<Prop>, names: seq<string>): seq<Prop>
    decreases |names|
  {
    if names == [] then props else LowerCaseKeys(LowerCaseKey(props, names[0]), names[1..])
  }

  /** The inner `forEach`: rename each of the server's own property names, as listed before the loop. */
  method LowerCaseProperties(props: seq<Prop>) returns (out: seq<Prop>)
    ensures out == LowerCaseKeys(props, PropertyNames(props))
  {
    var names := PropertyNames(props);
    out := props;
    var i := 0;
    while i < |names|
      invariant 0 <= i <= |names|
      invariant LowerCaseKeys(out, names[i..]) == LowerCaseKeys(props, names)
    {
      assert names[i..][1..] == names[i + 1..];
      var lowered := Lower(names[i]);
      if lowered != names[i] {
        out := SetProp(out, lowered, Lookup(out, names[i]));
        out := DeleteProp(out, names[i]);
      }
      i := i + 1;
    }
  }

  /** One server after the renaming; reading the property names of null or undefined throws. */
  function LowerCaseServer(server: Value): (r: Result<Value>)
    ensures r.Err? <==> server.Undefined? || server.Null?
  {
    match server
    case Undefined => Err(EngineTypeError)
    case Null => Err(EngineTypeError)
    case Object(props) => Ok(Object(LowerCaseKeys(props, PropertyNames(props))))
    case _ => Ok(server)
  }

  /** The outer `forEach`: every server renamed, in order; the first null or undefined server throws. */
  function LowerCaseServers(servers: seq<Value>): (r: Result<seq<Value>>)
    ensures r.Ok? ==> |r.value| == |servers|
    decreases |servers|
  {
    if servers == [] then Ok([])
    else
      var before :- LowerCaseServers(servers[..|servers| - 1]);
      var s :- LowerCaseServer(servers[|servers| - 1]);
      Ok(before + [s])
  }

  lemma {:induction false} LowerCaseServersErrPropagates(servers: seq<Value>, i: nat)
    requires 0 < i <= |servers| && LowerCaseServers(servers[..i]).Err?
    ensures LowerCaseServers(servers) == LowerCaseServers(servers[..i])
    decreases |servers| - i
  {
    if i < |servers| {
      var front := servers[..|servers| - 1];
      assert front[..i] == servers[..i];
      LowerCaseServersErrPropagates(front, i);
    } else {
      assert servers[..i] == servers;
    }
  }

  /** The outer `forEach` as a loop over the servers, renaming each object's keys with the inner loop. */
  method RenameServers(servers: seq<Value>) returns (r: Result<seq<Value>>)
    ensures r == LowerCaseServers(servers)
  {
    var renamed: seq<Value> := [];
    var i := 0;
    while i < |servers|
      invariant 0 <= i <= |servers|
      invariant LowerCaseServers(servers[..i]) == Ok(renamed)
    {
      assert servers[..i + 1][..i] == servers[..i];
      match servers[i] {
        case Undefined =>
          LowerCaseServersErrPropagates(servers, i + 1);
          return Err(EngineTypeError);
        case Null =>
          LowerCaseServersErrPropagates(servers, i + 1);
          return Err(EngineTypeError);
        case Object(props) =>
          var lowered := LowerCaseProperties(props);
          renamed := renamed + [Object(lowered)];
        case _ =>
          renamed := renamed + [servers[i]];
      }
      i := i + 1;
    }
    assert servers[..i] == servers;
    r := Ok(renamed);
  }

  /** The document `parseTomlRoster` hands on: `list` holds the renamed servers, `servers` is gone. */
  function TomlToJsonDocument(doc: Value): (r: Result<Value>)
    ensures r.Ok? ==> r.value.Object?
  {
    var servers :- Get(doc, "servers");
    if servers.Undefined? then Err(BadArgument("roster.servers"))
    else if !servers.Array? then Err(EngineTypeError)          // `forEach` is not a function
    else if !doc.Object? then Err(EngineTypeError)             // only objects have a `servers` property
    else
      var renamed :- LowerCaseServers(servers.elems);
      Ok(Object(DeleteProp(SetProp(doc.props, "list", Array(renamed)), "servers")))
  }

  /**
   * The renaming fails exactly on a null or undefined server; otherwise the servers
   * keep their number and order, each renamed on its own.
   */
  lemma {:induction false} LowerCaseServersInOrder(servers: seq<Value>)
    ensures LowerCaseServers(servers).Ok? <==> forall k :: 0 <= k < |servers| ==> !servers[k].Undefined? && !servers[k].Null?
    ensures LowerCaseServers(servers).Ok? ==>
      forall k :: 0 <= k < |servers| ==> LowerCaseServer(servers[k]) == Ok(LowerCaseServers(servers).value[k])
    decreases |servers|
  {
    if servers != [] {
      var front := servers[..|servers| - 1];
      LowerCaseServersInOrder(front);
      assert forall k :: 0 <= k < |front| ==> front[k] == servers[k];
    }
  }

  /**
   * The document handed on from a TOML roster: `servers` is required, the renamed
   * servers sit under `list` in their order, `servers` is gone, and every other
   * property is as parsed.
   */
  lemma TomlDocumentFields(doc: Value)
    requires doc.Object?
    ensures Lookup(doc.props, "servers").Undefined? ==> TomlToJsonDocument(doc) == Err(BadArgument("roster.servers"))
    ensures TomlToJsonDocument(doc).Ok? ==>
      var servers := Lookup(doc.props, "servers");
      var json := TomlToJsonDocument(doc).value;
      servers.Array? && LowerCaseServers(servers.elems).Ok?
      && Get(json, "list") == Ok(Array(LowerCaseServers(servers.elems).value))
      && Get(json, "servers") == Ok(Undefined)
      && forall k :: k != "list" && k != "servers" ==> Get(json, k) == Get(doc, k)
  {
    var servers := Lookup(doc.props, "servers");
    if TomlToJsonDocument(doc).Ok? {
      var renamed := LowerCaseServers(servers.elems).value;
      var withList := SetProp(doc.props, "list", Array(renamed));
      KeysOfSetProp(doc.props, "list", Array(renamed));
      KeysOfDeleteProp(withList, "servers");
    }
  }

  /** What `parseTomlRoster(tomlString)` returns; `parseToml` is the TOML parser, throwing as an `Err`. */
  function TomlRosterOf<P>(text: Value, parseToml: string -> Result<Value>, crypto: Crypto<P>, uuid: string -> seq<Byte>): Result<Message> {
    if !text.Str? then Err(BadArgument("tomlString"))
    else
      var doc :- parseToml(text.s);
      var json :- TomlToJsonDocument(doc);
      RosterOfDocument(json, crypto, uuid)
  }

  /**
   * `parseTomlRoster(tomlString)`: rename each server's keys in place, copy the
   * servers into `list`, drop `servers`, and parse the result as a JSON roster.
   */
  method ParseTomlRoster<P>(text: Value, parseToml: string -> Result<Value>, crypto: Crypto<P>, uuid: string -> seq<Byte>)
    returns (r: Result<Message>)
    ensures r == TomlRosterOf(text, parseToml, crypto, uuid)
  {
    if !text.Str? {
      return Err(BadArgument("tomlString"));
    }
    var parsedDoc := parseToml(text.s);
    if parsedDoc.Err? {
      return Err(parsedDoc.error);
    }
    var doc := parsedDoc.value;
    var serversField := Get(doc, "servers");
    if serversField.Err? {
      return Err(serversField.error);
    }
    if serversField.value.Undefined? {
      return Err(BadArgument("roster.servers"));
    }
    if !serversField.value.Array? || !doc.Object? {
      return Err(EngineTypeError);
    }
    var renamed := RenameServers(serversField.value.elems);
    if renamed.Err? {
      return Err(renamed.error);
    }
    var json := Object(DeleteProp(SetProp(doc.props, "list", Array(renamed.value)), "servers"));
    r := RosterFromDocument(json, crypto, uuid);
  }

  // ---------------------------------------------------------------- key lemmas

  lemma KeysOfSetProp(props: seq<Prop>, key: string, v: Value)
    ensures Keys(SetProp(props, key, v)) == Keys(props) + {key}
    ensures Lookup(SetProp(props, key, v), key) == v
    ensures forall k :: k != key ==> Lookup(SetProp(props, key, v), k) == Lookup(props, k)
  {
    SetPropKeys(props, key, v);
    SetPropLookup(props, key, v);
  }

  lemma {:induction false} SetPropKeys(props: seq<Prop>, key: string, v: Value)
    ensures Keys(SetProp(props, key, v)) == Keys(props) + {key}
  {
    if props != [] {
      SetPropKeys(props[1..], key, v);
      KeysOfCons(props[0], props[1..]);
      if props[0].key == key {
        KeysOfCons(Prop(key, v), props[1..]);
      } else {
        KeysOfCons(props[0], SetProp(props[1..], key, v));
      }
    }
  }

  lemma {:induction false} SetPropLookup(props: seq<Prop>, key: string, v: Value)
    ensures Lookup(SetProp(props, key, v), key) == v
    ensures forall k :: k != key ==> Lookup(SetProp(props, key, v), k) == Lookup(props, k)
  {
    if props != [] {
      SetPropLookup(props[1..], key, v);
    }
  }

  lemma {:induction false} KeysOfDeleteProp(props: seq<Prop>, key: string)
    ensures Keys(DeleteProp(props, key)) == Keys(props) - {key}
    ensures Lookup(DeleteProp(props, key), key) == Undefined
    ensures forall k :: k != key ==> Lookup(DeleteProp(props, key), k) == Lookup(props, k)
  {
    if props != [] {
      KeysOfDeleteProp(props[1..], key);
      KeysOfCons(props[0], props[1..]);
      if props[0].key != key {
        KeysOfCons(props[0], DeleteProp(props[1..], key));
      }
    }
  }

  lemma KeysOfCons(p: Prop, rest: seq<Prop>)
    ensures Keys([p] + rest) == {p.key} + Keys(rest)
  {
    forall k | k in Keys([p] + rest) ensures k in {p.key} + Keys(rest) {
      var q :| q in [p] + rest && q.key == k;
    }
    forall k | k in {p.key} + Keys(rest) ensures k in Keys([p] + rest) {
      if k != p.key {
        var q :| q in rest && q.key == k;
        assert q in [p] + rest;
      }
    }
  }

  lemma {:induction false} NamesAreKeys(props: seq<Prop>)
    ensures forall k :: k in Keys(props) ==> k in PropertyNames(props)
  {
    if props != [] {
      NamesAreKeys(props[1..]);
      KeysOfCons(props[0], props[1..]);
      assert props == [props[0]] + props[1..];
    }
  }

  lemma LowerCaseKeyKeys(props: seq<Prop>, name: string)
    ensures Keys(LowerCaseKey(props, name)) <= (Keys(props) - {name}) + {Lower(name)}
    ensures IsLower(Lower(name))
  {
    LowerIsIdempotent(name);
    var lowered := Lower(name);
    if lowered != name {
      KeysOfSetProp(props, lowered, Lookup(props, name));
      KeysOfDeleteProp(SetProp(props, lowered, Lookup(props, name)), name);
    }
  }

  lemma {:induction false} LowerCaseKeysAreLower(props: seq<Prop>, names: seq<string>)
    requires forall k :: k in Keys(props) ==> IsLower(k) || k in names
    ensures forall k :: k in Keys(LowerCaseKeys(props, names)) ==> IsLower(k)
    decreases |names|
  {
    if names != [] {
      var next := LowerCaseKey(props, names[0]);
      LowerCaseKeyKeys(props, names[0]);
      forall k | k in Keys(next) ensures IsLower(k) || k in names[1..] {
        if k != Lower(names[0]) && !IsLower(k) {
          assert k in names && k != names[0];
          assert k in names[1..] by {
            var j :| 0 <= j < |names| && names[j] == k;
            assert names[1..][j - 1] == k;
          }
        }
      }
      LowerCaseKeysAreLower(next, names[1..]);
    }
  }

  /** After the renaming every property name of a server is in lower case. */
  lemma ServerKeysLowerCase(props: seq<Prop>)
    ensures forall k :: k in Keys(LowerCaseKeys(props, PropertyNames(props))) ==> IsLower(k)
  {
    NamesAreKeys(props);
    LowerCaseKeysAreLower(props, PropertyNames(props));
  }

  /** A server whose names are all in lower case is left as it is. */
  lemma {:induction false} LowerCaseKeysOfLower(props: seq<Prop>, names: seq<string>)
    requires forall i :: 0 <= i < |names| ==> IsLower(names[i])
    ensures LowerCaseKeys(props, names) == props
    decreases |names|
  {
    if names != [] {
      LowerCaseKeysOfLower(props, names[1..]);
    }
  }
}
