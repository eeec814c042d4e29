# Conode client value layer, in Dafny

This project models the client-side value layer of the cothority (conode) mobile
apps. It is written in Dafny and its properties are proved by Dafny's verifier.
The layer has four parts:

- **Helper** (`helper.dfy`): the dynamic type check `isOfType`, the public-key
  check `isValidPublicKey` and the address check `isValidAddress`. The address
  check accepts `tcp://<dotted quad>:<port>` with `0 <= port < 65535`.
- **Convert** (`convert.dfy`, with `hex.dfy` and `base64.dfy` for the `buffer`
  package's encodings):
  - byte/hex/base64 conversions;
  - the `tcp://` to `ws://` rewrite;
  - `toServerIdentity` and `publicKeyToUuid`;
  - roster parsing from JSON and from TOML. TOML server keys are lower-cased,
    `servers` becomes `list`, base64 fields are decoded, and the aggregate key is
    computed only when absent.
- **Cothority messages** (`messages.dfy`):
  - the `create*` builders, which type-check their arguments and then build a
    typed record;
  - `buf2hex`/`hex2Buf` and `si_to_ws`;
  - the socket cache of `createSocket`.
- **PoP** (`pop.dfy`): the PoP component's class with its lists of final
  statements and PoP tokens, its loaded flag, and its append, empty and reset
  operations.

Supporting modules:

- `values.dfy` models JavaScript values as a `Value` datatype. A thrown
  exception is an `Err(Error)` result, and built records are a `Message`
  datatype.
- `jstext.dfy` models the string built-ins the code relies on: `split`, `join`,
  `replace`, `parseInt`, `String(n)` and lower-casing.

Foreign code is passed in as parameters:

- the curve library's point unmarshal and key aggregation (`Crypto<P>`);
- the name-based UUID generator (`uuid`);
- the JSON and TOML parsers (`parseJson`, `parseToml`);
- the outcome of each file write (`writeSucceeds` and similar).

Nothing in the model depends on what these functions compute.

Three behaviours of the code shape the model:

- The hex and base64 decoders are lenient:
  - `hexToByteArray` stops at the first non-hex pair;
  - base64 decoding skips foreign characters and stops at the first "=";
  - `hex2Buf` reads a bad pair as 0.

  The round trips are proved from bytes to text and back. They are proved from
  text to bytes and back only for well-formed text.
- `createSocket` keeps a socket in its cache and reuses it while its
  `readyState` is at most 2; a closed socket is replaced by a new one. The
  `error` listener reports the error and leaves the entry in the cache.
- Errors are plain `Error` objects whose message names the argument. The model
  keeps those argument names. For example, `createRoster` names `id` in the
  error for a bad aggregate.

## Model

| member | source | states |
|---|---|---|
| Helper.IsOfType | cpmac/app/shared/lib/dedjs/Helper.js:19-28 | throws exactly for undefined, null, a non-object or a non-string type name; otherwise true iff the constructor name equals the type |
| Helper.TypeCheckIsTag | cpmac/app/shared/lib/dedjs/Helper.js:27 | passing the check for a record type name is the same as being a record built by that constructor |
| Helper.IsValidPublicKey | cpmac/app/shared/lib/dedjs/Helper.js:35-55 | throws exactly for a non-Uint8Array; true iff the key has 32 bytes and unmarshals to a point (`undefined` and a caught throw both give false) |
| Helper.IsValidAddress | cpmac/app/shared/lib/dedjs/Helper.js:62-79 | throws exactly for a non-string; otherwise the result is the textual address test |
| Helper.OctetPatternIsByteNumeral | cpmac/app/shared/lib/dedjs/Helper.js:11 | an octet matches the pattern iff it is one to three decimal digits (leading zeros allowed) denoting at most 255 |
| Helper.IpPatternIsFourOctets | cpmac/app/shared/lib/dedjs/Helper.js:11 | a host made of four dot-free parts matches iff each part matches the octet pattern |
| Helper.DottedQuadMatches | cpmac/app/shared/lib/dedjs/Helper.js:11 | the canonical decimal dotted quad of four bytes matches the host pattern |
| Helper.AddressFromParts | cpmac/app/shared/lib/dedjs/Helper.js:67-74 | `tcp://host:port` with colon-free parts is valid iff the host matches and the parsed port is in range |
| Helper.AcceptedAddressShape | cpmac/app/shared/lib/dedjs/Helper.js:67-74 | every accepted address is `tcp://` + a matching host + `:` + a port in range, each part colon-free |
| Helper.AddressNeedsTwoColons | cpmac/app/shared/lib/dedjs/Helper.js:68-70 | a string without exactly two colons (the scheme's and the port's) is rejected |
| Helper.AddressNeedsTcpPrefix | cpmac/app/shared/lib/dedjs/Helper.js:62-67 | a non-string throws; a string not starting with `tcp://` is rejected |
| Helper.CanonicalAddressAccepted | cpmac/app/shared/lib/dedjs/Helper.js:62-79 | every `tcp://a.b.c.d:p` with bytes a..d and `p < 65535` is accepted |
| Helper.OutOfRangePortRejected | cpmac/app/shared/lib/dedjs/Helper.js:71-74 | a port that parses to NaN, a negative number or at least 65535 is rejected |
| Helper.ExampleHost | cpmac/app/shared/lib/dedjs/Helper.js:11 | `10.0.2.2` matches the host pattern |
| Helper.MaxPortRejected | cpmac/app/shared/lib/dedjs/Helper.js:71-74 | port 65535 is rejected after any host |
| Helper.LargestPortAccepted | cpmac/app/shared/lib/dedjs/Helper.js:67-74 | port 65534 is accepted after any matching host |
| Helper.NegativePortRejected | cpmac/app/shared/lib/dedjs/Helper.js:71-74 | port -1 is rejected after any host |
| Helper.OtherSchemeRejected | cpmac/app/shared/lib/dedjs/Helper.js:67-78 | any `udp://` address is rejected |
| Helper.PortTrailingTextIgnored | cpmac/app/shared/lib/dedjs/Helper.js:71 | text after the port's leading digits (without a colon) does not change the verdict, as `parseInt` stops there |
| Helper.HexPortAccepted | cpmac/app/shared/lib/dedjs/Helper.js:71 | `parseInt` without a radix reads `0x1F` as 31, so that port is accepted after any matching host |
| Hex.HexEncode | cpmac/app/shared/lib/dedjs/Convert.js:26-32 | the hex text has two characters per byte |
| Hex.HexDecode | cpmac/app/shared/lib/dedjs/Convert.js:39-47 | decoding yields at most one byte per two characters |
| Hex.HexRoundTrip | cpmac/app/shared/lib/dedjs/Convert.js:26-47 | decoding the hex text of any bytes gives those bytes back |
| Hex.HexEncodeInjective | cpmac/app/shared/lib/dedjs/Convert.js:26-32 | distinct byte strings have distinct hex texts |
| Hex.HexEncodeIsHexText | cpmac/app/shared/lib/dedjs/Convert.js:26-32 | hex text is even-length, all hex digits, and lower case |
| Hex.HexTextRoundTrip | cpmac/app/shared/lib/dedjs/Convert.js:39-47 | any hex text of either case decodes to half its length, and re-encodes to its lower-case form |
| Hex.HexDecodeIgnoresOddTail | cpmac/app/shared/lib/dedjs/Convert.js:39-47 | an odd final character is ignored |
| Hex.HexDecodeStopsAtInvalidPair | cpmac/app/shared/lib/dedjs/Convert.js:39-47 | decoding stops at the first pair that is not a number and drops the rest |
| Base64.Base64RoundTrip | cpmac/app/shared/lib/dedjs/Convert.js:54-77 | decoding the base64 text of any bytes gives those bytes back |
| Base64.Base64EncodeInjective | cpmac/app/shared/lib/dedjs/Convert.js:54-62 | distinct byte strings have distinct base64 texts |
| Base64.Base64EncodeLength | cpmac/app/shared/lib/dedjs/Convert.js:54-62 | the padded text has `4 * ceil(n / 3)` characters |
| Base64.Base64EncodeAlphabet | cpmac/app/shared/lib/dedjs/Convert.js:54-62 | the text is alphabet characters followed only by `=` padding |
| Base64.Base64DecodeLength | cpmac/app/shared/lib/dedjs/Convert.js:69-77 | the decoded length is determined by the number of alphabet characters before the first `=` |
| Base64.Base64DecodeIgnoresAfterPadding | cpmac/app/shared/lib/dedjs/Convert.js:69-77 | everything after the first `=` is ignored |
| Base64.Base64DecodeSkipsForeign | cpmac/app/shared/lib/dedjs/Convert.js:69-77 | a character outside both alphabets before the padding is skipped |
| Base64.UrlSafeAlphabet | cpmac/app/shared/lib/dedjs/Convert.js:69-77 | `-` and `_` decode as `+` and `/` |
| Convert.ByteArrayToHex | cpmac/app/shared/lib/dedjs/Convert.js:26-32 | throws exactly for a non-Uint8Array; the text is lower-case hex of length 2n |
| Convert.HexToByteArray | cpmac/app/shared/lib/dedjs/Convert.js:39-47 | throws exactly for a non-string; at most one byte per two characters |
| Convert.HexToBase64 | cpmac/app/shared/lib/dedjs/Convert.js:84-90 | throws exactly for a non-string; the text length is a multiple of 4 |
| Convert.Base64ToHex | cpmac/app/shared/lib/dedjs/Convert.js:97-103 | throws exactly for a non-string; the result is lower-case hex text |
| Convert.ByteArrayToBase64 | cpmac/app/shared/lib/dedjs/Convert.js:54-62 | throws exactly for a non-Uint8Array |
| Convert.Base64ToByteArray | cpmac/app/shared/lib/dedjs/Convert.js:69-77 | throws exactly for a non-string |
| Convert.ByteArrayToBase64IsEncode | cpmac/app/shared/lib/dedjs/Convert.js:54-62 | going through hex gives the same text as encoding the bytes as base64 directly |
| Convert.Base64ToByteArrayIsDecode | cpmac/app/shared/lib/dedjs/Convert.js:69-77 | going through hex gives the same bytes as decoding the base64 directly |
| Convert.Base64BytesRoundTrip | cpmac/app/shared/lib/dedjs/Convert.js:54-77 | `base64ToByteArray(byteArrayToBase64(b)) == b` for all bytes |
| Convert.HexBytesRoundTrip | cpmac/app/shared/lib/dedjs/Convert.js:26-47 | `hexToByteArray(byteArrayToHex(b)) == b` for all bytes |
| Convert.HexBase64RoundTrip | cpmac/app/shared/lib/dedjs/Convert.js:84-103 | `base64ToHex(hexToBase64(s))` is `s` in lower case, for any hex text |
| Convert.TcpToWebsocket | cpmac/app/shared/lib/dedjs/Convert.js:193-205 | succeeds exactly for a ServerIdentity and a string path |
| Convert.WebsocketOfAddress | cpmac/app/shared/lib/dedjs/Convert.js:193-205 | `tcp://host:p` with path `s` becomes `ws://host:(p+1)s` |
| Convert.WebsocketPortInRange | cpmac/app/shared/lib/dedjs/Convert.js:193-205 | for a valid address the websocket port is in 1..65535 |
| Convert.WebsocketHelpersAgree | cpmac/app/shared/lib/dedjs/Convert.js:200-204 | agrees with `si_to_ws` when the address has at most one port colon; otherwise `si_to_ws` keeps the extra parts and is longer |
| Convert.PublicKeyToUuid | cpmac/app/shared/lib/dedjs/Convert.js:354-362 | throws exactly for a non-Uint8Array; the id is the UUID of the base URL followed by the key's hex |
| Convert.UuidNameInjective | cpmac/app/shared/lib/dedjs/Convert.js:359 | distinct keys give distinct UUID names |
| Convert.ToServerIdentity | cpmac/app/shared/lib/dedjs/Convert.js:328-347 | succeeds exactly for a valid address, a valid key, a string description and an undefined-or-bytes id; fields hold the inputs, and a missing id is the key's UUID |
| Convert.DecodeIfPresent | cpmac/app/shared/lib/dedjs/Convert.js:222-227 | undefined stays undefined, a string is base64-decoded, anything else throws |
| Convert.PointsOf | cpmac/app/shared/lib/dedjs/Convert.js:231-233 | one point per server when the aggregate is absent, none otherwise; a throw of the curve library propagates, and a key that unmarshals to `undefined` fails with the error of the server's entry |
| Convert.NotAPointEntryFails | cpmac/app/shared/lib/dedjs/Convert.js:332-334 | a key that unmarshals to `undefined` fails `isValidPublicKey`, so `toServerIdentity` on that server throws |
| Convert.ParseJsonRoster | cpmac/app/shared/lib/dedjs/Convert.js:212-248 | the method computes the roster the document denotes, its errors included |
| Convert.RosterFromDocument | cpmac/app/shared/lib/dedjs/Convert.js:217-247 | the method computes the roster of a parsed document |
| Convert.ConvertServers | cpmac/app/shared/lib/dedjs/Convert.js:229-241 | the loop computes the entries and points of the `map` callback, first failure first |
| Convert.ConvertServer | cpmac/app/shared/lib/dedjs/Convert.js:230-241 | the callback on one server: when points are collected, a throw of the curve library fails it first; otherwise it fails with the entry's error (always so when the key unmarshals to `undefined`), else yields the collected points and the server identity |
| Convert.MapOkIff | cpmac/app/shared/lib/dedjs/Convert.js:230-241 | the `map` succeeds iff the callback succeeds on every server |
| Convert.MapEntriesInOrder | cpmac/app/shared/lib/dedjs/Convert.js:230-241 | the entries are the callback's results, one per server, in order |
| Convert.MapPointsInOrder | cpmac/app/shared/lib/dedjs/Convert.js:229-233 | with one point per server, the points are in server order |
| Convert.MapNoPoints | cpmac/app/shared/lib/dedjs/Convert.js:229-233 | when no server contributes a point, none is collected |
| Convert.ServersOkIff | cpmac/app/shared/lib/dedjs/Convert.js:229-241 | the servers convert iff every entry converts and, when collecting, every key unmarshals to a point |
| Convert.ServersInOrder | cpmac/app/shared/lib/dedjs/Convert.js:229-241 | the list keeps length and order; points are collected in order iff the aggregate is absent |
| Convert.RosterNeedsServers | cpmac/app/shared/lib/dedjs/Convert.js:218-220 | a missing, non-array or empty `list` is rejected |
| Convert.RosterOfDocumentParts | cpmac/app/shared/lib/dedjs/Convert.js:217-247 | a parsed roster is `createRoster` of the decoded id, the converted list and the given or computed aggregate |
| Convert.RosterListInOrder | cpmac/app/shared/lib/dedjs/Convert.js:230-247 | the roster's list has the input's length and order, each entry the converted server |
| Convert.RosterIdField | cpmac/app/shared/lib/dedjs/Convert.js:222-225 | the roster has an id iff the document has one, and it is the base64-decoded text |
| Convert.RosterAggregateGiven | cpmac/app/shared/lib/dedjs/Convert.js:227 | a given aggregate is used as decoded |
| Convert.PublicPoints | cpmac/app/shared/lib/dedjs/Convert.js:232 | one point per server |
| Convert.RosterAggregateComputed | cpmac/app/shared/lib/dedjs/Convert.js:229-245 | an absent aggregate is the aggregation of the servers' public keys in list order |
| Convert.AggregateOfPoints | cpmac/app/shared/lib/dedjs/Convert.js:243-245 | an absent aggregate is computed from the points the `map` collected |
| Convert.ServerEntryFields | cpmac/app/shared/lib/dedjs/Convert.js:235-240 | each entry has the decoded 32-byte key, a valid address, the description, and the decoded id or the key's UUID |
| Convert.LowerCaseProperties | cpmac/app/shared/lib/dedjs/Convert.js:281-288 | the inner loop renames each own property to its lower-case name, in property order |
| Convert.LowerCaseServer | cpmac/app/shared/lib/dedjs/Convert.js:280-289 | renaming throws exactly for a null or undefined server |
| Convert.LowerCaseServers | cpmac/app/shared/lib/dedjs/Convert.js:280-289 | renaming keeps the number of servers |
| Convert.LowerCaseServersInOrder | cpmac/app/shared/lib/dedjs/Convert.js:280-293 | renaming succeeds iff no server is null or undefined, and keeps each server in its place |
| Convert.RenameServers | cpmac/app/shared/lib/dedjs/Convert.js:280-289 | the nested loops compute the renamed servers |
| Convert.LowerCaseKeyKeys | cpmac/app/shared/lib/dedjs/Convert.js:283-287 | one renaming step replaces the name by its lower-case form among the keys |
| Convert.LowerCaseKeysAreLower | cpmac/app/shared/lib/dedjs/Convert.js:281-288 | after renaming every listed name, every key is lower-case |
| Convert.ServerKeysLowerCase | cpmac/app/shared/lib/dedjs/Convert.js:281-288 | every property name of a renamed server is lower-case |
| Convert.LowerCaseKeysOfLower | cpmac/app/shared/lib/dedjs/Convert.js:284-287 | names that are already lower-case are left alone |
| Convert.TomlToJsonDocument | cpmac/app/shared/lib/dedjs/Convert.js:275-295 | the document handed on is an object |
| Convert.TomlDocumentFields | cpmac/app/shared/lib/dedjs/Convert.js:275-295 | a missing `servers` throws; otherwise `list` holds the renamed servers in order, `servers` is gone, and other properties are kept |
| Convert.ParseTomlRoster | cpmac/app/shared/lib/dedjs/Convert.js:270-298 | the method computes the roster the TOML document denotes, its errors included |
| CothorityMessages.RequireType | cpmac/app/shared/lib/cothority-protobuf/src/index.js:65-67 | a builder's type guard passes iff the value has the named record type |
| CothorityMessages.CreateServerIdentity | cpmac/app/shared/lib/cothority-protobuf/src/index.js:25-48 | succeeds iff key and id are bytes and address and description are strings |
| CothorityMessages.ServerIdentityLayout | cpmac/app/shared/lib/cothority-protobuf/src/index.js:25-48 | the record holds exactly `public`, `id`, `address` and `description`, as given |
| CothorityMessages.CreateRoster | cpmac/app/shared/lib/cothority-protobuf/src/index.js:58-84 | succeeds iff id is undefined or bytes, list is an array whose first element is a ServerIdentity, and aggregate is bytes |
| CothorityMessages.RosterRejectsEmptyList | cpmac/app/shared/lib/cothority-protobuf/src/index.js:58-67 | an empty list is rejected |
| CothorityMessages.RosterChecksOnlyFirst | cpmac/app/shared/lib/cothority-protobuf/src/index.js:65-67 | only the first element is checked; the rest is kept as given |
| CothorityMessages.RosterIdPresence | cpmac/app/shared/lib/cothority-protobuf/src/index.js:76-83 | the record has `id` iff an id was given; list and aggregate are kept |
| CothorityMessages.CreatePopDesc | cpmac/app/shared/lib/cothority-protobuf/src/index.js:549-573 | succeeds iff name, date-time and location are strings and the roster is a Roster |
| CothorityMessages.CreateFinalStatement | cpmac/app/shared/lib/cothority-protobuf/src/index.js:781-808 | succeeds iff desc is a PopDesc, the first attendee is bytes, the signature is bytes and merged is boolean |
| CothorityMessages.CreateFinalStatementToml | cpmac/app/shared/lib/cothority-protobuf/src/index.js:818-845 | as above with text attendees and signature |
| CothorityMessages.FinalStatementNeedsAttendee | cpmac/app/shared/lib/cothority-protobuf/src/index.js:785-790 | an empty attendee list, or one whose first element is not bytes, is rejected (also by the finalize request) |
| CothorityMessages.EmptyPlaceholdersRejected | cpmac/app/shared/lib/dedjs/object/pop/PoP.js:17-19 | the empty placeholder roster and final statement are rejected by the builders |
| CothorityMessages.CreatePopToken | cpmac/app/shared/lib/cothority-protobuf/src/index.js:637-657 | succeeds iff final is a FinalStatement and both keys are bytes |
| CothorityMessages.CreatePopTokenToml | cpmac/app/shared/lib/cothority-protobuf/src/index.js:666-686 | succeeds iff final is a FinalStatement and both keys are strings |
| CothorityMessages.CreateSignatureRequest | cpmac/app/shared/lib/cothority-protobuf/src/index.js:131-151 | succeeds iff message is bytes, servers an array headed by a ServerIdentity, and aggregate bytes |
| CothorityMessages.SignatureRequestRoster | cpmac/app/shared/lib/cothority-protobuf/src/index.js:131-151 | the request's roster is `createRoster` with no id over the servers and aggregate |
| CothorityMessages.CreateClockRequest | cpmac/app/shared/lib/cothority-protobuf/src/index.js:170-176 | succeeds iff the id-less roster builds |
| CothorityMessages.CreateLatestBlockRequest | cpmac/app/shared/lib/cothority-protobuf/src/index.js:373-383 | succeeds iff the id is bytes |
| CothorityMessages.CreateStoreSkipBlockRequest | cpmac/app/shared/lib/cothority-protobuf/src/index.js:402-436 | succeeds iff the id is bytes |
| CothorityMessages.StoreSkipBlockLayout | cpmac/app/shared/lib/cothority-protobuf/src/index.js:402-436 | the new block has heights 1 and 1, no data, and the given servers |
| CothorityMessages.CreateStoreConfig | cpmac/app/shared/lib/cothority-protobuf/src/index.js:746-760 | succeeds iff desc is a PopDesc and the signature is bytes |
| CothorityMessages.CreateFinalizeRequest | cpmac/app/shared/lib/cothority-protobuf/src/index.js:854-872 | succeeds iff descId is bytes, attendees an array headed by bytes, and the signature bytes |
| CothorityMessages.CreatePinRequest | cpmac/app/shared/lib/cothority-protobuf/src/index.js:891-905 | succeeds iff the pin is a string and the key is bytes |
| CothorityMessages.CreateFetchRequest | cpmac/app/shared/lib/cothority-protobuf/src/index.js:912-922 | succeeds iff the id is bytes |
| CothorityMessages.TwoDigitsIsByteHex | cpmac/app/shared/lib/cothority-protobuf/src/index.js:1106 | padding the radix-16 numeral to two characters gives the byte's two hex digits |
| CothorityMessages.Buf2HexIsHexEncode | cpmac/app/shared/lib/cothority-protobuf/src/index.js:1105-1107 | `buf2hex` equals the hex encoding: two lower-case hex digits per byte |
| CothorityMessages.Hex2BufOf | cpmac/app/shared/lib/cothority-protobuf/src/index.js:1114-1122 | one byte per started pair of characters |
| CothorityMessages.Hex2Buf | cpmac/app/shared/lib/cothority-protobuf/src/index.js:1114-1122 | the loop computes the byte of every pair, a non-number as 0 |
| CothorityMessages.Hex2BufRoundTrip | cpmac/app/shared/lib/cothority-protobuf/src/index.js:1105-1122 | `hex2Buf(buf2hex(b)) == b` for all bytes |
| CothorityMessages.Hex2BufDiffersOnMalformedText | cpmac/app/shared/lib/cothority-protobuf/src/index.js:1114-1122 | unlike `Buffer.from(s, "hex")`, `hex2Buf` turns a non-hex pair into 0 and keeps an odd last digit |
| CothorityMessages.SiToWs | cpmac/app/shared/lib/cothority-protobuf/src/index.js:1154-1159 | throws exactly when the identity is null or undefined or its address is not a string |
| CothorityMessages.SiToWsOfAddress | cpmac/app/shared/lib/cothority-protobuf/src/index.js:1154-1159 | `tcp://host:p` with path `s` becomes `ws://host:(p+1)s` |
| CothorityMessages.SiToWsPathText | cpmac/app/shared/lib/cothority-protobuf/src/index.js:1158 | a path of any type is appended as `String(path)`: `null` gives "null", `7` gives "7" |
| CothorityMessages.WebSocket.constructor | cpmac/app/shared/lib/cothority-protobuf/src/index.js:1173 | a new socket is connecting (state 0) with nothing sent |
| CothorityMessages.WebSocket.Open | cpmac/app/shared/lib/cothority-protobuf/src/index.js:1181-1184 | opening sends the deferred messages in order |
| CothorityMessages.CreateSocket | cpmac/app/shared/lib/cothority-protobuf/src/index.js:1170-1199 | the cache maps the address to the old socket if its state is at most 2, else to a fresh one; other entries are unchanged; the message is sent now, or deferred to `open` in state 0 |
| Pop.PoP.constructor | cpmac/app/shared/lib/dedjs/object/pop/PoP.js:27-35 | not loaded, both lists empty |
| Pop.PoP.SetFinalStatementsArray | cpmac/app/shared/lib/dedjs/object/pop/PoP.js:87-99 | succeeds iff the argument is an array headed by a FinalStatement and save is boolean; changes nothing |
| Pop.PoP.SetPopTokenArray | cpmac/app/shared/lib/dedjs/object/pop/PoP.js:107-119 | succeeds iff the argument is an array headed by a PopToken and save is boolean; changes nothing |
| Pop.PoP.EmptyFinalStatementArray | cpmac/app/shared/lib/dedjs/object/pop/PoP.js:128-132 | the final statements become empty; tokens and flag unchanged |
| Pop.PoP.EmptyPopTokenArray | cpmac/app/shared/lib/dedjs/object/pop/PoP.js:137-141 | the tokens become empty; final statements and flag unchanged |
| Pop.PoP.AddFinalStatement | cpmac/app/shared/lib/dedjs/object/pop/PoP.js:149-188 | throws before any change on a bad argument; otherwise appends exactly one element; when saving, writes the whole non-empty list, and a failed write restores the old list and rejects with the write's error |
| Pop.PoP.Reset | cpmac/app/shared/lib/dedjs/object/pop/PoP.js:198-219 | truncates both files; if both writes succeed both lists are empty and the flag is set, otherwise the lists are unchanged, the flag stays cleared and the call rejects |
| Pop.RollbackAsWritten | cpmac/app/shared/lib/dedjs/object/pop/PoP.js:173-181 | the rollback as written always rejects |
| Pop.RollbackAsWrittenLosesWriteError | cpmac/app/shared/lib/dedjs/object/pop/PoP.js:157-181 | as written, a failed save on a valid PoP keeps the new element in its list and rejects with a type error (or the stub's argument error when the list was empty), never with the write's error |

## Left out

- The protobuf wire encoding and decoding (`encodeMessage`, `decodeMessage` and the `decode*` wrappers) live in a parent class that is not part of this model. The builders produce datatype records instead of encoded bytes.
- Curve arithmetic (point unmarshal and key aggregation) and the SHA-1 based UUID are foreign. They are parameters of the model.
- The TOML and JSON text libraries are parameters. `JSON.stringify` followed by `JSON.parse`, and `Helper.deepCopy` in `parseTomlRoster`, are treated as the identity on parsed documents. `deepCopy` throws for a primitive server (a string, number or boolean, such as TOML `servers = [1]`); the model passes such a server on, and it fails later in the server's conversion with a different error.
- `objectToJson` and `objectToToml` are left out. As written they call `Helper.isArray`, which Helper.js does not define.
- Pop.PoP.AddFinalStatement: assumes the list serialises to JSON. As written, `objectToJson` would throw on its undefined `Helper.isArray` after the push and before any write.
- PoP.js uses `Helper` and `Convert` without importing them. The model treats them as imported.
- The `EMPTY_*` constants of PoP.js are not built. As written, `createRoster(new Uint8Array(), [], new Uint8Array())` at PoP.js:17 throws on the missing first list element, so evaluating PoP.js throws and the module never loads; the model proves that the builders reject these arguments (`CothorityMessages.EmptyPlaceholdersRejected`). The PoP class is modelled as if the constants were built, as it is modelled as if `Helper` and `Convert` were imported.
- The PoP getters, which return the fields, are represented by the fields themselves.
- File persistence, observables and the global singleton of PoP.js are left out. Each file write is a success/failure parameter, and the requested write is returned as a value. The promise continuations of `addFinalStatement` and `reset` are modelled as running at once: no call can run between `addFinalStatement`'s push and its `.catch`, or while `reset`'s two writes are outstanding with the loaded flag already false (a statement added then would be wiped by the `.then`).
- The WebSocket `error` and `message` listeners and their removal are left out, as are the default `socket = {}` argument and `binaryType`. Only the cache decision and the send-now-or-defer choice are modelled.
- `parseJsonKeyPair` is not part of this model. It calls a builder outside the modelled file.
- `toml_to_roster` is not part of this model. It refers to undefined names and returns `{}` after swallowing the error.
- `decodeFetchRequest` is not part of this model. It calls an unqualified `decodeFinalizeResponse`.
- The remaining `create*` builders of the message file are not part of this model. These include the status, random, count, skipchain, merge, config and proposal requests.
- The UI pages are not part of this model. They contain no protocol logic of their own.
- JavaScript numbers are integers or NaN. Floating point and `-0` are not modelled.
- Lower-casing is per character over ASCII. Locale rules for case are not modelled.
- Object properties keep insertion order. JavaScript's ordering of integer-like keys is not modelled.
- What the curve library throws is one error kind, `CurveError`; its message is not modelled.
- CothorityMessages.SiToWs: a path that is an array, a byte array or a built record is rendered as "undefined" instead of by `String(path)`. No caller passes such a path.

## Findings

| source | as written | input that shows it | evidently intended | confidence | as-written member | corrected member |
|---|---|---|---|---|---|---|
| cpmac/app/shared/lib/dedjs/object/pop/PoP.js:178 | on a failed save, the rollback calls the stub `setFinalStatementsArray`. The stub stores nothing and returns `undefined`, so `.then` throws a TypeError; with an empty old list the stub's own first-element check throws first. The new statement stays in the list and the write's error is lost. The defect is latent behind the missing imports and the unbuilt `EMPTY_*` constants (see "## Left out") and, once those are supplied, behind `Convert.objectToJson` (PoP.js:169), which throws on its undefined `Helper.isArray` after the push and before the write, so the `.catch` is reached only once `objectToJson` is fixed. | `addFinalStatement(fs, true)` on a fresh PoP, with `Helper` and `Convert` imported and the `EMPTY_*` constants built, as this model assumes (see "## Left out"; strictly as written the module already throws at PoP.js:17, and the call would throw a ReferenceError on `Helper` at PoP.js:150 before the push). Under those assumptions and with `objectToJson` as written: the list ends as `[fs]` and a TypeError is thrown synchronously by `objectToJson`. Once `objectToJson` serialises and the write fails: the list still ends as `[fs]` and the call rejects with the "object must be of type object" error | the list is restored to its state before the call and the promise rejects with the write's error | not executed | Pop.RollbackAsWrittenLosesWriteError | Pop.PoP.AddFinalStatement |
