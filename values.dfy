/**
 * The dynamically typed values that the conode client passes around.
 *
 * JavaScript arguments are untyped, and most of the client's code is a type check
 * followed by a construction.  `Value` is the universe of arguments the client can
 * receive: the JavaScript primitives it tests for, byte arrays (`Uint8Array`),
 * arrays, plain objects from parsed JSON/TOML documents, and the typed records
 * the message builders create (`Message`).  A thrown exception is an `Err`.
 */
module Values {

  /** An element of a `Uint8Array`. */
  newtype Byte = x: int | 0 <= x < 256

  datatype Option<+T> = None | Some(value: T)

  /** What a failing operation throws. */
  datatype Error =
    | BadArgument(name: string)   // `throw new Error("<name> must be ...")` raised by an argument check
    | EngineTypeError             // a TypeError of the engine: a property of null/undefined, a missing method
    | WriteFailed                 // a rejected file write
    | CurveError                  // an exception thrown by the curve library

  datatype Result<+T> = Ok(value: T) | Err(error: Error) {
    predicate IsFailure() { Err? }
    function PropagateFailure<U>(): Result<U> requires Err? { Err(error) }
    function Extract(): T requires Ok? { value }
  }

  /** The integral JavaScript numbers the client produces (parseInt results); NaN included. */
  datatype JsNumber = NaN | Int(n: int)

  /** A property of a plain object; an object keeps its properties in insertion order. */
  datatype Prop = Prop(key: string, val: Value)

  datatype Value =
    | Undefined
    | Null
    | Bool(b: bool)
    | Num(num: JsNumber)
    | Str(s: string)
    | Bytes(data: seq<Byte>)      // a Uint8Array
    | Array(elems: seq<Value>)
    | Object(props: seq<Prop>)    // a plain object, as JSON.parse and the TOML parser build it
    | Msg(msg: Message)           // a record built by one of the message builders

  /**
   * The typed records built by the message builders, with the wire schema's field
   * names noted where the Dafny name differs.  A field the builder does not check
   * beyond its first element (lists, attendees) keeps the caller's values.
   */
  datatype Message =
    | ServerIdentity(publicKey: seq<Byte>, id: seq<Byte>, address: string, description: string)   // public, id, address, description
    | Roster(rosterId: Option<seq<Byte>>, list: seq<Value>, aggregate: seq<Byte>)                 // id (only when given), list, aggregate
    | PopDesc(name: string, dateTime: string, location: string, roster: Value)
    | FinalStatement(desc: Value, attendees: seq<Value>, signature: seq<Byte>, merged: bool)
    | FinalStatementToml(desc: Value, attendees: seq<Value>, signatureText: string, merged: bool)
    | PopToken(finalStatement: Value, privateKey: seq<Byte>, publicKey: seq<Byte>)               // final, private, public
    | PopTokenToml(finalStatement: Value, privateKeyText: string, publicKeyText: string)         // final, private, public

  /** The constructor name of the class the schema generates for a record. */
  function MessageTypeName(m: Message): string {
    match m
    case ServerIdentity(_, _, _, _) => "ServerIdentity"
    case Roster(_, _, _) => "Roster"
    case PopDesc(_, _, _, _) => "PopDesc"
    case FinalStatement(_, _, _, _) => "FinalStatement"
    case FinalStatementToml(_, _, _, _) => "FinalStatementToml"
    case PopToken(_, _, _) => "PopToken"
    case PopTokenToml(_, _, _) => "PopTokenToml"
  }

  /** JavaScript's `typeof`. */
  function TypeOf(v: Value): string {
    match v
    case Undefined => "undefined"
    case Null => "object"
    case Bool(_) => "boolean"
    case Num(_) => "number"
    case Str(_) => "string"
    case _ => "object"
  }

  /** `v.constructor.name` for a value whose `typeof` is "object" and that is not null. */
  function ConstructorName(v: Value): string
    requires TypeOf(v) == "object" && !v.Null?
  {
    match v
    case Bytes(_) => "Uint8Array"
    case Array(_) => "Array"
    case Object(_) => "Object"
    case Msg(m) => MessageTypeName(m)
  }

  /** The value of property `key` among `props`, `undefined` when there is none. */
  function Lookup(props: seq<Prop>, key: string): Value {
    if props == [] then Undefined
    else if props[0].key == key then props[0].val
    else Lookup(props[1..], key)
  }

  /** `object[key] = v`: overwrite the property in place, or append a new one. */
  function SetProp(props: seq<Prop>, key: string, v: Value): seq<Prop> {
    if props == [] then [Prop(key, v)]
    else if props[0].key == key then [Prop(key, v)] + props[1..]
    else [props[0]] + SetProp(props[1..], key, v)
  }

  /** `delete object[key]`. */
  function DeleteProp(props: seq<Prop>, key: string): seq<Prop> {
    if props == [] then []
    else if props[0].key == key then DeleteProp(props[1..], key)
    else [props[0]] + DeleteProp(props[1..], key)
  }

  /** `Object.getOwnPropertyNames(object)`: the keys in insertion order. */
  function PropertyNames(props: seq<Prop>): seq<string> {
    if props == [] then [] else [props[0].key] + PropertyNames(props[1..])
  }

  function Keys(props: seq<Prop>): set<string> {
    set p | p in props :: p.key
  }

  /** A JavaScript object has each property once. */
  predicate DistinctKeys(props: seq<Prop>) {
    forall i, j :: 0 <= i < j < |props| ==> props[i].key != props[j].key
  }

  /** The fields of a built record, under their wire names. */
  function MessageField(m: Message, key: string): Value {
    match m
    case ServerIdentity(pk, id, address, description) =>
      if key == "public" then Bytes(pk) else if key == "id" then Bytes(id)
      else if key == "address" then Str(address) else if key == "description" then Str(description)
      else Undefined
    case Roster(id, list, aggregate) =>
      if key == "id" && id.Some? then Bytes(id.value) else if key == "list" then Array(list)
      else if key == "aggregate" then Bytes(aggregate) else Undefined
    case PopDesc(name, dateTime, location, roster) =>
      if key == "name" then Str(name) else if key == "dateTime" then Str(dateTime)
      else if key == "location" then Str(location) else if key == "roster" then roster else Undefined
    case FinalStatement(desc, attendees, signature, merged) =>
      if key == "desc" then desc else if key == "attendees" then Array(attendees)
      else if key == "signature" then Bytes(signature) else if key == "merged" then Bool(merged) else Undefined
    case FinalStatementToml(desc, attendees, signature, merged) =>
      if key == "desc" then desc else if key == "attendees" then Array(attendees)
      else if key == "signature" then Str(signature) else if key == "merged" then Bool(merged) else Undefined
    case PopToken(final, sk, pk) =>
      if key == "final" then final else if key == "private" then Bytes(sk)
      else if key == "public" then Bytes(pk) else Undefined
    case PopTokenToml(final, sk, pk) =>
      if key == "final" then final else if key == "private" then Str(sk)
      else if key == "public" then Str(pk) else Undefined
  }

  /**
   * Property access `v.key`.  Reading a property of null or undefined is a TypeError;
   * the primitives, byte arrays and arrays have none of the named properties the
   * client reads.
   */
  function Get(v: Value, key: string): (r: Result<Value>)
    ensures r.Err? <==> v.Undefined? || v.Null?
  {
    match v
    case Undefined => Err(EngineTypeError)
    case Null => Err(EngineTypeError)
    case Object(props) => Ok(Lookup(props, key))
    case Msg(m) => Ok(MessageField(m, key))
    case _ => Ok(Undefined)
  }
}
