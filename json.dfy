/**
 * The JSON document a `Utf8JsonWriter` produces, as the sequence of tokens
 * written to it (RFC 8259: objects in section 4, arrays in section 5), and
 * the tree those tokens denote. The writer's own text (escaping, separators,
 * number and date formatting, base64 per section 4 of RFC 4648) belongs to
 * System.Text.Json and is kept abstract in the token payloads.
 */
module Json {
  import opened Wrappers

  /** The payload of a JSON string: plain text or a value the library formats. */
  datatype JsonString =
    | Text(s: string)
    | DateTimeText(ticks: int, dateKind: nat)
    | DateTimeOffsetText(offsetTicks: int, offsetMinutes: int)
    | GuidText(guidBytes: seq<bv8>)
    | Base64Text(bytes: seq<bv8>)

  /** The payload of a JSON number. */
  datatype JsonNumber =
    | Integer(i: int)
    | SingleNumber(singleBits: bv32)
    | DoubleNumber(doubleBits: bv64)
    | DecimalNumber(mantissa: int, scale: nat)

  datatype JsonToken =
    | StartObject
    | EndObject
    | StartArray
    | EndArray
    | PropertyName(name: string)
    | StringValue(str: JsonString)
    | NumberValue(num: JsonNumber)
    | BooleanValue(b: bool)
    | NullValue

  /** A JSON value; an object keeps its members in written order. */
  datatype JsonValue =
    | JObject(members: seq<JsonMember>)
    | JArray(items: seq<JsonValue>)
    | JString(str: JsonString)
    | JNumber(num: JsonNumber)
    | JBool(b: bool)
    | JNull

  datatype JsonMember = JsonMember(name: string, value: JsonValue)

  /**
   * The numbers JSON can carry: every number except an IEEE 754 NaN or
   * infinity, whose exponent field is all ones (section 6 of RFC 8259 has no
   * literal for them).
   */
  predicate IsFinite(n: JsonNumber) {
    match n
    case SingleNumber(bits) => (bits >> 23) & 0xFF != 0xFF
    case DoubleNumber(bits) => (bits >> 52) & 0x7FF != 0x7FF
    case _ => true
  }

  predicate IsAtom(t: JsonToken) {
    t.StringValue? || t.NumberValue? || t.BooleanValue? || t.NullValue?
  }

  /** The value a single literal token denotes. */
  function AtomValue(t: JsonToken): JsonValue
    requires IsAtom(t)
  {
    match t
    case StringValue(s) => JString(s)
    case NumberValue(n) => JNumber(n)
    case BooleanValue(b) => JBool(b)
    case NullValue => JNull
  }

  /** The writer: every `Write*` call appends one token. */
  class Utf8JsonWriter {
    var tokens: seq<JsonToken>

    constructor ()
      ensures tokens == []
    {
      tokens := [];
    }

    method WriteStartObject()
      modifies this
      ensures tokens == old(tokens) + [StartObject]
    {
      tokens := tokens + [StartObject];
    }

    method WriteEndObject()
      modifies this
      ensures tokens == old(tokens) + [EndObject]
    {
      tokens := tokens + [EndObject];
    }

    method WriteStartArray()
      modifies this
      ensures tokens == old(tokens) + [StartArray]
    {
      tokens := tokens + [StartArray];
    }

    method WriteEndArray()
      modifies this
      ensures tokens == old(tokens) + [EndArray]
    {
      tokens := tokens + [EndArray];
    }

    method WritePropertyName(name: string)
      modifies this
      ensures tokens == old(tokens) + [PropertyName(name)]
    {
      tokens := tokens + [PropertyName(name)];
    }

    /** Any of `WriteStringValue`, `WriteBooleanValue`, `WriteBase64StringValue` and `WriteNullValue`. */
    method WriteLiteral(t: JsonToken)
      requires IsAtom(t) && !t.NumberValue?
      modifies this
      ensures tokens == old(tokens) + [t]
    {
      tokens := tokens + [t];
    }

    /**
     * `WriteNumberValue`: the overloads for `float` and `double` throw an
     * `ArgumentException` for NaN and the infinities before writing anything.
     */
    method WriteNumberValue(n: JsonNumber) returns (ok: bool)
      modifies this
      ensures ok <==> IsFinite(n)
      ensures tokens == if ok then old(tokens) + [NumberValue(n)] else old(tokens)
    {
      ok := IsFinite(n);
      if ok {
        tokens := tokens + [NumberValue(n)];
      }
    }
  }

  /**
   * Reads one JSON value from the front of a token sequence and returns it
   * with the tokens after it; None when the front is not a well-formed value.
   */
  function ParseValue(ts: seq<JsonToken>): (r: Option<(JsonValue, seq<JsonToken>)>)
    ensures r.Some? ==> |r.value.1| < |ts|
    decreases |ts|, 1
  {
    if ts == [] then None
    else match ts[0]
      case StartObject => ParseMembers(ts[1..], [])
      case StartArray => ParseItems(ts[1..], [])
      case EndObject => None
      case EndArray => None
      case PropertyName(_) => None
      case _ => Some((AtomValue(ts[0]), ts[1..]))
  }

  /** Reads `name value` pairs up to the closing `EndObject`. */
  function ParseMembers(ts: seq<JsonToken>, acc: seq<JsonMember>): (r: Option<(JsonValue, seq<JsonToken>)>)
    ensures r.Some? ==> |r.value.1| < |ts|
    decreases |ts|, 0
  {
    if ts == [] then None
    else match ts[0]
      case EndObject => Some((JObject(acc), ts[1..]))
      case PropertyName(n) =>
        (match ParseValue(ts[1..])
         case None => None
         case Some((v, rest)) => ParseMembers(rest, acc + [JsonMember(n, v)]))
      case _ => None
  }

  /** Reads values up to the closing `EndArray`. */
  function ParseItems(ts: seq<JsonToken>, acc: seq<JsonValue>): (r: Option<(JsonValue, seq<JsonToken>)>)
    ensures r.Some? ==> |r.value.1| < |ts|
    decreases |ts|, 2
  {
    if ts == [] then None
    else if ts[0] == EndArray then Some((JArray(acc), ts[1..]))
    else match ParseValue(ts)
      case None => None
      case Some((v, rest)) => ParseItems(rest, acc + [v])
  }

  /** A complete JSON document: exactly one value and nothing after it. */
  function Parse(ts: seq<JsonToken>): Option<JsonValue> {
    match ParseValue(ts)
    case Some((v, rest)) => if rest == [] then Some(v) else None
    case None => None
  }
}
