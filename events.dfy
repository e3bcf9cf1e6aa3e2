/**
 * Serilog's value tree: the closed set of `LogEventPropertyValue` shapes the
 * sink consumes, the CLR objects a `ScalarValue` may hold, and the foreign
 * (culture-dependent or library) operations the core calls on them.
 */
module Events {
  import opened Wrappers
  import opened Dictionaries

  /** The integral CLR types a scalar may hold. */
  datatype IntegralKind = Int32 | UInt32 | Int64 | UInt64 | Byte | SByte | Int16 | UInt16

  /**
   * The object held by a `ScalarValue`. Floating-point numbers are kept as
   * their IEEE bits and never interpreted; date/time values as ticks; any
   * other `IFormattable` and any other object only by identity.
   */
  datatype ScalarObject =
    | Null
    | Str(s: string)
    | Bool(b: bool)
    | Integral(kind: IntegralKind, i: int)
    | Single(singleBits: bv32)
    | Double(doubleBits: bv64)
    | Decimal(mantissa: int, scale: nat)
    | DateTime(ticks: int, dateKind: nat)
    | DateTimeOffset(offsetTicks: int, offsetMinutes: int)
    | Guid(guidBytes: seq<bv8>)
    | ByteArray(arrayBytes: seq<bv8>)
    | ByteMemory(memoryBytes: seq<bv8>)
    | OtherFormattable(formattableId: nat)
    | OtherObject(objectId: nat)

  /** The value types among scalars (C#'s `value is ValueType`). */
  predicate IsValueType(o: ScalarObject) {
    o.Bool? || o.Integral? || o.Single? || o.Double? || o.Decimal? || o.DateTime?
    || o.DateTimeOffset? || o.Guid? || o.ByteMemory?
  }

  /** The scalars that implement `IFormattable`. */
  predicate IsFormattable(o: ScalarObject) {
    o.Integral? || o.Single? || o.Double? || o.Decimal? || o.DateTime? || o.DateTimeOffset?
    || o.Guid? || o.OtherFormattable?
  }

  /** `LogEventPropertyValue`: a scalar, a structure or a sequence. */
  datatype PropertyValue =
    | Scalar(obj: ScalarObject)
    | Structure(typeTag: Option<string>, properties: seq<LogEventProperty>)
    | Sequence(elements: seq<PropertyValue>)

  datatype LogEventProperty = LogEventProperty(name: string, value: PropertyValue)

  type StructureValue = v: PropertyValue | v.Structure? witness Structure(None, [])

  type SequenceValue = v: PropertyValue | v.Sequence? witness Sequence([])

  /** A log event's `Properties`: a read-only dictionary from name to value. */
  type EventProperties = ps: seq<KeyValuePair<PropertyValue>> | DistinctKeys(ps) witness []

  /** An `IFormatProvider`, known only by its culture name. */
  datatype FormatProvider = FormatProvider(cultureName: string)

  /**
   * The operations the core calls on code outside it, as total functions:
   * `IFormattable.ToString(format, provider)`, `TextWriter.Write(bool)`,
   * `object.ToString()` (which may return null) and Serilog's
   * `JsonValueFormatter` with type tag name "$type".
   */
  datatype Platform = Platform(
    formattableToString: (ScalarObject, Option<string>, Option<FormatProvider>) -> string,
    boolText: bool -> string,
    objectToString: ScalarObject -> Option<string>,
    jsonValueFormatter: PropertyValue -> string)

  /** The exceptions the core throws. */
  datatype Exception =
    | ArgumentOutOfRange(paramName: string, actualValue: Option<int>)  // a collection indexer gives no actual value
    | KeyNotFound(key: string)
    | NotImplemented
    | InvalidJsonNumber  // the `ArgumentException` `Utf8JsonWriter` throws for NaN or an infinity

  /** `properties.FirstOrDefault(p => p.Name == name)`. */
  function FirstNamed(ps: seq<LogEventProperty>, name: string): (r: Option<LogEventProperty>)
    ensures r.Some? <==> exists i :: 0 <= i < |ps| && ps[i].name == name
    ensures r.Some? ==> exists i :: 0 <= i < |ps| && ps[i] == r.value
                          && ps[i].name == name
                          && forall j :: 0 <= j < i ==> ps[j].name != name
  {
    if ps == [] then None
    else if ps[0].name == name then Some(ps[0])
    else
      var r := FirstNamed(ps[1..], name);
      assert forall i :: 1 <= i < |ps| ==> ps[i] == ps[1..][i - 1];
      r
  }

  /** The last property named `name`: the one a dictionary keeps. */
  function LastNamed(ps: seq<LogEventProperty>, name: string): (r: Option<LogEventProperty>)
    ensures r.Some? <==> exists i :: 0 <= i < |ps| && ps[i].name == name
    ensures r.Some? ==> exists i :: 0 <= i < |ps| && ps[i] == r.value
                          && ps[i].name == name
                          && forall j :: i < j < |ps| ==> ps[j].name != name
  {
    if ps == [] then None
    else if ps[|ps| - 1].name == name then Some(ps[|ps| - 1])
    else
      var r := LastNamed(ps[..|ps| - 1], name);
      assert forall i :: 0 <= i < |ps| - 1 ==> ps[i] == ps[..|ps| - 1][i];
      r
  }
}
