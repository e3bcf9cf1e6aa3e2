/**
 * Properties/LogEventPropertySerializer.cs: the compact JSON encoding of a
 * value tree, written token by token to a `Utf8JsonWriter`.
 */
module PropertySerializer {
  import opened Wrappers
  import opened Events
  import opened Json

  datatype JsonSerializerOptions = JsonSerializerOptions(writeIndented: bool)

  /** The integral types with a `WriteNumberValue` overload in the dispatch table. */
  predicate IsNumberKind(k: IntegralKind) {
    k == Int32 || k == UInt32 || k == Int64 || k == UInt64
  }

  /** The scalars written as JSON numbers. */
  predicate IsJsonNumber(o: ScalarObject) {
    (o.Integral? && IsNumberKind(o.kind)) || o.Single? || o.Double? || o.Decimal?
  }

  /** Appending `b` and then `c` to `a` appends their concatenation. */
  lemma AppendAfter<T>(a: seq<T>, b: seq<T>, c: seq<T>, bc: seq<T>)
    requires bc == b + c
    ensures a + b + c == a + bc
  {
  }

  /**
   * Stopping part way through `y`, after `before` and `done`, leaves a prefix
   * of `before` followed by `done`, all of `y` and `rest`.
   */
  lemma PrefixInside<T>(before: seq<T>, done: seq<T>, y: seq<T>, rest: seq<T>, w: seq<T>)
    requires before + done <= w <= before + done + y
    ensures before <= w <= before + (done + y + rest)
  {
    assert (before + (done + y + rest))[..|w|] == (before + done + y)[..|w|];
    assert w[..|before|] == (before + done)[..|before|];
  }

  class LogEventPropertySerializer {
    const formatProvider: Option<FormatProvider>
    const platform: Platform
    const options: JsonSerializerOptions

    constructor (formatProvider: Option<FormatProvider>, platform: Platform)
      ensures this.formatProvider == formatProvider && this.platform == platform
      ensures !options.writeIndented
    {
      this.formatProvider := formatProvider;
      this.platform := platform;
      this.options := JsonSerializerOptions(writeIndented := false);
    }

    /**
     * The single token `WriteScalar` selects for `o`; the writer refuses it
     * when it is a NaN or infinite float (see `Writable`).
     */
    function ScalarToken(o: ScalarObject): (t: JsonToken)
      ensures IsAtom(t)
      ensures t.NumberValue? <==> IsJsonNumber(o)
      ensures o.Str? ==> t == StringValue(Text(o.s))
      ensures o.Bool? ==> t == BooleanValue(o.b)
      ensures o.Integral? && IsNumberKind(o.kind) ==> t == NumberValue(Integer(o.i))
      ensures o.Single? ==> t == NumberValue(SingleNumber(o.singleBits))
      ensures o.Double? ==> t == NumberValue(DoubleNumber(o.doubleBits))
      ensures o.Decimal? ==> t == NumberValue(DecimalNumber(o.mantissa, o.scale))
      ensures o.DateTime? ==> t == StringValue(DateTimeText(o.ticks, o.dateKind))
      ensures o.DateTimeOffset? ==> t == StringValue(DateTimeOffsetText(o.offsetTicks, o.offsetMinutes))
      ensures o.Guid? ==> t == StringValue(GuidText(o.guidBytes))
      ensures o.ByteMemory? ==> t == StringValue(Base64Text(o.memoryBytes))
      ensures o.ByteArray? ==> t == StringValue(Base64Text(o.arrayBytes))
      ensures (o.Integral? && !IsNumberKind(o.kind)) || o.OtherFormattable? ==>
                t == StringValue(Text(platform.formattableToString(o, None, formatProvider)))
      ensures o.Null? ==> t == NullValue
      ensures o.OtherObject? ==>
                t == match platform.objectToString(o) case Some(s) => StringValue(Text(s)) case None => NullValue
    {
      match o
      case Str(s) => StringValue(Text(s))
      case Bool(b) => BooleanValue(b)
      case Integral(k, i) =>
        if IsNumberKind(k) then NumberValue(Integer(i))
        else StringValue(Text(platform.formattableToString(o, None, formatProvider)))
      case Single(bits) => NumberValue(SingleNumber(bits))
      case Double(bits) => NumberValue(DoubleNumber(bits))
      case Decimal(m, scale) => NumberValue(DecimalNumber(m, scale))
      case DateTime(ticks, kind) => StringValue(DateTimeText(ticks, kind))
      case DateTimeOffset(ticks, offset) => StringValue(DateTimeOffsetText(ticks, offset))
      case Guid(g) => StringValue(GuidText(g))
      case ByteMemory(bytes) => StringValue(Base64Text(bytes))
      case ByteArray(bytes) => StringValue(Base64Text(bytes))
      case OtherFormattable(_) => StringValue(Text(platform.formattableToString(o, None, formatProvider)))
      case Null => NullValue
      case OtherObject(_) =>
        match platform.objectToString(o)
        case Some(s) => StringValue(Text(s))
        case None => NullValue
    }

    /**
     * The tokens `WriteValue` writes for a node: one literal for a scalar; a
     * structure or sequence bracketed by its start and end tokens.
     */
    function Encode(v: PropertyValue): (r: seq<JsonToken>)
      ensures v.Scalar? <==> |r| == 1
      ensures v.Scalar? ==> r[0] == ScalarToken(v.obj)
      ensures v.Structure? ==> |r| >= 2 && r[0] == StartObject && r[|r| - 1] == EndObject
      ensures v.Sequence? ==> |r| >= 2 && r[0] == StartArray && r[|r| - 1] == EndArray
      decreases v
    {
      match v
      case Scalar(o) => [ScalarToken(o)]
      case Structure(_, ps) => [StartObject] + EncodeProperties(ps) + [EndObject]
      case Sequence(es) => [StartArray] + EncodeElements(es) + [EndArray]
    }

    function EncodeProperties(ps: seq<LogEventProperty>): seq<JsonToken>
      decreases ps
    {
      if ps == [] then [] else [PropertyName(ps[0].name)] + Encode(ps[0].value) + EncodeProperties(ps[1..])
    }

    function EncodeElements(es: seq<PropertyValue>): seq<JsonToken>
      decreases es
    {
      if es == [] then [] else Encode(es[0]) + EncodeElements(es[1..])
    }

    /** A null node is written as JSON null. */
    function EncodeNode(v: Option<PropertyValue>): seq<JsonToken> {
      match v
      case None => [NullValue]
      case Some(x) => Encode(x)
    }

    /** The writer accepts a scalar's token: it is not a NaN or infinite float. */
    predicate Accepted(o: ScalarObject) {
      var t := ScalarToken(o);
      t.NumberValue? ==> IsFinite(t.num)
    }

    /** `WriteValue` completes on a node exactly when the writer accepts every scalar in it. */
    predicate Writable(v: PropertyValue)
      decreases v
    {
      match v
      case Scalar(o) => Accepted(o)
      case Structure(_, ps) => forall i :: 0 <= i < |ps| ==> Writable(ps[i].value)
      case Sequence(es) => forall i :: 0 <= i < |es| ==> Writable(es[i])
    }

    predicate WritableNode(v: Option<PropertyValue>) {
      v.None? || Writable(v.value)
    }

    /**
     * The JSON value a node stands for: a structure is an object with one
     * member per property, in property order, and no member for the type tag;
     * a sequence is an array of its elements in order.
     */
    function JsonOf(v: PropertyValue): (r: JsonValue)
      ensures v.Scalar? ==> r == AtomValue(ScalarToken(v.obj))
      ensures v.Structure? ==>
                && r.JObject? && |r.members| == |v.properties|
                && forall i :: 0 <= i < |v.properties| ==>
                     r.members[i] == JsonMember(v.properties[i].name, JsonOf(v.properties[i].value))
      ensures v.Sequence? ==>
                && r.JArray? && |r.items| == |v.elements|
                && forall i :: 0 <= i < |v.elements| ==> r.items[i] == JsonOf(v.elements[i])
      decreases v
    {
      match v
      case Scalar(o) => AtomValue(ScalarToken(o))
      case Structure(_, ps) => JObject(MembersOf(ps))
      case Sequence(es) => JArray(ItemsOf(es))
    }

    function MembersOf(ps: seq<LogEventProperty>): (r: seq<JsonMember>)
      ensures |r| == |ps|
      ensures forall i :: 0 <= i < |ps| ==> r[i] == JsonMember(ps[i].name, JsonOf(ps[i].value))
      decreases ps
    {
      if ps == [] then [] else [JsonMember(ps[0].name, JsonOf(ps[0].value))] + MembersOf(ps[1..])
    }

    function ItemsOf(es: seq<PropertyValue>): (r: seq<JsonValue>)
      ensures |r| == |es|
      ensures forall i :: 0 <= i < |es| ==> r[i] == JsonOf(es[i])
      decreases es
    {
      if es == [] then [] else [JsonOf(es[0])] + ItemsOf(es[1..])
    }

    /** No encoding starts with a closing token. */
    lemma EncodeStart(v: PropertyValue)
      ensures |Encode(v)| > 0
      ensures Encode(v)[0] != EndArray && Encode(v)[0] != EndObject
    {
    }

    /** The tokens written for a node read back as exactly that node's JSON value. */
    lemma {:induction false} ParseEncode(v: PropertyValue, rest: seq<JsonToken>)
      ensures ParseValue(Encode(v) + rest) == Some((JsonOf(v), rest))
      decreases v, 1
    {
      var ts := Encode(v) + rest;
      match v
      case Scalar(o) =>
        assert ts[0] == ScalarToken(o) && ts[1..] == rest;
      case Structure(_, ps) =>
        assert ts[0] == StartObject;
        assert ts[1..] == EncodeProperties(ps) + ([EndObject] + rest);
        ParseEncodeProperties(ps, [], rest);
        assert [] + MembersOf(ps) == MembersOf(ps);
      case Sequence(es) =>
        assert ts[0] == StartArray;
        assert ts[1..] == EncodeElements(es) + ([EndArray] + rest);
        ParseEncodeElements(es, [], rest);
        assert [] + ItemsOf(es) == ItemsOf(es);
    }

    lemma {:induction false} ParseEncodeProperties(ps: seq<LogEventProperty>, acc: seq<JsonMember>, rest: seq<JsonToken>)
      ensures ParseMembers(EncodeProperties(ps) + ([EndObject] + rest), acc) == Some((JObject(acc + MembersOf(ps)), rest))
      decreases ps, 0
    {
      var ts := EncodeProperties(ps) + ([EndObject] + rest);
      if ps == [] {
        assert acc + MembersOf(ps) == acc;
        assert ts == [EndObject] + rest;
      } else {
        var p := ps[0];
        var after := EncodeProperties(ps[1..]) + ([EndObject] + rest);
        assert ts == [PropertyName(p.name)] + (Encode(p.value) + after);
        assert ts[1..] == Encode(p.value) + after;
        ParseEncode(p.value, after);
        var member := JsonMember(p.name, JsonOf(p.value));
        assert ParseMembers(ts, acc) == ParseMembers(after, acc + [member]);
        ParseEncodeProperties(ps[1..], acc + [member], rest);
        assert MembersOf(ps) == [member] + MembersOf(ps[1..]);
        AppendAfter(acc, [member], MembersOf(ps[1..]), MembersOf(ps));
      }
    }

    lemma {:induction false} ParseEncodeElements(es: seq<PropertyValue>, acc: seq<JsonValue>, rest: seq<JsonToken>)
      ensures ParseItems(EncodeElements(es) + ([EndArray] + rest), acc) == Some((JArray(acc + ItemsOf(es)), rest))
      decreases es, 0
    {
      var ts := EncodeElements(es) + ([EndArray] + rest);
      if es == [] {
        assert acc + ItemsOf(es) == acc;
        assert ts == [EndArray] + rest;
      } else {
        var after := EncodeElements(es[1..]) + ([EndArray] + rest);
        assert ts == Encode(es[0]) + after;
        EncodeStart(es[0]);
        assert ts[0] == Encode(es[0])[0];
        ParseEncode(es[0], after);
        var item := JsonOf(es[0]);
        assert ParseItems(ts, acc) == ParseItems(after, acc + [item]);
        ParseEncodeElements(es[1..], acc + [item], rest);
        assert ItemsOf(es) == [item] + ItemsOf(es[1..]);
        AppendAfter(acc, [item], ItemsOf(es[1..]), ItemsOf(es));
      }
    }

    /** Every encoding is one complete, well-formed JSON document denoting `JsonOf(v)`. */
    lemma EncodingIsDocument(v: PropertyValue)
      ensures Parse(Encode(v)) == Some(JsonOf(v))
    {
      ParseEncode(v, []);
      assert Encode(v) + [] == Encode(v);
    }

    /** The type tag never reaches the JSON output. */
    lemma TypeTagNotEmitted(tag: Option<string>, ps: seq<LogEventProperty>)
      ensures Encode(Structure(tag, ps)) == Encode(Structure(None, ps))
      ensures JsonOf(Structure(tag, ps)) == JObject(MembersOf(ps))
    {
    }

    lemma {:induction false} EncodePropertiesAppend(a: seq<LogEventProperty>, b: seq<LogEventProperty>)
      ensures EncodeProperties(a + b) == EncodeProperties(a) + EncodeProperties(b)
      decreases a
    {
      if a != [] {
        var head := [PropertyName(a[0].name)] + Encode(a[0].value);
        assert (a + b)[0] == a[0] && (a + b)[1..] == a[1..] + b;
        assert EncodeProperties(a + b) == head + EncodeProperties(a[1..] + b);
        EncodePropertiesAppend(a[1..], b);
        assert EncodeProperties(a) == head + EncodeProperties(a[1..]);
      } else {
        assert a + b == b;
      }
    }

    lemma {:induction false} EncodeElementsAppend(a: seq<PropertyValue>, b: seq<PropertyValue>)
      ensures EncodeElements(a + b) == EncodeElements(a) + EncodeElements(b)
      decreases a
    {
      if a != [] {
        assert (a + b)[0] == a[0] && (a + b)[1..] == a[1..] + b;
        EncodeElementsAppend(a[1..], b);
      } else {
        assert a + b == b;
      }
    }

    lemma EncodePropertiesSnoc(ps: seq<LogEventProperty>, i: nat)
      requires i < |ps|
      ensures EncodeProperties(ps[..i + 1]) == EncodeProperties(ps[..i]) + [PropertyName(ps[i].name)] + Encode(ps[i].value)
    {
      EncodePropertiesAppend(ps[..i], [ps[i]]);
      assert ps[..i + 1] == ps[..i] + [ps[i]];
      assert [ps[i]][1..] == [];
    }

    lemma EncodeElementsSnoc(es: seq<PropertyValue>, i: nat)
      requires i < |es|
      ensures EncodeElements(es[..i + 1]) == EncodeElements(es[..i]) + Encode(es[i])
    {
      EncodeElementsAppend(es[..i], [es[i]]);
      assert es[..i + 1] == es[..i] + [es[i]];
      assert [es[i]][1..] == [];
    }

    lemma EncodePropertiesAt(ps: seq<LogEventProperty>, k: nat)
      requires k <= |ps|
      ensures EncodeProperties(ps) == EncodeProperties(ps[..k]) + EncodeProperties(ps[k..])
    {
      assert ps[..k] + ps[k..] == ps;
      EncodePropertiesAppend(ps[..k], ps[k..]);
    }

    /** Where property `i` sits in the encoding: after the properties before it, before the rest. */
    lemma EncodePropertiesSplit(ps: seq<LogEventProperty>, i: nat)
      requires i < |ps|
      ensures EncodeProperties(ps)
           == EncodeProperties(ps[..i]) + [PropertyName(ps[i].name)] + Encode(ps[i].value) + EncodeProperties(ps[i + 1..])
    {
      EncodePropertiesAt(ps, i + 1);
      EncodePropertiesSnoc(ps, i);
    }

    /** Where element `i` sits in the encoding. */
    lemma EncodeElementsSplit(es: seq<PropertyValue>, i: nat)
      requires i < |es|
      ensures EncodeElements(es) == EncodeElements(es[..i]) + Encode(es[i]) + EncodeElements(es[i + 1..])
    {
      EncodeElementsAppend(es[..i + 1], es[i + 1..]);
      assert es[..i + 1] + es[i + 1..] == es;
      EncodeElementsSnoc(es, i);
    }

    /**
     * `WriteScalar`: the type switch over the scalar's object. A NaN or
     * infinite float makes the writer throw before it writes anything.
     */
    method WriteScalar(writer: Utf8JsonWriter, value: ScalarObject) returns (error: Option<Exception>)
      modifies writer
      ensures error.None? <==> Accepted(value)
      ensures error.None? ==> writer.tokens == old(writer.tokens) + [ScalarToken(value)]
      ensures error.Some? ==> error.value == InvalidJsonNumber && writer.tokens == old(writer.tokens)
    {
      error := None;
      var ok := true;
      match value {
      case Str(s) => writer.WriteLiteral(StringValue(Text(s)));
      case Bool(b) => writer.WriteLiteral(BooleanValue(b));
      case Integral(k, i) =>
        if IsNumberKind(k) {
          ok := writer.WriteNumberValue(Integer(i));
        } else {
          writer.WriteLiteral(StringValue(Text(platform.formattableToString(value, None, formatProvider))));
        }
      case Single(bits) => ok := writer.WriteNumberValue(SingleNumber(bits));
      case Double(bits) => ok := writer.WriteNumberValue(DoubleNumber(bits));
      case Decimal(m, scale) => ok := writer.WriteNumberValue(DecimalNumber(m, scale));
      case DateTime(ticks, kind) => writer.WriteLiteral(StringValue(DateTimeText(ticks, kind)));
      case DateTimeOffset(ticks, offset) => writer.WriteLiteral(StringValue(DateTimeOffsetText(ticks, offset)));
      case Guid(g) => writer.WriteLiteral(StringValue(GuidText(g)));
      case ByteMemory(bytes) => writer.WriteLiteral(StringValue(Base64Text(bytes)));
      case ByteArray(bytes) => writer.WriteLiteral(StringValue(Base64Text(bytes)));
      case OtherFormattable(_) =>
        writer.WriteLiteral(StringValue(Text(platform.formattableToString(value, None, formatProvider))));
      case Null => writer.WriteLiteral(NullValue);
      case OtherObject(_) =>
        var str := platform.objectToString(value);
        if str.None? {
          writer.WriteLiteral(NullValue);
        } else {
          writer.WriteLiteral(StringValue(Text(str.value)));
        }
      }
      if !ok {
        error := Some(InvalidJsonNumber);
      }
    }

    /**
     * `WriteValue`: the recursive walk over the tree. When the writer throws,
     * what it holds is a prefix of the node's encoding.
     */
    method WriteValue(writer: Utf8JsonWriter, propertyValue: Option<PropertyValue>) returns (error: Option<Exception>)
      modifies writer
      ensures error.None? <==> WritableNode(propertyValue)
      ensures error.None? ==> writer.tokens == old(writer.tokens) + EncodeNode(propertyValue)
      ensures error.Some? ==> error.value == InvalidJsonNumber
                              && old(writer.tokens) <= writer.tokens <= old(writer.tokens) + EncodeNode(propertyValue)
      decreases if propertyValue.Some? then propertyValue.value else Scalar(Null), 1
    {
      if propertyValue.None? {
        writer.WriteLiteral(NullValue);
        return None;
      }
      ghost var before := writer.tokens;
      match propertyValue.value
      case Scalar(o) =>
        error := WriteScalar(writer, o);
      case Structure(_, ps) =>
        writer.WriteStartObject();
        error := WriteProperties(writer, ps);
        if error.None? {
          writer.WriteEndObject();
        } else {
          PrefixInside(before, [StartObject], EncodeProperties(ps), [EndObject], writer.tokens);
        }
      case Sequence(es) =>
        writer.WriteStartArray();
        error := WriteElements(writer, es);
        if error.None? {
          writer.WriteEndArray();
        } else {
          PrefixInside(before, [StartArray], EncodeElements(es), [EndArray], writer.tokens);
        }
    }

    /** The `foreach` over a structure's properties inside `WriteValue`: each name, then its value. */
    method WriteProperties(writer: Utf8JsonWriter, ps: seq<LogEventProperty>) returns (error: Option<Exception>)
      modifies writer
      ensures error.None? <==> forall i :: 0 <= i < |ps| ==> Writable(ps[i].value)
      ensures error.None? ==> writer.tokens == old(writer.tokens) + EncodeProperties(ps)
      ensures error.Some? ==> error.value == InvalidJsonNumber
                              && old(writer.tokens) <= writer.tokens <= old(writer.tokens) + EncodeProperties(ps)
      decreases ps, 0
    {
      ghost var before := writer.tokens;
      for i := 0 to |ps|
        invariant writer.tokens == before + EncodeProperties(ps[..i])
        invariant forall j :: 0 <= j < i ==> Writable(ps[j].value)
      {
        writer.WritePropertyName(ps[i].name);
        ghost var done := EncodeProperties(ps[..i]) + [PropertyName(ps[i].name)];
        assert writer.tokens == before + done;
        error := WriteValue(writer, Some(ps[i].value));
        if error.Some? {
          assert before <= writer.tokens <= before + EncodeProperties(ps) by {
            EncodePropertiesSplit(ps, i);
            PrefixInside(before, done, Encode(ps[i].value), EncodeProperties(ps[i + 1..]), writer.tokens);
          }
          return;
        }
        EncodePropertiesSnoc(ps, i);
        AppendAfter(before, done, Encode(ps[i].value), EncodeProperties(ps[..i + 1]));
      }
      assert ps[..|ps|] == ps;
      return None;
    }

    /** The `foreach` over a sequence's elements inside `WriteValue`. */
    method WriteElements(writer: Utf8JsonWriter, es: seq<PropertyValue>) returns (error: Option<Exception>)
      modifies writer
      ensures error.None? <==> forall i :: 0 <= i < |es| ==> Writable(es[i])
      ensures error.None? ==> writer.tokens == old(writer.tokens) + EncodeElements(es)
      ensures error.Some? ==> error.value == InvalidJsonNumber
                              && old(writer.tokens) <= writer.tokens <= old(writer.tokens) + EncodeElements(es)
      decreases es, 0
    {
      ghost var before := writer.tokens;
      for i := 0 to |es|
        invariant writer.tokens == before + EncodeElements(es[..i])
        invariant forall j :: 0 <= j < i ==> Writable(es[j])
      {
        error := WriteValue(writer, Some(es[i]));
        if error.Some? {
          assert before <= writer.tokens <= before + EncodeElements(es) by {
            EncodeElementsSplit(es, i);
            PrefixInside(before, EncodeElements(es[..i]), Encode(es[i]), EncodeElements(es[i + 1..]), writer.tokens);
          }
          return;
        }
        EncodeElementsSnoc(es, i);
        AppendAfter(before, EncodeElements(es[..i]), Encode(es[i]), EncodeElements(es[..i + 1]));
      }
      assert es[..|es|] == es;
      return None;
    }

    /** The JSON converter's `Write`: hands the value to `WriteValue`. */
    method Write(writer: Utf8JsonWriter, value: PropertyValue) returns (error: Option<Exception>)
      modifies writer
      ensures error.None? <==> Writable(value)
      ensures error.None? ==> writer.tokens == old(writer.tokens) + Encode(value)
      ensures error.Some? ==> error.value == InvalidJsonNumber
    {
      error := WriteValue(writer, Some(value));
    }

    /**
     * A structure holding a double NaN or infinity, or a float NaN, cannot be
     * written; one holding 1.0 can.
     */
    lemma NonFiniteExample()
      ensures !Writable(Structure(None, [LogEventProperty("x", Scalar(Double(0x7FF8_0000_0000_0000)))]))
      ensures !Writable(Sequence([Scalar(Integral(Int32, 1)), Scalar(Double(0xFFF0_0000_0000_0000))]))
      ensures !Writable(Scalar(Single(0x7FC0_0000)))
      ensures Writable(Structure(None, [LogEventProperty("x", Scalar(Double(0x3FF0_0000_0000_0000)))]))
    {
      var nan := LogEventProperty("x", Scalar(Double(0x7FF8_0000_0000_0000)));
      assert !Writable([nan][0].value);
      var infinity := Scalar(Double(0xFFF0_0000_0000_0000));
      assert !Writable([Scalar(Integral(Int32, 1)), infinity][1]);
      var one := LogEventProperty("x", Scalar(Double(0x3FF0_0000_0000_0000)));
      assert forall i :: 0 <= i < |[one]| ==> [one][i] == one;
    }

    /** The JSON converter's `Read`: reading a value back is not supported. */
    function Read(tokens: seq<JsonToken>): (r: Result<PropertyValue, Exception>)
      ensures r.Failure? && r.error == NotImplemented
    {
      Failure(NotImplemented)
    }

    /**
     * `Serialize(StructureValue)`, as evidently intended: the structure's own
     * encoding, a JSON object of its properties in order.
     */
    method SerializeStructure(structure: StructureValue) returns (r: Result<seq<JsonToken>, Exception>)
      ensures r.Success? <==> Writable(structure)
      ensures r.Success? ==> r.value == Encode(structure)
                             && Parse(r.value) == Some(JObject(MembersOf(structure.properties)))
      ensures r.Failure? ==> r.error == InvalidJsonNumber
    {
      var writer := new Utf8JsonWriter();
      var error := Write(writer, structure);
      if error.Some? {
        return Failure(error.value);
      }
      EncodingIsDocument(structure);
      return Success(writer.tokens);
    }

    /** `Serialize(SequenceValue)`, as evidently intended: a JSON array of the elements in order. */
    method SerializeSequence(sequence: SequenceValue) returns (r: Result<seq<JsonToken>, Exception>)
      ensures r.Success? <==> Writable(sequence)
      ensures r.Success? ==> r.value == Encode(sequence)
                             && Parse(r.value) == Some(JArray(ItemsOf(sequence.elements)))
      ensures r.Failure? ==> r.error == InvalidJsonNumber
    {
      var writer := new Utf8JsonWriter();
      var error := Write(writer, sequence);
      if error.Some? {
        return Failure(error.value);
      }
      EncodingIsDocument(sequence);
      return Success(writer.tokens);
    }

    /**
     * What `JsonSerializer.Serialize(structure, options)` writes as the source
     * stands: the converter is registered for `LogEventPropertyValue`, and a
     * `JsonConverter<T>` only claims the exact type `T`, so the
     * `StructureValue` itself goes through reflection (its public properties
     * `TypeTag` and `Properties`, each `LogEventProperty` as `Name`/`Value`),
     * and only the nested `Value`s reach `WriteValue`. Those still go through
     * `WriteScalar`, so a NaN or an infinity anywhere in the tree raises
     * `ArgumentException` and nothing is returned.
     */
    function StructureAsWritten(structure: StructureValue): Result<seq<JsonToken>, Exception> {
      if Writable(structure) then Success(ReflectedStructure(structure)) else Failure(InvalidJsonNumber)
    }

    /** The tokens reflection writes for a structure whose every scalar can be written. */
    function ReflectedStructure(structure: StructureValue): seq<JsonToken> {
      var tag := match structure.typeTag
        case Some(t) => StringValue(Text(t))
        case None => NullValue;
      [StartObject, PropertyName("TypeTag"), tag, PropertyName("Properties"), StartArray]
        + PropertyObjects(structure.properties)
        + [EndArray, EndObject]
    }

    function PropertyObjects(ps: seq<LogEventProperty>): seq<JsonToken> {
      if ps == [] then [] else PropertyObject(ps[0]) + PropertyObjects(ps[1..])
    }

    /** Reflection over one `LogEventProperty`: its `Name`, then its `Value` through the converter. */
    function PropertyObject(p: LogEventProperty): seq<JsonToken> {
      [StartObject, PropertyName("Name"), StringValue(Text(p.name)), PropertyName("Value")] + Encode(p.value) + [EndObject]
    }

    /** The same for `Serialize(SequenceValue)`: an object with one member `Elements`, or the writer's exception. */
    function SequenceAsWritten(sequence: SequenceValue): Result<seq<JsonToken>, Exception> {
      if Writable(sequence) then Success(ReflectedSequence(sequence)) else Failure(InvalidJsonNumber)
    }

    function ReflectedSequence(sequence: SequenceValue): seq<JsonToken> {
      [StartObject, PropertyName("Elements")] + Encode(sequence) + [EndObject]
    }

    /** The JSON value reflection gives each `LogEventProperty`: an object with `Name` and `Value`. */
    function PropertyObjectValues(ps: seq<LogEventProperty>): (r: seq<JsonValue>)
      ensures |r| == |ps|
      ensures forall i :: 0 <= i < |ps| ==>
                r[i] == JObject([JsonMember("Name", JString(Text(ps[i].name))), JsonMember("Value", JsonOf(ps[i].value))])
    {
      seq(|ps|, i requires 0 <= i < |ps| =>
        JObject([JsonMember("Name", JString(Text(ps[i].name))), JsonMember("Value", JsonOf(ps[i].value))]))
    }

    /** One reflected property object reads back as its `Name` and `Value` members. */
    lemma ParsePropertyObject(p: LogEventProperty, after: seq<JsonToken>)
      ensures ParseValue(PropertyObject(p) + after)
           == Some((JObject([JsonMember("Name", JString(Text(p.name))), JsonMember("Value", JsonOf(p.value))]), after))
    {
      var name := JsonMember("Name", JString(Text(p.name)));
      var value := JsonMember("Value", JsonOf(p.value));
      var tail := [PropertyName("Value")] + Encode(p.value) + ([EndObject] + after);
      var ts := PropertyObject(p) + after;
      assert ts == [StartObject] + ([PropertyName("Name"), StringValue(Text(p.name))] + tail);
      AtomMember("Name", StringValue(Text(p.name)), tail, []);
      EncodedMember("Value", p.value, [EndObject] + after, [] + [name]);
      assert [] + [name] + [value] == [name, value];
      assert ([EndObject] + after)[1..] == after;
    }

    /** A member whose value is a single literal token. */
    lemma AtomMember(key: string, t: JsonToken, rest: seq<JsonToken>, acc: seq<JsonMember>)
      requires t.StringValue? || t.NullValue?
      ensures ParseMembers([PropertyName(key), t] + rest, acc) == ParseMembers(rest, acc + [JsonMember(key, AtomValue(t))])
    {
      var ts := [PropertyName(key), t] + rest;
      assert ts[1..] == [t] + rest;
      assert ParseValue(ts[1..]) == Some((AtomValue(t), rest));
    }

    /** A member whose value is the encoding of a node. */
    lemma EncodedMember(key: string, v: PropertyValue, rest: seq<JsonToken>, acc: seq<JsonMember>)
      ensures ParseMembers([PropertyName(key)] + Encode(v) + rest, acc) == ParseMembers(rest, acc + [JsonMember(key, JsonOf(v))])
    {
      var ts := [PropertyName(key)] + Encode(v) + rest;
      assert ts[1..] == Encode(v) + rest;
      ParseEncode(v, rest);
    }

    /** The reflected `Properties` array, followed by its closing token, reads back as one object per property. */
    lemma {:induction false} ParsePropertyObjects(ps: seq<LogEventProperty>, acc: seq<JsonValue>, rest: seq<JsonToken>)
      ensures ParseItems(PropertyObjects(ps) + ([EndArray] + rest), acc)
           == Some((JArray(acc + PropertyObjectValues(ps)), rest))
      decreases ps
    {
      var ts := PropertyObjects(ps) + ([EndArray] + rest);
      if ps == [] {
        assert acc + PropertyObjectValues(ps) == acc;
        assert ts == [EndArray] + rest;
      } else {
        var p := ps[0];
        var after := PropertyObjects(ps[1..]) + ([EndArray] + rest);
        assert ts == PropertyObject(p) + after;
        ParsePropertyObject(p, after);
        var reflected := JObject([JsonMember("Name", JString(Text(p.name))), JsonMember("Value", JsonOf(p.value))]);
        assert ParseItems(ts, acc) == ParseItems(after, acc + [reflected]);
        ParsePropertyObjects(ps[1..], acc + [reflected], rest);
        assert PropertyObjectValues(ps) == [reflected] + PropertyObjectValues(ps[1..]);
        AppendAfter(acc, [reflected], PropertyObjectValues(ps[1..]), PropertyObjectValues(ps));
      }
    }

    /**
     * As written, a structure whose every scalar can be written serializes as
     * an object with members `TypeTag` (null when untagged) and `Properties`,
     * an array of `Name`/`Value` objects; any other raises the writer's exception.
     */
    lemma StructureAsWrittenDocument(structure: StructureValue)
      ensures StructureAsWritten(structure).Success? <==> Writable(structure)
      ensures StructureAsWritten(structure).Failure? ==> StructureAsWritten(structure).error == InvalidJsonNumber
      ensures StructureAsWritten(structure).Success? ==>
                Parse(StructureAsWritten(structure).value) == Some(JObject([
                  JsonMember("TypeTag", match structure.typeTag case Some(t) => JString(Text(t)) case None => JNull),
                  JsonMember("Properties", JArray(PropertyObjectValues(structure.properties)))]))
    {
      ReflectedStructureDocument(structure);
    }

    lemma ReflectedStructureDocument(structure: StructureValue)
      ensures Parse(ReflectedStructure(structure)) == Some(JObject([
                JsonMember("TypeTag", match structure.typeTag case Some(t) => JString(Text(t)) case None => JNull),
                JsonMember("Properties", JArray(PropertyObjectValues(structure.properties)))]))
    {
      var tag := match structure.typeTag case Some(t) => StringValue(Text(t)) case None => NullValue;
      var tagMember := JsonMember("TypeTag", AtomValue(tag));
      var properties := JsonMember("Properties", JArray(PropertyObjectValues(structure.properties)));
      var rest := [PropertyName("Properties"), StartArray] + PropertyObjects(structure.properties) + [EndArray, EndObject];
      assert ReflectedStructure(structure) == [StartObject] + ([PropertyName("TypeTag"), tag] + rest);
      AtomMember("TypeTag", tag, rest, []);
      assert [] + [tagMember] == [tagMember];
      PropertiesArrayMember(structure.properties, [tagMember]);
      assert [tagMember] + [properties] == [tagMember, properties];
      assert AtomValue(tag) == match structure.typeTag case Some(t) => JString(Text(t)) case None => JNull;
    }

    /** The `Properties` member and the closing brace after the `TypeTag` member. */
    lemma PropertiesArrayMember(ps: seq<LogEventProperty>, acc: seq<JsonMember>)
      ensures ParseMembers([PropertyName("Properties"), StartArray] + PropertyObjects(ps) + [EndArray, EndObject], acc)
           == Some((JObject(acc + [JsonMember("Properties", JArray(PropertyObjectValues(ps)))]), []))
    {
      var whole := [PropertyName("Properties"), StartArray] + PropertyObjects(ps) + [EndArray, EndObject];
      var arrayTokens := [StartArray] + PropertyObjects(ps) + [EndArray, EndObject];
      var member := JsonMember("Properties", JArray(PropertyObjectValues(ps)));
      assert ParseValue(arrayTokens) == Some((JArray(PropertyObjectValues(ps)), [EndObject])) by {
        assert arrayTokens[1..] == PropertyObjects(ps) + ([EndArray] + [EndObject]);
        ParsePropertyObjects(ps, [], [EndObject]);
        assert [] + PropertyObjectValues(ps) == PropertyObjectValues(ps);
      }
      assert whole[0] == PropertyName("Properties") && whole[1..] == arrayTokens;
      assert ParseMembers(whole, acc) == ParseMembers([EndObject], acc + [member]);
      assert [EndObject][1..] == [];
    }

    /**
     * As written, a sequence whose every scalar can be written serializes as an
     * object whose one member `Elements` is the intended array; any other
     * raises the writer's exception.
     */
    lemma SequenceAsWrittenDocument(sequence: SequenceValue)
      ensures SequenceAsWritten(sequence).Success? <==> Writable(sequence)
      ensures SequenceAsWritten(sequence).Failure? ==> SequenceAsWritten(sequence).error == InvalidJsonNumber
      ensures SequenceAsWritten(sequence).Success? ==>
                Parse(SequenceAsWritten(sequence).value) == Some(JObject([JsonMember("Elements", JsonOf(sequence))]))
    {
      var member := JsonMember("Elements", JsonOf(sequence));
      assert ReflectedSequence(sequence) == [StartObject] + ([PropertyName("Elements")] + Encode(sequence) + [EndObject]);
      EncodedMember("Elements", sequence, [EndObject], []);
      assert [] + [member] == [member];
      assert [EndObject][1..] == [];
    }

    lemma {:induction false} PropertyObjectsLength(ps: seq<LogEventProperty>)
      ensures |PropertyObjects(ps)| == |EncodeProperties(ps)| + 4 * |ps|
    {
      if ps != [] {
        PropertyObjectsLength(ps[1..]);
        assert |EncodeProperties(ps)| == 1 + |Encode(ps[0].value)| + |EncodeProperties(ps[1..])|;
      }
    }

    /** As written, no structure serializes to its intended encoding. */
    lemma StructureAsWrittenNeverIntended(structure: StructureValue)
      ensures StructureAsWritten(structure) != Success(Encode(structure))
    {
      PropertyObjectsLength(structure.properties);
    }

    /** As written, no sequence serializes to its intended encoding. */
    lemma SequenceAsWrittenNeverIntended(sequence: SequenceValue)
      ensures SequenceAsWritten(sequence) != Success(Encode(sequence))
    {
    }

    /** The structure `{a = 42}`: intended `{"a":42}`, as written `{"TypeTag":null,"Properties":[{"Name":"a","Value":42}]}`. */
    lemma StructureAsWrittenExample()
      ensures var s := Structure(None, [LogEventProperty("a", Scalar(Integral(Int32, 42)))]);
        && Encode(s) == [StartObject, PropertyName("a"), NumberValue(Integer(42)), EndObject]
        && StructureAsWritten(s) == Success([
             StartObject,
             PropertyName("TypeTag"), NullValue,
             PropertyName("Properties"), StartArray,
             StartObject,
             PropertyName("Name"), StringValue(Text("a")),
             PropertyName("Value"), NumberValue(Integer(42)),
             EndObject,
             EndArray,
             EndObject])
    {
      var ps := [LogEventProperty("a", Scalar(Integral(Int32, 42)))];
      assert ps[1..] == [];
      assert Accepted(Integral(Int32, 42));
      assert forall i :: 0 <= i < |ps| ==> ps[i] == ps[0];
      assert Writable(Structure(None, ps));
      assert PropertyObjects(ps) == PropertyObject(ps[0]);
      assert PropertyObject(ps[0]) == [StartObject, PropertyName("Name"), StringValue(Text("a")),
                                       PropertyName("Value"), NumberValue(Integer(42)), EndObject];
      assert EncodeProperties(ps) == [PropertyName("a"), NumberValue(Integer(42))];
      assert ReflectedStructure(Structure(None, ps)) == [StartObject, PropertyName("TypeTag"), NullValue,
        PropertyName("Properties"), StartArray, StartObject, PropertyName("Name"), StringValue(Text("a")),
        PropertyName("Value"), NumberValue(Integer(42)), EndObject, EndArray, EndObject];
    }

    /** As written, a NaN inside a structure or an infinity inside a sequence still raises the writer's exception. */
    lemma AsWrittenNonFiniteExample()
      ensures StructureAsWritten(Structure(None, [LogEventProperty("x", Scalar(Double(0x7FF8_0000_0000_0000)))]))
           == Failure(InvalidJsonNumber)
      ensures SequenceAsWritten(Sequence([Scalar(Double(0xFFF0_0000_0000_0000))])) == Failure(InvalidJsonNumber)
    {
      var nan := LogEventProperty("x", Scalar(Double(0x7FF8_0000_0000_0000)));
      assert !Writable([nan][0].value);
      assert !Writable([Scalar(Double(0xFFF0_0000_0000_0000))][0]);
    }
  }
}
