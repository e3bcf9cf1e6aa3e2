/**
 * Formatting/CleanMessageTemplateFormatter.cs: renders a parsed message
 * template in the "clean" style: strings unquoted, structured values as JSON,
 * alignment applied to the rendered text.
 */
module CleanFormatting {
  import opened Wrappers
  import opened Events
  import opened Dictionaries
  import opened Padding
  import opened TextOutput

  /** A template token as Serilog's parser produces it; `rawText` is the placeholder's source form. */
  datatype MessageTemplateToken =
    | TextToken(text: string)
    | PropertyToken(propertyName: string, format: Option<string>, alignment: Option<Alignment>, rawText: string)

  /** The text written when the property value is looked up but not yet aligned. */
  function RenderUnaligned(v: PropertyValue, format: Option<string>, provider: Option<FormatProvider>, platform: Platform): (r: string)
    ensures !v.Scalar? ==> r == platform.jsonValueFormatter(v)
    ensures v.Scalar? && v.obj.Null? ==> r == "null"
    ensures v.Scalar? && v.obj.Str? ==> r == v.obj.s
    ensures v.Scalar? && v.obj.Bool? ==> r == platform.boolText(v.obj.b)
    ensures v.Scalar? && IsFormattable(v.obj) ==> r == platform.formattableToString(v.obj, format, provider)
    ensures v.Scalar? && (v.obj.ByteArray? || v.obj.ByteMemory? || v.obj.OtherObject?) ==>
              r == match platform.objectToString(v.obj) case Some(s) => s case None => ""
  {
    if !v.Scalar? then platform.jsonValueFormatter(v)
    else
      var value := v.obj;
      if value.Null? then "null"
      else if value.Str? then value.s
      else if IsValueType(value) && (value.Integral? || value.Decimal?) then platform.formattableToString(value, format, provider)
      else if IsValueType(value) && value.Double? then platform.formattableToString(value, format, provider)
      else if IsValueType(value) && value.Single? then platform.formattableToString(value, format, provider)
      else if IsValueType(value) && value.Bool? then platform.boolText(value.b)
      else if IsFormattable(value) then platform.formattableToString(value, format, provider)
      else match platform.objectToString(value) case Some(s) => s case None => ""
  }

  /** The text one token contributes to the message. */
  function RenderToken(t: MessageTemplateToken, properties: EventProperties, provider: Option<FormatProvider>, platform: Platform): (r: string)
    ensures t.TextToken? ==> r == t.text
    ensures t.PropertyToken? && t.propertyName !in KeySet(properties) ==> r == t.rawText
    ensures t.PropertyToken? && t.propertyName in KeySet(properties) ==>
              var s := RenderUnaligned(Lookup(properties, t.propertyName).value, t.format, provider, platform);
              r == if t.alignment.None? then s else Pad(s, t.alignment.value)
  {
    match t
    case TextToken(text) => text
    case PropertyToken(name, format, alignment, rawText) =>
      match Lookup(properties, name)
      case None => rawText
      case Some(v) =>
        var result := RenderUnaligned(v, format, provider, platform);
        match alignment
        case None => result
        case Some(a) => if Utf16Length(result) >= a.width then result else Pad(result, a)
  }

  /** The concatenation of `parts`, in order. */
  function Concat(parts: seq<string>): (r: string)
  {
    if parts == [] then "" else Concat(parts[..|parts| - 1]) + parts[|parts| - 1]
  }

  lemma {:induction false} ConcatAppend(a: seq<string>, b: seq<string>)
    ensures Concat(a + b) == Concat(a) + Concat(b)
    decreases |b|
  {
    if b == [] {
      assert a + b == a;
    } else {
      assert (a + b)[..|a + b| - 1] == a + b[..|b| - 1];
      ConcatAppend(a, b[..|b| - 1]);
    }
  }

  /** Each token's rendering, position by position. */
  function Renderings(tokens: seq<MessageTemplateToken>, properties: EventProperties,
                      provider: Option<FormatProvider>, platform: Platform): (r: seq<string>)
    ensures |r| == |tokens|
    ensures forall i :: 0 <= i < |tokens| ==> r[i] == RenderToken(tokens[i], properties, provider, platform)
  {
    seq(|tokens|, i requires 0 <= i < |tokens| => RenderToken(tokens[i], properties, provider, platform))
  }

  /** The message: every token's rendering, in template order. */
  function Rendered(tokens: seq<MessageTemplateToken>, properties: EventProperties, provider: Option<FormatProvider>, platform: Platform): string {
    Concat(Renderings(tokens, properties, provider, platform))
  }

  /** The source text of one token: a literal span, or the placeholder as written. */
  function SourceText(t: MessageTemplateToken): string {
    if t.TextToken? then t.text else t.rawText
  }

  /** The template's own text. */
  function TemplateText(tokens: seq<MessageTemplateToken>): string {
    Concat(seq(|tokens|, i requires 0 <= i < |tokens| => SourceText(tokens[i])))
  }

  /** Rendering distributes over concatenation of templates. */
  lemma RenderedAppend(a: seq<MessageTemplateToken>, b: seq<MessageTemplateToken>,
                       properties: EventProperties, provider: Option<FormatProvider>, platform: Platform)
    ensures Rendered(a + b, properties, provider, platform) == Rendered(a, properties, provider, platform) + Rendered(b, properties, provider, platform)
  {
    var ra, rb := Renderings(a, properties, provider, platform), Renderings(b, properties, provider, platform);
    assert Renderings(a + b, properties, provider, platform) == ra + rb;
    ConcatAppend(ra, rb);
  }

  /** Rendering one more token appends that token's rendering. */
  lemma RenderedSnoc(tokens: seq<MessageTemplateToken>, i: nat,
                     properties: EventProperties, provider: Option<FormatProvider>, platform: Platform)
    requires i < |tokens|
    ensures Rendered(tokens[..i + 1], properties, provider, platform)
            == Rendered(tokens[..i], properties, provider, platform) + RenderToken(tokens[i], properties, provider, platform)
  {
    var r := Renderings(tokens[..i + 1], properties, provider, platform);
    assert r[..i] == Renderings(tokens[..i], properties, provider, platform);
  }

  /**
   * When no placeholder names a present property (a literal-only template in
   * particular), the message is the template's own text.
   */
  lemma MissingPropertiesRenderSource(tokens: seq<MessageTemplateToken>,
                                      properties: EventProperties, provider: Option<FormatProvider>, platform: Platform)
    requires forall i :: 0 <= i < |tokens| && tokens[i].PropertyToken? ==> tokens[i].propertyName !in KeySet(properties)
    ensures Rendered(tokens, properties, provider, platform) == TemplateText(tokens)
  {
    assert Renderings(tokens, properties, provider, platform)
        == seq(|tokens|, i requires 0 <= i < |tokens| => SourceText(tokens[i]));
  }

  /** A placeholder with alignment renders exactly as `Padding.Apply` pads its unaligned text. */
  lemma AlignedPlaceholder(t: MessageTemplateToken, properties: EventProperties, provider: Option<FormatProvider>, platform: Platform)
    requires t.PropertyToken? && t.alignment.Some? && t.propertyName in KeySet(properties)
    ensures var v := Lookup(properties, t.propertyName).value;
            var s := RenderUnaligned(v, t.format, provider, platform);
            var r := RenderToken(t, properties, provider, platform);
            && r == Pad(s, t.alignment.value)
            && (Utf16Length(s) >= t.alignment.value.width ==> r == s)
            && (Utf16Length(s) < t.alignment.value.width ==> Utf16Length(r) == t.alignment.value.width)
  {
  }

  /** A string property is substituted verbatim: no quotes are added. */
  lemma StringsUnquoted(name: string, s: string, format: Option<string>, rawText: string,
                        properties: EventProperties, provider: Option<FormatProvider>, platform: Platform)
    requires Lookup(properties, name) == Some(Scalar(Str(s)))
    ensures RenderToken(PropertyToken(name, format, None, rawText), properties, provider, platform) == s
  {
  }

  lemma ConcatPair(a: string, b: string)
    ensures Concat([a, b]) == a + b
  {
    assert [a, b][..1] == [a] && [a][..0] == [];
    assert Concat([a]) == "" + a;
  }

  lemma ConcatTriple(a: string, b: string, c: string)
    ensures Concat([a, b, c]) == a + b + c
  {
    assert [a, b, c][..2] == [a, b];
    ConcatPair(a, b);
  }

  /** "Hello, {Name}!" with Name = "world" renders as "Hello, world!". */
  lemma HelloWorldExample(provider: Option<FormatProvider>, platform: Platform)
    ensures Rendered([TextToken("Hello, "), PropertyToken("Name", None, None, "{Name}"), TextToken("!")],
                     [KeyValuePair("Name", Scalar(Str("world")))], provider, platform)
            == "Hello, world!"
  {
    var tokens := [TextToken("Hello, "), PropertyToken("Name", None, None, "{Name}"), TextToken("!")];
    var properties: EventProperties := [KeyValuePair("Name", Scalar(Str("world")))];
    assert Lookup(properties, "Name") == Some(Scalar(Str("world")));
    StringsUnquoted("Name", "world", None, "{Name}", properties, provider, platform);
    assert Renderings(tokens, properties, provider, platform) == ["Hello, ", "world", "!"];
    ConcatTriple("Hello, ", "world", "!");
  }

  /** "Received {Payload}" with a structure renders the structure through the JSON value formatter. */
  lemma StructureAsJsonExample(provider: Option<FormatProvider>, platform: Platform)
    ensures var payload := Structure(None, [LogEventProperty("a", Scalar(Integral(Int32, 42)))]);
            Rendered([TextToken("Received "), PropertyToken("Payload", None, None, "{Payload}")],
                     [KeyValuePair("Payload", payload)], provider, platform)
            == "Received " + platform.jsonValueFormatter(payload)
  {
    var payload := Structure(None, [LogEventProperty("a", Scalar(Integral(Int32, 42)))]);
    var tokens := [TextToken("Received "), PropertyToken("Payload", None, None, "{Payload}")];
    var properties: EventProperties := [KeyValuePair("Payload", payload)];
    assert Lookup(properties, "Payload") == Some(payload);
    assert Renderings(tokens, properties, provider, platform) == ["Received ", platform.jsonValueFormatter(payload)];
    ConcatPair("Received ", platform.jsonValueFormatter(payload));
  }

  /** `{Missing}` with no such property renders as `{Missing}`. */
  lemma MissingPlaceholderExample(provider: Option<FormatProvider>, platform: Platform)
    ensures Rendered([PropertyToken("Missing", None, None, "{Missing}")], [], provider, platform) == "{Missing}"
  {
    var rs := Renderings([PropertyToken("Missing", None, None, "{Missing}")], [], provider, platform);
    assert rs == ["{Missing}"];
    assert rs[..0] == [];
    assert Concat(rs) == "" + "{Missing}";
  }

  /** `RenderPropertyValueUnaligned`. */
  method RenderPropertyValueUnaligned(propertyValue: PropertyValue, output: StringWriter, format: Option<string>,
                                      provider: Option<FormatProvider>, platform: Platform)
    modifies output
    ensures output.text == old(output.text) + RenderUnaligned(propertyValue, format, provider, platform)
  {
    if !propertyValue.Scalar? {
      output.Write(platform.jsonValueFormatter(propertyValue));
      return;
    }

    var value := propertyValue.obj;

    if value.Null? {
      output.Write("null");
      return;
    }

    if value.Str? {
      output.Write(value.s);
      return;
    }

    if IsValueType(value) {
      if value.Integral? || value.Decimal? {
        output.Write(platform.formattableToString(value, format, provider));
        return;
      }

      if value.Double? {
        output.Write(platform.formattableToString(value, format, provider));
        return;
      }

      if value.Single? {
        output.Write(platform.formattableToString(value, format, provider));
        return;
      }

      if value.Bool? {
        output.Write(platform.boolText(value.b));
        return;
      }
    }

    if IsFormattable(value) {
      output.Write(platform.formattableToString(value, format, provider));
      return;
    }

    // TextWriter.Write(object) writes nothing for a null ToString()
    var str := platform.objectToString(value);
    if str.Some? {
      output.Write(str.value);
    }
  }

  /** `RenderPropertyToken`. */
  method RenderPropertyToken(properties: EventProperties, pt: MessageTemplateToken, output: StringWriter,
                             provider: Option<FormatProvider>, platform: Platform)
    requires pt.PropertyToken?
    modifies output
    ensures output.text == old(output.text) + RenderToken(pt, properties, provider, platform)
  {
    var value := Lookup(properties, pt.propertyName);
    if value.None? {
      output.Write(pt.rawText);
      return;
    }

    ghost var unaligned := RenderUnaligned(value.value, pt.format, provider, platform);
    if pt.alignment.None? {
      RenderPropertyValueUnaligned(value.value, output, pt.format, provider, platform);
      return;
    }

    var buffer := new StringWriter();

    RenderPropertyValueUnaligned(value.value, buffer, pt.format, provider, platform);

    var result := buffer.text;
    assert result == unaligned;

    if Utf16Length(result) >= pt.alignment.value.width {
      output.Write(result);
    } else {
      Apply(output, result, pt.alignment.value);
    }
  }

  /** `Format`: render every token in order into a fresh writer. */
  method Format(tokens: seq<MessageTemplateToken>, properties: EventProperties,
                provider: Option<FormatProvider>, platform: Platform) returns (r: string)
    ensures r == Rendered(tokens, properties, provider, platform)
  {
    var output := new StringWriter();

    for i := 0 to |tokens|
      invariant output.text == Rendered(tokens[..i], properties, provider, platform)
    {
      var token := tokens[i];
      match token {
        case TextToken(text) =>
          output.Write(text);
        case PropertyToken(_, _, _, _) =>
          RenderPropertyToken(properties, token, output, provider, platform);
      }
      RenderedSnoc(tokens, i, properties, provider, platform);
    }

    assert tokens[..|tokens|] == tokens;
    r := output.text;
  }
}
