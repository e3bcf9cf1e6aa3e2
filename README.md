# Serilog.Sinks.OpenTelemetryLogs value-tree layer in Dafny

This project models the part of the Serilog OpenTelemetry logs sink that works on Serilog's value tree. A
`LogEventPropertyValue` is a scalar, a structure (an optional type tag and an ordered list of named properties)
or a sequence. The model covers what is built on top of that tree:

- **Clean message-template formatting** (`CleanFormatting`, `Padding`, `TextOutput`). A parsed template is rendered
  into a `StringWriter`. Literal text is copied. A placeholder whose property is missing is written in its source
  form. String scalars are written without quotes. Numbers and other formattable values go through
  `ToString(format, provider)`. Structures and sequences go through Serilog's JSON value formatter. Alignment pads
  with spaces and never truncates. Widths are counted as `string.Length` counts them, in UTF-16 code units, so a
  character outside the Basic Multilingual Plane counts twice.
- **The JSON encoder** (`PropertySerializer`, `Json`). `WriteValue` and `WriteScalar` walk the tree and write tokens
  to a `Utf8JsonWriter`. The writer is a class whose token list grows with each call. The tokens are proved to parse
  back to the JSON object or array the value denotes (RFC 8259, sections 4 and 5). JSON has no NaN or infinity
  (section 6 of RFC 8259), so the writer raises `ArgumentException` for such a float or double. The walk then stops
  part way, and what was written is a prefix of the encoding.
- **The CLR converter** (`PropertyConverter`, `Dictionaries`). It turns the tree into dictionaries, lists and scalar
  objects. A .NET `Dictionary` is an insertion-ordered sequence of entries with distinct keys. The `"$type"` entry
  comes first, and a duplicate property name overwrites in place, so the last one wins.
- **The lazy views** (`StructureWrapping`, `SequenceWrapping`, `PropertiesListWrapping`):
  - The structure wrapper and the properties list wrapper are classes. Each has an `Option` cache field and a ghost
    count of how many times the cache was built, and each is proved to build it at most once.
  - The sequence wrapper has only read-only fields, so it is a datatype.
- **The event helpers** (`LogEventHelpers`): mapping a level, and reading the "EventId" and "SourceContext" properties.

The operations the core calls on code it does not contain are fields of the `Events.Platform` value:
`IFormattable.ToString`, `TextWriter.Write(bool)`, `object.ToString()` and Serilog's `JsonValueFormatter`. They are
passed in as parameters.

## Model

| member | source | states |
|---|---|---|
| Padding.Spaces | Serilog.Sinks.OpenTelemetryLogs/Formatting/Padding.cs:34 | `new string(' ', n)` has length n and holds only spaces |
| Padding.Pad | Serilog.Sinks.OpenTelemetryLogs/Formatting/Padding.cs:15-39 | lengths are UTF-16 code units (`string.Length`); a value at least `width` code units long is returned unchanged, so there is no truncation; otherwise the result is exactly `width` code units long; Left puts the value first followed by spaces; Right puts spaces first followed by the value |
| Padding.SurrogatePairPadding | Serilog.Sinks.OpenTelemetryLogs/Formatting/Padding.cs:17-23 | an emoji (one character, two code units) gains one space at width 3, on the side the direction says, and is unchanged at width 2 |
| TextOutput.Utf16Length | Serilog.Sinks.OpenTelemetryLogs/Formatting/Padding.cs:17 | `string.Length` lies between the number of characters and twice that number |
| TextOutput.Utf16LengthBasicPlane | Serilog.Sinks.OpenTelemetryLogs/Formatting/Padding.cs:17 | `string.Length` equals the number of characters exactly when no character lies outside the Basic Multilingual Plane |
| TextOutput.Utf16LengthAppend | Serilog.Sinks.OpenTelemetryLogs/Formatting/Padding.cs:23 | the length of a concatenation is the sum of the lengths, so `width - value.Length` spaces bring the value to exactly `width` |
| TextOutput.SurrogatePairExample | Serilog.Sinks.OpenTelemetryLogs/Formatting/Padding.cs:17 | an emoji is one character but has `Length` 2, and "abc" has `Length` 3 |
| Padding.PaddingBufferIsSpaces | Serilog.Sinks.OpenTelemetryLogs/Formatting/Padding.cs:10 | the first `pad` characters of the 80-space buffer equal `pad` fresh spaces, so the two branches at lines 28-35 write the same text |
| Padding.Apply | Serilog.Sinks.OpenTelemetryLogs/Formatting/Padding.cs:15-39 | with the width compared against the UTF-16 length, the writes (value, buffer slice or fresh spaces, value) append exactly `Pad(value, alignment)` to the output |
| TextOutput.StringWriter.constructor | Serilog.Sinks.OpenTelemetryLogs/Formatting/CleanMessageTemplateFormatter.cs:25 | a new writer holds no text |
| TextOutput.StringWriter.Write | Serilog.Sinks.OpenTelemetryLogs/Formatting/CleanMessageTemplateFormatter.cs:33 | a write appends its text |
| CleanFormatting.RenderUnaligned | Serilog.Sinks.OpenTelemetryLogs/Formatting/CleanMessageTemplateFormatter.cs:78-134 | structures and sequences go through the JSON value formatter, ignoring the format; null is "null"; a string is itself; a bool goes through `Write(bool)`; every formattable scalar (all integral kinds, decimal, double, float and any other `IFormattable`) goes through `ToString(format, provider)`; any other object gives its `ToString()`, or nothing when that is null |
| CleanFormatting.RenderPropertyValueUnaligned | Serilog.Sinks.OpenTelemetryLogs/Formatting/CleanMessageTemplateFormatter.cs:78-134 | the type tests in source order append exactly `RenderUnaligned` of the value |
| CleanFormatting.RenderToken | Serilog.Sinks.OpenTelemetryLogs/Formatting/CleanMessageTemplateFormatter.cs:29-76 | a text token contributes its text; a placeholder whose property is missing contributes its source text; otherwise the property's unaligned rendering, passed through `Pad` when the placeholder has an alignment |
| CleanFormatting.RenderPropertyToken | Serilog.Sinks.OpenTelemetryLogs/Formatting/CleanMessageTemplateFormatter.cs:52-76 | appends the token's rendering: the placeholder's source text when the property is missing; the unaligned text when there is no alignment; otherwise the buffered text, written as is when its UTF-16 length reaches the width, else padded by `Padding.Apply` |
| CleanFormatting.Format | Serilog.Sinks.OpenTelemetryLogs/Formatting/CleanMessageTemplateFormatter.cs:23-50 | the message is the in-order concatenation of every token's rendering |
| CleanFormatting.RenderedSnoc | Serilog.Sinks.OpenTelemetryLogs/Formatting/CleanMessageTemplateFormatter.cs:27-47 | rendering one more token appends exactly that token's text |
| CleanFormatting.RenderedAppend | Serilog.Sinks.OpenTelemetryLogs/Formatting/CleanMessageTemplateFormatter.cs:27-47 | rendering the concatenation of two token lists is the concatenation of their renderings |
| CleanFormatting.MissingPropertiesRenderSource | Serilog.Sinks.OpenTelemetryLogs/Formatting/CleanMessageTemplateFormatter.cs:54-58 | when no placeholder names a present property (a literal-only template in particular), the message is the template's own text |
| CleanFormatting.AlignedPlaceholder | Serilog.Sinks.OpenTelemetryLogs/Formatting/CleanMessageTemplateFormatter.cs:66-75 | an aligned placeholder renders as exactly `Pad` of its unaligned text: unchanged when at least `width` UTF-16 code units long, otherwise exactly `width` code units |
| CleanFormatting.StringsUnquoted | Serilog.Sinks.OpenTelemetryLogs/Formatting/CleanMessageTemplateFormatter.cs:94-98 | a string property is substituted verbatim, without quotes |
| CleanFormatting.HelloWorldExample | Serilog.Sinks.OpenTelemetryLogs.Tests/CleanMessageTemplateFormatterTests.cs:14-26 | "Hello, {Name}!" with Name = "world" renders as "Hello, world!" |
| CleanFormatting.StructureAsJsonExample | Serilog.Sinks.OpenTelemetryLogs.Tests/CleanMessageTemplateFormatterTests.cs:29-44 | "Received {Payload}" with a structure renders as "Received " followed by the JSON value formatter's text for that structure |
| CleanFormatting.MissingPlaceholderExample | Serilog.Sinks.OpenTelemetryLogs/Formatting/CleanMessageTemplateFormatter.cs:54-58 | "{Missing}" with no such property renders as "{Missing}" |
| Json.Utf8JsonWriter.constructor | Serilog.Sinks.OpenTelemetryLogs/Properties/LogEventPropertySerializer.cs:29 | a new writer has written nothing |
| Json.Utf8JsonWriter.WriteStartObject | Serilog.Sinks.OpenTelemetryLogs/Properties/LogEventPropertySerializer.cs:45 | appends one start-object token |
| Json.Utf8JsonWriter.WritePropertyName | Serilog.Sinks.OpenTelemetryLogs/Properties/LogEventPropertySerializer.cs:48 | appends one property-name token |
| Json.Utf8JsonWriter.WriteEndObject | Serilog.Sinks.OpenTelemetryLogs/Properties/LogEventPropertySerializer.cs:51 | appends one end-object token |
| Json.Utf8JsonWriter.WriteStartArray | Serilog.Sinks.OpenTelemetryLogs/Properties/LogEventPropertySerializer.cs:55 | appends one start-array token |
| Json.Utf8JsonWriter.WriteEndArray | Serilog.Sinks.OpenTelemetryLogs/Properties/LogEventPropertySerializer.cs:58 | appends one end-array token |
| Json.Utf8JsonWriter.WriteLiteral | Serilog.Sinks.OpenTelemetryLogs/Properties/LogEventPropertySerializer.cs:76-140 | appends one string, boolean or null token |
| Json.Utf8JsonWriter.WriteNumberValue | Serilog.Sinks.OpenTelemetryLogs/Properties/LogEventPropertySerializer.cs:86-108 | succeeds exactly when the number is finite (every integer and decimal; a float or double whose exponent bits are not all ones), and then appends its token; a NaN or an infinity raises and leaves the tokens unchanged |
| PropertySerializer.LogEventPropertySerializer.constructor | Serilog.Sinks.OpenTelemetryLogs/Properties/LogEventPropertySerializer.cs:16-24 | keeps the format provider; the output is not indented |
| PropertySerializer.LogEventPropertySerializer.ScalarToken | Serilog.Sinks.OpenTelemetryLogs/Properties/LogEventPropertySerializer.cs:74-142 | one JSON atom per scalar; a number exactly for int, uint, long, ulong, float, double and decimal, carrying the integer, the float or double bits, or the decimal's mantissa and scale; a boolean exactly for bool, carrying it; null for null, or for an object whose `ToString()` is null; a string is itself; bytes of either kind become their base64 text; a DateTime, DateTimeOffset or GUID becomes its text form; any other formattable, including the narrower integers, becomes `ToString(null, provider)`; any other object becomes its `ToString()` |
| PropertySerializer.LogEventPropertySerializer.WriteScalar | Serilog.Sinks.OpenTelemetryLogs/Properties/LogEventPropertySerializer.cs:74-142 | the type switch succeeds exactly when the scalar's token is not a NaN or infinite float or double, and then appends exactly `ScalarToken(value)`; otherwise it raises `ArgumentException` and writes nothing |
| PropertySerializer.LogEventPropertySerializer.WriteValue | Serilog.Sinks.OpenTelemetryLogs/Properties/LogEventPropertySerializer.cs:36-69 | the recursive walk succeeds exactly when every scalar in the node is accepted by the writer, and then appends exactly the node's encoding: null as JSON null, a scalar as its token, a structure's properties between start-object and end-object, a sequence's elements between start-array and end-array; otherwise it raises `ArgumentException`, having written a prefix of that encoding |
| PropertySerializer.LogEventPropertySerializer.WriteProperties | Serilog.Sinks.OpenTelemetryLogs/Properties/LogEventPropertySerializer.cs:46-50 | the property loop succeeds exactly when every property's value can be written, and then appends each property's name followed by its value's encoding, in property order; otherwise it raises, having written a prefix of those tokens |
| PropertySerializer.LogEventPropertySerializer.WriteElements | Serilog.Sinks.OpenTelemetryLogs/Properties/LogEventPropertySerializer.cs:56-57 | the element loop succeeds exactly when every element can be written, and then appends each element's encoding, in element order; otherwise it raises, having written a prefix of those tokens |
| PropertySerializer.LogEventPropertySerializer.Write | Serilog.Sinks.OpenTelemetryLogs/Properties/LogEventPropertySerializer.cs:146-149 | the converter succeeds exactly when every scalar in the value can be written, and then appends the value's encoding; otherwise it raises `ArgumentException` |
| PropertySerializer.LogEventPropertySerializer.NonFiniteExample | Serilog.Sinks.OpenTelemetryLogs/Properties/LogEventPropertySerializer.cs:99-104 | a structure holding a double NaN, a sequence holding minus infinity and a float NaN cannot be written; a structure holding 1.0 can |
| PropertySerializer.LogEventPropertySerializer.Encode | Serilog.Sinks.OpenTelemetryLogs/Properties/LogEventPropertySerializer.cs:36-69 | a scalar is written as exactly one token, its `ScalarToken`; a structure's tokens open with start-object and close with end-object; a sequence's open with start-array and close with end-array |
| PropertySerializer.LogEventPropertySerializer.JsonOf | Serilog.Sinks.OpenTelemetryLogs/Properties/LogEventPropertySerializer.cs:36-69 | the JSON a node stands for: a scalar is its atom; a structure is an object with one member per property, in order, each name paired with its value's JSON and no member for the type tag; a sequence is an array of its elements' JSON, in order |
| PropertySerializer.LogEventPropertySerializer.Read | Serilog.Sinks.OpenTelemetryLogs/Properties/LogEventPropertySerializer.cs:151-154 | reading always fails with `NotImplementedException` |
| PropertySerializer.LogEventPropertySerializer.MembersOf | Serilog.Sinks.OpenTelemetryLogs/Properties/LogEventPropertySerializer.cs:44-52 | an object's members are the properties, one per property, in order, each name paired with its value's JSON |
| PropertySerializer.LogEventPropertySerializer.ItemsOf | Serilog.Sinks.OpenTelemetryLogs/Properties/LogEventPropertySerializer.cs:54-59 | an array's items are the elements' JSON, in order |
| PropertySerializer.LogEventPropertySerializer.EncodeStart | Serilog.Sinks.OpenTelemetryLogs/Properties/LogEventPropertySerializer.cs:36-69 | no encoding is empty or starts with a closing token |
| PropertySerializer.LogEventPropertySerializer.ParseEncode | Serilog.Sinks.OpenTelemetryLogs/Properties/LogEventPropertySerializer.cs:36-69 | the tokens written for any node, followed by anything, parse back to that node's JSON value and leave the rest untouched |
| PropertySerializer.LogEventPropertySerializer.ParseEncodeProperties | Serilog.Sinks.OpenTelemetryLogs/Properties/LogEventPropertySerializer.cs:46-51 | the property loop's tokens plus the end-object token parse as the members in property order |
| PropertySerializer.LogEventPropertySerializer.ParseEncodeElements | Serilog.Sinks.OpenTelemetryLogs/Properties/LogEventPropertySerializer.cs:56-58 | the element loop's tokens plus the end-array token parse as the items in element order |
| PropertySerializer.LogEventPropertySerializer.EncodingIsDocument | Serilog.Sinks.OpenTelemetryLogs/Properties/LogEventPropertySerializer.cs:36-69 | every encoding is one complete JSON document denoting the node's JSON value |
| PropertySerializer.LogEventPropertySerializer.TypeTagNotEmitted | Serilog.Sinks.OpenTelemetryLogs/Properties/LogEventPropertySerializer.cs:44-52 | the type tag does not affect the encoding; a structure's JSON object holds only its properties |
| PropertySerializer.LogEventPropertySerializer.EncodePropertiesAppend | Serilog.Sinks.OpenTelemetryLogs/Properties/LogEventPropertySerializer.cs:46-50 | encoding the properties distributes over concatenation |
| PropertySerializer.LogEventPropertySerializer.EncodeElementsAppend | Serilog.Sinks.OpenTelemetryLogs/Properties/LogEventPropertySerializer.cs:56-57 | encoding the elements distributes over concatenation |
| PropertySerializer.LogEventPropertySerializer.EncodePropertiesSnoc | Serilog.Sinks.OpenTelemetryLogs/Properties/LogEventPropertySerializer.cs:46-50 | one more loop iteration appends one name token and that property's encoding |
| PropertySerializer.LogEventPropertySerializer.EncodeElementsSnoc | Serilog.Sinks.OpenTelemetryLogs/Properties/LogEventPropertySerializer.cs:56-57 | one more loop iteration appends that element's encoding |
| PropertySerializer.LogEventPropertySerializer.EncodePropertiesSplit | Serilog.Sinks.OpenTelemetryLogs/Properties/LogEventPropertySerializer.cs:46-50 | property i's name and encoding sit between the tokens of the properties before it and those after it |
| PropertySerializer.LogEventPropertySerializer.EncodeElementsSplit | Serilog.Sinks.OpenTelemetryLogs/Properties/LogEventPropertySerializer.cs:56-57 | element i's encoding sits between the tokens of the elements before it and those after it |
| PropertySerializer.LogEventPropertySerializer.SerializeStructure | Serilog.Sinks.OpenTelemetryLogs/Properties/LogEventPropertySerializer.cs:29 | corrected behaviour: fails with `ArgumentException` exactly when some scalar in the structure is a NaN or infinity; otherwise the structure's own encoding, which parses as the JSON object of its properties in order |
| PropertySerializer.LogEventPropertySerializer.SerializeSequence | Serilog.Sinks.OpenTelemetryLogs/Properties/LogEventPropertySerializer.cs:34 | corrected behaviour: fails with `ArgumentException` exactly when some scalar in the sequence is a NaN or infinity; otherwise the sequence's own encoding, which parses as the JSON array of its elements in order |
| PropertySerializer.LogEventPropertySerializer.PropertyObjectValues | Serilog.Sinks.OpenTelemetryLogs/Properties/LogEventPropertySerializer.cs:29 | reflection over the `Properties` list gives one object per property, in order, with a `Name` member holding the name and a `Value` member holding the value's JSON |
| PropertySerializer.LogEventPropertySerializer.ParsePropertyObjects | Serilog.Sinks.OpenTelemetryLogs/Properties/LogEventPropertySerializer.cs:29 | as written, the tokens of the `Properties` array (`PropertyObjects`), followed by its closing token, read back as exactly those `Name`/`Value` objects |
| PropertySerializer.LogEventPropertySerializer.StructureAsWrittenDocument | Serilog.Sinks.OpenTelemetryLogs/Properties/LogEventPropertySerializer.cs:29 | as written (`StructureAsWritten`), serializing a structure succeeds exactly when every scalar in it can be written, and otherwise raises the writer's `ArgumentException`, since the nested values still reach `WriteScalar`; on success the output is one JSON document: an object with exactly the members `TypeTag` (the tag string, or null when untagged) and `Properties` (the array of `Name`/`Value` objects) |
| PropertySerializer.LogEventPropertySerializer.SequenceAsWrittenDocument | Serilog.Sinks.OpenTelemetryLogs/Properties/LogEventPropertySerializer.cs:34 | as written (`SequenceAsWritten`), serializing a sequence succeeds exactly when every scalar in it can be written, and otherwise raises the writer's `ArgumentException`; on success the output is one JSON document: an object whose one member `Elements` holds the intended array |
| PropertySerializer.LogEventPropertySerializer.PropertyObjectsLength | Serilog.Sinks.OpenTelemetryLogs/Properties/LogEventPropertySerializer.cs:29 | as written, each property costs four more tokens than in the intended encoding |
| PropertySerializer.LogEventPropertySerializer.StructureAsWrittenNeverIntended | Serilog.Sinks.OpenTelemetryLogs/Properties/LogEventPropertySerializer.cs:29 | as written, no structure serializes successfully to its intended encoding |
| PropertySerializer.LogEventPropertySerializer.SequenceAsWrittenNeverIntended | Serilog.Sinks.OpenTelemetryLogs/Properties/LogEventPropertySerializer.cs:34 | as written, no sequence serializes successfully to its intended encoding |
| PropertySerializer.LogEventPropertySerializer.StructureAsWrittenExample | Serilog.Sinks.OpenTelemetryLogs/Properties/LogEventPropertySerializer.cs:29 | `{a = 42}` is intended as `{"a":42}` but written as `{"TypeTag":null,"Properties":[{"Name":"a","Value":42}]}` |
| PropertySerializer.LogEventPropertySerializer.AsWrittenNonFiniteExample | Serilog.Sinks.OpenTelemetryLogs/Properties/LogEventPropertySerializer.cs:29-34 | as written, a structure holding a NaN and a sequence holding negative infinity both raise the writer's `ArgumentException` |
| Dictionaries.Keys | Serilog.Sinks.OpenTelemetryLogs/Properties/StructureValueWrapper.cs:52 | the keys in entry order |
| Dictionaries.Values | Serilog.Sinks.OpenTelemetryLogs/Properties/StructureValueWrapper.cs:53 | the values in entry order |
| Dictionaries.Lookup | Serilog.Sinks.OpenTelemetryLogs/Properties/StructureValueWrapper.cs:46-50 | found exactly when the key is present, and then it is that entry's value |
| Dictionaries.Put | Serilog.Sinks.OpenTelemetryLogs/Properties/LogEventPropertyConverter.cs:16-18 | `dictionary[k] = v` keeps keys distinct, makes k map to v, leaves every other key alone, overwrites a present key in place and appends an absent one |
| Dictionaries.CountIsKeyCount | Serilog.Sinks.OpenTelemetryLogs/Properties/StructureValueWrapper.cs:40 | a dictionary's count is its number of distinct keys |
| Events.FirstNamed | Serilog.Sinks.OpenTelemetryLogs/LogEventHelpers.cs:30-32 | `FirstOrDefault(p => p.Name == name)`: found exactly when some property has the name, and then it is the first such property |
| Events.LastNamed | Serilog.Sinks.OpenTelemetryLogs/Properties/LogEventPropertyConverter.cs:17-18 | the last property with the name, found exactly when one exists |
| PropertyConverter.TagEntries | Serilog.Sinks.OpenTelemetryLogs/Properties/LogEventPropertyConverter.cs:14-16 | before the properties, the dictionary holds "$type" exactly when the structure is tagged |
| PropertyConverter.PutAll | Serilog.Sinks.OpenTelemetryLogs/Properties/LogEventPropertyConverter.cs:17-18 | the property loop keeps keys distinct and adds exactly the property names |
| PropertyConverter.Convert | Serilog.Sinks.OpenTelemetryLogs/Properties/LogEventPropertyConverter.cs:34-41 | a scalar gives exactly a CLR scalar holding its own object; a structure gives a dictionary whose keys are distinct and are exactly the property names, plus "$type" when tagged; a sequence gives a list with one item per element |
| PropertyConverter.ConvertAll | Serilog.Sinks.OpenTelemetryLogs/Properties/LogEventPropertyConverter.cs:24 | one converted element per element, in order |
| PropertyConverter.ConvertToClrType | Serilog.Sinks.OpenTelemetryLogs/Properties/LogEventPropertyConverter.cs:27-47 | null gives null; a scalar gives its object; a structure gives its dictionary; a sequence gives a list of the same length with each element converted |
| PropertyConverter.DictionaryOf | Serilog.Sinks.OpenTelemetryLogs/Properties/LogEventPropertyConverter.cs:11-20 | distinct keys, exactly the property names plus "$type" when tagged |
| PropertyConverter.ConvertToList | Serilog.Sinks.OpenTelemetryLogs/Properties/LogEventPropertyConverter.cs:22-25 | the same length as the elements, element i being `ConvertToClrType` of element i |
| PropertyConverter.ConvertToDictionary | Serilog.Sinks.OpenTelemetryLogs/Properties/LogEventPropertyConverter.cs:11-20 | the loop (tag first, then each property assigned in order) builds exactly `DictionaryOf(structure)` |
| PropertyConverter.PutAllLookup | Serilog.Sinks.OpenTelemetryLogs/Properties/LogEventPropertyConverter.cs:17-18 | after the loop a key holds the last property of that name, or else what it held before |
| PropertyConverter.DictionaryLookup | Serilog.Sinks.OpenTelemetryLogs/Properties/LogEventPropertyConverter.cs:11-20 | a key maps to its last property's converted value; "$type" with no such property maps to the tag; any other key is absent |
| PropertyConverter.PutAllKeepsPrefixKeys | Serilog.Sinks.OpenTelemetryLogs/Properties/LogEventPropertyConverter.cs:17-18 | assignments never move an existing key |
| PropertyConverter.TypeTagEntryFirst | Serilog.Sinks.OpenTelemetryLogs/Properties/LogEventPropertyConverter.cs:15-16 | a tagged structure's dictionary starts with "$type" |
| PropertyConverter.TaggedStructureExample | Serilog.Sinks.OpenTelemetryLogs/Properties/LogEventPropertyConverter.cs:11-20 | `Point {X = 1, Y = 2}` converts to `$type`, `X`, `Y` in that order |
| PropertyConverter.DuplicateNameExample | Serilog.Sinks.OpenTelemetryLogs/Properties/LogEventPropertyConverter.cs:17-18 | with two properties named A, the later value wins |
| PropertyConverter.TypePropertyOverwritesTagExample | Serilog.Sinks.OpenTelemetryLogs/Properties/LogEventPropertyConverter.cs:15-18 | a property named "$type" overwrites the tag entry |
| StructureWrapping.StructureValueWrapper.constructor | Serilog.Sinks.OpenTelemetryLogs/Properties/StructureValueWrapper.cs:14-18 | keeps value and serializer; nothing is converted yet |
| StructureWrapping.StructureValueWrapper.Dictionary | Serilog.Sinks.OpenTelemetryLogs/Properties/StructureValueWrapper.cs:21-22 | returns `ConvertToDictionary(value)`; converts only when nothing is cached; once cached, returns the cache; converts at most once per wrapper |
| StructureWrapping.StructureValueWrapper.ToString | Serilog.Sinks.OpenTelemetryLogs/Properties/StructureValueWrapper.cs:36 | fails with `ArgumentException` exactly when the structure holds a NaN or infinity; otherwise the serializer's JSON for the structure, which parses as the object of its properties in order; it modifies nothing, so the dictionary is never built or read |
| StructureWrapping.StructureValueWrapper.Count | Serilog.Sinks.OpenTelemetryLogs/Properties/StructureValueWrapper.cs:40 | the dictionary's count, which is its number of distinct keys; the dictionary is now built |
| StructureWrapping.StructureValueWrapper.GetEnumerator | Serilog.Sinks.OpenTelemetryLogs/Properties/StructureValueWrapper.cs:42-44 | the dictionary's entries in order |
| StructureWrapping.StructureValueWrapper.ContainsKey | Serilog.Sinks.OpenTelemetryLogs/Properties/StructureValueWrapper.cs:46 | true exactly when the converted dictionary has the key |
| StructureWrapping.StructureValueWrapper.TryGetValue | Serilog.Sinks.OpenTelemetryLogs/Properties/StructureValueWrapper.cs:48 | found exactly when the key is present, with its value; null otherwise |
| StructureWrapping.StructureValueWrapper.Item | Serilog.Sinks.OpenTelemetryLogs/Properties/StructureValueWrapper.cs:50 | the key's value, or `KeyNotFoundException` exactly when the key is absent |
| StructureWrapping.StructureValueWrapper.Keys | Serilog.Sinks.OpenTelemetryLogs/Properties/StructureValueWrapper.cs:52 | the dictionary's keys in order |
| StructureWrapping.StructureValueWrapper.Values | Serilog.Sinks.OpenTelemetryLogs/Properties/StructureValueWrapper.cs:53 | the dictionary's values in order |
| StructureWrapping.CountIsDistinctNames | Serilog.Sinks.OpenTelemetryLogs/Properties/StructureValueWrapper.cs:40 | the count is the number of distinct property names, plus one for "$type" when tagged and no property has that name |
| SequenceWrapping.SequenceValueWrapper.Count | Serilog.Sinks.OpenTelemetryLogs/Properties/SequenceValueWrapper.cs:25 | the number of elements, which is the length of the converted list |
| SequenceWrapping.SequenceValueWrapper.Elements | Serilog.Sinks.OpenTelemetryLogs/Properties/SequenceValueWrapper.cs:26 | `Count()` entries, entry i being `ConvertToClrType` of element i |
| SequenceWrapping.SequenceValueWrapper.GetEnumerator | Serilog.Sinks.OpenTelemetryLogs/Properties/SequenceValueWrapper.cs:28-30 | the enumeration is the converted elements in order |
| SequenceWrapping.SequenceValueWrapper.Item | Serilog.Sinks.OpenTelemetryLogs/Properties/SequenceValueWrapper.cs:32 | the converted element at the index, or `ArgumentOutOfRangeException` for `index`, with no actual value, exactly when the index is outside `0..Count()` |
| SequenceWrapping.SequenceValueWrapper.ToString | Serilog.Sinks.OpenTelemetryLogs/Properties/SequenceValueWrapper.cs:23 | fails with `ArgumentException` exactly when the sequence holds a NaN or infinity; otherwise the serializer's JSON for the sequence, which parses as the array of its elements in order |
| PropertiesListWrapping.PropertiesListWrapper.constructor | Serilog.Sinks.OpenTelemetryLogs/Properties/PropertiesListWrapper.cs:15-21 | keeps properties and serializer; no list yet |
| PropertiesListWrapping.PropertiesListWrapper.Convert | Serilog.Sinks.OpenTelemetryLogs/Properties/PropertiesListWrapper.cs:29-45 | one level deep: null stays null; a scalar gives its object; a structure gives a new structure wrapper with no dictionary yet; a sequence gives a sequence wrapper; both wrappers share this serializer |
| PropertiesListWrapping.PropertiesListWrapper.List | Serilog.Sinks.OpenTelemetryLogs/Properties/PropertiesListWrapper.cs:47-50 | one entry per property, in order, with the same key and the converted value; built only when nothing is cached; at most once per wrapper; when built, every structure entry is a freshly allocated structure wrapper with no dictionary yet, and no two entries share a wrapper |
| PropertiesListWrapping.PropertiesListWrapper.Count | Serilog.Sinks.OpenTelemetryLogs/Properties/PropertiesListWrapper.cs:52 | the number of distinct property names; it reads no list, and it equals the list's length once the list is built |
| PropertiesListWrapping.PropertiesListWrapper.GetEnumerator | Serilog.Sinks.OpenTelemetryLogs/Properties/PropertiesListWrapper.cs:54-56 | the cached list, one entry per property; when this call builds it, its structure wrappers are fresh, distinct and have no dictionary yet |
| PropertiesListWrapping.PropertiesListWrapper.Item | Serilog.Sinks.OpenTelemetryLogs/Properties/PropertiesListWrapper.cs:58 | the cached list's entry at the index, which carries that property's name and converted value; `ArgumentOutOfRangeException` for `index`, with no actual value, exactly when the index is outside `0..Count()`; a structure entry from a list this call builds is a fresh wrapper with no dictionary yet |
| LogEventHelpers.ToLogLevel | Serilog.Sinks.OpenTelemetryLogs/LogEventHelpers.cs:11-21 | succeeds exactly for Verbose through Fatal, keeping the level's number (Fatal becomes Critical, and `None` is never produced); any other value raises `ArgumentOutOfRangeException` carrying that value |
| LogEventHelpers.GetEventId | Serilog.Sinks.OpenTelemetryLogs/LogEventHelpers.cs:26-38 | null when there is no "EventId" property; a result exactly when "EventId" is a structure whose first "Id" property is an int scalar, and then it holds that id; the name is the first "Name" property's string, or null |
| LogEventHelpers.EventIdStructureReadsBack | Serilog.Sinks.OpenTelemetryLogs/LogEventHelpers.cs:30-33 | in the structure the logging provider records, the first "Id" property holds the id and the name reads back as recorded |
| LogEventHelpers.EventIdRoundTrip | Serilog.Sinks.OpenTelemetryLogs.Tests/LogEventHelpersTests.cs:24-31 | an event id with a non-zero id, recorded by the logging provider, reads back with the same id and name |
| LogEventHelpers.DuplicateIdExample | Serilog.Sinks.OpenTelemetryLogs/LogEventHelpers.cs:30 | with two "Id" properties `GetEventId` takes the first one, while the converted dictionary keeps the last |
| LogEventHelpers.GetSourceContext | Serilog.Sinks.OpenTelemetryLogs/LogEventHelpers.cs:43-52 | the "SourceContext" property's string when it is a string scalar, and null otherwise |
| LogEventHelpers.SourceContextRoundTrip | Serilog.Sinks.OpenTelemetryLogs.Tests/LogEventHelpersTests.cs:58-63 | a source context recorded as a string property is read back unchanged |

## Left out

- Text forms are not modelled: JSON is a token sequence, not text. String escaping, number text, the DateTime,
  DateTimeOffset and GUID text forms, and base64 (section 4 of RFC 4648) belong to System.Text.Json. They are kept
  abstract in the token payloads.
- Culture-dependent formatting is not modelled: `IFormattable.ToString(format, provider)`, `TextWriter.Write(bool)`
  and `object.ToString()` are uninterpreted functions in `Events.Platform`. Float and double values are bit patterns.
  Only their exponent field is read, to tell a NaN or an infinity (which the writer refuses) from a finite value.
- Serilog's `JsonValueFormatter` is an uninterpreted function from value to string. So `StructureAsJsonExample`
  states that the payload goes through it, not the literal text `{"a":42}`.
- CleanFormatting.Format: the `Platform` is an extra parameter, because the foreign calls have no body in the model.
- Template parsing is not modelled. `MessageTemplateParser` is taken as given, and a placeholder's source form
  (`PropertyToken.ToString()`) is the opaque field `rawText`.
- Template token kinds: the `default` case of the token switch in `Format` is not modelled. It cannot be reached,
  since Serilog has only text and property tokens.
- `DictionaryValue`, Serilog's fourth value kind, is not modelled: the value tree has only scalars, structures and
  sequences. In the source it would take these paths:
  - The formatter passes it, like any non-scalar, to the JSON value formatter (CleanMessageTemplateFormatter.cs:80-84).
  - `GetEventId` and `GetSourceContext` fail their type tests on it and return null (LogEventHelpers.cs:29-30, :48-49).
  - `WriteValue`, `ConvertToClrType` and `PropertiesListWrapper.Convert` reach their `Debug.Fail` defaults, which have
    no effect in release builds. There `WriteValue` writes no token (LogEventPropertySerializer.cs:65-67),
    `ConvertToClrType` returns null (LogEventPropertyConverter.cs:43-45), and `PropertiesListWrapper.Convert` returns
    null (PropertiesListWrapper.cs:41-43).
- Lone surrogates cannot be represented: a Dafny `char` is a Unicode scalar value. A .NET string holding an unpaired
  surrogate has no counterpart in the model, and every modelled string has a well-defined UTF-16 length. So the
  `ArgumentException` the writer raises for invalid UTF-16 text is not modelled either.
- The writer's size limits are not modelled: nesting deeper than its maximum depth and over-long strings also make
  `Utf8JsonWriter` raise. The model's writer has no depth or length bound; only the NaN and infinity refusal is
  modelled.
- The two `foreach` loops inside `WriteValue` are the methods `WriteProperties` and `WriteElements`, which are
  mutually recursive with `WriteValue`. The tokens written are unchanged.
- Thread safety of the `??=` caches is not modelled; the model is sequential.
- Integer ranges are not enforced: scalar integers, the event id and decimal mantissas are unbounded `int`s tagged
  with their CLR kind.
- StructureWrapping.StructureValueWrapper.ToString and SequenceWrapping.SequenceValueWrapper.ToString return the
  JSON token sequence rather than a string, and follow the corrected serializer in "## Findings" below.
- SequenceWrapping.SequenceValueWrapper.Item: an out-of-range index is modelled as `ArgumentOutOfRangeException`,
  which is what the array behind `SequenceValue.Elements` raises through `IReadOnlyList`. Like that indexer's
  exception (and `PropertiesListWrapper.Item`'s, from `List<T>`), it names the parameter but carries no actual value.
- LogEventHelpers.EventIdProperty models how Serilog's logging provider records an `EventId`. That provider is not
  part of this model, so this helper exists only for `EventIdRoundTrip`.
- `OpenTelemetryLogRecordEventSink.cs`: the sink and its `LogRecord` pool only call into the modelled core.
- .NET `Dictionary` enumeration order is taken to be insertion order, with overwrites keeping their position. An
  event's properties keep the order of their input sequence.

## Findings

| source | as written | input that shows it | evidently intended | confidence | as-written member | corrected member |
|---|---|---|---|---|---|---|
| Serilog.Sinks.OpenTelemetryLogs/Properties/LogEventPropertySerializer.cs:29 | `JsonSerializer.Serialize(structure, _jsonOptions)` is called with the static type `StructureValue`. The registered converter is a `JsonConverter<LogEventPropertyValue>`, and its inherited `CanConvert` accepts only that exact type. So the structure is serialized by reflection over its public `TypeTag` and `Properties`, and only the nested values reach `WriteValue`. | the structure `{a = 42}` gives `{"TypeTag":null,"Properties":[{"Name":"a","Value":42}]}` | `{"a":42}`: the object `WriteValue` writes for the structure | medium; not executed | PropertySerializer.LogEventPropertySerializer.StructureAsWrittenNeverIntended | PropertySerializer.LogEventPropertySerializer.SerializeStructure |
| Serilog.Sinks.OpenTelemetryLogs/Properties/LogEventPropertySerializer.cs:34 | the same for `Serialize(SequenceValue)`: the sequence is serialized by reflection over its public `Elements` | the sequence `[1]` gives `{"Elements":[1]}` | `[1]`: the array `WriteValue` writes for the sequence | medium; not executed | PropertySerializer.LogEventPropertySerializer.SequenceAsWrittenNeverIntended | PropertySerializer.LogEventPropertySerializer.SerializeSequence |
