/**
 * Properties/LogEventPropertyConverter.cs: the value tree as plain CLR data,
 * `Dictionary<string, object?>` for a structure and `List<object?>` for a
 * sequence.
 */
module PropertyConverter {
  import opened Wrappers
  import opened Events
  import opened Dictionaries

  /**
   * The CLR object a conversion yields: a scalar's own object (the null
   * object included), a dictionary, or a list.
   */
  datatype ClrObject =
    | ClrScalar(obj: ScalarObject)
    | ClrDictionary(entries: seq<KeyValuePair<ClrObject>>)
    | ClrList(items: seq<ClrObject>)

  /** The key under which a structure's type tag is stored. */
  const TypeKey: string := "$type"

  function NameSet(ps: seq<LogEventProperty>): set<string> {
    set i | 0 <= i < |ps| :: ps[i].name
  }

  /** The dictionary before any property is added: the type tag entry, if tagged. */
  function TagEntries(typeTag: Option<string>): (r: seq<KeyValuePair<ClrObject>>)
    ensures DistinctKeys(r)
    ensures KeySet(r) == if typeTag.Some? then {TypeKey} else {}
  {
    match typeTag
    case Some(t) =>
      var r := [KeyValuePair(TypeKey, ClrScalar(Str(t)))];
      assert r[0].key == TypeKey;
      r
    case None => []
  }

  /**
   * The conversion of a node: a scalar keeps its object, a structure becomes
   * a dictionary keyed by its distinct property names (and "$type" when
   * tagged), a sequence a list of as many items.
   */
  function Convert(v: PropertyValue): (r: ClrObject)
    ensures v.Scalar? <==> r.ClrScalar?
    ensures v.Scalar? ==> r.obj == v.obj
    ensures v.Structure? ==>
              && r.ClrDictionary? && DistinctKeys(r.entries)
              && KeySet(r.entries) == NameSet(v.properties) + (if v.typeTag.Some? then {TypeKey} else {})
    ensures v.Sequence? ==> r.ClrList? && |r.items| == |v.elements|
    decreases v
  {
    match v
    case Scalar(o) => ClrScalar(o)
    case Structure(tag, ps) => ClrDictionary(PutAll(TagEntries(tag), ps))
    case Sequence(es) => ClrList(ConvertAll(es))
  }

  /** `foreach (var property in properties) dictionary[property.Name] = ConvertToClrType(property.Value)`. */
  function PutAll(d: seq<KeyValuePair<ClrObject>>, ps: seq<LogEventProperty>): (r: seq<KeyValuePair<ClrObject>>)
    ensures DistinctKeys(d) ==> DistinctKeys(r)
    ensures KeySet(r) == KeySet(d) + NameSet(ps)
    decreases ps
  {
    if ps == [] then d
    else
      var init := ps[..|ps| - 1];
      var last := ps[|ps| - 1];
      assert NameSet(ps) == NameSet(init) + {last.name} by {
        assert forall i :: 0 <= i < |init| ==> init[i] == ps[i];
      }
      Put(PutAll(d, init), last.name, Convert(last.value))
  }

  /** `Elements.Select(ConvertToClrType)`. */
  function ConvertAll(es: seq<PropertyValue>): (r: seq<ClrObject>)
    ensures |r| == |es|
    ensures forall i :: 0 <= i < |es| ==> r[i] == Convert(es[i])
    decreases es
  {
    if es == [] then [] else [Convert(es[0])] + ConvertAll(es[1..])
  }

  /** `ConvertToClrType`: null to null, a scalar to its object, a structure to a dictionary, a sequence to a list. */
  function ConvertToClrType(value: Option<PropertyValue>): (r: ClrObject)
    ensures value.None? ==> r == ClrScalar(Null)
    ensures value.Some? && value.value.Scalar? ==> r == ClrScalar(value.value.obj)
    ensures value.Some? && value.value.Structure? ==> r == ClrDictionary(DictionaryOf(value.value))
    ensures value.Some? && value.value.Sequence? ==>
              r.ClrList? && |r.items| == |value.value.elements|
              && forall i :: 0 <= i < |r.items| ==> r.items[i] == Convert(value.value.elements[i])
  {
    match value
    case None => ClrScalar(Null)
    case Some(v) => Convert(v)
  }

  /** The dictionary `ConvertToDictionary` returns. */
  function DictionaryOf(structure: StructureValue): (r: seq<KeyValuePair<ClrObject>>)
    ensures DistinctKeys(r)
    ensures KeySet(r) == NameSet(structure.properties) + (if structure.typeTag.Some? then {TypeKey} else {})
  {
    PutAll(TagEntries(structure.typeTag), structure.properties)
  }

  /** `ConvertToList`: one converted element per element, in order. */
  function ConvertToList(sequence: SequenceValue): (r: seq<ClrObject>)
    ensures |r| == |sequence.elements|
    ensures forall i :: 0 <= i < |r| ==> r[i] == ConvertToClrType(Some(sequence.elements[i]))
  {
    ConvertAll(sequence.elements)
  }

  /** `ConvertToDictionary`: fill a fresh dictionary, tag first, then every property in order. */
  method ConvertToDictionary(structure: StructureValue) returns (dictionary: seq<KeyValuePair<ClrObject>>)
    ensures dictionary == DictionaryOf(structure)
  {
    var ps := structure.properties;
    dictionary := [];
    if structure.typeTag.Some? {
      dictionary := Put(dictionary, TypeKey, ClrScalar(Str(structure.typeTag.value)));
    }
    for i := 0 to |ps|
      invariant dictionary == PutAll(TagEntries(structure.typeTag), ps[..i])
    {
      dictionary := Put(dictionary, ps[i].name, ConvertToClrType(Some(ps[i].value)));
      assert ps[..i + 1][..i] == ps[..i];
    }
    assert ps[..|ps|] == ps;
  }

  /** What a dictionary built by `PutAll` holds under `k`: the last property named `k` wins. */
  lemma {:induction false} PutAllLookup(d: seq<KeyValuePair<ClrObject>>, ps: seq<LogEventProperty>, k: string)
    requires DistinctKeys(d)
    ensures Lookup(PutAll(d, ps), k) ==
              match LastNamed(ps, k)
              case Some(p) => Some(Convert(p.value))
              case None => Lookup(d, k)
    decreases ps
  {
    if ps != [] {
      var init := ps[..|ps| - 1];
      PutAllLookup(d, init, k);
    }
  }

  /**
   * Looking a key up in the converted dictionary: the converted value of the
   * LAST property with that name; for "$type" with no such property, the type
   * tag; otherwise nothing.
   */
  lemma DictionaryLookup(structure: StructureValue, k: string)
    ensures Lookup(DictionaryOf(structure), k) ==
              match LastNamed(structure.properties, k)
              case Some(p) => Some(Convert(p.value))
              case None => if k == TypeKey && structure.typeTag.Some? then Some(ClrScalar(Str(structure.typeTag.value))) else None
  {
    PutAllLookup(TagEntries(structure.typeTag), structure.properties, k);
  }

  /** Overwriting keeps a key's position: `Put` only ever changes or appends, never reorders. */
  lemma {:induction false} PutAllKeepsPrefixKeys(d: seq<KeyValuePair<ClrObject>>, ps: seq<LogEventProperty>, i: nat)
    requires i < |d|
    ensures i < |PutAll(d, ps)| && PutAll(d, ps)[i].key == d[i].key
    decreases ps
  {
    if ps != [] {
      var init := ps[..|ps| - 1];
      PutAllKeepsPrefixKeys(d, init, i);
      var before := PutAll(d, init);
      var last := ps[|ps| - 1];
      assert Keys(before)[i] == d[i].key;
      if last.name in KeySet(before) {
        assert Keys(Put(before, last.name, Convert(last.value)))[i] == d[i].key;
      } else {
        assert Put(before, last.name, Convert(last.value))[i] == before[i];
      }
    }
  }

  /** A tagged structure's dictionary starts with the "$type" entry, whatever properties follow. */
  lemma TypeTagEntryFirst(structure: StructureValue)
    requires structure.typeTag.Some?
    ensures |DictionaryOf(structure)| > 0 && DictionaryOf(structure)[0].key == TypeKey
  {
    PutAllKeepsPrefixKeys(TagEntries(structure.typeTag), structure.properties, 0);
  }

  /** The tag entry, then "X". */
  lemma TaggedFirstPut()
    ensures PutAll(TagEntries(Some("Point")), [LogEventProperty("X", Scalar(Integral(Int32, 1)))])
            == [KeyValuePair(TypeKey, ClrScalar(Str("Point"))), KeyValuePair("X", ClrScalar(Integral(Int32, 1)))]
  {
    var d0 := TagEntries(Some("Point"));
    assert [LogEventProperty("X", Scalar(Integral(Int32, 1)))][..0] == [];
    assert "X" !in KeySet(d0);
  }

  /** The tag entry, "X", then "Y". */
  lemma TaggedSecondPut()
    ensures PutAll(TagEntries(Some("Point")), [LogEventProperty("X", Scalar(Integral(Int32, 1))),
                                               LogEventProperty("Y", Scalar(Integral(Int32, 2)))])
            == [KeyValuePair(TypeKey, ClrScalar(Str("Point"))), KeyValuePair("X", ClrScalar(Integral(Int32, 1))),
                KeyValuePair("Y", ClrScalar(Integral(Int32, 2)))]
  {
    var x := LogEventProperty("X", Scalar(Integral(Int32, 1)));
    var y := LogEventProperty("Y", Scalar(Integral(Int32, 2)));
    var d1 := [KeyValuePair(TypeKey, ClrScalar(Str("Point"))), KeyValuePair("X", ClrScalar(Integral(Int32, 1)))];
    TaggedFirstPut();
    assert [x, y][..1] == [x];
    assert KeySet(d1) == {TypeKey, "X"};
  }

  /** A tagged structure: the "$type" entry first, then the properties in order. */
  lemma TaggedStructureExample()
    ensures Convert(Structure(Some("Point"), [LogEventProperty("X", Scalar(Integral(Int32, 1))),
                                             LogEventProperty("Y", Scalar(Integral(Int32, 2)))]))
            == ClrDictionary([KeyValuePair("$type", ClrScalar(Str("Point"))),
                              KeyValuePair("X", ClrScalar(Integral(Int32, 1))),
                              KeyValuePair("Y", ClrScalar(Integral(Int32, 2)))])
  {
    TaggedSecondPut();
  }

  /** Two properties with one name: the later value wins. */
  lemma DuplicateNameExample()
    ensures Convert(Structure(None, [LogEventProperty("A", Scalar(Integral(Int32, 1))),
                                     LogEventProperty("A", Scalar(Integral(Int32, 2)))]))
            == ClrDictionary([KeyValuePair("A", ClrScalar(Integral(Int32, 2)))])
  {
    var a1 := LogEventProperty("A", Scalar(Integral(Int32, 1)));
    var a2 := LogEventProperty("A", Scalar(Integral(Int32, 2)));
    assert [a1, a2][..1] == [a1] && [a1][..0] == [];
    var d1 := [KeyValuePair("A", ClrScalar(Integral(Int32, 1)))];
    assert PutAll([], [a1]) == d1;
    assert d1[0].key == "A";
  }

  /** A property literally named "$type" overwrites the tag entry. */
  lemma TypePropertyOverwritesTagExample()
    ensures Convert(Structure(Some("Point"), [LogEventProperty("$type", Scalar(Str("Other")))]))
            == ClrDictionary([KeyValuePair("$type", ClrScalar(Str("Other")))])
  {
    var t := LogEventProperty("$type", Scalar(Str("Other")));
    assert [t][..0] == [];
    assert TypeKey in KeySet(TagEntries(Some("Point")));
  }
}
