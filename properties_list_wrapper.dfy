/**
 * Properties/PropertiesListWrapper.cs: the log event's properties as the
 * read-only list of attributes handed to OpenTelemetry, built on first use.
 */
module PropertiesListWrapping {
  import opened Wrappers
  import opened Events
  import opened Dictionaries
  import opened PropertySerializer
  import opened StructureWrapping
  import opened SequenceWrapping

  /** The public object an attribute carries: a scalar's raw value or a wrapper. */
  datatype AttributeValue =
    | Plain(obj: ScalarObject)
    | StructureObject(structure: StructureValueWrapper)
    | SequenceObject(sequence: SequenceValueWrapper)

  class PropertiesListWrapper {
    const properties: EventProperties
    const serializer: LogEventPropertySerializer
    /** The lazily built list; `None` until first use. */
    var list: Option<seq<KeyValuePair<AttributeValue>>>
    /** How many times the list has been built. */
    ghost var builds: nat

    /** `a` is what `Convert` makes of `v`: the scalar's value, or a wrapper of `v` over this serializer. */
    ghost predicate Converted(v: Option<PropertyValue>, a: AttributeValue) {
      match v
      case None => a == Plain(Null)
      case Some(Scalar(o)) => a == Plain(o)
      case Some(Structure(_, _)) => a.StructureObject? && a.structure.value == v.value && a.structure.serializer == serializer
      case Some(Sequence(_)) => a == SequenceObject(SequenceValueWrapper(v.value, serializer))
    }

    /** The list entry at position `i` carries the `i`-th property's name and converted value. */
    ghost predicate EntryOf(entry: KeyValuePair<AttributeValue>, source: KeyValuePair<PropertyValue>) {
      entry.key == source.key && Converted(Some(source.value), entry.value)
    }

    /** Every structure wrapper in `l` is ready for use: its dictionary is not built yet and its cache is consistent. */
    ghost predicate Unbuilt(l: seq<KeyValuePair<AttributeValue>>)
      reads set i | 0 <= i < |l| && l[i].value.StructureObject? :: l[i].value.structure
    {
      forall i :: 0 <= i < |l| && l[i].value.StructureObject? ==>
        l[i].value.structure.dictionary.None? && l[i].value.structure.Valid()
    }

    /** No two entries of `l` share a structure wrapper. */
    ghost predicate DistinctWrappers(l: seq<KeyValuePair<AttributeValue>>) {
      forall i, j :: 0 <= i < j < |l| && l[i].value.StructureObject? && l[j].value.StructureObject? ==>
        l[i].value.structure != l[j].value.structure
    }

    ghost predicate Valid()
      reads this
    {
      && builds == (if list.Some? then 1 else 0)
      && (list.Some? ==>
            && |list.value| == |properties|
            && forall i :: 0 <= i < |properties| ==> EntryOf(list.value[i], properties[i]))
    }

    constructor (properties: EventProperties, serializer: LogEventPropertySerializer)
      ensures this.properties == properties && this.serializer == serializer
      ensures list.None? && Valid()
    {
      this.properties := properties;
      this.serializer := serializer;
      list := None;
      builds := 0;
    }

    /** `Convert`: a new wrapper for each structure, with its dictionary not yet built. */
    method Convert(value: Option<PropertyValue>) returns (r: AttributeValue)
      ensures Converted(value, r)
      ensures r.StructureObject? ==> fresh(r.structure) && r.structure.dictionary.None? && r.structure.Valid()
    {
      if value.None? {
        return Plain(Null);
      }
      match value.value {
        case Scalar(o) =>
          r := Plain(o);
        case Structure(_, _) =>
          var w := new StructureValueWrapper(value.value, serializer);
          r := StructureObject(w);
        case Sequence(_) =>
          r := SequenceObject(SequenceValueWrapper(value.value, serializer));
      }
    }

    /** The `List` property: builds the list once, in the properties' order, then answers from the cache. */
    method List() returns (l: seq<KeyValuePair<AttributeValue>>)
      requires Valid()
      modifies this
      ensures Valid() && list == Some(l)
      ensures old(list).Some? ==> l == old(list).value && builds == old(builds)
      ensures builds <= 1
      ensures |l| == |properties|
      ensures forall i :: 0 <= i < |l| ==> EntryOf(l[i], properties[i])
      ensures old(list).None? ==>
                && (forall i :: 0 <= i < |l| && l[i].value.StructureObject? ==> fresh(l[i].value.structure))
                && Unbuilt(l) && DistinctWrappers(l)
    {
      if list.None? {
        var built: seq<KeyValuePair<AttributeValue>> := [];
        for i := 0 to |properties|
          invariant unchanged(this)
          invariant |built| == i
          invariant forall j :: 0 <= j < i ==> EntryOf(built[j], properties[j])
          invariant forall j :: 0 <= j < i && built[j].value.StructureObject? ==> fresh(built[j].value.structure)
          invariant Unbuilt(built) && DistinctWrappers(built)
        {
          var kvp := properties[i];
          var converted := Convert(Some(kvp.value));
          built := built + [KeyValuePair(kvp.key, converted)];
        }
        list := Some(built);
        builds := builds + 1;
      }
      l := list.value;
    }

    /** `Count` comes from the properties and never builds the list. */
    function Count(): (n: nat)
      reads this
      ensures Valid() && list.Some? ==> n == |list.value|
      ensures n == |KeySet(properties)|
    {
      CountIsKeyCount(properties);
      |properties|
    }

    method GetEnumerator() returns (entries: seq<KeyValuePair<AttributeValue>>)
      requires Valid()
      modifies this
      ensures Valid() && list == Some(entries)
      ensures |entries| == |properties|
      ensures forall i :: 0 <= i < |entries| ==> EntryOf(entries[i], properties[i])
      ensures old(list).None? ==>
                && (forall i :: 0 <= i < |entries| && entries[i].value.StructureObject? ==> fresh(entries[i].value.structure))
                && Unbuilt(entries) && DistinctWrappers(entries)
    {
      entries := List();
    }

    /** The indexer: `ArgumentOutOfRangeException` outside `0..Count()`. */
    method Item(index: int) returns (r: Result<KeyValuePair<AttributeValue>, Exception>)
      requires Valid()
      modifies this
      ensures Valid() && list.Some?
      ensures r.Success? <==> 0 <= index < Count()
      ensures r.Success? ==> r.value == list.value[index] && EntryOf(r.value, properties[index])
      ensures r.Failure? ==> r.error == ArgumentOutOfRange("index", None)
      ensures old(list).None? && r.Success? && r.value.value.StructureObject? ==>
                fresh(r.value.value.structure) && r.value.value.structure.dictionary.None?
                && r.value.value.structure.Valid()
    {
      var l := List();
      if !(0 <= index < |l|) {
        return Failure(ArgumentOutOfRange("index", None));
      }
      r := Success(l[index]);
    }
  }
}
