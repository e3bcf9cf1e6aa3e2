/**
 * Properties/StructureValueWrapper.cs: a read-only dictionary view of a
 * structure value whose backing dictionary is built on first use and kept.
 */
module StructureWrapping {
  import opened Wrappers
  import opened Events
  import opened Dictionaries
  import opened Json
  import opened PropertySerializer
  import opened PropertyConverter

  class StructureValueWrapper {
    const value: StructureValue
    const serializer: LogEventPropertySerializer
    /** The lazily built dictionary; `None` until first use. */
    var dictionary: Option<seq<KeyValuePair<ClrObject>>>
    /** How many times the dictionary has been built. */
    ghost var conversions: nat

    /** The cache, once filled, holds the conversion of `value`, and it is filled at most once. */
    ghost predicate Valid()
      reads this
    {
      && conversions == (if dictionary.Some? then 1 else 0)
      && (dictionary.Some? ==> dictionary.value == DictionaryOf(value))
    }

    constructor (value: StructureValue, serializer: LogEventPropertySerializer)
      ensures this.value == value && this.serializer == serializer
      ensures dictionary.None? && Valid()
    {
      this.value := value;
      this.serializer := serializer;
      dictionary := None;
      conversions := 0;
    }

    /** The `Dictionary` property: converts on first use, then answers from the cache. */
    method Dictionary() returns (d: seq<KeyValuePair<ClrObject>>)
      requires Valid()
      modifies this
      ensures Valid() && dictionary == Some(d) && d == DictionaryOf(value)
      ensures old(dictionary).Some? ==> d == old(dictionary).value && conversions == old(conversions)
      ensures conversions <= 1
    {
      if dictionary.None? {
        var converted := ConvertToDictionary(value);
        dictionary := Some(converted);
        conversions := conversions + 1;
      }
      d := dictionary.value;
    }

    /** `ToString`: serializes the structure directly, without building the dictionary; throws on a NaN or infinity. */
    method ToString() returns (r: Result<seq<JsonToken>, Exception>)
      ensures r.Success? <==> serializer.Writable(value)
      ensures r.Success? ==> r.value == serializer.Encode(value) && Parse(r.value) == Some(JObject(serializer.MembersOf(value.properties)))
      ensures r.Failure? ==> r.error == InvalidJsonNumber
    {
      r := serializer.SerializeStructure(value);
    }

    method Count() returns (n: nat)
      requires Valid()
      modifies this
      ensures Valid() && dictionary == Some(DictionaryOf(value))
      ensures n == |DictionaryOf(value)|
      ensures n == |KeySet(DictionaryOf(value))|
    {
      var d := Dictionary();
      CountIsKeyCount(d);
      n := |d|;
    }

    /** `GetEnumerator`: the entries in insertion order. */
    method GetEnumerator() returns (entries: seq<KeyValuePair<ClrObject>>)
      requires Valid()
      modifies this
      ensures Valid() && dictionary == Some(DictionaryOf(value))
      ensures entries == DictionaryOf(value)
    {
      entries := Dictionary();
    }

    method ContainsKey(key: string) returns (b: bool)
      requires Valid()
      modifies this
      ensures Valid() && dictionary == Some(DictionaryOf(value))
      ensures b <==> key in KeySet(DictionaryOf(value))
    {
      var d := Dictionary();
      b := Lookup(d, key).Some?;
    }

    /** `TryGetValue`: the out value is null when the key is absent. */
    method TryGetValue(key: string) returns (found: bool, v: ClrObject)
      requires Valid()
      modifies this
      ensures Valid() && dictionary == Some(DictionaryOf(value))
      ensures found <==> key in KeySet(DictionaryOf(value))
      ensures found ==> Lookup(DictionaryOf(value), key) == Some(v)
      ensures !found ==> v == ClrScalar(Null)
    {
      var d := Dictionary();
      var r := Lookup(d, key);
      if r.Some? {
        found, v := true, r.value;
      } else {
        found, v := false, ClrScalar(Null);
      }
    }

    /** The indexer: `KeyNotFoundException` for an absent key. */
    method Item(key: string) returns (r: Result<ClrObject, Exception>)
      requires Valid()
      modifies this
      ensures Valid() && dictionary == Some(DictionaryOf(value))
      ensures r.Success? <==> key in KeySet(DictionaryOf(value))
      ensures r.Success? ==> Lookup(DictionaryOf(value), key) == Some(r.value)
      ensures r.Failure? ==> r.error == KeyNotFound(key)
    {
      var d := Dictionary();
      var found := Lookup(d, key);
      if found.None? {
        return Failure(KeyNotFound(key));
      }
      r := Success(found.value);
    }

    method Keys() returns (ks: seq<string>)
      requires Valid()
      modifies this
      ensures Valid() && dictionary == Some(DictionaryOf(value))
      ensures |ks| == |DictionaryOf(value)|
      ensures forall i :: 0 <= i < |ks| ==> ks[i] == DictionaryOf(value)[i].key
    {
      var d := Dictionary();
      ks := Dictionaries.Keys(d);
    }

    method Values() returns (vs: seq<ClrObject>)
      requires Valid()
      modifies this
      ensures Valid() && dictionary == Some(DictionaryOf(value))
      ensures |vs| == |DictionaryOf(value)|
      ensures forall i :: 0 <= i < |vs| ==> vs[i] == DictionaryOf(value)[i].value
    {
      var d := Dictionary();
      vs := Dictionaries.Values(d);
    }
  }

  /**
   * The wrapper's count: one entry per distinct property name, plus one for
   * the type tag unless a property is itself named "$type".
   */
  lemma CountIsDistinctNames(structure: StructureValue)
    ensures |DictionaryOf(structure)|
            == |NameSet(structure.properties) + (if structure.typeTag.Some? then {TypeKey} else {})|
  {
    CountIsKeyCount(DictionaryOf(structure));
  }
}
