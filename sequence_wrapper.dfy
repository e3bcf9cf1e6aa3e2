/**
 * Properties/SequenceValueWrapper.cs: a read-only list view of a sequence
 * value. It holds only read-only fields, so it is a value here; its elements
 * are converted afresh on every access.
 */
module SequenceWrapping {
  import opened Wrappers
  import opened Events
  import opened Json
  import opened PropertySerializer
  import opened PropertyConverter

  datatype SequenceValueWrapper = SequenceValueWrapper(value: SequenceValue, serializer: LogEventPropertySerializer)
  {
    function Count(): (n: nat)
      ensures n == |ConvertToList(value)|
    {
      |value.elements|
    }

    /** The elements, each converted to its CLR form, as the enumerator yields them. */
    function Elements(): (r: seq<ClrObject>)
      ensures |r| == Count()
      ensures forall i :: 0 <= i < |r| ==> r[i] == ConvertToClrType(Some(value.elements[i]))
    {
      ConvertToList(value)
    }

    function GetEnumerator(): (r: seq<ClrObject>)
      ensures r == Elements()
    {
      seq(|value.elements|, i requires 0 <= i < |value.elements| => ConvertToClrType(Some(value.elements[i])))
    }

    /** The indexer: the converted element, or `ArgumentOutOfRangeException` outside `0..Count()`. */
    function Item(index: int): (r: Result<ClrObject, Exception>)
      ensures r.Success? <==> 0 <= index < Count()
      ensures r.Success? ==> r.value == Elements()[index]
      ensures r.Failure? ==> r.error == ArgumentOutOfRange("index", None)
    {
      if 0 <= index < |value.elements| then Success(ConvertToClrType(Some(value.elements[index])))
      else Failure(ArgumentOutOfRange("index", None))
    }

    /** `ToString`: the JSON array of the elements; throws on a NaN or infinity. */
    method ToString() returns (r: Result<seq<JsonToken>, Exception>)
      ensures r.Success? <==> serializer.Writable(value)
      ensures r.Success? ==> r.value == serializer.Encode(value) && Parse(r.value) == Some(JArray(serializer.ItemsOf(value.elements)))
      ensures r.Failure? ==> r.error == InvalidJsonNumber
    {
      r := serializer.SerializeSequence(value);
    }
  }
}
