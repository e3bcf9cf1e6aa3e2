/**
 * Alignment of a rendered placeholder (Formatting/Padding.cs): pad with
 * spaces up to the requested width, never truncate.
 */
module Padding {
  import opened TextOutput

  datatype AlignmentDirection = Left | Right

  datatype Alignment = Alignment(direction: AlignmentDirection, width: int)

  /** The shared buffer of 80 spaces written from when the padding fits in it. */
  const PaddingChars: seq<char> := seq(80, _ => ' ')

  /** `new string(' ', n)`. */
  function Spaces(n: nat): (r: string)
    ensures |r| == n
    ensures forall i :: 0 <= i < n ==> r[i] == ' '
  {
    if n == 0 then [] else [' '] + Spaces(n - 1)
  }

  /**
   * The text `Apply` writes for `value` under `alignment`; widths are counted
   * in UTF-16 code units, as `string.Length` counts them.
   */
  function Pad(value: string, alignment: Alignment): (r: string)
    ensures Utf16Length(value) >= alignment.width ==> r == value
    ensures Utf16Length(value) < alignment.width ==> Utf16Length(r) == alignment.width
    ensures |r| >= |value|
    ensures alignment.direction == Left ==>
              r[..|value|] == value && forall i :: |value| <= i < |r| ==> r[i] == ' '
    ensures alignment.direction == Right ==>
              r[|r| - |value|..] == value && forall i :: 0 <= i < |r| - |value| ==> r[i] == ' '
  {
    var length := Utf16Length(value);
    if length >= alignment.width then value
    else
      var pad := alignment.width - length;
      Utf16LengthBasicPlane(Spaces(pad));
      Utf16LengthAppend(value, Spaces(pad));
      Utf16LengthAppend(Spaces(pad), value);
      if alignment.direction == Left then value + Spaces(pad) else Spaces(pad) + value
  }

  /**
   * An emoji is two code units wide: width 3 adds one space, and width 2
   * leaves it unchanged.
   */
  lemma SurrogatePairPadding()
    ensures Pad("\U{1F600}", Alignment(Left, 3)) == "\U{1F600} "
    ensures Pad("\U{1F600}", Alignment(Right, 3)) == " \U{1F600}"
    ensures Pad("\U{1F600}", Alignment(Left, 2)) == "\U{1F600}"
  {
    SurrogatePairExample();
    assert Spaces(1) == " ";
  }

  /** Writing a prefix of the shared buffer writes the same text as a fresh string of spaces. */
  lemma PaddingBufferIsSpaces(pad: nat)
    requires pad <= |PaddingChars|
    ensures PaddingChars[..pad] == Spaces(pad)
  {
    assert forall i :: 0 <= i < pad ==> PaddingChars[..pad][i] == ' ' == Spaces(pad)[i];
  }

  /** Below the width, the padding is the missing number of code units, all spaces. */
  lemma PadBelowWidth(value: string, alignment: Alignment)
    requires Utf16Length(value) < alignment.width
    ensures var pad := alignment.width - Utf16Length(value);
            Pad(value, alignment) == if alignment.direction == Left then value + Spaces(pad) else Spaces(pad) + value
  {
  }

  /** `Padding.Apply(output, value, alignment)`. */
  method Apply(output: StringWriter, value: string, alignment: Alignment)
    modifies output
    ensures output.text == old(output.text) + Pad(value, alignment)
  {
    var length := Utf16Length(value);
    if length >= alignment.width {
      output.Write(value);
      return;
    }

    var pad := alignment.width - length;
    PadBelowWidth(value, alignment);
    ghost var start := output.text;

    if alignment.direction == Left {
      output.Write(value);
    }
    ghost var lead := output.text;

    if pad <= |PaddingChars| {
      PaddingBufferIsSpaces(pad);
      output.Write(PaddingChars[..pad]);
    } else {
      output.Write(Spaces(pad));
    }
    assert output.text == lead + Spaces(pad);

    if alignment.direction == Right {
      output.Write(value);
      assert output.text == start + (Spaces(pad) + value);
    } else {
      assert output.text == start + (value + Spaces(pad));
    }
  }
}
