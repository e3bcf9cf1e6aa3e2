/**
 * .NET text as the formatter sees it: `string.Length`, and a `TextWriter`
 * (a `StringWriter` that only appends).
 */
module TextOutput {

  /** The UTF-16 code units a character takes: two (a surrogate pair) outside the Basic Multilingual Plane. */
  function CodeUnits(c: char): nat {
    if c as int > 0xFFFF then 2 else 1
  }

  /**
   * `string.Length`: the number of UTF-16 code units, so each character
   * outside the Basic Multilingual Plane counts twice.
   */
  function Utf16Length(s: string): (n: nat)
    ensures |s| <= n <= 2 * |s|
    decreases |s|
  {
    if s == [] then 0 else Utf16Length(s[..|s| - 1]) + CodeUnits(s[|s| - 1])
  }

  /** The code-unit length equals the character count exactly when no character needs a surrogate pair. */
  lemma {:induction false} Utf16LengthBasicPlane(s: string)
    ensures Utf16Length(s) == |s| <==> forall i :: 0 <= i < |s| ==> s[i] as int <= 0xFFFF
    decreases |s|
  {
    if s != [] {
      var init := s[..|s| - 1];
      Utf16LengthBasicPlane(init);
      assert forall i :: 0 <= i < |init| ==> init[i] == s[i];
    }
  }

  /** The length of a concatenation is the sum of the lengths. */
  lemma {:induction false} Utf16LengthAppend(a: string, b: string)
    ensures Utf16Length(a + b) == Utf16Length(a) + Utf16Length(b)
    decreases |b|
  {
    if b == [] {
      assert a + b == a;
    } else {
      var init := b[..|b| - 1];
      Utf16LengthAppend(a, init);
      assert (a + b)[..|a + b| - 1] == a + init;
    }
  }

  /** An emoji is one character here and two code units in .NET. */
  lemma SurrogatePairExample()
    ensures |"\U{1F600}"| == 1 && Utf16Length("\U{1F600}") == 2
    ensures Utf16Length("abc") == 3
  {
  }

  class StringWriter {
    var text: string

    constructor ()
      ensures text == []
    {
      text := [];
    }

    method Write(s: string)
      modifies this
      ensures text == old(text) + s
    {
      text := text + s;
    }
  }
}
