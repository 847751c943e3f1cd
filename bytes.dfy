/** `append`: the delimiter-free, in-order concatenation of byte buffers that
    every context and label of the protocol is built with. */
module Bytes {
  import opened JsTypes

  /** The in-order concatenation of all the buffers. */
  function Flatten(arrays: seq<seq<byte>>): (r: seq<byte>)
  {
    if |arrays| == 0 then [] else Flatten(arrays[..|arrays| - 1]) + arrays[|arrays| - 1]
  }

  /** `arrays.reduce((acc, arr) => acc + arr.byteLength, 0)`. */
  function TotalLength(arrays: seq<seq<byte>>): (n: nat)
    ensures forall i | 0 <= i < |arrays| :: |arrays[i]| <= n
  {
    if |arrays| == 0 then 0 else TotalLength(arrays[..|arrays| - 1]) + |arrays[|arrays| - 1]|
  }

  lemma {:induction false} FlattenLength(arrays: seq<seq<byte>>)
    ensures |Flatten(arrays)| == TotalLength(arrays)
  {
    if |arrays| > 0 {
      FlattenLength(arrays[..|arrays| - 1]);
    }
  }

  /** Concatenating two lists of buffers concatenates their contents. */
  lemma {:induction false} FlattenConcat(a: seq<seq<byte>>, b: seq<seq<byte>>)
    ensures Flatten(a + b) == Flatten(a) + Flatten(b)
  {
    if |b| == 0 {
      assert a + b == a;
    } else {
      assert (a + b)[..|a + b| - 1] == a + b[..|b| - 1];
      FlattenConcat(a, b[..|b| - 1]);
    }
  }

  lemma {:induction false} TotalLengthConcat(a: seq<seq<byte>>, b: seq<seq<byte>>)
    ensures TotalLength(a + b) == TotalLength(a) + TotalLength(b)
  {
    FlattenConcat(a, b);
    FlattenLength(a + b);
    FlattenLength(a);
    FlattenLength(b);
  }

  /** The closed forms of `append` on the list lengths the protocol uses. */
  lemma FlattenSmall(a: seq<byte>, b: seq<byte>, c: seq<byte>, d: seq<byte>, e: seq<byte>)
    ensures Flatten([a, b]) == a + b
    ensures Flatten([a, b, c]) == a + b + c
    ensures Flatten([a, b, c, d]) == a + b + c + d
    ensures Flatten([a, b, c, d, e]) == a + b + c + d + e
  {
    assert [a, b, c, d, e][..4] == [a, b, c, d];
    assert [a, b, c, d][..3] == [a, b, c];
    assert [a, b, c][..2] == [a, b];
    assert [a, b][..1] == [a];
    assert [a][..0] == [];
    assert Flatten([a]) == [] + a == a;
  }

  /** With no delimiters, a concatenation splits back into its parts only
      when the width of the first part is fixed. */
  lemma ConcatSplit(a: seq<byte>, b: seq<byte>, a': seq<byte>, b': seq<byte>)
    requires |a| == |a'|
    ensures a + b == a' + b' <==> a == a' && b == b'
  {
    if a + b == a' + b' {
      assert a == (a + b)[..|a|] && a' == (a' + b')[..|a'|];
      assert b == (a + b)[|a|..] && b' == (a' + b')[|a'|..];
    }
  }

  /** `Uint8Array.prototype.set(source, offset)`: copies source into target
      starting at offset and leaves every other element as it was. */
  method SetAt(target: array<byte>, source: seq<byte>, offset: nat)
    requires offset + |source| <= target.Length
    modifies target
    ensures target[..] == old(target[..offset]) + source + old(target[offset + |source|..])
  {
    forall i | 0 <= i < |source| {
      target[offset + i] := source[i];
    }
    assert target[..] == old(target[..offset]) + source + old(target[offset + |source|..]);
  }

  /** `append(arrays)`: allocates a buffer of the total length and copies each
      input into it at a running offset. */
  method Append(arrays: seq<seq<byte>>) returns (r: seq<byte>)
    ensures r == Flatten(arrays)
    ensures |r| == TotalLength(arrays)
  {
    var totalLength := TotalLength(arrays);
    var result := new byte[totalLength](_ => 0);
    var offset := 0;
    var k := 0;
    while k < |arrays|
      invariant 0 <= k <= |arrays|
      invariant offset == TotalLength(arrays[..k]) <= totalLength
      invariant result[..offset] == Flatten(arrays[..k])
    {
      var arr := arrays[k];
      assert arrays[..k + 1][..k] == arrays[..k];
      TotalLengthConcat(arrays[..k + 1], arrays[k + 1..]);
      assert arrays[..k + 1] + arrays[k + 1..] == arrays;
      SetAt(result, arr, offset);
      assert result[..offset + |arr|] == Flatten(arrays[..k]) + arr;
      offset := offset + |arr|;
      k := k + 1;
    }
    assert arrays[..k] == arrays;
    FlattenLength(arrays);
    r := result[..];
    assert r == result[..offset];
  }
}
