/** The index field of a request context: each data index written by
    `DataView.prototype.setBigUint64(8 * i, BigInt(v), true)`, that is as an
    unsigned 64-bit little-endian integer, into a buffer of 8 bytes per index. */
module LittleEndian {
  import opened JsTypes

  const TwoTo64: int := 0x1_0000_0000_0000_0000

  /** 256 to the power n. */
  function Pow256(n: nat): (r: nat)
    ensures r >= 1
  {
    if n == 0 then 1 else 256 * Pow256(n - 1)
  }

  /** The n low-order base-256 digits of x, least significant first. */
  function LeBytes(x: nat, n: nat): (r: seq<byte>)
    ensures |r| == n
  {
    if n == 0 then [] else [x % 256] + LeBytes(x / 256, n - 1)
  }

  /** The number a little-endian byte string denotes. */
  function LeDecode(bs: seq<byte>): (v: nat)
  {
    if |bs| == 0 then 0 else bs[0] + 256 * LeDecode(bs[1..])
  }

  lemma {:induction false} LeDecodeBytes(x: nat, n: nat)
    requires x < Pow256(n)
    ensures LeDecode(LeBytes(x, n)) == x
  {
    if n > 0 {
      LeDecodeBytes(x / 256, n - 1);
      assert LeBytes(x, n)[1..] == LeBytes(x / 256, n - 1);
    }
  }

  /** The 8 bytes `setBigUint64(offset, BigInt(v), true)` writes: ToBigUint64
      reduces v modulo 2^64, then the bytes go least significant first. */
  function Uint64Le(v: int): (r: seq<byte>)
    ensures |r| == 8
  {
    LeBytes(v % TwoTo64, 8)
  }

  /** Reading the 8 bytes back gives v modulo 2^64, so v itself for 0 <= v < 2^64. */
  lemma Uint64LeDecodes(v: int)
    ensures LeDecode(Uint64Le(v)) == v % TwoTo64
    ensures 0 <= v < TwoTo64 ==> LeDecode(Uint64Le(v)) == v
  {
    assert Pow256(8) == TwoTo64;
    LeDecodeBytes(v % TwoTo64, 8);
  }

  /** Two indices in range get the same encoding only if they are equal. */
  lemma Uint64LeInjective(v: int, w: int)
    requires 0 <= v < TwoTo64 && 0 <= w < TwoTo64
    ensures Uint64Le(v) == Uint64Le(w) <==> v == w
  {
    Uint64LeDecodes(v);
    Uint64LeDecodes(w);
  }

  /** The whole index buffer: the encodings of the indices, one after another. */
  function IndexField(dataIndices: seq<int>): (r: seq<byte>)
    ensures |r| == 8 * |dataIndices|
  {
    if |dataIndices| == 0 then []
    else IndexField(dataIndices[..|dataIndices| - 1]) + Uint64Le(dataIndices[|dataIndices| - 1])
  }

  /** Bytes 8i .. 8i+7 of the index field are the encoding of index i, and
      decoding them recovers index i (modulo 2^64). */
  lemma {:induction false} IndexFieldSlot(dataIndices: seq<int>, i: nat)
    requires i < |dataIndices|
    ensures IndexField(dataIndices)[8 * i..8 * i + 8] == Uint64Le(dataIndices[i])
    ensures LeDecode(IndexField(dataIndices)[8 * i..8 * i + 8]) == dataIndices[i] % TwoTo64
    ensures 0 <= dataIndices[i] < TwoTo64 ==> LeDecode(IndexField(dataIndices)[8 * i..8 * i + 8]) == dataIndices[i]
  {
    var n := |dataIndices| - 1;
    var init := dataIndices[..n];
    assert IndexField(dataIndices) == IndexField(init) + Uint64Le(dataIndices[n]);
    if i < n {
      IndexFieldSlot(init, i);
      assert init[i] == dataIndices[i];
      assert IndexField(dataIndices)[8 * i..8 * i + 8] == IndexField(init)[8 * i..8 * i + 8];
    }
    Uint64LeDecodes(dataIndices[i]);
  }

  /** Index fields of in-range indices are equal exactly when the index lists are. */
  lemma IndexFieldInjective(a: seq<int>, b: seq<int>)
    requires forall i | 0 <= i < |a| :: 0 <= a[i] < TwoTo64
    requires forall i | 0 <= i < |b| :: 0 <= b[i] < TwoTo64
    ensures IndexField(a) == IndexField(b) <==> a == b
  {
    if IndexField(a) == IndexField(b) {
      assert |a| == |b|;
      forall i | 0 <= i < |a|
        ensures a[i] == b[i]
      {
        IndexFieldSlot(a, i);
        IndexFieldSlot(b, i);
      }
    }
  }

  /** `view.setBigUint64(offset, BigInt(v), true)` on a `DataView` over view. */
  method SetBigUint64(view: array<byte>, offset: nat, v: int)
    requires offset + 8 <= view.Length
    modifies view
    ensures view[..] == old(view[..offset]) + Uint64Le(v) + old(view[offset + 8..])
  {
    var bytes := Uint64Le(v);
    forall j | 0 <= j < 8 {
      view[offset + j] := bytes[j];
    }
    assert view[..] == old(view[..offset]) + bytes + old(view[offset + 8..]);
  }

  /** The index loop of the context builders: a zeroed buffer of
      `dataIndices.length * 8` bytes written one index at a time. */
  method EncodeIndices(dataIndices: seq<int>) returns (buf: seq<byte>)
    ensures buf == IndexField(dataIndices)
  {
    var dataIndicesBuffer := new byte[|dataIndices| * 8](_ => 0);
    for i := 0 to |dataIndices|
      invariant dataIndicesBuffer[..8 * i] == IndexField(dataIndices[..i])
    {
      SetBigUint64(dataIndicesBuffer, 8 * i, dataIndices[i]);
      assert dataIndices[..i + 1][..i] == dataIndices[..i];
      assert dataIndicesBuffer[..8 * i + 8] == dataIndicesBuffer[..8 * i] + Uint64Le(dataIndices[i]);
    }
    assert dataIndices[..|dataIndices|] == dataIndices;
    buf := dataIndicesBuffer[..];
    assert buf == dataIndicesBuffer[..8 * |dataIndices|];
  }
}
