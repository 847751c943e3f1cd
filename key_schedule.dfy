/** `computeAes128KeySchedule`: the byte/word packing around the AES-128 key
    expansion. The expansion itself (SJCL's `Aes` constructor) is a parameter:
    a function from the four key words to the 44 words of the forward schedule. */
module KeySchedule {
  import opened JsTypes

  /** The 44 32-bit words of an AES-128 forward key schedule, as JavaScript Numbers. */
  type Words44 = s: seq<int> | |s| == 44 witness seq(44, _ => 0)

  /** The 11 round keys of 16 bytes each. */
  const ScheduleLength: nat := 44 * 4

  /** `(b0 << 24) + (b1 << 16) + (b2 << 8) + b3`, with JavaScript's int32 shifts
      and Number addition. */
  function PackWord(b0: byte, b1: byte, b2: byte, b3: byte): (w: int)
  {
    ShiftLeft(b0, 24) + ShiftLeft(b1, 16) + ShiftLeft(b2, 8) + b3
  }

  /** The big-endian bytes of a word:
      `(w >> 24) & 0xff, (w >> 16) & 0xff, (w >> 8) & 0xff, w & 0xff`. */
  function WordBytes(w: int): (r: seq<byte>)
    ensures |r| == 4
  {
    [LowByte(ShiftRight(w, 24)), LowByte(ShiftRight(w, 16)), LowByte(ShiftRight(w, 8)), LowByte(w)]
  }

  /** The shift amounts used by the packing, as factors. */
  lemma ShiftFactors()
    ensures Pow2(24) == 0x100_0000 && Pow2(16) == 0x1_0000 && Pow2(8) == 0x100
  {
  }

  /** `b << n` for a byte b and n in {8, 16, 24}: only `b << 24` can reach the
      sign bit, and then the word is negative. */
  lemma ShiftLeftByte(b: byte, n: nat)
    requires n == 8 || n == 16 || n == 24
    ensures ShiftLeft(b, n) == if n == 24 && b >= 128 then (b - 256) * 0x100_0000 else b * Pow2(n)
  {
    ShiftFactors();
    DivMod(b * Pow2(n), TwoTo32, 0, b * Pow2(n));
  }

  /** The bytes of the int32 word with signed top byte s and lower bytes b1, b2, b3. */
  lemma WordBytesOfSigned(s: int, b1: byte, b2: byte, b3: byte)
    requires -128 <= s < 128
    ensures WordBytes(s * 0x100_0000 + b1 * 0x1_0000 + b2 * 0x100 + b3) == [s % 256, b1, b2, b3]
  {
    var w := s * 0x100_0000 + b1 * 0x1_0000 + b2 * 0x100 + b3;
    ShiftFactors();
    assert ToInt32(w) == w;
    DivMod(w, 0x100_0000, s, b1 * 0x1_0000 + b2 * 0x100 + b3);
    DivMod(w, 0x1_0000, s * 0x100 + b1, b2 * 0x100 + b3);
    DivMod(w, 0x100, s * 0x1_0000 + b1 * 0x100 + b2, b3);
    DivMod(s * 0x100 + b1, 0x100, s, b1);
    DivMod(s * 0x1_0000 + b1 * 0x100 + b2, 0x100, s * 0x100 + b1, b2);
  }

  /** The packed word is the big-endian value of the four bytes, read as a
      signed 32-bit integer (as JavaScript's `<<` leaves it). */
  lemma PackWordValue(b0: byte, b1: byte, b2: byte, b3: byte)
    ensures PackWord(b0, b1, b2, b3) == ToInt32(b0 * 0x100_0000 + b1 * 0x1_0000 + b2 * 0x100 + b3)
    ensures -TwoTo31 <= PackWord(b0, b1, b2, b3) < TwoTo31
  {
    ShiftFactors();
    ShiftLeftByte(b0, 24);
    ShiftLeftByte(b1, 16);
    ShiftLeftByte(b2, 8);
    var u := b0 * 0x100_0000 + b1 * 0x1_0000 + b2 * 0x100 + b3;
    var top := if b0 >= 128 then (b0 - 256) * 0x100_0000 else b0 * 0x100_0000;
    assert PackWord(b0, b1, b2, b3) == top + b1 * 0x1_0000 + b2 * 0x100 + b3;
    DivMod(u, TwoTo32, 0, u);
  }

  /** Unpacking a packed word gives back its four bytes. */
  lemma WordBytesOfPackWord(b0: byte, b1: byte, b2: byte, b3: byte)
    ensures WordBytes(PackWord(b0, b1, b2, b3)) == [b0, b1, b2, b3]
  {
    ShiftFactors();
    ShiftLeftByte(b0, 24);
    ShiftLeftByte(b1, 16);
    ShiftLeftByte(b2, 8);
    var s := if b0 < 128 then b0 else b0 - 256;
    assert PackWord(b0, b1, b2, b3) == s * 0x100_0000 + b1 * 0x1_0000 + b2 * 0x100 + b3;
    WordBytesOfSigned(s, b1, b2, b3);
    DivMod(s, 256, if b0 < 128 then 0 else -1, b0);
  }

  /** Packing the bytes of a word gives back the word's 32-bit pattern. */
  lemma PackWordOfWordBytes(w: int)
    ensures var bs := WordBytes(w); PackWord(bs[0], bs[1], bs[2], bs[3]) == ToInt32(w)
  {
    var v := ToInt32(w);
    var u := if v < 0 then v + TwoTo32 else v;
    // the base-256 digits of u
    var c3, t1 := u % 256, u / 256;
    var c2, t2 := t1 % 256, t1 / 256;
    var c1, c0 := t2 % 256, t2 / 256;
    assert u == c0 * 0x100_0000 + c1 * 0x1_0000 + c2 * 0x100 + c3;
    var s := if v < 0 then c0 - 256 else c0;
    assert v == s * 0x100_0000 + c1 * 0x1_0000 + c2 * 0x100 + c3;
    WordBytesOfSigned(s, c1, c2, c3);
    DivMod(s, 256, if v < 0 then -1 else 0, c0);
    ShiftFactors();
    assert WordBytes(w) == WordBytes(v);
    PackWordValue(c0, c1, c2, c3);
    DivMod(u, TwoTo32, 0, u);
  }

  /** The four key words handed to the expansion: word i packs key bytes 4i .. 4i+3. */
  function PackKey(key: seq<byte>): (words: seq<int>)
    requires |key| == 16
    ensures |words| == 4
  {
    seq(4, i requires 0 <= i < 4 => PackWord(key[4 * i], key[4 * i + 1], key[4 * i + 2], key[4 * i + 3]))
  }

  /** A schedule written back as bytes: the big-endian bytes of each word, in order. */
  function ScheduleBytes(words: seq<int>): (bytes: seq<byte>)
    ensures |bytes| == 4 * |words|
  {
    if |words| == 0 then [] else ScheduleBytes(words[..|words| - 1]) + WordBytes(words[|words| - 1])
  }

  /** Bytes 4i .. 4i+3 of a written-back schedule are the big-endian bytes of word i. */
  lemma {:induction false} ScheduleBytesSlot(words: seq<int>, i: nat)
    requires i < |words|
    ensures ScheduleBytes(words)[4 * i..4 * i + 4] == WordBytes(words[i])
  {
    var n := |words| - 1;
    var init := words[..n];
    assert ScheduleBytes(words) == ScheduleBytes(init) + WordBytes(words[n]);
    if i < n {
      ScheduleBytesSlot(init, i);
      assert init[i] == words[i];
      assert ScheduleBytes(words)[4 * i..4 * i + 4] == ScheduleBytes(init)[4 * i..4 * i + 4];
    }
  }

  lemma ScheduleBytesOfPackKeySlot(key: seq<byte>, i: nat)
    requires |key| == 16 && i < 4
    ensures ScheduleBytes(PackKey(key))[4 * i..4 * i + 4] == key[4 * i..4 * i + 4]
  {
    var words := PackKey(key);
    ScheduleBytesSlot(words, i);
    assert words[i] == PackWord(key[4 * i], key[4 * i + 1], key[4 * i + 2], key[4 * i + 3]);
    WordBytesOfPackWord(key[4 * i], key[4 * i + 1], key[4 * i + 2], key[4 * i + 3]);
  }

  /** Writing the packed key words back as bytes restores the key: unpacking inverts packing. */
  lemma ScheduleBytesOfPackKey(key: seq<byte>)
    requires |key| == 16
    ensures ScheduleBytes(PackKey(key)) == key
  {
    var bytes := ScheduleBytes(PackKey(key));
    forall k | 0 <= k < 16
      ensures bytes[k] == key[k]
    {
      var i := k / 4;
      ScheduleBytesOfPackKeySlot(key, i);
      assert bytes[k] == bytes[4 * i..4 * i + 4][k - 4 * i];
      assert key[k] == key[4 * i..4 * i + 4][k - 4 * i];
    }
  }

  /** Packing the bytes of four words gives back their 32-bit patterns. */
  lemma PackKeyOfScheduleBytes(words: seq<int>)
    requires |words| == 4
    ensures PackKey(ScheduleBytes(words)) == seq(4, i requires 0 <= i < 4 => ToInt32(words[i]))
  {
    var bytes := ScheduleBytes(words);
    forall i | 0 <= i < 4
      ensures PackKey(bytes)[i] == ToInt32(words[i])
    {
      ScheduleBytesSlot(words, i);
      PackWordOfWordBytes(words[i]);
    }
  }

  /** The 176-byte schedule that `computeAes128KeySchedule` returns for a 16-byte key. */
  function KeyScheduleOf(expand: seq<int> -> Words44, key: seq<byte>): (ks: seq<byte>)
    requires |key| == 16
    ensures |ks| == ScheduleLength
  {
    ScheduleBytes(expand(PackKey(key)))
  }

  /** The four stores `ks[4 * i] = (word >> 24) & 0xff` .. `ks[4 * i + 3] = word & 0xff`. */
  method WriteWord(ks: array<byte>, offset: nat, word: int)
    requires offset + 4 <= ks.Length
    modifies ks
    ensures ks[..] == old(ks[..offset]) + WordBytes(word) + old(ks[offset + 4..])
  {
    ks[offset] := LowByte(ShiftRight(word, 24));
    ks[offset + 1] := LowByte(ShiftRight(word, 16));
    ks[offset + 2] := LowByte(ShiftRight(word, 8));
    ks[offset + 3] := LowByte(word);
    assert ks[..] == old(ks[..offset]) + WordBytes(word) + old(ks[offset + 4..]);
  }

  /** The first loop of `computeAes128KeySchedule`: `aesKey[i]` packs key bytes 4i .. 4i+3. */
  method PackKeyWords(key: seq<byte>) returns (words: seq<int>)
    requires |key| == 16
    ensures words == PackKey(key)
  {
    var aesKey := new int[4](_ => 0);
    for i := 0 to 4
      invariant aesKey[..i] == PackKey(key)[..i]
    {
      aesKey[i] := PackWord(key[4 * i], key[4 * i + 1], key[4 * i + 2], key[4 * i + 3]);
      assert aesKey[..i + 1] == aesKey[..i] + [aesKey[i]];
    }
    words := aesKey[..];
    assert words == aesKey[..4];
  }

  /** `computeAes128KeySchedule(key)`: packs the 16 key bytes into 4 words,
      expands them, and writes the 44 schedule words out big-endian. The
      source's `console.assert(key.length == 16)` is the precondition. */
  method ComputeAes128KeySchedule(expand: seq<int> -> Words44, key: seq<byte>) returns (ks: seq<byte>)
    requires |key| == 16
    ensures ks == KeyScheduleOf(expand, key)
    ensures forall i | 0 <= i < 44 :: ks[4 * i..4 * i + 4] == WordBytes(expand(PackKey(key))[i])
  {
    var aesKey := PackKeyWords(key);
    var keyscheduleList := expand(aesKey);
    var buf := new byte[44 * 4](_ => 0);
    for i := 0 to 44
      invariant buf[..4 * i] == ScheduleBytes(keyscheduleList[..i])
    {
      WriteWord(buf, 4 * i, keyscheduleList[i]);
      assert keyscheduleList[..i + 1][..i] == keyscheduleList[..i];
      assert buf[..4 * i + 4] == buf[..4 * i] + WordBytes(keyscheduleList[i]);
    }
    assert keyscheduleList[..44] == keyscheduleList;
    ks := buf[..];
    assert ks == buf[..4 * 44];
    forall i | 0 <= i < 44
      ensures ks[4 * i..4 * i + 4] == WordBytes(keyscheduleList[i])
    {
      ScheduleBytesSlot(keyscheduleList, i);
    }
  }
}
