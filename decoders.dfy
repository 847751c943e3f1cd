/** The two small byte decoders, `str2ab` and `hexToBuffer`, with the parts of
    JavaScript they rest on: `charCodeAt`, `parseInt(_, 16)` (section 19.2.5 of
    ECMA-262) and the ToUint8 conversion of a `Uint8Array` store. */
module Decoders {
  import opened JsTypes

  // ---------------------------------------------------------------- str2ab

  /** The buffer `str2ab` fills: byte i is `str.charCodeAt(i)` reduced modulo 256. */
  function LowBytes(str: JsString): (r: seq<byte>)
    ensures |r| == |str|
  {
    seq(|str|, i requires 0 <= i < |str| => ToUint8(str[i]))
  }

  /** The binary string of a buffer: one code unit per byte, as `atob` produces. */
  function BinaryString(buf: seq<byte>): (s: JsString)
    ensures |s| == |buf|
  {
    seq(|buf|, i requires 0 <= i < |buf| => buf[i])
  }

  /** `str2ab` loses nothing exactly on binary strings, and reads a binary
      string back into the bytes it was made of. */
  lemma LowBytesBinaryString(buf: seq<byte>, str: JsString)
    ensures LowBytes(BinaryString(buf)) == buf
    ensures BinaryString(LowBytes(str)) == str <==> forall i | 0 <= i < |str| :: str[i] < 256
  {
    if forall i | 0 <= i < |str| :: str[i] < 256 {
      forall i | 0 <= i < |str|
        ensures BinaryString(LowBytes(str))[i] == str[i]
      {
        DivMod(str[i], 256, 0, str[i]);
      }
    } else {
      var i :| 0 <= i < |str| && str[i] >= 256;
      assert BinaryString(LowBytes(str))[i] != str[i];
    }
  }

  /** `str2ab(str)`: a buffer of `str.length` bytes filled index by index. */
  method Str2ab(str: JsString) returns (buf: seq<byte>)
    ensures buf == LowBytes(str)
    ensures |buf| == |str| && forall i | 0 <= i < |str| :: buf[i] == str[i] % 256
  {
    var bufView := new byte[|str|](_ => 0);
    var i, strLen := 0, |str|;
    while i < strLen
      invariant 0 <= i <= strLen == |str|
      invariant bufView[..i] == LowBytes(str)[..i]
    {
      bufView[i] := ToUint8(str[i]);
      assert bufView[..i + 1] == bufView[..i] + [bufView[i]];
      i := i + 1;
    }
    buf := bufView[..];
    assert buf == bufView[..i];
  }

  // ---------------------------------------------------------------- parseInt(_, 16)

  /** WhiteSpace or LineTerminator (sections 12.2 and 12.3 of ECMA-262): what
      parseInt trims from the front. */
  predicate IsJsSpace(c: CodeUnit)
  {
    c == 0x09 || c == 0x0A || c == 0x0B || c == 0x0C || c == 0x0D || c == 0x20
    || c == 0xA0 || c == 0x1680 || (0x2000 <= c <= 0x200A) || c == 0x2028 || c == 0x2029
    || c == 0x202F || c == 0x205F || c == 0x3000 || c == 0xFEFF
  }

  predicate IsHexDigit(c: CodeUnit)
  {
    ('0' as int <= c <= '9' as int) || ('a' as int <= c <= 'f' as int) || ('A' as int <= c <= 'F' as int)
  }

  function HexDigitValue(c: CodeUnit): (v: nat)
    requires IsHexDigit(c)
    ensures v < 16
  {
    if c <= '9' as int then c - '0' as int
    else if c <= 'F' as int then c - 'A' as int + 10
    else c - 'a' as int + 10
  }

  function TrimStart(s: JsString): (t: JsString)
    ensures |t| <= |s|
  {
    if |s| > 0 && IsJsSpace(s[0]) then TrimStart(s[1..]) else s
  }

  /** Trimming leaves a suffix of the string that does not start with white space. */
  lemma {:induction false} TrimStartSuffix(s: JsString)
    ensures TrimStart(s) == s[|s| - |TrimStart(s)|..]
    ensures |TrimStart(s)| == 0 || !IsJsSpace(TrimStart(s)[0])
  {
    if |s| > 0 && IsJsSpace(s[0]) {
      TrimStartSuffix(s[1..]);
      assert s[1..][|s| - 1 - |TrimStart(s)|..] == s[|s| - |TrimStart(s)|..];
    }
  }

  /** The longest prefix of hex digits. */
  function HexDigitPrefix(s: JsString): (z: JsString)
    ensures |z| <= |s| && z == s[..|z|]
    ensures forall i | 0 <= i < |z| :: IsHexDigit(z[i])
    ensures |z| == |s| || !IsHexDigit(s[|z|])
  {
    if |s| > 0 && IsHexDigit(s[0]) then [s[0]] + HexDigitPrefix(s[1..]) else []
  }

  /** The value of a string of hex digits, most significant first. */
  function HexValue(z: JsString): (v: nat)
    requires forall i | 0 <= i < |z| :: IsHexDigit(z[i])
  {
    if |z| == 0 then 0 else 16 * HexValue(z[..|z| - 1]) + HexDigitValue(z[|z| - 1])
  }

  /** `parseInt(s, 16)`: None stands for NaN. Leading white space is skipped, one
      sign is read, a "0x"/"0X" prefix is dropped, and the longest run of hex
      digits that follows is the number; an empty run gives NaN. */
  function ParseInt16(s: JsString): (r: Option<int>)
  {
    var t := TrimStart(s);
    var negative := |t| > 0 && t[0] == '-' as int;
    var u := if |t| > 0 && (t[0] == '-' as int || t[0] == '+' as int) then t[1..] else t;
    var v := if |u| >= 2 && u[0] == '0' as int && (u[1] == 'x' as int || u[1] == 'X' as int) then u[2..] else u;
    var z := HexDigitPrefix(v);
    var magnitude: int := if |z| == 0 then 0 else HexValue(z);
    if |z| == 0 then None
    else Some(if negative then -magnitude else magnitude)
  }

  datatype Option<T> = None | Some(value: T)

  /** A plain run of hex digits (no sign, no "0x" prefix) denotes its value. */
  lemma ParseInt16Digits(s: JsString)
    requires |s| > 0 && forall i | 0 <= i < |s| :: IsHexDigit(s[i])
    requires !(|s| >= 2 && s[0] == '0' as int && (s[1] == 'x' as int || s[1] == 'X' as int))
    ensures ParseInt16(s) == Some(HexValue(s))
  {
    assert !IsJsSpace(s[0]);
    assert TrimStart(s) == s;
    assert HexDigitPrefix(s) == s by {
      assert s[..|s|] == s;
    }
  }

  /** A string without any hex digit parses to NaN. */
  lemma ParseInt16NoDigits(s: JsString)
    requires forall i | 0 <= i < |s| :: !IsHexDigit(s[i])
    ensures ParseInt16(s) == None
  {
    var t := TrimStart(s);
    TrimStartSuffix(s);
    var u := if |t| > 0 && (t[0] == '-' as int || t[0] == '+' as int) then t[1..] else t;
    assert u == s[|s| - |u|..];
    if |u| > 0 {
      assert u[0] == s[|s| - |u|];
    }
    assert HexDigitPrefix(u) == [];
  }

  /** `ct[i] = parseInt(pair, 16)`: the store converts the Number with ToUint8,
      which maps NaN to 0. */
  function PairByte(pair: JsString): (b: byte)
    ensures ParseInt16(pair).None? ==> b == 0
    ensures ParseInt16(pair).Some? ==> (b - ParseInt16(pair).value) % 256 == 0
  {
    match ParseInt16(pair)
    case Some(v) => ToUint8(v)
    case None => 0
  }

  /** Two hex digits parse to the byte they spell. */
  lemma ParseHexPair(h: CodeUnit, l: CodeUnit)
    requires IsHexDigit(h) && IsHexDigit(l)
    ensures ParseInt16([h, l]) == Some(16 * HexDigitValue(h) + HexDigitValue(l))
    ensures PairByte([h, l]) == 16 * HexDigitValue(h) + HexDigitValue(l)
  {
    var s: JsString := [h, l];
    assert !IsJsSpace(h);
    assert TrimStart(s) == s;
    assert HexDigitPrefix(s[1..]) == [l] + HexDigitPrefix(s[2..]);
    assert HexDigitPrefix(s) == s;
    assert s[..1] == [h];
    assert HexValue(s) == 16 * HexValue([h]) + HexDigitValue(l);
    assert HexValue([h]) == HexDigitValue(h) by {
      assert [h][..0] == [];
    }
    DivMod(16 * HexDigitValue(h) + HexDigitValue(l), 256, 0, 16 * HexDigitValue(h) + HexDigitValue(l));
  }

  /** What some malformed pairs decode to: `hexToBuffer` has no error path. */
  lemma PairByteLenient()
    ensures PairByte(Units("zz")) == 0
    ensures PairByte(Units("7g")) == 7
    ensures PairByte(Units("-1")) == 255
    ensures PairByte(Units("0x")) == 0
  {
    assert Units("zz") == [122, 122];
    assert Units("7g") == [55, 103];
    assert Units("-1") == [45, 49];
    assert Units("0x") == [48, 120];
    NoDigits();
    DigitThenJunk();
    MinusOne();
    BarePrefix();
  }

  lemma NoDigits()
    ensures PairByte([122, 122]) == 0
  {
    var zz: JsString := [122, 122];
    assert TrimStart(zz) == zz;
    assert HexDigitPrefix(zz) == [];
  }

  lemma DigitThenJunk()
    ensures PairByte([55, 103]) == 7
  {
    var sg: JsString := [55, 103];
    assert TrimStart(sg) == sg;
    assert HexDigitPrefix(sg[1..]) == [];
    assert HexDigitPrefix(sg) == [55];
    assert HexValue([55]) == 7 by {
      assert [55][..0] == [];
    }
  }

  lemma MinusOne()
    ensures PairByte([45, 49]) == 255
  {
    var m1: JsString := [45, 49];
    assert TrimStart(m1) == m1;
    assert m1[1..] == [49];
    assert HexDigitPrefix([49]) == [49] by {
      assert HexDigitPrefix([49][1..]) == [];
    }
    assert HexValue([49]) == 1 by {
      assert [49][..0] == [];
    }
    assert ParseInt16(m1) == Some(-1);
  }

  lemma BarePrefix()
    ensures PairByte([48, 120]) == 0
  {
    var ox: JsString := [48, 120];
    assert TrimStart(ox) == ox;
    assert ox[2..] == [] && HexDigitPrefix(ox[2..]) == [];
  }

  // ---------------------------------------------------------------- hexToBuffer

  /** The buffer `hexToBuffer(s)` returns: `s.length / 2` bytes (an odd last
      character is ignored), byte i decoded from characters 2i and 2i+1. */
  function HexDecode(s: JsString): (ct: seq<byte>)
    ensures |ct| == |s| / 2
  {
    seq(|s| / 2, i requires 0 <= i < |s| / 2 => PairByte(s[2 * i..2 * i + 2]))
  }

  /** A byte's two lower-case hex digits. */
  function HexDigitChar(d: nat): (c: CodeUnit)
    requires d < 16
    ensures IsHexDigit(c) && HexDigitValue(c) == d
  {
    if d < 10 then '0' as int + d else 'a' as int + d - 10
  }

  /** Lower-case hex encoding, two characters per byte. */
  function HexEncode(bytes: seq<byte>): (s: JsString)
    ensures |s| == 2 * |bytes|
  {
    seq(2 * |bytes|, k requires 0 <= k < 2 * |bytes| =>
      if k % 2 == 0 then HexDigitChar(bytes[k / 2] / 16) else HexDigitChar(bytes[k / 2] % 16))
  }

  predicate IsLowerHexDigit(c: CodeUnit)
  {
    ('0' as int <= c <= '9' as int) || ('a' as int <= c <= 'f' as int)
  }

  /** Decoding the hex encoding of a buffer gives the buffer back. */
  lemma HexDecodeEncode(bytes: seq<byte>)
    ensures HexDecode(HexEncode(bytes)) == bytes
  {
    var s := HexEncode(bytes);
    forall i | 0 <= i < |bytes|
      ensures HexDecode(s)[i] == bytes[i]
    {
      assert (2 * i) / 2 == i && (2 * i) % 2 == 0 && (2 * i + 1) / 2 == i && (2 * i + 1) % 2 == 1;
      var h, l := s[2 * i], s[2 * i + 1];
      assert s[2 * i..2 * i + 2] == [h, l];
      ParseHexPair(h, l);
      DivMod(bytes[i], 16, bytes[i] / 16, bytes[i] % 16);
    }
  }

  /** A lower-case hex digit is the digit character of its value. */
  lemma HexDigitCharOfValue(c: CodeUnit)
    requires IsLowerHexDigit(c)
    ensures HexDigitChar(HexDigitValue(c)) == c
  {
  }

  /** Byte i of the decoding is the value of characters 2i and 2i+1. */
  lemma HexDecodePair(s: JsString, i: nat)
    requires 2 * i + 2 <= |s|
    requires IsHexDigit(s[2 * i]) && IsHexDigit(s[2 * i + 1])
    ensures HexDecode(s)[i] == 16 * HexDigitValue(s[2 * i]) + HexDigitValue(s[2 * i + 1])
  {
    assert s[2 * i..2 * i + 2] == [s[2 * i], s[2 * i + 1]];
    ParseHexPair(s[2 * i], s[2 * i + 1]);
  }

  /** Character k of the re-encoding is character k of the hex string. */
  lemma HexEncodeDecodeAt(s: JsString, k: nat)
    requires |s| % 2 == 0 && k < |s|
    requires IsLowerHexDigit(s[k - k % 2]) && IsLowerHexDigit(s[k - k % 2 + 1])
    ensures HexEncode(HexDecode(s))[k] == s[k]
  {
    var i, j := k / 2, k % 2;
    DivMod(k, 2, i, j);
    assert k == 2 * i + j && 2 * i + 2 <= |s|;
    var h, l := s[2 * i], s[2 * i + 1];
    HexDecodePair(s, i);
    var b := HexDecode(s)[i];
    DivMod(b, 16, HexDigitValue(h), HexDigitValue(l));
    HexDigitCharOfValue(h);
    HexDigitCharOfValue(l);
  }

  /** Encoding the decoded buffer of an even-length lower-case hex string gives the string back. */
  lemma HexEncodeDecode(s: JsString)
    requires |s| % 2 == 0
    requires forall i | 0 <= i < |s| :: IsLowerHexDigit(s[i])
    ensures HexEncode(HexDecode(s)) == s
  {
    forall k | 0 <= k < |s|
      ensures HexEncode(HexDecode(s))[k] == s[k]
    {
      HexEncodeDecodeAt(s, k);
    }
  }

  /** `hexToBuffer(s)`: a buffer of `s.length / 2` bytes filled from the pairs of characters. */
  method HexToBuffer(s: JsString) returns (ct: seq<byte>)
    ensures ct == HexDecode(s)
    ensures |ct| == |s| / 2
  {
    var buf := new byte[|s| / 2](_ => 0);
    for i := 0 to buf.Length
      invariant buf[..i] == HexDecode(s)[..i]
    {
      buf[i] := PairByte(s[2 * i..2 * i + 2]);
      assert buf[..i + 1] == buf[..i] + [buf[i]];
    }
    ct := buf[..];
    assert ct == buf[..buf.Length];
  }
}
