/** JavaScript values as the two MPC helper modules see them: bytes of a
    `Uint8Array`, strings as sequences of UTF-16 code units, and the integer
    conversions that typed-array stores and bitwise operators apply. */
module JsTypes {

  /** An element of a `Uint8Array`. */
  type byte = x: int | 0 <= x < 256

  /** A UTF-16 code unit, what `String.prototype.charCodeAt` returns. */
  type CodeUnit = x: int | 0 <= x < 0x1_0000

  /** A JavaScript string. */
  type JsString = seq<CodeUnit>

  const TwoTo31: int := 0x8000_0000
  const TwoTo32: int := 0x1_0000_0000

  /** The JavaScript string spelled by an ASCII or BMP Dafny string literal. */
  function Units(s: string): JsString
    requires forall i | 0 <= i < |s| :: s[i] as int < 0x1_0000
  {
    seq(|s|, i requires 0 <= i < |s| => s[i] as int)
  }

  /** ToUint8 of an integral Number: what a store into a `Uint8Array` keeps. */
  function ToUint8(x: int): (r: byte)
    ensures (r - x) % 256 == 0
  {
    x % 256
  }

  /** ToInt32 of an integral Number: the operand of every bitwise operator. */
  function ToInt32(x: int): (r: int)
    ensures -TwoTo31 <= r < TwoTo31
    ensures (r - x) % TwoTo32 == 0
    ensures -TwoTo31 <= x < TwoTo31 ==> r == x
  {
    var m := x % TwoTo32;
    if m >= TwoTo31 then m - TwoTo32 else m
  }

  /** 2 to the power n, eight bits at a time. */
  function Pow2(n: nat): (r: nat)
    ensures r >= 1
  {
    if n < 8 then [1, 2, 4, 8, 16, 32, 64, 128][n] else 256 * Pow2(n - 8)
  }

  /** Each further bit doubles the power. */
  lemma {:induction false} Pow2Step(n: nat)
    requires n >= 1
    ensures Pow2(n) == 2 * Pow2(n - 1)
  {
    if n > 8 {
      Pow2Step(n - 8);
    }
  }

  /** `x << n` for a shift count below 32. */
  function ShiftLeft(x: int, n: nat): (r: int)
    requires n < 32
    ensures -TwoTo31 <= r < TwoTo31
  {
    ToInt32(ToInt32(x) * Pow2(n))
  }

  /** `x >> n`, the sign-propagating right shift, for a shift count below 32
      (Dafny's division rounds down for a positive divisor, as the shift does). */
  function ShiftRight(x: int, n: nat): (r: int)
    requires n < 32
  {
    ToInt32(x) / Pow2(n)
  }

  /** `x & 0xff`: the low eight bits of the 32-bit pattern of x. */
  function LowByte(x: int): (r: byte)
    ensures (r - x) % 256 == 0
  {
    LowByteCongruent(x);
    ToInt32(x) % 256
  }

  /** ToInt32 changes x by a multiple of 2^32, which is a multiple of 256. */
  lemma LowByteCongruent(x: int)
    ensures (ToInt32(x) % 256 - x) % 256 == 0
  {
    var t := ToInt32(x);
    var q := (t - x) / TwoTo32;
    DivMod(t - x, TwoTo32, q, 0);
    assert t - x == TwoTo32 * q;
    DivMod(t, 256, t / 256, t % 256);
    assert t % 256 - x == 256 * (0x100_0000 * q - t / 256);
    DivMod(t % 256 - x, 256, 0x100_0000 * q - t / 256, 0);
  }

  /** Division and remainder are determined by any decomposition x == d * q + r with 0 <= r < d. */
  lemma DivMod(x: int, d: int, q: int, r: int)
    requires d > 0 && x == d * q + r && 0 <= r < d
    ensures x / d == q && x % d == r
  {
    var q', r' := x / d, x % d;
    assert d * (q - q') == r' - r;
    if q > q' {
      MulAtLeast(d, q - q');
      assert false;
    } else if q < q' {
      MulAtLeast(d, q' - q);
      assert false;
    }
  }

  lemma MulAtLeast(d: int, k: int)
    requires d > 0 && k >= 1
    ensures d * k >= d
  {
  }
}
