/** Bytewise XOR and the three-way XOR secret sharing that both variants use
    for the device key (or its key schedule). */
module Shares {
  import opened JsTypes

  /** XOR of the low n bits of a and b, bit by bit from the least significant. */
  function BitXor(a: nat, b: nat, n: nat): (r: nat)
    ensures r < Pow2(n)
  {
    if n == 0 then 0
    else
      Pow2Step(n);
      (if a % 2 == b % 2 then 0 else 1) + 2 * BitXor(a / 2, b / 2, n - 1)
  }

  /** `a ^ b` on two elements of a `Uint8Array`. */
  function Xor(a: byte, b: byte): (r: byte)
    ensures r == 0 <==> a == b
    ensures b == 0 ==> r == a
  {
    BitXorSelf(a, 8);
    BitXorZero(a, 8);
    BitXorZeroEqual(a, b, 8);
    BitXor(a, b, 8)
  }

  /** Only equal n-bit values XOR to 0. */
  lemma {:induction false} BitXorZeroEqual(a: nat, b: nat, n: nat)
    requires a < Pow2(n) && b < Pow2(n)
    ensures BitXor(a, b, n) == 0 ==> a == b
  {
    if n > 0 && BitXor(a, b, n) == 0 {
      Pow2Step(n);
      DivMod(a, 2, a / 2, a % 2);
      DivMod(b, 2, b / 2, b % 2);
      BitXorZeroEqual(a / 2, b / 2, n - 1);
    }
  }

  lemma {:induction false} BitXorSelf(a: nat, n: nat)
    ensures BitXor(a, a, n) == 0
  {
    if n > 0 {
      BitXorSelf(a / 2, n - 1);
    }
  }

  lemma {:induction false} BitXorZero(a: nat, n: nat)
    requires a < Pow2(n)
    ensures BitXor(a, 0, n) == a
  {
    if n > 0 {
      Pow2Step(n);
      BitXorZero(a / 2, n - 1);
    }
  }

  lemma {:induction false} BitXorComm(a: nat, b: nat, n: nat)
    ensures BitXor(a, b, n) == BitXor(b, a, n)
  {
    if n > 0 {
      BitXorComm(a / 2, b / 2, n - 1);
    }
  }

  lemma {:induction false} BitXorAssoc(a: nat, b: nat, c: nat, n: nat)
    ensures BitXor(BitXor(a, b, n), c, n) == BitXor(a, BitXor(b, c, n), n)
  {
    if n > 0 {
      var ab, bc := BitXor(a, b, n), BitXor(b, c, n);
      DivMod(ab, 2, BitXor(a / 2, b / 2, n - 1), if a % 2 == b % 2 then 0 else 1);
      DivMod(bc, 2, BitXor(b / 2, c / 2, n - 1), if b % 2 == c % 2 then 0 else 1);
      BitXorAssoc(a / 2, b / 2, c / 2, n - 1);
    }
  }

  /** XOR on bytes is an abelian group with identity 0 in which every byte is its own inverse. */
  lemma XorLaws(a: byte, b: byte, c: byte)
    ensures Xor(a, a) == 0
    ensures Xor(a, 0) == a
    ensures Xor(a, b) == Xor(b, a)
    ensures Xor(Xor(a, b), c) == Xor(a, Xor(b, c))
  {
    BitXorSelf(a, 8);
    BitXorZero(a, 8);
    BitXorComm(a, b, 8);
    BitXorAssoc(a, b, c, 8);
  }

  /** Undoing a XOR: (k ^ x) ^ x == k, and x ^ (x ^ k) == k. */
  lemma XorCancel(k: byte, x: byte)
    ensures Xor(Xor(k, x), x) == k
    ensures Xor(x, Xor(x, k)) == k
  {
    XorLaws(k, x, x);
    XorLaws(x, 0, 0);
    XorLaws(k, 0, 0);
    XorLaws(x, x, k);
    XorLaws(0, k, 0);
  }

  /** The third share: `ks[i] ^ share1[i] ^ share2[i]` at every index. */
  function ThirdShare(secret: seq<byte>, share1: seq<byte>, share2: seq<byte>): (share3: seq<byte>)
    requires |share1| == |secret| && |share2| == |secret|
    ensures |share3| == |secret|
  {
    seq(|secret|, i requires 0 <= i < |secret| => Xor(Xor(secret[i], share1[i]), share2[i]))
  }

  /** What the three parties recover together: the bytewise XOR of their shares. */
  function Combine(share1: seq<byte>, share2: seq<byte>, share3: seq<byte>): (secret: seq<byte>)
    requires |share2| == |share1| && |share3| == |share1|
    ensures |secret| == |share1|
  {
    seq(|share1|, i requires 0 <= i < |share1| => Xor(Xor(share1[i], share2[i]), share3[i]))
  }

  /** The sharing is correct: the XOR of the three shares is the secret, at
      every index and whatever random bytes the first two shares hold. */
  lemma CombineThirdShare(secret: seq<byte>, share1: seq<byte>, share2: seq<byte>)
    requires |share1| == |secret| && |share2| == |secret|
    ensures Combine(share1, share2, ThirdShare(secret, share1, share2)) == secret
  {
    var share3 := ThirdShare(secret, share1, share2);
    forall i | 0 <= i < |secret|
      ensures Combine(share1, share2, share3)[i] == secret[i]
    {
      var k, x, y := secret[i], share1[i], share2[i];
      // (x ^ y) ^ ((k ^ x) ^ y) == k
      XorLaws(k, x, y);
      XorLaws(x, y, Xor(k, Xor(x, y)));
      XorLaws(y, Xor(k, Xor(x, y)), 0);
      XorLaws(Xor(x, y), k, 0);
      XorCancel(k, Xor(x, y));
      XorLaws(Xor(k, Xor(x, y)), Xor(x, y), 0);
    }
  }

  /** For a fixed secret and first share, the third share determines the
      second: the map from share2 to share3 is its own inverse, so a uniformly
      random share2 gives a uniformly random share3 (one-time pad). */
  lemma {:induction false} ThirdShareInvolution(secret: seq<byte>, share1: seq<byte>, share2: seq<byte>)
    requires |share1| == |secret| && |share2| == |secret|
    ensures ThirdShare(secret, share1, ThirdShare(secret, share1, share2)) == share2
  {
    var share3 := ThirdShare(secret, share1, share2);
    forall i | 0 <= i < |secret|
      ensures ThirdShare(secret, share1, share3)[i] == share2[i]
    {
      XorCancel(share2[i], Xor(secret[i], share1[i]));
      XorLaws(Xor(secret[i], share1[i]), share2[i], 0);
    }
  }

  /** Every byte string of the right length is the third share of some
      choice of the second share, whatever the secret is. */
  lemma ThirdShareSurjective(secret: seq<byte>, share1: seq<byte>, target: seq<byte>)
    requires |share1| == |secret| && |target| == |secret|
    ensures exists share2: seq<byte> | |share2| == |secret| :: ThirdShare(secret, share1, share2) == target
  {
    var share2 := ThirdShare(secret, share1, target);
    ThirdShareInvolution(secret, share1, target);
  }

  /** The `share3[i] = ks[i] ^ share1[i] ^ share2[i]` loop: fills a fresh
      buffer of the secret's length index by index. */
  method FillThirdShare(secret: seq<byte>, share1: seq<byte>, share2: seq<byte>) returns (share3: seq<byte>)
    requires |share1| == |secret| && |share2| == |secret|
    ensures share3 == ThirdShare(secret, share1, share2)
    ensures Combine(share1, share2, share3) == secret
  {
    var buf := new byte[|secret|](_ => 0);
    for i := 0 to |secret|
      invariant forall j | 0 <= j < i :: buf[j] == Xor(Xor(secret[j], share1[j]), share2[j])
    {
      buf[i] := Xor(Xor(secret[i], share1[i]), share2[i]);
    }
    share3 := buf[..];
    CombineThirdShare(secret, share1, share2);
  }
}
