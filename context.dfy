/** What both variants share: the user/public-key prefix of every context
    (`createUserIdAndPubkeyContext`) and the per-party OAEP label and
    encryption (`pkEnc`). */
module Context {
  import opened JsTypes
  import opened Bytes
  import opened Platform

  /** The object `createUserIdAndPubkeyContext` returns. */
  datatype UserContext = UserContext(contextBuf: seq<byte>, pk1Buf: seq<byte>, pk2Buf: seq<byte>, pk3Buf: seq<byte>)

  /** `createUserIdAndPubkeyContext(textEncoder, userId, k1, k2, k3)`: the UTF-8
      user id followed by the three SPKI exports in party order, with the
      exports themselves handed back unchanged. */
  function CreateUserIdAndPubkeyContext(p: Primitives, userId: JsString, k1: PublicKey, k2: PublicKey, k3: PublicKey): (r: UserContext)
    ensures r.contextBuf == p.encodeUtf8(userId) + p.exportSpki(k1) + p.exportSpki(k2) + p.exportSpki(k3)
    ensures r.pk1Buf == p.exportSpki(k1) && r.pk2Buf == p.exportSpki(k2) && r.pk3Buf == p.exportSpki(k3)
    ensures |r.contextBuf| == |p.encodeUtf8(userId)| + |r.pk1Buf| + |r.pk2Buf| + |r.pk3Buf|
  {
    var userIdBuffer := p.encodeUtf8(userId);
    var party1PubkeyBuffer := p.exportSpki(k1);
    var party2PubkeyBuffer := p.exportSpki(k2);
    var party3PubkeyBuffer := p.exportSpki(k3);
    FlattenSmall(userIdBuffer, party1PubkeyBuffer, party2PubkeyBuffer, party3PubkeyBuffer, []);
    UserContext(
      Flatten([userIdBuffer, party1PubkeyBuffer, party2PubkeyBuffer, party3PubkeyBuffer]),
      party1PubkeyBuffer, party2PubkeyBuffer, party3PubkeyBuffer)
  }

  /** `append([context, pubKeyBuf])`: the OAEP label of one party. */
  function Label(context: seq<byte>, pubKeyBuf: seq<byte>): (oaepLabel: seq<byte>)
    ensures oaepLabel == context + pubKeyBuf
  {
    FlattenSmall(context, pubKeyBuf, [], [], []);
    Flatten([context, pubKeyBuf])
  }

  /** A label pins down the party's key buffer under a given context, and the
      context under a given key buffer: a ciphertext made for one party or one
      context carries a label no other party or context reproduces. */
  lemma LabelInjective(c: seq<byte>, c': seq<byte>, pk: seq<byte>, pk': seq<byte>)
    ensures Label(c, pk) == Label(c, pk') <==> pk == pk'
    ensures Label(c, pk) == Label(c', pk) <==> c == c'
  {
    if Label(c, pk) == Label(c, pk') {
      assert pk == Label(c, pk)[|c|..];
      assert pk' == Label(c, pk')[|c|..];
    }
    if Label(c, pk) == Label(c', pk) {
      assert |c| == |c'|;
      assert c == Label(c, pk)[..|c|];
      assert c' == Label(c', pk)[..|c'|];
    }
  }

  /** `pkEnc(share, pubKey, pubKeyBuf, context)`: RSA-OAEP encryption of the
      share under the party's key, with label `context ++ pubKeyBuf`. */
  function PkEnc(p: Primitives, share: seq<byte>, pubKey: PublicKey, pubKeyBuf: seq<byte>, context: seq<byte>): (r: Result<seq<byte>>)
    ensures r == Await(p.oaepEncrypt(pubKey, context + pubKeyBuf, share))
  {
    Await(p.oaepEncrypt(pubKey, Label(context, pubKeyBuf), share))
  }

  /** The three awaited `pkEnc` calls that end both request builders: share i
      goes to party i under its own key, labelled with the shared context
      followed by party i's own SPKI export; the first rejection is thrown with its own reason. */
  function EncryptShares(p: Primitives, context: seq<byte>, uc: UserContext, k1: PublicKey, k2: PublicKey, k3: PublicKey,
                         share1: seq<byte>, share2: seq<byte>, share3: seq<byte>): (r: Result<seq<seq<byte>>>)
    ensures r.Ok? <==> (p.oaepEncrypt(k1, context + uc.pk1Buf, share1).Done?
                     && p.oaepEncrypt(k2, context + uc.pk2Buf, share2).Done?
                     && p.oaepEncrypt(k3, context + uc.pk3Buf, share3).Done?)
    ensures r.Ok? ==> (|r.value| == 3
                     && r.value[0] == p.oaepEncrypt(k1, context + uc.pk1Buf, share1).value
                     && r.value[1] == p.oaepEncrypt(k2, context + uc.pk2Buf, share2).value
                     && r.value[2] == p.oaepEncrypt(k3, context + uc.pk3Buf, share3).value)
    ensures r.Err? ==> r.error == (if p.oaepEncrypt(k1, context + uc.pk1Buf, share1).Rejected?
                                   then Await(p.oaepEncrypt(k1, context + uc.pk1Buf, share1)).error
                                   else if p.oaepEncrypt(k2, context + uc.pk2Buf, share2).Rejected?
                                   then Await(p.oaepEncrypt(k2, context + uc.pk2Buf, share2)).error
                                   else Await(p.oaepEncrypt(k3, context + uc.pk3Buf, share3)).error)
    ensures r.Err? ==> r.error.PlatformRejected?
  {
    var c1 :- PkEnc(p, share1, k1, uc.pk1Buf, context);
    var c2 :- PkEnc(p, share2, k2, uc.pk2Buf, context);
    var c3 :- PkEnc(p, share3, k3, uc.pk3Buf, context);
    Ok([c1, c2, c3])
  }
}
