/** The older request builder, `createEncryptedKeyShares`: a context without a
    separation byte, and shares of the raw 16-byte device key. */
module MpcKeyShares {
  import opened JsTypes
  import opened Bytes
  import opened Shares
  import opened LittleEndian
  import opened Platform
  import opened Context

  /** The only algorithm accepted. */
  const AesGcm128: JsString := Units("AES-GCM-128")

  /** The length of the device key and of each share. */
  const KeyLength: nat := 16

  /** `append([contextBuf, dataIndicesBuffer, analysisTypeBuffer, algorithmBuffer])`. */
  function KeySharesContext(p: Primitives, userId: JsString, k1: PublicKey, k2: PublicKey, k3: PublicKey,
                            analysisType: JsString, dataIndices: seq<int>, algorithm: JsString): (context: seq<byte>)
    ensures context == p.encodeUtf8(userId) + p.exportSpki(k1) + p.exportSpki(k2) + p.exportSpki(k3)
                       + IndexField(dataIndices) + p.encodeUtf8(analysisType) + p.encodeUtf8(algorithm)
  {
    var userIdAndPubkeyBuffer := CreateUserIdAndPubkeyContext(p, userId, k1, k2, k3).contextBuf;
    var dataIndicesBuffer := IndexField(dataIndices);
    var analysisTypeBuffer := p.encodeUtf8(analysisType);
    var algorithmBuffer := p.encodeUtf8(algorithm);
    FlattenSmall(userIdAndPubkeyBuffer, dataIndicesBuffer, analysisTypeBuffer, algorithmBuffer, []);
    Flatten([userIdAndPubkeyBuffer, dataIndicesBuffer, analysisTypeBuffer, algorithmBuffer])
  }

  /** What `createEncryptedKeyShares` returns or throws, given the two random
      16-byte buffers `getRandomValues` would fill. */
  function EncryptedKeyShares(p: Primitives, userId: JsString, iotDeviceKey: seq<byte>, algorithm: JsString,
                              k1: PublicKey, k2: PublicKey, k3: PublicKey, analysisType: JsString, dataIndices: seq<int>,
                              random1: seq<byte>, random2: seq<byte>): (r: Result<seq<seq<byte>>>)
    requires |random1| == KeyLength && |random2| == KeyLength
    ensures r == Err(UnsupportedAlgorithm) <==> algorithm != AesGcm128
    ensures r == Err(UnexpectedKeySize) <==> algorithm == AesGcm128 && |iotDeviceKey| != KeyLength
  {
    var uc := CreateUserIdAndPubkeyContext(p, userId, k1, k2, k3);
    var context := KeySharesContext(p, userId, k1, k2, k3, analysisType, dataIndices, algorithm);
    if algorithm != AesGcm128 then Err(UnsupportedAlgorithm)
    else if |iotDeviceKey| != KeyLength then Err(UnexpectedKeySize)
    else EncryptShares(p, context, uc, k1, k2, k3, random1, random2, ThirdShare(iotDeviceKey, random1, random2))
  }

  /** `createEncryptedKeyShares(userId, iotDeviceKey, algorithm, k1, k2, k3,
      analysisType, dataIndices)`. */
  method CreateEncryptedKeyShares(p: Primitives, userId: JsString, iotDeviceKey: seq<byte>, algorithm: JsString,
                                  k1: PublicKey, k2: PublicKey, k3: PublicKey, analysisType: JsString, dataIndices: seq<int>,
                                  random1: seq<byte>, random2: seq<byte>) returns (r: Result<seq<seq<byte>>>)
    requires |random1| == KeyLength && |random2| == KeyLength
    ensures r == EncryptedKeyShares(p, userId, iotDeviceKey, algorithm, k1, k2, k3, analysisType, dataIndices, random1, random2)
  {
    var userIdAndPubkeyBuffer := CreateUserIdAndPubkeyContext(p, userId, k1, k2, k3);
    var analysisTypeBuffer := p.encodeUtf8(analysisType);
    var dataIndicesBuffer := EncodeIndices(dataIndices);
    var algorithmBuffer := p.encodeUtf8(algorithm);
    var contextBuffer := Append([userIdAndPubkeyBuffer.contextBuf, dataIndicesBuffer, analysisTypeBuffer, algorithmBuffer]);
    assert contextBuffer == KeySharesContext(p, userId, k1, k2, k3, analysisType, dataIndices, algorithm);
    if algorithm == AesGcm128 {
      if |iotDeviceKey| != 16 {
        return Err(UnexpectedKeySize);
      }
      var share1, share2 := random1, random2;
      var share3 := FillThirdShare(iotDeviceKey, share1, share2);
      var c1 :- PkEnc(p, share1, k1, userIdAndPubkeyBuffer.pk1Buf, contextBuffer);
      var c2 :- PkEnc(p, share2, k2, userIdAndPubkeyBuffer.pk2Buf, contextBuffer);
      var c3 :- PkEnc(p, share3, k3, userIdAndPubkeyBuffer.pk3Buf, contextBuffer);
      return Ok([c1, c2, c3]);
    } else {
      return Err(UnsupportedAlgorithm);
    }
  }

  /** Validation comes before anything else: a rejected algorithm or key size
      gives the same error whatever the randomness, the encryption primitive,
      the parties and the rest of the request. */
  lemma ValidationPrecedesSharing(p: Primitives, userId: JsString, iotDeviceKey: seq<byte>, algorithm: JsString,
                                  k1: PublicKey, k2: PublicKey, k3: PublicKey, analysisType: JsString, dataIndices: seq<int>,
                                  random1: seq<byte>, random2: seq<byte>,
                                  p': Primitives, userId': JsString, iotDeviceKey': seq<byte>,
                                  k1': PublicKey, k2': PublicKey, k3': PublicKey, analysisType': JsString, dataIndices': seq<int>,
                                  random1': seq<byte>, random2': seq<byte>)
    requires |random1| == KeyLength && |random2| == KeyLength
    requires |random1'| == KeyLength && |random2'| == KeyLength
    requires |iotDeviceKey'| == |iotDeviceKey|
    requires algorithm != AesGcm128 || |iotDeviceKey| != KeyLength
    ensures EncryptedKeyShares(p, userId, iotDeviceKey, algorithm, k1, k2, k3, analysisType, dataIndices, random1, random2)
         == EncryptedKeyShares(p', userId', iotDeviceKey', algorithm, k1', k2', k3', analysisType', dataIndices', random1', random2')
         == (if algorithm != AesGcm128 then Err(UnsupportedAlgorithm) else Err(UnexpectedKeySize))
  {
  }

  /** An accepted request: the shares are the two random buffers and their
      XOR with the device key, so together they recombine to the key; party i
      receives share i encrypted under its own key with label
      `context ++ spki(k_i)`, and the request fails exactly when one of those
      encryptions is rejected, with the reason of the first rejected one. */
  lemma AcceptedRequest(p: Primitives, userId: JsString, iotDeviceKey: seq<byte>,
                        k1: PublicKey, k2: PublicKey, k3: PublicKey, analysisType: JsString, dataIndices: seq<int>,
                        random1: seq<byte>, random2: seq<byte>)
    requires |random1| == KeyLength && |random2| == KeyLength
    requires |iotDeviceKey| == KeyLength
    ensures var r := EncryptedKeyShares(p, userId, iotDeviceKey, AesGcm128, k1, k2, k3, analysisType, dataIndices, random1, random2);
            var context := KeySharesContext(p, userId, k1, k2, k3, analysisType, dataIndices, AesGcm128);
            var share3 := ThirdShare(iotDeviceKey, random1, random2);
            var e1 := p.oaepEncrypt(k1, context + p.exportSpki(k1), random1);
            var e2 := p.oaepEncrypt(k2, context + p.exportSpki(k2), random2);
            var e3 := p.oaepEncrypt(k3, context + p.exportSpki(k3), share3);
            && Combine(random1, random2, share3) == iotDeviceKey
            && (r.Ok? <==> e1.Done? && e2.Done? && e3.Done?)
            && (r.Ok? ==> r.value == [e1.value, e2.value, e3.value])
            && (r.Err? ==> r.error == (if e1.Rejected? then Await(e1).error
                                       else if e2.Rejected? then Await(e2).error
                                       else Await(e3).error))
            && (r.Err? ==> r.error.PlatformRejected?)
  {
    CombineThirdShare(iotDeviceKey, random1, random2);
  }

  /** When the user id, the three key exports, the index count and the
      analysis type have agreed widths, two contexts are equal exactly when
      every field is. */
  lemma KeySharesContextInjective(p: Primitives, userId: JsString, k1: PublicKey, k2: PublicKey, k3: PublicKey,
                                  analysisType: JsString, dataIndices: seq<int>, algorithm: JsString,
                                  userId': JsString, k1': PublicKey, k2': PublicKey, k3': PublicKey,
                                  analysisType': JsString, dataIndices': seq<int>, algorithm': JsString)
    requires |p.encodeUtf8(userId)| == |p.encodeUtf8(userId')|
    requires |p.exportSpki(k1)| == |p.exportSpki(k1')| && |p.exportSpki(k2)| == |p.exportSpki(k2')| && |p.exportSpki(k3)| == |p.exportSpki(k3')|
    requires |dataIndices| == |dataIndices'|
    requires |p.encodeUtf8(analysisType)| == |p.encodeUtf8(analysisType')|
    ensures KeySharesContext(p, userId, k1, k2, k3, analysisType, dataIndices, algorithm)
         == KeySharesContext(p, userId', k1', k2', k3', analysisType', dataIndices', algorithm')
        <==> && p.encodeUtf8(userId) == p.encodeUtf8(userId')
             && p.exportSpki(k1) == p.exportSpki(k1') && p.exportSpki(k2) == p.exportSpki(k2') && p.exportSpki(k3) == p.exportSpki(k3')
             && IndexField(dataIndices) == IndexField(dataIndices')
             && p.encodeUtf8(analysisType) == p.encodeUtf8(analysisType')
             && p.encodeUtf8(algorithm) == p.encodeUtf8(algorithm')
  {
    var u, a, b, c, x, t, g := p.encodeUtf8(userId), p.exportSpki(k1), p.exportSpki(k2), p.exportSpki(k3),
      IndexField(dataIndices), p.encodeUtf8(analysisType), p.encodeUtf8(algorithm);
    var u', a', b', c', x', t', g' := p.encodeUtf8(userId'), p.exportSpki(k1'), p.exportSpki(k2'), p.exportSpki(k3'),
      IndexField(dataIndices'), p.encodeUtf8(analysisType'), p.encodeUtf8(algorithm');
    ConcatSplit(u + a + b + c + x + t, g, u' + a' + b' + c' + x' + t', g');
    ConcatSplit(u + a + b + c + x, t, u' + a' + b' + c' + x', t');
    ConcatSplit(u + a + b + c, x, u' + a' + b' + c', x');
    ConcatSplit(u + a + b, c, u' + a' + b', c');
    ConcatSplit(u + a, b, u' + a', b');
    ConcatSplit(u, a, u', a');
  }
}
