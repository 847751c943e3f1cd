/** The newer request builder (`createAnalysisRequestDataHelper` and its two
    entry points): a context that starts with a separation byte, and shares of
    the expanded AES-128 key schedule rather than of the raw key. */
module Mozaik {
  import opened JsTypes
  import opened Bytes
  import opened Shares
  import opened LittleEndian
  import opened KeySchedule
  import opened Platform
  import opened Context
  import MpcKeyShares

  /** The only algorithm accepted. */
  const AesGcm128: JsString := Units("AES-GCM-128")

  /** The separation byte of a single-batch request. */
  const BatchTag: byte := 0x1

  /** The separation byte of a streaming-window request. */
  const StreamingTag: byte := 0x2

  /** `append([sepBuffer, contextBuf, dataIndicesBuffer, analysisTypeBuffer, algorithmBuffer])`. */
  function RequestContext(p: Primitives, stateSeparation: byte, userId: JsString, k1: PublicKey, k2: PublicKey, k3: PublicKey,
                          analysisType: JsString, dataIndices: seq<int>, algorithm: JsString): (context: seq<byte>)
    ensures context == [stateSeparation] + p.encodeUtf8(userId) + p.exportSpki(k1) + p.exportSpki(k2) + p.exportSpki(k3)
                       + IndexField(dataIndices) + p.encodeUtf8(analysisType) + p.encodeUtf8(algorithm)
  {
    var userIdAndPubkeyBuffer := CreateUserIdAndPubkeyContext(p, userId, k1, k2, k3).contextBuf;
    var dataIndicesBuffer := IndexField(dataIndices);
    var analysisTypeBuffer := p.encodeUtf8(analysisType);
    var algorithmBuffer := p.encodeUtf8(algorithm);
    FlattenSmall([stateSeparation], userIdAndPubkeyBuffer, dataIndicesBuffer, analysisTypeBuffer, algorithmBuffer);
    Flatten([[stateSeparation], userIdAndPubkeyBuffer, dataIndicesBuffer, analysisTypeBuffer, algorithmBuffer])
  }

  /** What `createAnalysisRequestDataHelper` returns or throws, given the two
      random 176-byte buffers `getRandomValues` would fill. */
  function RequestData(p: Primitives, stateSeparation: byte, userId: JsString, iotDeviceKey: seq<byte>, algorithm: JsString,
                       k1: PublicKey, k2: PublicKey, k3: PublicKey, analysisType: JsString, dataIndices: seq<int>,
                       random1: seq<byte>, random2: seq<byte>): (r: Result<seq<seq<byte>>>)
    requires |random1| == ScheduleLength && |random2| == ScheduleLength
    ensures r == Err(UnsupportedAlgorithm) <==> algorithm != AesGcm128
    ensures r == Err(UnexpectedKeySize) <==> algorithm == AesGcm128 && |iotDeviceKey| != 16
  {
    var uc := CreateUserIdAndPubkeyContext(p, userId, k1, k2, k3);
    var context := RequestContext(p, stateSeparation, userId, k1, k2, k3, analysisType, dataIndices, algorithm);
    if algorithm != AesGcm128 then Err(UnsupportedAlgorithm)
    else if |iotDeviceKey| != 16 then Err(UnexpectedKeySize)
    else
      var ks := KeyScheduleOf(p.aes128Schedule, iotDeviceKey);
      EncryptShares(p, context, uc, k1, k2, k3, random1, random2, ThirdShare(ks, random1, random2))
  }

  /** `createAnalysisRequestDataHelper(stateSeparation, userId, iotDeviceKey,
      algorithm, k1, k2, k3, analysisType, dataIndices)`. */
  method CreateAnalysisRequestDataHelper(p: Primitives, stateSeparation: byte, userId: JsString, iotDeviceKey: seq<byte>,
                                         algorithm: JsString, k1: PublicKey, k2: PublicKey, k3: PublicKey,
                                         analysisType: JsString, dataIndices: seq<int>,
                                         random1: seq<byte>, random2: seq<byte>) returns (r: Result<seq<seq<byte>>>)
    requires |random1| == ScheduleLength && |random2| == ScheduleLength
    ensures r == RequestData(p, stateSeparation, userId, iotDeviceKey, algorithm, k1, k2, k3, analysisType, dataIndices, random1, random2)
  {
    var userIdAndPubkeyBuffer := CreateUserIdAndPubkeyContext(p, userId, k1, k2, k3);
    var analysisTypeBuffer := p.encodeUtf8(analysisType);
    var dataIndicesBuffer := EncodeIndices(dataIndices);
    var algorithmBuffer := p.encodeUtf8(algorithm);
    var sepBuffer := [stateSeparation];
    var contextBuffer := Append([sepBuffer, userIdAndPubkeyBuffer.contextBuf, dataIndicesBuffer, analysisTypeBuffer, algorithmBuffer]);
    assert contextBuffer == RequestContext(p, stateSeparation, userId, k1, k2, k3, analysisType, dataIndices, algorithm);
    if algorithm == AesGcm128 {
      if |iotDeviceKey| != 16 {
        return Err(UnexpectedKeySize);
      }
      var ks := ComputeAes128KeySchedule(p.aes128Schedule, iotDeviceKey);
      var share1, share2 := random1, random2;
      var share3 := FillThirdShare(ks, share1, share2);
      var c1 :- PkEnc(p, share1, k1, userIdAndPubkeyBuffer.pk1Buf, contextBuffer);
      var c2 :- PkEnc(p, share2, k2, userIdAndPubkeyBuffer.pk2Buf, contextBuffer);
      var c3 :- PkEnc(p, share3, k3, userIdAndPubkeyBuffer.pk3Buf, contextBuffer);
      return Ok([c1, c2, c3]);
    } else {
      return Err(UnsupportedAlgorithm);
    }
  }

  /** `createAnalysisRequestData(...)`: a batch request, separation byte 0x1. */
  method CreateAnalysisRequestData(p: Primitives, userId: JsString, iotDeviceKey: seq<byte>, algorithm: JsString,
                                   k1: PublicKey, k2: PublicKey, k3: PublicKey, analysisType: JsString, dataIndices: seq<int>,
                                   random1: seq<byte>, random2: seq<byte>) returns (r: Result<seq<seq<byte>>>)
    requires |random1| == ScheduleLength && |random2| == ScheduleLength
    ensures r == RequestData(p, BatchTag, userId, iotDeviceKey, algorithm, k1, k2, k3, analysisType, dataIndices, random1, random2)
  {
    r := CreateAnalysisRequestDataHelper(p, 0x1, userId, iotDeviceKey, algorithm, k1, k2, k3, analysisType, dataIndices, random1, random2);
  }

  /** `createAnalysisRequestDataForStreaming(...)`: a streaming request,
      separation byte 0x2, the window bounds as the two indices. */
  method CreateAnalysisRequestDataForStreaming(p: Primitives, userId: JsString, iotDeviceKey: seq<byte>, algorithm: JsString,
                                               k1: PublicKey, k2: PublicKey, k3: PublicKey, analysisType: JsString,
                                               streamingBegin: int, streamingEnd: int,
                                               random1: seq<byte>, random2: seq<byte>) returns (r: Result<seq<seq<byte>>>)
    requires |random1| == ScheduleLength && |random2| == ScheduleLength
    ensures r == RequestData(p, StreamingTag, userId, iotDeviceKey, algorithm, k1, k2, k3, analysisType,
                             [streamingBegin, streamingEnd], random1, random2)
  {
    r := CreateAnalysisRequestDataHelper(p, 0x2, userId, iotDeviceKey, algorithm, k1, k2, k3, analysisType,
                                         [streamingBegin, streamingEnd], random1, random2);
  }

  /** Validation comes before anything else: a rejected algorithm or key size
      gives the same error whatever the randomness, the key expansion, the
      encryption primitive, the parties and the rest of the request. */
  lemma ValidationPrecedesSharing(p: Primitives, stateSeparation: byte, userId: JsString, iotDeviceKey: seq<byte>, algorithm: JsString,
                                  k1: PublicKey, k2: PublicKey, k3: PublicKey, analysisType: JsString, dataIndices: seq<int>,
                                  random1: seq<byte>, random2: seq<byte>,
                                  p': Primitives, stateSeparation': byte, userId': JsString, iotDeviceKey': seq<byte>,
                                  k1': PublicKey, k2': PublicKey, k3': PublicKey, analysisType': JsString, dataIndices': seq<int>,
                                  random1': seq<byte>, random2': seq<byte>)
    requires |random1| == ScheduleLength && |random2| == ScheduleLength
    requires |random1'| == ScheduleLength && |random2'| == ScheduleLength
    requires |iotDeviceKey'| == |iotDeviceKey|
    requires algorithm != AesGcm128 || |iotDeviceKey| != 16
    ensures RequestData(p, stateSeparation, userId, iotDeviceKey, algorithm, k1, k2, k3, analysisType, dataIndices, random1, random2)
         == RequestData(p', stateSeparation', userId', iotDeviceKey', algorithm, k1', k2', k3', analysisType', dataIndices', random1', random2')
         == (if algorithm != AesGcm128 then Err(UnsupportedAlgorithm) else Err(UnexpectedKeySize))
  {
  }

  /** An accepted request: the three shares are the two random buffers and
      their XOR with the key schedule, so together they recombine to the
      schedule of the device key; party i receives share i encrypted under
      its own key with label `context ++ spki(k_i)`, and the request fails
      exactly when one of those encryptions is rejected, with the reason of
      the first rejected one. */
  lemma AcceptedRequest(p: Primitives, stateSeparation: byte, userId: JsString, iotDeviceKey: seq<byte>,
                        k1: PublicKey, k2: PublicKey, k3: PublicKey, analysisType: JsString, dataIndices: seq<int>,
                        random1: seq<byte>, random2: seq<byte>)
    requires |random1| == ScheduleLength && |random2| == ScheduleLength
    requires |iotDeviceKey| == 16
    ensures var r := RequestData(p, stateSeparation, userId, iotDeviceKey, AesGcm128, k1, k2, k3, analysisType, dataIndices, random1, random2);
            var context := RequestContext(p, stateSeparation, userId, k1, k2, k3, analysisType, dataIndices, AesGcm128);
            var share3 := ThirdShare(KeyScheduleOf(p.aes128Schedule, iotDeviceKey), random1, random2);
            var e1 := p.oaepEncrypt(k1, context + p.exportSpki(k1), random1);
            var e2 := p.oaepEncrypt(k2, context + p.exportSpki(k2), random2);
            var e3 := p.oaepEncrypt(k3, context + p.exportSpki(k3), share3);
            && Combine(random1, random2, share3) == KeyScheduleOf(p.aes128Schedule, iotDeviceKey)
            && (r.Ok? <==> e1.Done? && e2.Done? && e3.Done?)
            && (r.Ok? ==> r.value == [e1.value, e2.value, e3.value])
            && (r.Err? ==> r.error == (if e1.Rejected? then Await(e1).error
                                       else if e2.Rejected? then Await(e2).error
                                       else Await(e3).error))
            && (r.Err? ==> r.error.PlatformRejected?)
  {
    CombineThirdShare(KeyScheduleOf(p.aes128Schedule, iotDeviceKey), random1, random2);
  }

  /** The separation byte opens every context, so no batch context (and no
      OAEP label made from one) equals a streaming one, whatever the other fields. */
  lemma BatchAndStreamingSeparated(p: Primitives, userId: JsString, k1: PublicKey, k2: PublicKey, k3: PublicKey,
                                   analysisType: JsString, dataIndices: seq<int>, algorithm: JsString,
                                   userId': JsString, k1': PublicKey, k2': PublicKey, k3': PublicKey,
                                   analysisType': JsString, streamingBegin: int, streamingEnd: int, algorithm': JsString,
                                   pubKeyBuf: seq<byte>, pubKeyBuf': seq<byte>)
    ensures var batch := RequestContext(p, BatchTag, userId, k1, k2, k3, analysisType, dataIndices, algorithm);
            var streaming := RequestContext(p, StreamingTag, userId', k1', k2', k3', analysisType', [streamingBegin, streamingEnd], algorithm');
            batch != streaming && Label(batch, pubKeyBuf) != Label(streaming, pubKeyBuf')
  {
    var batch := RequestContext(p, BatchTag, userId, k1, k2, k3, analysisType, dataIndices, algorithm);
    var streaming := RequestContext(p, StreamingTag, userId', k1', k2', k3', analysisType', [streamingBegin, streamingEnd], algorithm');
    assert batch[0] == BatchTag && streaming[0] == StreamingTag;
    assert Label(batch, pubKeyBuf)[0] == BatchTag && Label(streaming, pubKeyBuf')[0] == StreamingTag;
  }

  /** When the variable-width fields have agreed widths (user id, the three key
      exports, the index count, the analysis type), two contexts are equal
      exactly when every field is. The algorithm is last, so its width need not
      be fixed. */
  lemma RequestContextInjective(p: Primitives, stateSeparation: byte, userId: JsString, k1: PublicKey, k2: PublicKey, k3: PublicKey,
                                analysisType: JsString, dataIndices: seq<int>, algorithm: JsString,
                                stateSeparation': byte, userId': JsString, k1': PublicKey, k2': PublicKey, k3': PublicKey,
                                analysisType': JsString, dataIndices': seq<int>, algorithm': JsString)
    requires |p.encodeUtf8(userId)| == |p.encodeUtf8(userId')|
    requires |p.exportSpki(k1)| == |p.exportSpki(k1')| && |p.exportSpki(k2)| == |p.exportSpki(k2')| && |p.exportSpki(k3)| == |p.exportSpki(k3')|
    requires |dataIndices| == |dataIndices'|
    requires |p.encodeUtf8(analysisType)| == |p.encodeUtf8(analysisType')|
    ensures RequestContext(p, stateSeparation, userId, k1, k2, k3, analysisType, dataIndices, algorithm)
         == RequestContext(p, stateSeparation', userId', k1', k2', k3', analysisType', dataIndices', algorithm')
        <==> && stateSeparation == stateSeparation'
             && p.encodeUtf8(userId) == p.encodeUtf8(userId')
             && p.exportSpki(k1) == p.exportSpki(k1') && p.exportSpki(k2) == p.exportSpki(k2') && p.exportSpki(k3) == p.exportSpki(k3')
             && IndexField(dataIndices) == IndexField(dataIndices')
             && p.encodeUtf8(analysisType) == p.encodeUtf8(analysisType')
             && p.encodeUtf8(algorithm) == p.encodeUtf8(algorithm')
  {
    var s, u, a, b, c, x, t, g := [stateSeparation], p.encodeUtf8(userId), p.exportSpki(k1), p.exportSpki(k2), p.exportSpki(k3),
      IndexField(dataIndices), p.encodeUtf8(analysisType), p.encodeUtf8(algorithm);
    var s', u', a', b', c', x', t', g' := [stateSeparation'], p.encodeUtf8(userId'), p.exportSpki(k1'), p.exportSpki(k2'), p.exportSpki(k3'),
      IndexField(dataIndices'), p.encodeUtf8(analysisType'), p.encodeUtf8(algorithm');
    ConcatSplit(s + u + a + b + c + x + t, g, s' + u' + a' + b' + c' + x' + t', g');
    ConcatSplit(s + u + a + b + c + x, t, s' + u' + a' + b' + c' + x', t');
    ConcatSplit(s + u + a + b + c, x, s' + u' + a' + b' + c', x');
    ConcatSplit(s + u + a + b, c, s' + u' + a' + b', c');
    ConcatSplit(s + u + a, b, s' + u' + a', b');
    ConcatSplit(s + u, a, s' + u', a');
    ConcatSplit(s, u, s', u');
  }

  /** Without agreed widths, contexts are not collision-free: the index
      field and the analysis type are adjacent, so the request for index 65
      with analysis "sum" and the request for no index with an analysis type
      whose UTF-8 starts with the eight bytes of index 65 share one context,
      hence one OAEP label per party and the same encryption calls. */
  lemma RequestContextIndexShift(p: Primitives, stateSeparation: byte, userId: JsString, iotDeviceKey: seq<byte>,
                                 k1: PublicKey, k2: PublicKey, k3: PublicKey, random1: seq<byte>, random2: seq<byte>)
    requires |random1| == ScheduleLength && |random2| == ScheduleLength
    requires p.encodeUtf8([115, 117, 109]) == [115, 117, 109]
    requires p.encodeUtf8([65, 0, 0, 0, 0, 0, 0, 0, 115, 117, 109]) == [65, 0, 0, 0, 0, 0, 0, 0, 115, 117, 109]
    ensures RequestContext(p, stateSeparation, userId, k1, k2, k3, [115, 117, 109], [65], AesGcm128)
         == RequestContext(p, stateSeparation, userId, k1, k2, k3, [65, 0, 0, 0, 0, 0, 0, 0, 115, 117, 109], [], AesGcm128)
    ensures RequestData(p, stateSeparation, userId, iotDeviceKey, AesGcm128, k1, k2, k3, [115, 117, 109], [65], random1, random2)
         == RequestData(p, stateSeparation, userId, iotDeviceKey, AesGcm128, k1, k2, k3, [65, 0, 0, 0, 0, 0, 0, 0, 115, 117, 109], [], random1, random2)
  {
    assert LeBytes(65, 8) == [65, 0, 0, 0, 0, 0, 0, 0] by {
      assert LeBytes(0, 7) == [0, 0, 0, 0, 0, 0, 0] by {
        assert LeBytes(0, 3) == [0, 0, 0];
        assert LeBytes(0, 5) == [0, 0] + LeBytes(0, 3);
        assert LeBytes(0, 7) == [0, 0] + LeBytes(0, 5);
      }
    }
    assert Uint64Le(65) == [65, 0, 0, 0, 0, 0, 0, 0];
    assert IndexField([65]) == [65, 0, 0, 0, 0, 0, 0, 0];
    assert IndexField([]) == [];
    var pre := [stateSeparation] + p.encodeUtf8(userId) + p.exportSpki(k1) + p.exportSpki(k2) + p.exportSpki(k3);
    var alg := p.encodeUtf8(AesGcm128);
    assert pre + [65, 0, 0, 0, 0, 0, 0, 0] + [115, 117, 109] + alg == pre + [] + [65, 0, 0, 0, 0, 0, 0, 0, 115, 117, 109] + alg;
  }

  /** The newer context is the older one behind the separation byte. */
  lemma ExtendsKeySharesContext(p: Primitives, stateSeparation: byte, userId: JsString, k1: PublicKey, k2: PublicKey, k3: PublicKey,
                                analysisType: JsString, dataIndices: seq<int>, algorithm: JsString)
    ensures RequestContext(p, stateSeparation, userId, k1, k2, k3, analysisType, dataIndices, algorithm)
         == [stateSeparation] + MpcKeyShares.KeySharesContext(p, userId, k1, k2, k3, analysisType, dataIndices, algorithm)
  {
    var u, a, b, c := p.encodeUtf8(userId), p.exportSpki(k1), p.exportSpki(k2), p.exportSpki(k3);
    var x, t, g := IndexField(dataIndices), p.encodeUtf8(analysisType), p.encodeUtf8(algorithm);
    assert [stateSeparation] + u + a + b + c + x + t + g == [stateSeparation] + (u + a + b + c + x + t + g);
  }
}
