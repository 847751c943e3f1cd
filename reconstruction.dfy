/** `reconstructResult`, identical in both variants: the result ciphertext is
    AES-GCM under the device key, with a nonce derived from the context
    instead of transmitted beside the ciphertext. */
module Reconstruction {
  import opened JsTypes
  import opened Bytes
  import opened Platform
  import opened Context

  const NonceLength: nat := 12
  const TagLength: nat := 128

  /** The reconstruction context: user id, the three SPKI exports, the analysis
      id and the analysis type, concatenated without delimiters and without a
      separation byte. */
  function ResultContext(p: Primitives, userId: JsString, k1: PublicKey, k2: PublicKey, k3: PublicKey,
                         computationId: JsString, analysisType: JsString): (context: seq<byte>)
    ensures context == p.encodeUtf8(userId) + p.exportSpki(k1) + p.exportSpki(k2) + p.exportSpki(k3)
                       + p.encodeUtf8(computationId) + p.encodeUtf8(analysisType)
  {
    var userIdAndPubkeyBuffer := CreateUserIdAndPubkeyContext(p, userId, k1, k2, k3).contextBuf;
    var compIdBuf := p.encodeUtf8(computationId);
    var analysisTypeBuf := p.encodeUtf8(analysisType);
    FlattenSmall(userIdAndPubkeyBuffer, compIdBuf, analysisTypeBuf, [], []);
    Flatten([userIdAndPubkeyBuffer, compIdBuf, analysisTypeBuf])
  }

  /** `{ name: 'AES-GCM', iv: fullNonce.slice(0, 12), additionalData: context, tagLength: 128 }`
      with `fullNonce = SHA-256(context)`. */
  function DecryptParams(p: Primitives, context: seq<byte>): (params: GcmParams)
    ensures |params.iv| == NonceLength && params.iv == p.sha256(context)[..NonceLength]
    ensures params.additionalData == context && params.tagLength == TagLength
  {
    var fullNonce := p.sha256(context);
    GcmParams(fullNonce[..NonceLength], context, TagLength)
  }

  /** `reconstructResult(userId, iotDeviceKey, k1, k2, k3, computationId, analysisType, encryptedResult)`. */
  function ReconstructResult(p: Primitives, userId: JsString, iotDeviceKey: seq<byte>,
                             k1: PublicKey, k2: PublicKey, k3: PublicKey,
                             computationId: JsString, analysisType: JsString, encryptedResult: seq<byte>): (r: Result<seq<byte>>)
    ensures p.importAesKey(iotDeviceKey).Rejected? ==> r == Err(PlatformRejected(p.importAesKey(iotDeviceKey).reason))
    ensures p.importAesKey(iotDeviceKey).Done? ==>
      var context := ResultContext(p, userId, k1, k2, k3, computationId, analysisType);
      var params := DecryptParams(p, context);
      // the IV is the first 12 bytes of SHA-256(context), the AAD the whole context
      && |params.iv| == 12 && params.iv == p.sha256(context)[..12]
      && params.additionalData == context && params.tagLength == 128
      && r == Await(p.gcmDecrypt(p.importAesKey(iotDeviceKey).value, params, encryptedResult))
  {
    var context := ResultContext(p, userId, k1, k2, k3, computationId, analysisType);
    var key :- Await(p.importAesKey(iotDeviceKey));
    Await(p.gcmDecrypt(key, DecryptParams(p, context), encryptedResult))
  }

  /** AES-GCM as the platform is trusted to provide it: `seal` is the
      encryption the server side applies, and decryption with the same key
      and parameters opens it. */
  ghost predicate GcmOpensSealed(p: Primitives, seal: (AesKey, GcmParams, seq<byte>) -> seq<byte>)
  {
    forall k, params, m :: p.gcmDecrypt(k, params, seal(k, params, m)) == Done(m)
  }

  /** AES-GCM's integrity guarantee: a ciphertext sealed under one additional
      data is rejected under any other. */
  ghost predicate GcmBindsAdditionalData(p: Primitives, seal: (AesKey, GcmParams, seq<byte>) -> seq<byte>)
  {
    forall k: AesKey, params: GcmParams, params': GcmParams, m: seq<byte> ::
      params'.additionalData != params.additionalData ==> p.gcmDecrypt(k, params', seal(k, params, m)).Rejected?
  }

  /** A result sealed under the context-derived nonce and the full context as
      additional data is recovered exactly. */
  lemma ReconstructRoundTrip(p: Primitives, seal: (AesKey, GcmParams, seq<byte>) -> seq<byte>,
                             userId: JsString, iotDeviceKey: seq<byte>, k1: PublicKey, k2: PublicKey, k3: PublicKey,
                             computationId: JsString, analysisType: JsString, plaintext: seq<byte>)
    requires GcmOpensSealed(p, seal)
    requires p.importAesKey(iotDeviceKey).Done?
    ensures var context := ResultContext(p, userId, k1, k2, k3, computationId, analysisType);
      var key := p.importAesKey(iotDeviceKey).value;
      var sealed := seal(key, GcmParams(p.sha256(context)[..12], context, 128), plaintext);
      ReconstructResult(p, userId, iotDeviceKey, k1, k2, k3, computationId, analysisType, sealed) == Ok(plaintext)
  {
  }

  /** A result sealed under any other context (another analysis id or type,
      another user, other parties) fails to authenticate, whatever nonce it was
      sealed with, and no plaintext is released. */
  lemma ReconstructRejectsOtherContext(p: Primitives, seal: (AesKey, GcmParams, seq<byte>) -> seq<byte>,
                                       userId: JsString, iotDeviceKey: seq<byte>, k1: PublicKey, k2: PublicKey, k3: PublicKey,
                                       computationId: JsString, analysisType: JsString,
                                       sealedUnder: GcmParams, plaintext: seq<byte>)
    requires GcmBindsAdditionalData(p, seal)
    requires p.importAesKey(iotDeviceKey).Done?
    requires sealedUnder.additionalData != ResultContext(p, userId, k1, k2, k3, computationId, analysisType)
    ensures var sealed := seal(p.importAesKey(iotDeviceKey).value, sealedUnder, plaintext);
      ReconstructResult(p, userId, iotDeviceKey, k1, k2, k3, computationId, analysisType, sealed).Err?
  {
  }

  /** Two analysis ids whose encodings have the same width give different
      contexts, hence different additional data, whenever the encodings differ. */
  lemma ResultContextSeparatesAnalyses(p: Primitives, userId: JsString, k1: PublicKey, k2: PublicKey, k3: PublicKey,
                                       id: JsString, id': JsString, analysisType: JsString)
    requires |p.encodeUtf8(id)| == |p.encodeUtf8(id')|
    ensures ResultContext(p, userId, k1, k2, k3, id, analysisType) == ResultContext(p, userId, k1, k2, k3, id', analysisType)
            <==> p.encodeUtf8(id) == p.encodeUtf8(id')
  {
    var prefix := p.encodeUtf8(userId) + p.exportSpki(k1) + p.exportSpki(k2) + p.exportSpki(k3);
    var at := p.encodeUtf8(analysisType);
    assert ResultContext(p, userId, k1, k2, k3, id, analysisType) == prefix + (p.encodeUtf8(id) + at);
    assert ResultContext(p, userId, k1, k2, k3, id', analysisType) == prefix + (p.encodeUtf8(id') + at);
    ConcatSplit(prefix, p.encodeUtf8(id) + at, prefix, p.encodeUtf8(id') + at);
    ConcatSplit(p.encodeUtf8(id), at, p.encodeUtf8(id'), at);
  }

  /** Without delimiters, moving a character across the boundary between the
      analysis id and the analysis type leaves the context, and with it the
      nonce and the additional data, unchanged: with the UTF-8 encodings of the
      ASCII strings "A1", "B", "A" and "1B", the pairs ("A1", "B") and
      ("A", "1B") decrypt alike. */
  lemma ResultContextFieldShift(p: Primitives, userId: JsString, k1: PublicKey, k2: PublicKey, k3: PublicKey)
    requires p.encodeUtf8([65, 49]) == [65, 49] && p.encodeUtf8([66]) == [66]
    requires p.encodeUtf8([65]) == [65] && p.encodeUtf8([49, 66]) == [49, 66]
    ensures ResultContext(p, userId, k1, k2, k3, [65, 49], [66]) == ResultContext(p, userId, k1, k2, k3, [65], [49, 66])
    ensures DecryptParams(p, ResultContext(p, userId, k1, k2, k3, [65, 49], [66]))
         == DecryptParams(p, ResultContext(p, userId, k1, k2, k3, [65], [49, 66]))
  {
    var prefix := p.encodeUtf8(userId) + p.exportSpki(k1) + p.exportSpki(k2) + p.exportSpki(k3);
    assert ResultContext(p, userId, k1, k2, k3, [65, 49], [66]) == prefix + [65, 49] + [66];
    assert ResultContext(p, userId, k1, k2, k3, [65], [49, 66]) == prefix + [65] + [49, 66];
    assert prefix + [65, 49] + [66] == prefix + [65] + [49, 66];
  }
}
