/** The platform the two modules run on, passed in explicitly: WebCrypto
    (`crypto.subtle`), `TextEncoder` and SJCL's AES key expansion. None of
    them has a body here; the model only says what is handed to them and how
    their results are combined. */
module Platform {
  import opened JsTypes
  import KeySchedule

  /** A WebCrypto `CryptoKey` holding a party's RSA-OAEP public key. */
  datatype PublicKey = PublicKey(handle: nat)

  /** A WebCrypto `CryptoKey` holding an imported AES-GCM key. */
  datatype AesKey = AesKey(handle: nat)

  /** A SHA-256 digest. */
  type Digest = s: seq<byte> | |s| == 32 witness seq(32, _ => 0)

  /** The algorithm parameters of `crypto.decrypt({ name: 'AES-GCM', ... })`. */
  datatype GcmParams = GcmParams(iv: seq<byte>, additionalData: seq<byte>, tagLength: nat)

  /** What a WebCrypto promise settles to: a value, or a rejection with a
      DOMException name such as "OperationError". */
  datatype Settled<T> = Done(value: T) | Rejected(reason: string)

  datatype Primitives = Primitives(
    /** `new TextEncoder().encode(s)`. */
    encodeUtf8: JsString -> seq<byte>,
    /** `crypto.exportKey('spki', key)`. */
    exportSpki: PublicKey -> seq<byte>,
    /** `crypto.encrypt({ name: 'RSA-OAEP', label }, key, plaintext)`, as (key, label, plaintext). */
    oaepEncrypt: (PublicKey, seq<byte>, seq<byte>) -> Settled<seq<byte>>,
    /** `crypto.digest('SHA-256', data)`. */
    sha256: seq<byte> -> Digest,
    /** `crypto.importKey('raw', bytes, { name: 'AES-GCM' }, true, ['decrypt'])`. */
    importAesKey: seq<byte> -> Settled<AesKey>,
    /** `crypto.decrypt(params, key, ciphertext)` for AES-GCM. */
    gcmDecrypt: (AesKey, GcmParams, seq<byte>) -> Settled<seq<byte>>,
    /** `new SJCLAes(words)._key[0]`: the forward key schedule of four key words. */
    aes128Schedule: seq<int> -> KeySchedule.Words44
  )

  /** Why an operation of the two modules fails. */
  datatype Error =
    | UnsupportedAlgorithm          // throw 'Unsupported algorithm'
    | UnexpectedKeySize             // throw 'Expected key size of 128bit'
    | PlatformRejected(reason: string)

  datatype Result<T> = Ok(value: T) | Err(error: Error) {
    predicate IsFailure() {
      Err?
    }

    function PropagateFailure<U>(): Result<U>
      requires Err?
    {
      Err(error)
    }

    function Extract(): T
      requires Ok?
    {
      value
    }
  }

  /** An awaited platform call: a rejection becomes a thrown error. */
  function Await<T>(s: Settled<T>): Result<T>
  {
    match s
    case Done(v) => Ok(v)
    case Rejected(reason) => Err(PlatformRejected(reason))
  }
}
