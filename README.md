# MPC key-share requests and result reconstruction

This project models the browser-side byte protocol of the two MPC helper
modules of the analysis client:

- `src/lib/util/cosicLibMozaik.js` is the newer request builder. The context
  opens with a separation byte: `0x1` for a batch request, `0x2` for a
  streaming window. The device key is expanded to its 176-byte AES-128 round-key
  schedule, and the schedule is split into three XOR shares.
- `src/lib/util/MpcKeyShares.js` is the older builder. Its context has no
  separation byte, and it splits the raw 16-byte key.

Both builders assemble a context by concatenating byte strings without
delimiters, in this order:

1. the UTF-8 user id;
2. the SPKI exports of the three parties' RSA keys;
3. the data indices, each as 8 little-endian bytes;
4. the analysis type;
5. the algorithm name.

They check the algorithm name and the key size. They encrypt share i to
party i with RSA-OAEP, under the label `context ++ spki(k_i)`.

`reconstructResult` is the same in both files. It rebuilds a context from the
user id, the keys, the analysis id and the analysis type. It decrypts the
AES-GCM result with two parameters: the IV is the first 12 bytes of
SHA-256(context), and the additional data is the whole context.

Modules:

- `JsTypes` (`js_types.dfy`): Uint8Array bytes, UTF-16 code units, and
  JavaScript's ToUint8, ToInt32, `<<`, `>>` and `& 0xff` written out on integers.
- `Bytes` (`bytes.dfy`): `append` as a method that fills a buffer, plus the
  concatenation function `Flatten` that specifies it.
- `Shares` (`xor.dfy`): bytewise XOR, the third share, and the recombination of
  three shares.
- `LittleEndian` (`little_endian.dfy`): `setBigUint64(_, _, true)` and the index
  field.
- `KeySchedule` (`key_schedule.dfy`): the packing around the key expansion in
  `computeAes128KeySchedule`.
- `Decoders` (`decoders.dfy`): `str2ab`, and `hexToBuffer` with
  `parseInt(_, 16)` as section 19.2.5 of ECMA-262 defines it.
- `Platform` (`platform.dfy`): the platform calls as a record of function values,
  and the error type.
- `Context` (`context.dfy`): `createUserIdAndPubkeyContext`, `pkEnc`, and the
  three encryptions.
- `Mozaik` (`mozaik.dfy`): the newer request builders.
- `MpcKeyShares` (`mpc_key_shares.dfy`): the older request builder.
- `Reconstruction` (`reconstruction.dfy`): `reconstructResult`.

Platform calls are parameters, not code, and they are only described:

- `TextEncoder.encode` and SPKI export;
- RSA-OAEP encryption, SHA-256 and raw AES key import;
- AES-GCM decryption;
- SJCL's AES key expansion.

A WebCrypto promise is modelled as a value that is either done or rejected. A
rejection becomes the thrown error. The two buffers that `getRandomValues` fills
are arbitrary inputs of the right length, so every property about the
shares holds for all random values. The `await`s run one after another.

The fields of a context are concatenated without lengths or delimiters. Equal
fields therefore give equal contexts, but the converse holds only when the
variable-width fields have agreed widths. Three lemmas show this:

- `Mozaik.RequestContextInjective` proves injectivity under agreed widths.
- `Mozaik.RequestContextIndexShift` gives two requests with different index
  lists that share one context. Being the same context, they also share the
  OAEP labels and the encryption calls.
- `Reconstruction.ResultContextFieldShift` does the same for an analysis id
  and an analysis type.

The two source files hold identical copies of `append`, `pkEnc`,
`createUserIdAndPubkeyContext`, `str2ab`, `hexToBuffer` and `reconstructResult`.
Each copy is modelled once. A row below cites the copy in
`cosicLibMozaik.js`, except where only the older file has the code.

## Model

| member | source | states |
|---|---|---|
| Bytes.FlattenLength | src/lib/util/cosicLibMozaik.js:11-21 | the concatenation is as long as the sum of the input lengths |
| Bytes.TotalLength | src/lib/util/cosicLibMozaik.js:12 | the summed length is at least the length of every input buffer; `Bytes.FlattenLength` equates it with the length of the concatenation |
| Bytes.FlattenConcat | src/lib/util/cosicLibMozaik.js:11-21 | concatenating a list of buffers distributes over splitting the list |
| Bytes.FlattenSmall | src/lib/util/cosicLibMozaik.js:11-21 | `append` of two to five buffers is their in-order concatenation |
| Bytes.ConcatSplit | src/lib/util/cosicLibMozaik.js:11-21 | two concatenations with equal-length first parts are equal exactly when both parts are equal |
| Bytes.Append | src/lib/util/cosicLibMozaik.js:11-21 | the buffer filled while advancing `offset` is the in-order concatenation of the inputs, and its length is the sum of theirs |
| Bytes.SetAt | src/lib/util/cosicLibMozaik.js:16 | `result.set(arr, offset)` puts the source at the offset and leaves every other byte as it was |
| Context.CreateUserIdAndPubkeyContext | src/lib/util/cosicLibMozaik.js:45-62 | the context is the UTF-8 user id followed by party 1, 2 and 3's SPKI exports in that order; each export is also returned unchanged |
| Context.Label | src/lib/util/cosicLibMozaik.js:32 | the OAEP label is the context followed by the party's key buffer |
| Context.LabelInjective | src/lib/util/cosicLibMozaik.js:32 | under a fixed context, labels are equal exactly when the key buffers are; under a fixed key buffer, exactly when the contexts are |
| Context.PkEnc | src/lib/util/cosicLibMozaik.js:31-34 | the share is OAEP-encrypted under the party's key with label `context ++ pubKeyBuf`; a rejection becomes the error |
| Context.EncryptShares | src/lib/util/cosicLibMozaik.js:204-206 | it succeeds exactly when all three encryptions succeed; ciphertext i is party i's encryption of share i under label `context ++ pk_i`; any failure is a platform rejection, and its reason is that of the first rejected encryption in party order |
| Shares.BitXor | src/lib/util/cosicLibMozaik.js:202 | XOR of the low n bits stays below 2^n |
| Shares.BitXorSelf | src/lib/util/cosicLibMozaik.js:202 | x XOR x is 0 |
| Shares.BitXorZero | src/lib/util/cosicLibMozaik.js:202 | XOR with 0 is the identity on n-bit values |
| Shares.BitXorComm | src/lib/util/cosicLibMozaik.js:202 | XOR is commutative |
| Shares.BitXorAssoc | src/lib/util/cosicLibMozaik.js:202 | XOR is associative |
| Shares.BitXorZeroEqual | src/lib/util/cosicLibMozaik.js:202 | two n-bit values whose XOR is 0 are equal |
| Shares.Xor | src/lib/util/cosicLibMozaik.js:202 | the XOR of two bytes is 0 exactly when they are equal, and XOR with 0 leaves a byte unchanged |
| Shares.XorLaws | src/lib/util/cosicLibMozaik.js:202 | on bytes, XOR is self-inverse and commutative, has 0 as its identity, and is associative |
| Shares.XorCancel | src/lib/util/cosicLibMozaik.js:202 | XOR-ing the same byte twice cancels |
| Shares.ThirdShare | src/lib/util/cosicLibMozaik.js:200-203 | the third share has the secret's length |
| Shares.CombineThirdShare | src/lib/util/cosicLibMozaik.js:195-203 | for any first two shares, share1 ⊕ share2 ⊕ share3 equals the secret at every index |
| Shares.ThirdShareInvolution | src/lib/util/cosicLibMozaik.js:200-203 | with the secret and share 1 fixed, the map from share 2 to share 3 is its own inverse |
| Shares.ThirdShareSurjective | src/lib/util/cosicLibMozaik.js:197-203 | every byte string of the right length is the third share for some choice of share 2, so share 3 by itself reveals nothing about the secret |
| Shares.FillThirdShare | src/lib/util/cosicLibMozaik.js:200-203 | the loop fills `ks[i] ^ share1[i] ^ share2[i]`, and the three shares recombine to the secret |
| LittleEndian.LeDecodeBytes | src/lib/util/cosicLibMozaik.js:178 | decoding the n little-endian bytes of x < 256^n gives x |
| LittleEndian.Uint64Le | src/lib/util/cosicLibMozaik.js:178 | `setBigUint64(_, BigInt(v), true)` writes 8 bytes, which `Uint64LeDecodes` shows decode to v mod 2^64 |
| LittleEndian.Uint64LeDecodes | src/lib/util/cosicLibMozaik.js:178 | the 8 bytes `setBigUint64(_, BigInt(v), true)` writes decode to v mod 2^64, and so to v when 0 ≤ v < 2^64 |
| LittleEndian.Uint64LeInjective | src/lib/util/cosicLibMozaik.js:178 | in-range indices are encoded equally exactly when they are equal |
| LittleEndian.IndexField | src/lib/util/cosicLibMozaik.js:172-179 | the index field has 8·n bytes |
| LittleEndian.IndexFieldSlot | src/lib/util/cosicLibMozaik.js:172-179 | bytes 8i..8i+7 are the little-endian encoding of index i, and they decode to index i mod 2^64, so to index i when it is in range |
| LittleEndian.IndexFieldInjective | src/lib/util/cosicLibMozaik.js:172-179 | for in-range indices, index fields are equal exactly when the index lists are |
| LittleEndian.SetBigUint64 | src/lib/util/cosicLibMozaik.js:178 | the store writes the 8 bytes of the index at the offset and nothing else |
| LittleEndian.EncodeIndices | src/lib/util/cosicLibMozaik.js:172-179 | the `DataView` loop produces the index field |
| KeySchedule.WordBytes | src/lib/util/cosicLibMozaik.js:82-86 | a word is written as four bytes |
| KeySchedule.PackWordValue | src/lib/util/cosicLibMozaik.js:73-74 | the packed word is the big-endian value of the four bytes, read as a signed 32-bit integer |
| KeySchedule.WordBytesOfPackWord | src/lib/util/cosicLibMozaik.js:72-87 | unpacking a packed word gives its four bytes back |
| KeySchedule.PackWordOfWordBytes | src/lib/util/cosicLibMozaik.js:72-87 | packing the bytes of a word gives back the word's 32-bit pattern |
| KeySchedule.ShiftLeftByte | src/lib/util/cosicLibMozaik.js:74 | `b << 8` and `b << 16` are plain products; `b << 24` is negative when b ≥ 128 |
| KeySchedule.WordBytesOfSigned | src/lib/util/cosicLibMozaik.js:83-86 | the four bytes extracted by `>>` and `& 0xff` from a signed word are its base-256 digits |
| KeySchedule.PackKey | src/lib/util/cosicLibMozaik.js:71-75 | 16 key bytes give 4 words |
| KeySchedule.ScheduleBytes | src/lib/util/cosicLibMozaik.js:79-87 | n words are written as 4·n bytes |
| KeySchedule.ScheduleBytesSlot | src/lib/util/cosicLibMozaik.js:81-87 | bytes 4i..4i+3 are the big-endian bytes of word i |
| KeySchedule.ScheduleBytesOfPackKeySlot | src/lib/util/cosicLibMozaik.js:71-87 | each 4-byte group of the key survives packing and unpacking |
| KeySchedule.ScheduleBytesOfPackKey | src/lib/util/cosicLibMozaik.js:71-87 | writing back the packed key words restores the 16 key bytes: unpacking inverts packing |
| KeySchedule.PackKeyOfScheduleBytes | src/lib/util/cosicLibMozaik.js:71-87 | packing the bytes of four words gives the words' 32-bit patterns |
| KeySchedule.KeyScheduleOf | src/lib/util/cosicLibMozaik.js:68-89 | a 16-byte key gives a 176-byte schedule |
| KeySchedule.WriteWord | src/lib/util/cosicLibMozaik.js:82-86 | the four stores write the word's big-endian bytes at the offset and nothing else |
| KeySchedule.PackKeyWords | src/lib/util/cosicLibMozaik.js:71-75 | the first loop computes the packed key words |
| KeySchedule.ComputeAes128KeySchedule | src/lib/util/cosicLibMozaik.js:68-89 | the result is the 176-byte schedule of the packed key, and bytes 4i..4i+3 are the big-endian bytes of schedule word i |
| Decoders.LowBytes | src/lib/util/cosicLibMozaik.js:96-104 | the buffer has one byte per code unit |
| Decoders.LowBytesBinaryString | src/lib/util/cosicLibMozaik.js:96-104 | `str2ab` inverts the binary string of a buffer, and it loses nothing exactly when every code unit is below 256 |
| Decoders.Str2ab | src/lib/util/cosicLibMozaik.js:96-104 | the buffer is as long as the string, and byte i is `charCodeAt(i)` mod 256 |
| Decoders.TrimStartSuffix | src/lib/util/cosicLibMozaik.js:133 | the input with leading white space removed is a suffix of the input that is empty or starts with a non-space |
| Decoders.HexDigitPrefix | src/lib/util/cosicLibMozaik.js:133 | parseInt reads a prefix made only of hex digits that is either the whole string or is followed by a non-hex character, so it is the longest such prefix |
| Decoders.ParseInt16Digits | src/lib/util/cosicLibMozaik.js:133 | a non-empty string of hex digits without a `0x` prefix parses to its base-16 value |
| Decoders.ParseInt16NoDigits | src/lib/util/cosicLibMozaik.js:133 | a string with no hex digit at all parses to NaN |
| Decoders.PairByte | src/lib/util/cosicLibMozaik.js:133 | storing `parseInt(pair, 16)` into a Uint8Array keeps 0 for NaN and otherwise the parsed value mod 256 |
| Decoders.ParseHexPair | src/lib/util/cosicLibMozaik.js:133 | two hex digits parse to 16·high + low, and the store keeps that byte |
| Decoders.PairByteLenient | src/lib/util/cosicLibMozaik.js:133 | malformed pairs are not rejected: "zz" and "0x" store 0, "7g" stores 7, "-1" stores 255 |
| Decoders.HexDecode | src/lib/util/cosicLibMozaik.js:129-135 | the buffer has ⌊length/2⌋ bytes |
| Decoders.HexDigitChar | src/lib/util/cosicLibMozaik.js:133 | the digit character for d is a hex digit whose value is d |
| Decoders.HexDecodePair | src/lib/util/cosicLibMozaik.js:131-133 | when characters 2i and 2i+1 are hex digits, byte i is 16·value(2i) + value(2i+1) |
| Decoders.HexDecodeEncode | src/lib/util/cosicLibMozaik.js:129-135 | decoding the hex encoding of any byte string gives it back |
| Decoders.HexEncodeDecode | src/lib/util/cosicLibMozaik.js:129-135 | an even-length lower-case hex string is the hex encoding of its decoding |
| Decoders.HexToBuffer | src/lib/util/cosicLibMozaik.js:129-135 | the loop returns s.length/2 bytes, and byte i is decoded from characters 2i and 2i+1 |
| Mozaik.RequestContext | src/lib/util/cosicLibMozaik.js:161-189 | the context is the separation byte, then the user/public-key context, the index field, the analysis type and the algorithm |
| Mozaik.RequestData | src/lib/util/cosicLibMozaik.js:191-194 | the result is "Unsupported algorithm" exactly when the algorithm is not "AES-GCM-128", and "Expected key size of 128bit" exactly when it is but the key is not 16 bytes |
| Mozaik.CreateAnalysisRequestDataHelper | src/lib/util/cosicLibMozaik.js:150-211 | the buffers, loops and awaits produce the request that `RequestData` specifies |
| Mozaik.CreateAnalysisRequestData | src/lib/util/cosicLibMozaik.js:225-246 | a batch request is the helper's request with separation byte 0x1 |
| Mozaik.CreateAnalysisRequestDataForStreaming | src/lib/util/cosicLibMozaik.js:261-283 | a streaming request is the helper's request with separation byte 0x2 and the indices [begin, end] |
| Mozaik.ValidationPrecedesSharing | src/lib/util/cosicLibMozaik.js:191-210 | when validation fails, the error is the same for every choice of randomness, key expansion, encryption primitive, parties and other fields |
| Mozaik.AcceptedRequest | src/lib/util/cosicLibMozaik.js:191-206 | for "AES-GCM-128" and a 16-byte key, the three shares recombine to the key schedule for any random shares 1 and 2; the request succeeds exactly when the three encryptions do, and then returns exactly those three ciphertexts; otherwise the error is the first rejection's, in party order |
| Mozaik.BatchAndStreamingSeparated | src/lib/util/cosicLibMozaik.js:183-189 | no batch context and no label built from one equals a streaming one, whatever the other fields |
| Mozaik.RequestContextInjective | src/lib/util/cosicLibMozaik.js:181-189 | if the user id, key exports, index count and analysis type have agreed widths, two contexts are equal exactly when every field is |
| Mozaik.RequestContextIndexShift | src/lib/util/cosicLibMozaik.js:183-189 | without agreed widths, the request for index 65 with analysis "sum" and the request for no index with the analysis type "A" + seven NUL code units + "sum" have the same context and the same outcome |
| Mozaik.ExtendsKeySharesContext | src/lib/util/cosicLibMozaik.js:181-189 | the newer context is the separation byte followed by the older context |
| MpcKeyShares.KeySharesContext | src/lib/util/MpcKeyShares.js:128-153 | the context is the user/public-key context, the index field, the analysis type and the algorithm, with no separation byte |
| MpcKeyShares.KeySharesContextInjective | src/lib/util/MpcKeyShares.js:147-153 | under agreed widths, two older contexts are equal exactly when every field is |
| MpcKeyShares.EncryptedKeyShares | src/lib/util/MpcKeyShares.js:155-158 | the result is "Unsupported algorithm" exactly when the algorithm is not "AES-GCM-128", and "Expected key size of 128bit" exactly when it is but the key is not 16 bytes |
| MpcKeyShares.CreateEncryptedKeyShares | src/lib/util/MpcKeyShares.js:119-174 | the buffers, loops and awaits produce the request that `EncryptedKeyShares` specifies |
| MpcKeyShares.ValidationPrecedesSharing | src/lib/util/MpcKeyShares.js:155-173 | when validation fails, the error is the same for every choice of randomness, encryption primitive, parties and other fields, and no ciphertext is produced |
| MpcKeyShares.AcceptedRequest | src/lib/util/MpcKeyShares.js:155-169 | for "AES-GCM-128" and a 16-byte key, the three 16-byte shares recombine to the raw device key for any random shares 1 and 2; the request succeeds exactly when the three encryptions do, and then returns exactly those three ciphertexts; otherwise the error is the first rejection's, in party order |
| Reconstruction.ResultContext | src/lib/util/cosicLibMozaik.js:309-320 | the context is user id, the three key exports, the analysis id and the analysis type, with no separation byte |
| Reconstruction.DecryptParams | src/lib/util/cosicLibMozaik.js:326-329 | the IV is the first 12 bytes of SHA-256(context), the additional data is the whole context, and the tag length is 128 bits |
| Reconstruction.ReconstructResult | src/lib/util/cosicLibMozaik.js:297-334 | a rejected key import is the error; otherwise the IV is the first 12 bytes of SHA-256(context), the additional data is the whole context, the tag is 128 bits, and the result is the awaited decryption |
| Reconstruction.ReconstructRoundTrip | src/lib/util/cosicLibMozaik.js:323-332 | a result sealed under the device key, the IV derived from the context and the context as additional data is recovered |
| Reconstruction.ReconstructRejectsOtherContext | src/lib/util/cosicLibMozaik.js:326-332 | a result sealed with different additional data is rejected when AES-GCM authenticates its additional data |
| Reconstruction.ResultContextSeparatesAnalyses | src/lib/util/cosicLibMozaik.js:318-320 | for analysis ids of equal UTF-8 width, the contexts are equal exactly when the ids' encodings are |
| Reconstruction.ResultContextFieldShift | src/lib/util/cosicLibMozaik.js:318-332 | analysis id "A1" with type "B" and id "A" with type "1B" give one context, and so one IV and one set of decryption parameters |

## Left out

- The platform calls have no model of their own. They are `TextEncoder`, SPKI export, RSA-OAEP,
  SHA-256, AES key import, AES-GCM and `getRandomValues`; the model only records
  what each receives and how its result is used. `atob` is represented only by
  `Decoders.BinaryString`.
- SJCL's AES-128 key expansion (`./aes.js`) is not part of this model. It is a
  parameter that returns 44 words; nothing is claimed about FIPS-197.
- `console.assert(key.length == 16)` in `computeAes128KeySchedule` only logs.
  The caller has already checked the length, so it is modelled as the precondition.
- SPKI export cannot fail in the model. In the source a rejected `exportKey`
  would throw while the context is being built, before validation.
- Data indices are integers. `BigInt` of a non-integer Number throws a
  RangeError while the context is being built; that path is not modelled.
- `sepBuffer[0] = stateSeparation` is modelled with a byte parameter. The
  two callers pass only 0x1 and 0x2.
- `mpcKeyToCryptoKey` is a single platform call, with no logic of its own.
- `DecryptCKKSCipherText`, `reconstructResultFHE`, `parse_plaintext_from_string`
  and `createAnalysisRequestFHE` are left out. They run the OpenFHE WebAssembly
  engine, parse floating point and apply softmax, or only return a tuple.
- The authentication, routing, store and type-declaration files are left out.
  They are framework wiring, network and local-storage code.
- The three encryptions run in sequence. Scheduling across other promises is
  not modelled.
- `Mozaik.ValidationPrecedesSharing` and `MpcKeyShares.ValidationPrecedesSharing`
  state the order of validation as independence: the error result does not
  depend on the random buffers, the key expansion or the encryption primitive.
  They do not model a trace of calls.
