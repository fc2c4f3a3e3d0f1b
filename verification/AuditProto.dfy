/** The messages of proto/audit.proto and the libraries that encode and encrypt them. */
module AuditProto {
  import opened Bytes
  import opened MerkleProof

  datatype TransactionEntry = TransactionEntry(
    nonce: u64, deltaAmount: i64, cumulativeAmount: u64, signature: bytes, timestamp: i64,
    serviceId: string, paymentId: string, merchantDid: string, memo: bytes)

  datatype ChunkMetadata = ChunkMetadata(
    userDid: string, providerDid: string, chunkId: u64, startNonce: u64, endNonce: u64,
    prevChunkHash: bytes, timestampStart: i64, timestampEnd: i64)

  datatype LogChunk = LogChunk(
    metadata: Option<ChunkMetadata>, encryptedPayload: bytes, authTag: bytes, merkleRoot: bytes)

  datatype ChunkManifestEntry = ChunkManifestEntry(chunkId: u64, cid: bytes, chunkHash: bytes, merkleRoot: bytes)

  datatype ChunkManifest = ChunkManifest(userDid: string, entries: seq<ChunkManifestEntry>, prevManifestHash: bytes)

  datatype LogError =
    | NoEntries | CompressionFailed | EncryptionFailed
    | MissingMetadata | PayloadTooShort | DecryptionFailed | DecompressionFailed | DecodingFailed | RootMismatch
    | CidNotFound | CidCounterOverflow | HashChainBroken | ChunkHashMismatch

  datatype Result<+T> = Ok(value: T) | Err(error: LogError) {
    predicate IsFailure() { Err? }

    function PropagateFailure<U>(): Result<U>
      requires Err?
    {
      Err(error)
    }

    function Extract(): T
      requires Ok?
    {
      value
    }
  }

  /** `OrFail(o, e)`: the value of `o`, or the error `e` (Rust's `ok_or_else` and `map_err`). */
  function OrFail<T>(o: Option<T>, e: LogError): Result<T>
  {
    if o.Some? then Ok(o.value) else Err(e)
  }

  /** SHA-256, protobuf, zstd and AES-256-GCM, as parameters of the model.
      `seal(key, iv, aad, message)` is the ciphertext with its 16-byte tag at the end. */
  datatype Library = Library(
    hash: Hash,
    encodeEntry: TransactionEntry -> bytes,
    decodeEntry: bytes -> Option<TransactionEntry>,
    encodePayload: seq<TransactionEntry> -> bytes,
    decodePayload: bytes -> Option<seq<TransactionEntry>>,
    encodeChunk: LogChunk -> bytes,
    decodeChunk: bytes -> Option<LogChunk>,
    encodeManifest: ChunkManifest -> bytes,
    decodeManifest: bytes -> Option<ChunkManifest>,
    compress: bytes -> Option<bytes>,
    decompress: bytes -> Option<bytes>,
    seal: (Digest, bytes, bytes, bytes) -> Option<bytes>,
    open: (Digest, bytes, bytes, bytes) -> Option<bytes>)

  /** Protobuf decodes what it encodes. */
  ghost predicate FaithfulCodec(lib: Library)
  {
    && (forall e: TransactionEntry :: lib.decodeEntry(lib.encodeEntry(e)) == Some(e))
    && (forall s: seq<TransactionEntry> :: lib.decodePayload(lib.encodePayload(s)) == Some(s))
    && (forall c: LogChunk :: lib.decodeChunk(lib.encodeChunk(c)) == Some(c))
    && (forall m: ChunkManifest :: lib.decodeManifest(lib.encodeManifest(m)) == Some(m))
  }

  /** What was compressed and sealed comes back when opened under the same key, nonce and context. */
  ghost predicate FaithfulCipher(lib: Library)
  {
    && (forall b: bytes :: lib.compress(b).Some? ==> lib.decompress(lib.compress(b).value) == Some(b))
    && (forall key: Digest, iv: bytes, aad: bytes, m: bytes :: lib.seal(key, iv, aad, m).Some? ==>
          && |lib.seal(key, iv, aad, m).value| == |m| + 16
          && lib.open(key, iv, aad, lib.seal(key, iv, aad, m).value) == Some(m))
  }

  ghost predicate Faithful(lib: Library)
  {
    FaithfulCodec(lib) && FaithfulCipher(lib)
  }
}
