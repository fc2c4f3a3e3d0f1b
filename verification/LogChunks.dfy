/** Building and opening encrypted log chunks (ignite-pay-core/src/log_chunk.rs). */
module LogChunks {
  import opened Bytes
  import opened MerkleProof
  import opened Permutations
  import opened AuditMerkle
  import opened AuditProto

  datatype ChunkConfig = ChunkConfig(userDid: string, providerDid: string, chunkId: u64, prevChunkHash: Digest)

  const IV_LENGTH: nat := 12
  const TAG_LENGTH: nat := 16

  /** The random 96-bit nonce is a parameter. */
  type Iv = b: bytes | |b| == IV_LENGTH witness [0, 0, 0, 0, 0, 0, 0, 0, 0, 0, 0, 0]

  /** The earliest (`first`) or latest timestamp. */
  function ExtremeTimestamp(entries: seq<TransactionEntry>, first: bool): (t: i64)
    requires entries != []
    ensures exists i :: 0 <= i < |entries| && entries[i].timestamp == t
    ensures forall i :: 0 <= i < |entries| ==>
                          if first then t <= entries[i].timestamp else t >= entries[i].timestamp
  {
    var n := |entries| - 1;
    var here := entries[n].timestamp;
    if n == 0 then here
    else
      var rest := ExtremeTimestamp(entries[..n], first);
      if first == (rest <= here) then rest else here
  }

  function MetadataOf(config: ChunkConfig, entries: seq<TransactionEntry>): ChunkMetadata
    requires entries != []
  {
    ChunkMetadata(config.userDid, config.providerDid, config.chunkId, entries[0].nonce,
                  entries[|entries| - 1].nonce, config.prevChunkHash,
                  ExtremeTimestamp(entries, true), ExtremeTimestamp(entries, false))
  }

  function EntriesRoot(lib: Library, entries: seq<TransactionEntry>): Digest
  {
    RootOf(lib.hash, Map(lib.encodeEntry, entries))
  }

  /** The nonce and the ciphertext without its tag, and the tag. */
  function Split(iv: Iv, sealed: bytes): (bytes, bytes)
  {
    var cut := if |sealed| < TAG_LENGTH then 0 else |sealed| - TAG_LENGTH;
    (iv + sealed[..cut], sealed[cut..])
  }

  lemma SplitJoins(iv: Iv, sealed: bytes)
    requires |sealed| >= TAG_LENGTH
    ensures Split(iv, sealed).0 + Split(iv, sealed).1 == iv + sealed && |Split(iv, sealed).1| == TAG_LENGTH
  {
  }

  function BuildChunk(lib: Library, config: ChunkConfig, iv: Iv, entries: seq<TransactionEntry>, key: Digest)
    : Result<LogChunk>
  {
    if entries == [] then Err(NoEntries)
    else
      var compressed :- OrFail(lib.compress(lib.encodePayload(entries)), CompressionFailed);
      var sealed :- OrFail(lib.seal(key, iv, BE64(config.chunkId), compressed), EncryptionFailed);
      var (payload, tag) := Split(iv, sealed);
      Ok(LogChunk(Some(MetadataOf(config, entries)), payload, tag, EntriesRoot(lib, entries)))
  }

  function DecryptChunk(lib: Library, chunk: LogChunk, key: Digest): Result<seq<TransactionEntry>>
  {
    var metadata :- OrFail(chunk.metadata, MissingMetadata);
    if |chunk.encryptedPayload| < IV_LENGTH then Err(PayloadTooShort)
    else
      var iv := chunk.encryptedPayload[..IV_LENGTH];
      var sealed := chunk.encryptedPayload[IV_LENGTH..] + chunk.authTag;
      var compressed :- OrFail(lib.open(key, iv, BE64(metadata.chunkId), sealed), DecryptionFailed);
      var plaintext :- OrFail(lib.decompress(compressed), DecompressionFailed);
      var entries :- OrFail(lib.decodePayload(plaintext), DecodingFailed);
      if EntriesRoot(lib, entries) == chunk.merkleRoot then Ok(entries) else Err(RootMismatch)
  }

  /** The SHA-256 of the encoded chunk, which links the chain. */
  function ChunkHash(lib: Library, chunk: LogChunk): Digest
  {
    lib.hash(lib.encodeChunk(chunk))
  }

  /** What a built chunk says in the clear. */
  lemma BuiltMetadata(lib: Library, config: ChunkConfig, iv: Iv, entries: seq<TransactionEntry>, key: Digest)
    requires BuildChunk(lib, config, iv, entries, key).Ok?
    ensures
      var chunk := BuildChunk(lib, config, iv, entries, key).value;
      && entries != []
      && chunk.merkleRoot == EntriesRoot(lib, entries)
      && chunk.metadata.Some?
      && var m := chunk.metadata.value;
      && m.userDid == config.userDid && m.providerDid == config.providerDid
      && m.chunkId == config.chunkId && m.prevChunkHash == config.prevChunkHash
      && m.startNonce == entries[0].nonce && m.endNonce == entries[|entries| - 1].nonce
      && (forall i :: 0 <= i < |entries| ==> m.timestampStart <= entries[i].timestamp <= m.timestampEnd)
      && (exists i :: 0 <= i < |entries| && entries[i].timestamp == m.timestampStart)
      && (exists i :: 0 <= i < |entries| && entries[i].timestamp == m.timestampEnd)
  {
  }

  /** A chunk is built exactly from at least one entry that compresses and seals. Payload and tag together are the
      nonce and the compressed entries sealed under it and under the chunk id as context; the tag is the last
      16 bytes. */
  lemma BuiltIsSealed(lib: Library, config: ChunkConfig, iv: Iv, entries: seq<TransactionEntry>, key: Digest)
    requires FaithfulCipher(lib)
    ensures
      var compressed := lib.compress(lib.encodePayload(entries));
      var chunk := BuildChunk(lib, config, iv, entries, key);
      && (chunk.Ok? <==>
            entries != [] && compressed.Some? && lib.seal(key, iv, BE64(config.chunkId), compressed.value).Some?)
      && (chunk.Ok? ==>
            && chunk.value.encryptedPayload + chunk.value.authTag
               == iv + lib.seal(key, iv, BE64(config.chunkId), compressed.value).value
            && |chunk.value.authTag| == 16)
  {
    var compressed := lib.compress(lib.encodePayload(entries));
    if compressed.Some? {
      var sealed := lib.seal(key, iv, BE64(config.chunkId), compressed.value);
      if sealed.Some? { SplitJoins(iv, sealed.value); }
    }
  }

  /** What a built chunk tolerates: its entries come back whatever the clear metadata says beside the chunk
      id, and only if the root in the chunk is the root of what was put in. */
  lemma AlteredChunkOpensIff(lib: Library, config: ChunkConfig, iv: Iv, entries: seq<TransactionEntry>, key: Digest,
                             metadata: ChunkMetadata, root: bytes)
    requires Faithful(lib)
    requires BuildChunk(lib, config, iv, entries, key).Ok? && metadata.chunkId == config.chunkId
    ensures
      var altered := BuildChunk(lib, config, iv, entries, key).value.(metadata := Some(metadata), merkleRoot := root);
      DecryptChunk(lib, altered, key) == if root == EntriesRoot(lib, entries) then Ok(entries) else Err(RootMismatch)
  {
    var chunk := BuildChunk(lib, config, iv, entries, key).value;
    var plaintext := lib.encodePayload(entries);
    var compressed := lib.compress(plaintext).value;
    assert chunk.encryptedPayload[..IV_LENGTH] == iv;
    assert chunk.encryptedPayload[IV_LENGTH..] + chunk.authTag
        == lib.seal(key, iv, BE64(config.chunkId), compressed).value;
    assert lib.decompress(compressed) == Some(plaintext);
    assert lib.decodePayload(plaintext) == Some(entries);
  }

  /** Opening a built chunk with its key gives the entries back, in order. */
  lemma DecryptBuild(lib: Library, config: ChunkConfig, iv: Iv, entries: seq<TransactionEntry>, key: Digest)
    requires Faithful(lib)
    requires BuildChunk(lib, config, iv, entries, key).Ok?
    ensures DecryptChunk(lib, BuildChunk(lib, config, iv, entries, key).value, key) == Ok(entries)
  {
    var chunk := BuildChunk(lib, config, iv, entries, key).value;
    AlteredChunkOpensIff(lib, config, iv, entries, key, chunk.metadata.value, chunk.merkleRoot);
    assert chunk.(metadata := Some(chunk.metadata.value), merkleRoot := chunk.merkleRoot) == chunk;
  }

  // ----- The root commits to the transactions -----

  const NO_ENTRY := TransactionEntry(0, 0, 0, [], 0, "", "", "", [])

  function Decoded(lib: Library, b: bytes): TransactionEntry
  {
    var e := lib.decodeEntry(b);
    if e.Some? then e.value else NO_ENTRY
  }

  lemma SameEncodingsSameEntries(lib: Library, a: seq<TransactionEntry>, b: seq<TransactionEntry>)
    requires FaithfulCodec(lib)
    requires multiset(Map(lib.encodeEntry, a)) == multiset(Map(lib.encodeEntry, b))
    ensures multiset(a) == multiset(b)
  {
    var decode := (e: bytes) => Decoded(lib, e);
    MapKeepsPermutation(decode, Map(lib.encodeEntry, a), Map(lib.encodeEntry, b));
    assert Map(decode, Map(lib.encodeEntry, a)) == a;
    assert Map(decode, Map(lib.encodeEntry, b)) == b;
  }

  ghost predicate RootsComparable(lib: Library, a: seq<TransactionEntry>, b: seq<TransactionEntry>)
  {
    var (x, y) := (Map(lib.encodeEntry, a), Map(lib.encodeEntry, b));
    && a != [] && b != []
    && NoLeafLooksLikeAPair(x) && NoLeafLooksLikeAPair(y)
    && CollisionFree(lib.hash, HashedStrings(lib.hash, x) + HashedStrings(lib.hash, y))
  }

  lemma EqualRootsEqualEntries(lib: Library, a: seq<TransactionEntry>, b: seq<TransactionEntry>)
    requires FaithfulCodec(lib) && RootsComparable(lib, a, b)
    requires EntriesRoot(lib, a) == EntriesRoot(lib, b)
    ensures multiset(a) == multiset(b)
  {
    MerkleBinding(lib.hash, Map(lib.encodeEntry, a), Map(lib.encodeEntry, b));
    SameEncodingsSameEntries(lib, a, b);
  }

  lemma OpenedRoot(lib: Library, chunk: LogChunk, key: Digest)
    requires DecryptChunk(lib, chunk, key).Ok?
    ensures EntriesRoot(lib, DecryptChunk(lib, chunk, key).value) == chunk.merkleRoot
  {
  }

  /** The root in a manifest or in a chunk commits to the transactions: whatever keys, nonces and
      ciphertexts were used, two chunks that open and carry one root hold the same transactions. */
  lemma RootCommitsToEntries(lib: Library, c: LogChunk, keyC: Digest, d: LogChunk, keyD: Digest)
    requires FaithfulCodec(lib)
    requires DecryptChunk(lib, c, keyC).Ok? && DecryptChunk(lib, d, keyD).Ok?
    requires RootsComparable(lib, DecryptChunk(lib, c, keyC).value, DecryptChunk(lib, d, keyD).value)
    requires c.merkleRoot == d.merkleRoot
    ensures multiset(DecryptChunk(lib, c, keyC).value) == multiset(DecryptChunk(lib, d, keyD).value)
  {
    OpenedRoot(lib, c, keyC);
    OpenedRoot(lib, d, keyD);
    EqualRootsEqualEntries(lib, DecryptChunk(lib, c, keyC).value, DecryptChunk(lib, d, keyD).value);
  }
}
