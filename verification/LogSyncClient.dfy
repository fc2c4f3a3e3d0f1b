/** The sync and restore flows as they run (ignite-pay-core/src/log_sync.rs, src/ipfs.rs:38-77). */
module LogSyncClient {
  import opened Bytes
  import opened MerkleProof
  import opened StableSort
  import opened AuditProto
  import opened LogChunks
  import opened LogSync
  import opened LogSyncRuns

  class MockIpfsClient {
    var store: Store
    var counter: u64

    function View(): Ipfs
      reads this
    {
      Ipfs(store, counter)
    }

    constructor ()
      ensures View() == Ipfs(map[], 0) && Consistent(View())
    {
      store, counter := map[], 0;
    }

    method UploadData(data: bytes) returns (cid: Result<bytes>)
      modifies this
      ensures (cid, View()) == Upload(old(View()), data)
    {
      if counter == U64_MAX {
        return Err(CidCounterOverflow);
      }
      counter := counter + 1;
      store := store[Cid(counter) := data];
      cid := Ok(Cid(counter));
    }

    method DownloadData(cid: bytes) returns (data: Result<bytes>)
      ensures data == Download(store, cid)
    {
      if cid in store {
        data := Ok(store[cid]);
      } else {
        data := Err(CidNotFound);
      }
    }
  }

  /** The manifest that the caller passes by mutable reference. */
  class ManifestRecord {
    const userDid: string
    const prevManifestHash: bytes
    var entries: seq<ChunkManifestEntry>

    function View(): ChunkManifest
      reads this
    {
      ChunkManifest(userDid, entries, prevManifestHash)
    }

    constructor (userDid: string)
      ensures View() == ChunkManifest(userDid, [], [])
    {
      this.userDid, entries, prevManifestHash := userDid, [], [];
    }

    method AddManifestEntry(lib: Library, chunkId: u64, cid: bytes, chunk: LogChunk)
      modifies this
      ensures View() == WithEntry(lib, old(View()), chunkId, cid, chunk)
    {
      var hash := ChunkHash(lib, chunk);
      entries := entries + [ChunkManifestEntry(chunkId, cid, hash, chunk.merkleRoot)];
    }
  }

  /** Build, upload the chunk, extend the manifest, upload the manifest. */
  method SyncChunkToIpfs(lib: Library, ipfs: MockIpfsClient, job: Job, key: Digest, manifest: ManifestRecord)
    returns (r: Result<Cids>)
    modifies ipfs, manifest
    ensures (r, Client(ipfs.View(), manifest.View()))
         == Sync(lib, key, old(Client(ipfs.View(), manifest.View())), job)
  {
    var chunk := BuildChunk(lib, job.config, job.iv, job.entries, key);
    if chunk.Err? {
      return Err(chunk.error);
    }
    var cid := ipfs.UploadData(lib.encodeChunk(chunk.value));
    if cid.Err? {
      return Err(cid.error);
    }
    manifest.AddManifestEntry(lib, job.config.chunkId, cid.value, chunk.value);
    var manifestCid := ipfs.UploadData(lib.encodeManifest(manifest.View()));
    if manifestCid.Err? {
      return Err(manifestCid.error);
    }
    r := Ok(Cids(cid.value, manifestCid.value));
  }

  /** One manifest entry: download, check the link, check the hash, decrypt. */
  method RestoreEntry(lib: Library, ipfs: MockIpfsClient, decrypt: Decrypter, prevHash: Option<bytes>,
                      entry: ChunkManifestEntry) returns (r: Result<seq<TransactionEntry>>)
    ensures r == OpenEntry(lib, ipfs.store, decrypt, prevHash, entry)
  {
    var data :- ipfs.DownloadData(entry.cid);
    var chunk :- OrFail(lib.decodeChunk(data), DecodingFailed);
    if prevHash.Some? {
      var metadata :- OrFail(chunk.metadata, MissingMetadata);
      if metadata.prevChunkHash != prevHash.value {
        return Err(HashChainBroken);
      }
    }
    if ChunkHash(lib, chunk) != entry.chunkHash {
      return Err(ChunkHashMismatch);
    }
    r := decrypt(chunk);
  }

  /** The loop over the sorted manifest entries. */
  method RestoreAll(lib: Library, ipfs: MockIpfsClient, decrypt: Decrypter, sortedEntries: seq<ChunkManifestEntry>)
    returns (r: Result<seq<TransactionEntry>>)
    ensures r == OpenAll(lib, ipfs.store, decrypt, sortedEntries)
  {
    ghost var attempts := Attempts(lib, ipfs.store, decrypt, sortedEntries);
    var allEntries: seq<TransactionEntry> := [];
    var prevHash: Option<bytes> := None;
    var i := 0;
    while i < |sortedEntries|
      invariant 0 <= i <= |sortedEntries|
      invariant prevHash == Prev(sortedEntries, i)
      invariant Gather(attempts[..i]) == Ok(allEntries)
    {
      var decrypted := RestoreEntry(lib, ipfs, decrypt, prevHash, sortedEntries[i]);
      GatherStep(attempts, i);
      if decrypted.Err? {
        return Err(decrypted.error);
      }
      allEntries := allEntries + decrypted.value;
      prevHash := Some(sortedEntries[i].chunkHash);
      i := i + 1;
    }
    assert attempts[..i] == attempts;
    r := Ok(allEntries);
  }

  method RestoreFromIpfs(lib: Library, ipfs: MockIpfsClient, manifestCid: bytes, key: Digest)
    returns (r: Result<seq<TransactionEntry>>)
    ensures r == Restore(lib, ipfs.store, key, manifestCid)
  {
    var data :- ipfs.DownloadData(manifestCid);
    var manifest :- OrFail(lib.decodeManifest(data), DecodingFailed);
    var sortedEntries := SortBy(manifest.entries, ChunkIdOf);
    var allEntries :- RestoreAll(lib, ipfs, DecryptWith(lib, key), sortedEntries);
    r := Ok(SortBy(allEntries, NonceOf));
  }
}
