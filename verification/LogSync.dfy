/** Storing the log on IPFS and restoring it (ignite-pay-core/src/log_sync.rs, src/ipfs.rs). */
module LogSync {
  import opened Bytes
  import opened MerkleProof
  import opened Permutations
  import opened AuditMerkle
  import opened StableSort
  import opened AuditProto
  import opened LogChunks

  // ----- The in-memory IPFS client -----

  /** "bafyreiMock". */
  const CID_PREFIX: bytes := [98, 97, 102, 121, 114, 101, 105, 77, 111, 99, 107]

  type Store = map<bytes, bytes>

  datatype Ipfs = Ipfs(store: Store, counter: u64)

  function Cid(n: nat): bytes
  {
    CID_PREFIX + Decimal(n)
  }

  lemma CidInjective(m: nat, n: nat)
    requires Cid(m) == Cid(n)
    ensures m == n
  {
    assert Cid(m)[|CID_PREFIX|..] == Decimal(m) && Cid(n)[|CID_PREFIX|..] == Decimal(n);
    DecimalInjective(m, n);
  }

  /** A fresh identifier, and the data stored under it. */
  function Upload(ipfs: Ipfs, data: bytes): (Result<bytes>, Ipfs)
  {
    if ipfs.counter == U64_MAX then (Err(CidCounterOverflow), ipfs)
    else
      var n := ipfs.counter + 1;
      (Ok(Cid(n)), Ipfs(ipfs.store[Cid(n) := data], n))
  }

  function Download(store: Store, cid: bytes): Result<bytes>
  {
    if cid in store then Ok(store[cid]) else Err(CidNotFound)
  }

  /** Every identifier in the store was handed out by the counter. */
  ghost predicate Consistent(ipfs: Ipfs)
  {
    forall cid :: cid in ipfs.store ==> exists n :: 0 < n <= ipfs.counter && cid == Cid(n)
  }

  /** Nothing that could be downloaded from `a` is lost or changed in `b`. */
  ghost predicate Extends(a: Store, b: Store)
  {
    forall cid :: cid in a ==> cid in b && b[cid] == a[cid]
  }

  lemma UploadOnlyAdds(ipfs: Ipfs, data: bytes)
    requires Consistent(ipfs)
    ensures var (r, after) := Upload(ipfs, data);
            && Consistent(after)
            && Extends(ipfs.store, after.store)
            && (r.Ok? ==> r.value !in ipfs.store && Download(after.store, r.value) == Ok(data))
  {
    var (r, after) := Upload(ipfs, data);
    if r.Ok? {
      var n := ipfs.counter + 1;
      if Cid(n) in ipfs.store {
        var m :| 0 < m <= ipfs.counter && Cid(n) == Cid(m);
        CidInjective(n, m);
      }
      forall cid | cid in after.store
        ensures exists k :: 0 < k <= after.counter && cid == Cid(k)
      {
        if cid in ipfs.store {
          var m :| 0 < m <= ipfs.counter && cid == Cid(m);
        } else {
          assert cid == Cid(n);
        }
      }
    }
  }

  // ----- Restoring -----

  function ChunkIdOf(e: ChunkManifestEntry): int { e.chunkId }

  function NonceOf(e: TransactionEntry): int { e.nonce }

  function DownloadChunk(lib: Library, store: Store, cid: bytes): Result<LogChunk>
  {
    var data :- Download(store, cid);
    OrFail(lib.decodeChunk(data), DecodingFailed)
  }

  function DownloadManifest(lib: Library, store: Store, cid: bytes): Result<ChunkManifest>
  {
    var data :- Download(store, cid);
    OrFail(lib.decodeManifest(data), DecodingFailed)
  }

  /** Whether the chunk names `prev` as its predecessor; the first chunk is not asked. */
  function CheckLink(chunk: LogChunk, prev: Option<bytes>): Result<bool>
  {
    if prev.None? then Ok(true)
    else
      var metadata :- OrFail(chunk.metadata, MissingMetadata);
      if metadata.prevChunkHash == prev.value then Ok(true) else Err(HashChainBroken)
  }

  /** How a chunk is opened once its place in the chain is checked. */
  type Decrypter = LogChunk -> Result<seq<TransactionEntry>>

  function DecryptWith(lib: Library, key: Digest): Decrypter
  {
    (chunk: LogChunk) => DecryptChunk(lib, chunk, key)
  }

  /** The transactions behind one manifest entry, after all its checks. */
  function OpenEntry(lib: Library, store: Store, decrypt: Decrypter, prev: Option<bytes>, entry: ChunkManifestEntry)
    : Result<seq<TransactionEntry>>
  {
    var chunk :- DownloadChunk(lib, store, entry.cid);
    var linked :- CheckLink(chunk, prev);
    if ChunkHash(lib, chunk) != entry.chunkHash then Err(ChunkHashMismatch) else decrypt(chunk)
  }

  /** The hash that the chunk of entry `i` must name. */
  function Prev(entries: seq<ChunkManifestEntry>, i: nat): Option<bytes>
    requires i <= |entries|
  {
    if i == 0 then None else Some(entries[i - 1].chunkHash)
  }

  /** What each entry gives by itself. */
  function Attempts(lib: Library, store: Store, decrypt: Decrypter, entries: seq<ChunkManifestEntry>)
    : (rs: seq<Result<seq<TransactionEntry>>>)
    ensures |rs| == |entries|
    ensures forall i {:trigger rs[i]} :: 0 <= i < |rs| ==>
                                           rs[i] == OpenEntry(lib, store, decrypt, Prev(entries, i), entries[i])
  {
    seq(|entries|, i requires 0 <= i < |entries| =>
      OpenEntry(lib, store, decrypt, Prev(entries, i), entries[i]))
  }

  /** All values in order, or the first error. */
  function Gather<T>(rs: seq<Result<seq<T>>>): Result<seq<T>>
  {
    if rs == [] then Ok([])
    else
      var n := |rs| - 1;
      var before :- Gather(rs[..n]);
      var last :- rs[n];
      Ok(before + last)
  }

  function OpenAll(lib: Library, store: Store, decrypt: Decrypter, entries: seq<ChunkManifestEntry>)
    : Result<seq<TransactionEntry>>
  {
    Gather(Attempts(lib, store, decrypt, entries))
  }

  /** The transactions behind a manifest, chunk by chunk in the order of the chunk ids. */
  function Collect(lib: Library, store: Store, decrypt: Decrypter, manifestCid: bytes): Result<seq<TransactionEntry>>
  {
    var manifest :- DownloadManifest(lib, store, manifestCid);
    OpenAll(lib, store, decrypt, SortBy(manifest.entries, ChunkIdOf))
  }

  function Restore(lib: Library, store: Store, key: Digest, manifestCid: bytes): Result<seq<TransactionEntry>>
  {
    var all :- Collect(lib, store, DecryptWith(lib, key), manifestCid);
    Ok(SortBy(all, NonceOf))
  }

  /** Gathering succeeds exactly when every part does. */
  lemma {:induction false} GatherIff<T>(rs: seq<Result<seq<T>>>)
    ensures Gather(rs).Ok? <==> forall i :: 0 <= i < |rs| ==> rs[i].Ok?
  {
    if rs != [] { GatherIff(rs[..|rs| - 1]); }
  }

  /** The first error is final; otherwise the values are joined. */
  lemma {:induction false} GatherAppend<T>(a: seq<Result<seq<T>>>, b: seq<Result<seq<T>>>)
    ensures Gather(a).Err? ==> Gather(a + b) == Gather(a)
    ensures Gather(a).Ok? && Gather(b).Err? ==> Gather(a + b) == Gather(b)
    ensures Gather(a).Ok? && Gather(b).Ok? ==> Gather(a + b) == Ok(Gather(a).value + Gather(b).value)
  {
    if b == [] {
      assert a + b == a;
      if Gather(a).Ok? { assert Gather(a).value + [] == Gather(a).value; }
    } else {
      var n := |b| - 1;
      GatherAppend(a, b[..n]);
      assert (a + b)[..|a| + n] == a + b[..n];
      if Gather(a).Ok? && Gather(b).Ok? {
        assert Gather(a).value + (Gather(b[..n]).value + b[n].value)
            == (Gather(a).value + Gather(b[..n]).value) + b[n].value;
      }
    }
  }

  /** One more part, from the left. */
  lemma GatherStep<T>(rs: seq<Result<seq<T>>>, i: nat)
    requires i < |rs| && Gather(rs[..i]).Ok?
    ensures rs[i].Ok? ==> Gather(rs[..i + 1]) == Ok(Gather(rs[..i]).value + rs[i].value)
    ensures rs[i].Err? ==> Gather(rs) == Err(rs[i].error)
  {
    assert rs[..i + 1][..i] == rs[..i];
    assert rs == rs[..i + 1] + rs[i + 1..];
    GatherAppend(rs[..i + 1], rs[i + 1..]);
  }

  // ----- Hash-chain binding -----

  /** What is hashed when `entries` are restored: the downloaded chunks, encoded. */
  ghost function HashedChunks(lib: Library, store: Store, entries: seq<ChunkManifestEntry>): set<bytes>
  {
    set i | 0 <= i < |entries| && DownloadChunk(lib, store, entries[i].cid).Ok? ::
      lib.encodeChunk(DownloadChunk(lib, store, entries[i].cid).value)
  }

  /** The last entries of both manifests name one chunk hash. */
  predicate SameLastHash(a: seq<ChunkManifestEntry>, b: seq<ChunkManifestEntry>)
  {
    a != [] && b != [] ==> a[|a| - 1].chunkHash == b[|b| - 1].chunkHash
  }

  lemma EqualHashEqualChunk(lib: Library, c: LogChunk, d: LogChunk, strings: set<bytes>)
    requires FaithfulCodec(lib) && CollisionFree(lib.hash, strings)
    requires lib.encodeChunk(c) in strings && lib.encodeChunk(d) in strings
    requires ChunkHash(lib, c) == ChunkHash(lib, d)
    ensures c == d
  {
    assert lib.decodeChunk(lib.encodeChunk(c)) == Some(c) && lib.decodeChunk(lib.encodeChunk(d)) == Some(d);
  }

  /** The chunk of entry `i` hashes to the recorded value and names its predecessor's hash. */
  ghost predicate Linked(lib: Library, store: Store, entries: seq<ChunkManifestEntry>, i: nat)
    requires i < |entries|
  {
    var c := DownloadChunk(lib, store, entries[i].cid);
    && c.Ok?
    && lib.encodeChunk(c.value) in HashedChunks(lib, store, entries)
    && ChunkHash(lib, c.value) == entries[i].chunkHash
    && CheckLink(c.value, Prev(entries, i)).Ok?
  }

  /** An entry opens exactly when it is linked and its chunk can be decrypted. */
  lemma OpenEntryIff(lib: Library, store: Store, decrypt: Decrypter, entries: seq<ChunkManifestEntry>, i: nat)
    requires i < |entries|
    ensures Attempts(lib, store, decrypt, entries)[i].Ok? <==>
              && Linked(lib, store, entries, i)
              && decrypt(DownloadChunk(lib, store, entries[i].cid).value).Ok?
    ensures Linked(lib, store, entries, i) ==>
              Attempts(lib, store, decrypt, entries)[i] == decrypt(DownloadChunk(lib, store, entries[i].cid).value)
  {
    var c := DownloadChunk(lib, store, entries[i].cid);
    if c.Ok? { assert lib.encodeChunk(c.value) in HashedChunks(lib, store, entries); }
  }

  ghost predicate AllLinked(lib: Library, store: Store, entries: seq<ChunkManifestEntry>)
  {
    forall i :: 0 <= i < |entries| ==> Linked(lib, store, entries, i)
  }

  /** Every entry of the manifest, in its order, has its chunk and the chain is intact. */
  lemma RestoredIsLinked(lib: Library, store: Store, decrypt: Decrypter, entries: seq<ChunkManifestEntry>)
    requires OpenAll(lib, store, decrypt, entries).Ok?
    ensures AllLinked(lib, store, entries)
  {
    GatherIff(Attempts(lib, store, decrypt, entries));
    forall i | 0 <= i < |entries| ensures Linked(lib, store, entries, i) {
      OpenEntryIff(lib, store, decrypt, entries, i);
    }
  }

  /** One last hash, and no collision among the chunks hashed on either side. */
  ghost predicate Comparable(lib: Library, s: Store, a: seq<ChunkManifestEntry>, t: Store, b: seq<ChunkManifestEntry>)
  {
    && SameLastHash(a, b)
    && CollisionFree(lib.hash, HashedChunks(lib, s, a) + HashedChunks(lib, t, b))
  }

  /** Entry `i` of `a` and entry `j` of `b` lead to one chunk. */
  predicate SameChunkAt(lib: Library, s: Store, a: seq<ChunkManifestEntry>, i: nat,
                        t: Store, b: seq<ChunkManifestEntry>, j: nat)
    requires i < |a| && j < |b|
  {
    DownloadChunk(lib, s, a[i].cid) == DownloadChunk(lib, t, b[j].cid)
  }

  /** Equal recorded hashes lead to one chunk. */
  lemma EqualHashSameChunk(lib: Library, s: Store, a: seq<ChunkManifestEntry>, i: nat,
                           t: Store, b: seq<ChunkManifestEntry>, j: nat)
    requires FaithfulCodec(lib) && Comparable(lib, s, a, t, b)
    requires i < |a| && j < |b| && Linked(lib, s, a, i) && Linked(lib, t, b, j)
    requires a[i].chunkHash == b[j].chunkHash
    ensures SameChunkAt(lib, s, a, i, t, b, j)
  {
    EqualHashEqualChunk(lib, DownloadChunk(lib, s, a[i].cid).value, DownloadChunk(lib, t, b[j].cid).value,
                        HashedChunks(lib, s, a) + HashedChunks(lib, t, b));
  }

  /** One chunk in both chains names one predecessor. */
  lemma SameChunkSamePrevious(lib: Library, s: Store, a: seq<ChunkManifestEntry>, i: nat,
                              t: Store, b: seq<ChunkManifestEntry>, j: nat)
    requires 0 < i < |a| && 0 < j < |b| && Linked(lib, s, a, i) && Linked(lib, t, b, j)
    requires SameChunkAt(lib, s, a, i, t, b, j)
    ensures a[i - 1].chunkHash == b[j - 1].chunkHash
  {
  }

  /** Counting from the end, both chains hold the same chunks. */
  lemma {:induction false} ChunksMatch(lib: Library, s: Store, a: seq<ChunkManifestEntry>,
                                       t: Store, b: seq<ChunkManifestEntry>, k: nat)
    requires FaithfulCodec(lib) && Comparable(lib, s, a, t, b)
    requires AllLinked(lib, s, a) && AllLinked(lib, t, b)
    requires k < |a| && k < |b|
    ensures SameChunkAt(lib, s, a, |a| - 1 - k, t, b, |b| - 1 - k)
  {
    var i, j := |a| - 1 - k, |b| - 1 - k;
    if k > 0 {
      ChunksMatch(lib, s, a, t, b, k - 1);
      SameChunkSamePrevious(lib, s, a, i + 1, t, b, j + 1);
    }
    EqualHashSameChunk(lib, s, a, i, t, b, j);
  }

  /** The chunks of `a` are the last chunks of `b`. */
  ghost predicate SameTail(lib: Library, s: Store, a: seq<ChunkManifestEntry>, t: Store, b: seq<ChunkManifestEntry>)
  {
    && |a| <= |b|
    && forall i, j :: 0 <= i < |a| && j == |b| - |a| + i ==> SameChunkAt(lib, s, a, i, t, b, j)
  }

  lemma TailsMatch(lib: Library, s: Store, a: seq<ChunkManifestEntry>, t: Store, b: seq<ChunkManifestEntry>)
    requires FaithfulCodec(lib) && Comparable(lib, s, a, t, b) && |a| <= |b|
    requires AllLinked(lib, s, a) && AllLinked(lib, t, b)
    ensures SameTail(lib, s, a, t, b)
  {
    forall i, j | 0 <= i < |a| && j == |b| - |a| + i ensures SameChunkAt(lib, s, a, i, t, b, j) {
      ChunksMatch(lib, s, a, t, b, |a| - 1 - i);
    }
  }

  /** Two linked entries with one chunk give one result. */
  lemma SameChunkSameResult(lib: Library, decrypt: Decrypter, s: Store, a: seq<ChunkManifestEntry>, i: nat,
                            t: Store, b: seq<ChunkManifestEntry>, j: nat)
    requires i < |a| && j < |b| && Linked(lib, s, a, i) && Linked(lib, t, b, j)
    requires SameChunkAt(lib, s, a, i, t, b, j)
    ensures Attempts(lib, s, decrypt, a)[i] == Attempts(lib, t, decrypt, b)[j]
  {
  }

  lemma SameTailSameResults(lib: Library, decrypt: Decrypter, s: Store, a: seq<ChunkManifestEntry>,
                            t: Store, b: seq<ChunkManifestEntry>)
    requires SameTail(lib, s, a, t, b) && AllLinked(lib, s, a) && AllLinked(lib, t, b)
    ensures Attempts(lib, t, decrypt, b)[|b| - |a|..] == Attempts(lib, s, decrypt, a)
  {
    var (x, y, d) := (Attempts(lib, s, decrypt, a), Attempts(lib, t, decrypt, b), |b| - |a|);
    forall i | 0 <= i < |a| ensures x[i] == y[d + i] {
      assert Linked(lib, s, a, i) && Linked(lib, t, b, d + i);
      assert SameChunkAt(lib, s, a, i, t, b, d + i);
      SameChunkSameResult(lib, decrypt, s, a, i, t, b, d + i);
    }
    IsTail(x, y, d);
  }

  lemma GatherSuffix<T>(x: seq<Result<seq<T>>>, y: seq<Result<seq<T>>>) returns (older: seq<T>)
    requires |x| <= |y| && y[|y| - |x|..] == x
    requires Gather(x).Ok? && Gather(y).Ok?
    ensures Gather(y).value == older + Gather(x).value
    ensures |x| == |y| ==> older == []
  {
    var d := |y| - |x|;
    assert y == y[..d] + x;
    GatherAppend(y[..d], x);
    older := Gather(y[..d]).value;
  }

  lemma TailIsSuffix(lib: Library, decrypt: Decrypter, s: Store, a: seq<ChunkManifestEntry>,
                     t: Store, b: seq<ChunkManifestEntry>) returns (older: seq<TransactionEntry>)
    requires SameTail(lib, s, a, t, b) && AllLinked(lib, s, a) && AllLinked(lib, t, b)
    requires OpenAll(lib, s, decrypt, a).Ok? && OpenAll(lib, t, decrypt, b).Ok?
    ensures OpenAll(lib, t, decrypt, b).value == older + OpenAll(lib, s, decrypt, a).value
    ensures |a| == |b| ==> older == []
  {
    SameTailSameResults(lib, decrypt, s, a, t, b);
    older := GatherSuffix(Attempts(lib, s, decrypt, a), Attempts(lib, t, decrypt, b));
  }

  /** Two chains with one last hash agree as far as the shorter one goes: what the shorter one
      restores is the end of what the longer one restores. */
  lemma ShorterChainIsSuffix(lib: Library, decrypt: Decrypter, s: Store, a: seq<ChunkManifestEntry>,
                             t: Store, b: seq<ChunkManifestEntry>) returns (older: seq<TransactionEntry>)
    requires FaithfulCodec(lib) && Comparable(lib, s, a, t, b) && |a| <= |b|
    requires OpenAll(lib, s, decrypt, a).Ok? && OpenAll(lib, t, decrypt, b).Ok?
    ensures OpenAll(lib, t, decrypt, b).value == older + OpenAll(lib, s, decrypt, a).value
    ensures |a| == |b| ==> older == []
  {
    RestoredIsLinked(lib, s, decrypt, a);
    RestoredIsLinked(lib, t, decrypt, b);
    TailsMatch(lib, s, a, t, b);
    older := TailIsSuffix(lib, decrypt, s, a, t, b);
  }

  /** The manifest entries in the order in which they are restored. */
  function RestoreOrder(lib: Library, store: Store, cid: bytes): seq<ChunkManifestEntry>
    requires DownloadManifest(lib, store, cid).Ok?
  {
    SortBy(DownloadManifest(lib, store, cid).value.entries, ChunkIdOf)
  }

  ghost predicate SameRestoreChain(lib: Library, s: Store, cidA: bytes, t: Store, cidB: bytes)
  {
    && DownloadManifest(lib, s, cidA).Ok? && DownloadManifest(lib, t, cidB).Ok?
    && |RestoreOrder(lib, s, cidA)| == |RestoreOrder(lib, t, cidB)|
    && Comparable(lib, s, RestoreOrder(lib, s, cidA), t, RestoreOrder(lib, t, cidB))
  }

  lemma CollectIsOpenAll(lib: Library, decrypt: Decrypter, store: Store, cid: bytes)
    requires DownloadManifest(lib, store, cid).Ok?
    ensures Collect(lib, store, decrypt, cid) == OpenAll(lib, store, decrypt, RestoreOrder(lib, store, cid))
  {
  }

  lemma EqualChainsCollectEqually(lib: Library, decrypt: Decrypter, s: Store, a: seq<ChunkManifestEntry>,
                                  t: Store, b: seq<ChunkManifestEntry>)
    requires FaithfulCodec(lib) && Comparable(lib, s, a, t, b) && |a| == |b|
    requires OpenAll(lib, s, decrypt, a).Ok? && OpenAll(lib, t, decrypt, b).Ok?
    ensures OpenAll(lib, s, decrypt, a) == OpenAll(lib, t, decrypt, b)
  {
    var older := ShorterChainIsSuffix(lib, decrypt, s, a, t, b);
    assert older + OpenAll(lib, s, decrypt, a).value == OpenAll(lib, s, decrypt, a).value;
  }

  /** Binding: two successful restores, from whatever stores and manifests, with one key, the same
      number of chunks and the same last chunk hash return the same transactions. */
  lemma HashChainBinding(lib: Library, key: Digest, s: Store, cidA: bytes, t: Store, cidB: bytes)
    requires FaithfulCodec(lib) && SameRestoreChain(lib, s, cidA, t, cidB)
    requires Restore(lib, s, key, cidA).Ok? && Restore(lib, t, key, cidB).Ok?
    ensures Restore(lib, s, key, cidA) == Restore(lib, t, key, cidB)
  {
    var decrypt := DecryptWith(lib, key);
    CollectIsOpenAll(lib, decrypt, s, cidA);
    CollectIsOpenAll(lib, decrypt, t, cidB);
    EqualChainsCollectEqually(lib, decrypt, s, RestoreOrder(lib, s, cidA), t, RestoreOrder(lib, t, cidB));
  }

  /** The number of chunks has to be compared as well: the first chunk's predecessor is never checked,
      so entries that restore still restore, with the same last hash, after the oldest is dropped. */
  lemma OldestChunkCanBeDropped(lib: Library, store: Store, decrypt: Decrypter, entries: seq<ChunkManifestEntry>)
    requires entries != [] && OpenAll(lib, store, decrypt, entries).Ok?
    ensures OpenAll(lib, store, decrypt, entries[1..]).Ok?
    ensures SameLastHash(entries, entries[1..])
  {
    var rest := entries[1..];
    var (x, y) := (Attempts(lib, store, decrypt, entries), Attempts(lib, store, decrypt, rest));
    GatherIff(x);
    forall i | 0 <= i < |rest| ensures y[i].Ok? {
      assert x[i + 1].Ok? && rest[i] == entries[i + 1];
      assert i > 0 ==> Prev(rest, i) == Prev(entries, i + 1);
    }
    GatherIff(y);
  }
}
