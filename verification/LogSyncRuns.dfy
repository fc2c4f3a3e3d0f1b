/** Whole histories of syncs among other uploads, and the round trip through IPFS (ignite-pay-core/src/log_sync.rs:83-160). */
module LogSyncRuns {
  import opened Bytes
  import opened MerkleProof
  import opened Permutations
  import opened StableSort
  import opened AuditProto
  import opened LogChunks
  import opened LogSync

  /** One call of the sync flow. */
  datatype Job = Job(config: ChunkConfig, iv: Iv, entries: seq<TransactionEntry>)

  /** The two things a sync changes. */
  datatype Client = Client(ipfs: Ipfs, manifest: ChunkManifest)

  /** The identifiers of the chunk and of the manifest. */
  datatype Cids = Cids(chunk: bytes, manifest: bytes)

  function WithEntry(lib: Library, m: ChunkManifest, chunkId: u64, cid: bytes, chunk: LogChunk): ChunkManifest
  {
    m.(entries := m.entries + [ChunkManifestEntry(chunkId, cid, ChunkHash(lib, chunk), chunk.merkleRoot)])
  }

  function StoreManifest(lib: Library, c: Client, chunkCid: bytes): (Result<Cids>, Client)
  {
    var (cid, ipfs) := Upload(c.ipfs, lib.encodeManifest(c.manifest));
    (if cid.Ok? then Ok(Cids(chunkCid, cid.value)) else Err(cid.error), c.(ipfs := ipfs))
  }

  function StoreChunk(lib: Library, c: Client, chunkId: u64, chunk: LogChunk): (Result<Cids>, Client)
  {
    var (cid, ipfs) := Upload(c.ipfs, lib.encodeChunk(chunk));
    if cid.Err? then (Err(cid.error), c.(ipfs := ipfs))
    else StoreManifest(lib, Client(ipfs, WithEntry(lib, c.manifest, chunkId, cid.value, chunk)), cid.value)
  }

  function Built(lib: Library, key: Digest, job: Job): Result<LogChunk>
  {
    BuildChunk(lib, job.config, job.iv, job.entries, key)
  }

  /** A sync that fails keeps what it had already stored. */
  function Sync(lib: Library, key: Digest, c: Client, job: Job): (Result<Cids>, Client)
  {
    var chunk := Built(lib, key, job);
    if chunk.Err? then (Err(chunk.error), c) else StoreChunk(lib, c, job.config.chunkId, chunk.value)
  }

  /** A sync, or an upload by anybody else to the same IPFS node. */
  datatype Action = SyncJob(job: Job) | OtherUpload(data: bytes)

  function Act(lib: Library, key: Digest, c: Client, a: Action): Client
  {
    match a
    case SyncJob(job) => Sync(lib, key, c, job).1
    case OtherUpload(data) => c.(ipfs := Upload(c.ipfs, data).1)
  }

  function History(lib: Library, key: Digest, c: Client, acts: seq<Action>): Client
  {
    if acts == [] then c
    else Act(lib, key, History(lib, key, c, acts[..|acts| - 1]), acts[|acts| - 1])
  }

  /** Action `i` of a history is a sync that succeeds. */
  predicate Succeeds(lib: Library, key: Digest, c: Client, acts: seq<Action>, i: nat)
    requires i < |acts|
  {
    acts[i].SyncJob? && Sync(lib, key, History(lib, key, c, acts[..i]), acts[i].job).0.Ok?
  }

  /** The identifiers that a successful sync answered. */
  function Answer(lib: Library, key: Digest, c: Client, acts: seq<Action>, i: nat): Cids
    requires i < |acts| && Succeeds(lib, key, c, acts, i)
  {
    Sync(lib, key, History(lib, key, c, acts[..i]), acts[i].job).0.value
  }

  /** The jobs of the successful syncs, in order. */
  function Done(lib: Library, key: Digest, c: Client, acts: seq<Action>): seq<Job>
  {
    if acts == [] then []
    else
      var n := |acts| - 1;
      Done(lib, key, c, acts[..n]) + (if Succeeds(lib, key, c, acts, n) then [acts[n].job] else [])
  }

  ghost predicate Fresh(c: Client)
  {
    Consistent(c.ipfs) && c.manifest.entries == []
  }

  // ----- What a history leaves behind -----

  /** Whatever its outcome, a sync loses nothing that was stored. */
  lemma SyncOnlyAdds(lib: Library, key: Digest, c: Client, job: Job)
    requires Consistent(c.ipfs)
    ensures var after := Sync(lib, key, c, job).1;
            Consistent(after.ipfs) && Extends(c.ipfs.store, after.ipfs.store)
  {
    var chunk := Built(lib, key, job);
    if chunk.Ok? {
      var (cid, ipfs) := Upload(c.ipfs, lib.encodeChunk(chunk.value));
      UploadOnlyAdds(c.ipfs, lib.encodeChunk(chunk.value));
      if cid.Ok? {
        var manifest := WithEntry(lib, c.manifest, job.config.chunkId, cid.value, chunk.value);
        UploadOnlyAdds(ipfs, lib.encodeManifest(manifest));
      }
    }
  }

  /** The manifest entry describes the chunk of the job, and the store holds that chunk. */
  ghost predicate Recorded(lib: Library, key: Digest, store: Store, e: ChunkManifestEntry, job: Job)
  {
    var chunk := Built(lib, key, job);
    && chunk.Ok?
    && e.chunkId == job.config.chunkId
    && e.chunkHash == ChunkHash(lib, chunk.value)
    && e.merkleRoot == chunk.value.merkleRoot
    && Download(store, e.cid) == Ok(lib.encodeChunk(chunk.value))
  }

  ghost predicate AllRecorded(lib: Library, key: Digest, c: Client, jobs: seq<Job>)
  {
    && Consistent(c.ipfs)
    && |c.manifest.entries| == |jobs|
    && forall i :: 0 <= i < |jobs| ==> Recorded(lib, key, c.ipfs.store, c.manifest.entries[i], jobs[i])
  }

  lemma SyncEffect(lib: Library, key: Digest, c: Client, job: Job)
    requires Consistent(c.ipfs) && Sync(lib, key, c, job).0.Ok?
    ensures
      var (r, after) := Sync(lib, key, c, job);
      && Consistent(after.ipfs) && Extends(c.ipfs.store, after.ipfs.store)
      && |after.manifest.entries| == |c.manifest.entries| + 1
      && after.manifest.entries[..|c.manifest.entries|] == c.manifest.entries
      && Recorded(lib, key, after.ipfs.store, after.manifest.entries[|c.manifest.entries|], job)
      && after.manifest.entries[|c.manifest.entries|].cid == r.value.chunk
      && Download(after.ipfs.store, r.value.manifest) == Ok(lib.encodeManifest(after.manifest))
  {
    var chunk := Built(lib, key, job).value;
    var (cid, ipfs) := Upload(c.ipfs, lib.encodeChunk(chunk));
    var manifest := WithEntry(lib, c.manifest, job.config.chunkId, cid.value, chunk);
    UploadOnlyAdds(c.ipfs, lib.encodeChunk(chunk));
    UploadOnlyAdds(ipfs, lib.encodeManifest(manifest));
  }

  lemma StillRecorded(lib: Library, key: Digest, a: Store, b: Store, e: ChunkManifestEntry, job: Job)
    requires Extends(a, b) && Recorded(lib, key, a, e, job)
    ensures Recorded(lib, key, b, e, job)
  {
  }

  /** What was recorded stays so while the manifest is kept and the store only grows. */
  lemma AllStillRecorded(lib: Library, key: Digest, c: Client, ipfs: Ipfs, jobs: seq<Job>)
    requires AllRecorded(lib, key, c, jobs)
    requires Consistent(ipfs) && Extends(c.ipfs.store, ipfs.store)
    ensures AllRecorded(lib, key, c.(ipfs := ipfs), jobs)
  {
    forall i | 0 <= i < |jobs| ensures Recorded(lib, key, ipfs.store, c.manifest.entries[i], jobs[i]) {
      StillRecorded(lib, key, c.ipfs.store, ipfs.store, c.manifest.entries[i], jobs[i]);
    }
  }

  lemma OneMoreRecorded(lib: Library, key: Digest, c: Client, manifest: ChunkManifest, jobs: seq<Job>, job: Job)
    requires AllRecorded(lib, key, c, jobs) && |manifest.entries| == |jobs| + 1
    requires manifest.entries[..|jobs|] == c.manifest.entries
    requires Recorded(lib, key, c.ipfs.store, manifest.entries[|jobs|], job)
    ensures AllRecorded(lib, key, c.(manifest := manifest), jobs + [job])
  {
    forall i | 0 <= i < |jobs| + 1 ensures Recorded(lib, key, c.ipfs.store, manifest.entries[i], (jobs + [job])[i]) {
      if i < |jobs| { assert manifest.entries[i] == c.manifest.entries[i]; }
    }
  }

  lemma SyncRecorded(lib: Library, key: Digest, c: Client, jobs: seq<Job>, job: Job)
    requires AllRecorded(lib, key, c, jobs) && Sync(lib, key, c, job).0.Ok?
    ensures AllRecorded(lib, key, Sync(lib, key, c, job).1, jobs + [job])
  {
    var after := Sync(lib, key, c, job).1;
    SyncEffect(lib, key, c, job);
    AllStillRecorded(lib, key, c, after.ipfs, jobs);
    OneMoreRecorded(lib, key, c.(ipfs := after.ipfs), after.manifest, jobs, job);
    assert after == c.(ipfs := after.ipfs).(manifest := after.manifest);
  }

  /** After the counter has run out nothing succeeds any more; before that the manifest is in order. */
  ghost predicate InOrder(lib: Library, key: Digest, c: Client, jobs: seq<Job>)
  {
    Consistent(c.ipfs) && (c.ipfs.counter < U64_MAX ==> AllRecorded(lib, key, c, jobs))
  }

  lemma FailedSync(lib: Library, key: Digest, c: Client, job: Job)
    requires Sync(lib, key, c, job).0.Err?
    ensures Sync(lib, key, c, job).1 == c || Sync(lib, key, c, job).1.ipfs.counter == U64_MAX
  {
  }

  /** A sync that succeeds leaves the client in order, even at the end of the counter. */
  lemma InOrderAfterSuccess(lib: Library, key: Digest, c: Client, jobs: seq<Job>, job: Job)
    requires InOrder(lib, key, c, jobs) && Sync(lib, key, c, job).0.Ok?
    ensures AllRecorded(lib, key, Sync(lib, key, c, job).1, jobs + [job])
  {
    SyncRecorded(lib, key, c, jobs, job);
  }

  lemma InOrderAfterUpload(lib: Library, key: Digest, c: Client, jobs: seq<Job>, data: bytes)
    requires InOrder(lib, key, c, jobs)
    ensures InOrder(lib, key, Act(lib, key, c, OtherUpload(data)), jobs)
  {
    UploadOnlyAdds(c.ipfs, data);
    if c.ipfs.counter < U64_MAX { AllStillRecorded(lib, key, c, Upload(c.ipfs, data).1, jobs); }
  }

  lemma {:induction false} HistoryInOrder(lib: Library, key: Digest, c: Client, acts: seq<Action>)
    requires Fresh(c)
    ensures InOrder(lib, key, History(lib, key, c, acts), Done(lib, key, c, acts))
  {
    if acts != [] {
      var n := |acts| - 1;
      var (before, jobs) := (History(lib, key, c, acts[..n]), Done(lib, key, c, acts[..n]));
      HistoryInOrder(lib, key, c, acts[..n]);
      match acts[n]
      case OtherUpload(data) => InOrderAfterUpload(lib, key, before, jobs, data);
      case SyncJob(job) =>
        SyncOnlyAdds(lib, key, before, job);
        if Succeeds(lib, key, c, acts, n) {
          InOrderAfterSuccess(lib, key, before, jobs, job);
        } else {
          FailedSync(lib, key, before, job);
        }
    }
  }

  /** After a successful sync, the `i`th action of a history, the manifest describes exactly the jobs of the
      successful syncs so far, the store holds their chunks, the last of them under the chunk identifier that the
      sync answered, and it holds that manifest under the other. */
  lemma SuccessRecorded(lib: Library, key: Digest, c: Client, acts: seq<Action>, i: nat)
    requires Fresh(c) && i < |acts| && Succeeds(lib, key, c, acts, i)
    ensures
      var after := History(lib, key, c, acts[..i + 1]);
      && AllRecorded(lib, key, after, Done(lib, key, c, acts[..i + 1]))
      && after.manifest.entries != []
      && after.manifest.entries[|after.manifest.entries| - 1].cid == Answer(lib, key, c, acts, i).chunk
      && Download(after.ipfs.store, Answer(lib, key, c, acts, i).manifest) == Ok(lib.encodeManifest(after.manifest))
  {
    assert acts[..i + 1][..i] == acts[..i];
    HistoryInOrder(lib, key, c, acts[..i]);
    var before := History(lib, key, c, acts[..i]);
    assert Succeeds(lib, key, c, acts[..i + 1], i);
    InOrderAfterSuccess(lib, key, before, Done(lib, key, c, acts[..i]), acts[i].job);
    SyncEffect(lib, key, before, acts[i].job);
  }

  // ----- The round trip -----

  function EntriesOf(job: Job): seq<TransactionEntry> { job.entries }

  function JobId(job: Job): int { job.config.chunkId }

  /** Job `i` names the chunk of the job before it. */
  ghost predicate NamesPrevious(lib: Library, key: Digest, jobs: seq<Job>, i: nat)
    requires i < |jobs|
  {
    i > 0 ==>
      var before := Built(lib, key, jobs[i - 1]);
      before.Ok? && jobs[i].config.prevChunkHash == ChunkHash(lib, before.value)
  }

  ghost predicate ProperChain(lib: Library, key: Digest, jobs: seq<Job>)
  {
    forall i :: 0 <= i < |jobs| ==> NamesPrevious(lib, key, jobs, i)
  }

  /** A recorded entry opens to the entries of its job, unless its link is wrong. */
  lemma RecordedOpens(lib: Library, key: Digest, c: Client, jobs: seq<Job>, i: nat)
    requires Faithful(lib) && AllRecorded(lib, key, c, jobs) && i < |jobs|
    ensures Attempts(lib, c.ipfs.store, DecryptWith(lib, key), c.manifest.entries)[i]
         == if NamesPrevious(lib, key, jobs, i) then Ok(jobs[i].entries) else Err(HashChainBroken)
  {
    var job, e := jobs[i], c.manifest.entries[i];
    assert Recorded(lib, key, c.ipfs.store, e, job);
    var chunk := Built(lib, key, job).value;
    assert DownloadChunk(lib, c.ipfs.store, e.cid) == Ok(chunk);
    BuiltMetadata(lib, job.config, job.iv, job.entries, key);
    DecryptBuild(lib, job.config, job.iv, job.entries, key);
    if i > 0 {
      assert Recorded(lib, key, c.ipfs.store, c.manifest.entries[i - 1], jobs[i - 1]);
    }
  }

  /** Gathering results that are right or broken. */
  lemma {:induction false} GatherRightOrBroken<T>(rs: seq<Result<seq<T>>>, parts: seq<seq<T>>, e: LogError)
    requires |rs| == |parts|
    requires forall i :: 0 <= i < |rs| ==> rs[i] == Ok(parts[i]) || rs[i] == Err(e)
    ensures Gather(rs) == if forall i :: 0 <= i < |rs| ==> rs[i].Ok? then Ok(Concat(parts)) else Err(e)
  {
    if rs != [] {
      var n := |rs| - 1;
      GatherRightOrBroken(rs[..n], parts[..n], e);
      ConcatSnoc(parts[..n], parts[n]);
      assert parts == parts[..n] + [parts[n]];
      assert (forall i :: 0 <= i < |rs| ==> rs[i].Ok?) <==>
             (forall i :: 0 <= i < n ==> rs[..n][i].Ok?) && rs[n].Ok?;
    }
  }

  lemma OpenAllRecorded(lib: Library, key: Digest, c: Client, jobs: seq<Job>)
    requires Faithful(lib) && AllRecorded(lib, key, c, jobs)
    ensures OpenAll(lib, c.ipfs.store, DecryptWith(lib, key), c.manifest.entries)
         == if ProperChain(lib, key, jobs) then Ok(Concat(Map(EntriesOf, jobs))) else Err(HashChainBroken)
  {
    var rs := Attempts(lib, c.ipfs.store, DecryptWith(lib, key), c.manifest.entries);
    forall i | 0 <= i < |jobs|
      ensures rs[i] == if NamesPrevious(lib, key, jobs, i) then Ok(Map(EntriesOf, jobs)[i]) else Err(HashChainBroken)
    {
      RecordedOpens(lib, key, c, jobs, i);
    }
    GatherRightOrBroken(rs, Map(EntriesOf, jobs), HashChainBroken);
  }

  /** The chunks in the order in which they are restored: by chunk id, then by age. */
  function InIdOrder(jobs: seq<Job>): seq<Job>
  {
    SortBy(jobs, JobId)
  }

  lemma SortedRecorded(lib: Library, key: Digest, c: Client, jobs: seq<Job>)
    requires AllRecorded(lib, key, c, jobs)
    ensures AllRecorded(lib, key, c.(manifest := c.manifest.(entries := SortBy(c.manifest.entries, ChunkIdOf))),
                        InIdOrder(jobs))
  {
    var rel := (e: ChunkManifestEntry, job: Job) => Recorded(lib, key, c.ipfs.store, e, job);
    SortTogether(c.manifest.entries, ChunkIdOf, jobs, JobId, rel);
    var (es, js) := (SortBy(c.manifest.entries, ChunkIdOf), InIdOrder(jobs));
    forall i | 0 <= i < |js| ensures Recorded(lib, key, c.ipfs.store, es[i], js[i]) {
      assert rel(es[i], js[i]);
    }
  }

  lemma CollectHistory(lib: Library, key: Digest, c: Client, jobs: seq<Job>, cid: bytes)
    requires Faithful(lib) && AllRecorded(lib, key, c, jobs)
    requires Download(c.ipfs.store, cid) == Ok(lib.encodeManifest(c.manifest))
    ensures Collect(lib, c.ipfs.store, DecryptWith(lib, key), cid)
         == if ProperChain(lib, key, InIdOrder(jobs)) then Ok(Concat(Map(EntriesOf, InIdOrder(jobs))))
            else Err(HashChainBroken)
  {
    assert DownloadManifest(lib, c.ipfs.store, cid) == Ok(c.manifest);
    CollectIsOpenAll(lib, DecryptWith(lib, key), c.ipfs.store, cid);
    SortedRecorded(lib, key, c, jobs);
    OpenAllRecorded(lib, key, c.(manifest := c.manifest.(entries := SortBy(c.manifest.entries, ChunkIdOf))),
                    InIdOrder(jobs));
  }

  lemma ActOnlyAdds(lib: Library, key: Digest, c: Client, a: Action)
    requires Consistent(c.ipfs)
    ensures Consistent(Act(lib, key, c, a).ipfs) && Extends(c.ipfs.store, Act(lib, key, c, a).ipfs.store)
  {
    match a
    case SyncJob(job) => SyncOnlyAdds(lib, key, c, job);
    case OtherUpload(data) => UploadOnlyAdds(c.ipfs, data);
  }

  lemma {:induction false} HistoryOnlyAdds(lib: Library, key: Digest, c: Client, acts: seq<Action>, k: nat)
    requires Consistent(c.ipfs) && k <= |acts|
    ensures Consistent(History(lib, key, c, acts).ipfs)
    ensures Extends(History(lib, key, c, acts[..k]).ipfs.store, History(lib, key, c, acts).ipfs.store)
  {
    if acts == [] {
    } else if k == |acts| {
      assert acts[..k] == acts;
      HistoryOnlyAdds(lib, key, c, acts[..k - 1], k - 1);
      ActOnlyAdds(lib, key, History(lib, key, c, acts[..k - 1]), acts[k - 1]);
    } else {
      var n := |acts| - 1;
      assert acts[..n][..k] == acts[..k];
      HistoryOnlyAdds(lib, key, c, acts[..n], k);
      ActOnlyAdds(lib, key, History(lib, key, c, acts[..n]), acts[n]);
    }
  }

  lemma SyncAnswers(lib: Library, key: Digest, c: Client, job: Job)
    requires Consistent(c.ipfs) && Sync(lib, key, c, job).0.Ok?
    ensures Built(lib, key, job).Ok?
    ensures
      var (r, after) := Sync(lib, key, c, job);
      && Download(after.ipfs.store, r.value.chunk) == Ok(lib.encodeChunk(Built(lib, key, job).value))
      && Download(after.ipfs.store, r.value.manifest) == Ok(lib.encodeManifest(after.manifest))
  {
    SyncEffect(lib, key, c, job);
  }

  lemma DownloadSurvives(a: Store, b: Store, cid: bytes, data: bytes)
    requires Extends(a, b) && Download(a, cid) == Ok(data)
    ensures Download(b, cid) == Ok(data)
  {
  }

  lemma SuccessNext(lib: Library, key: Digest, c: Client, acts: seq<Action>, i: nat)
    requires i < |acts| && Succeeds(lib, key, c, acts, i)
    ensures History(lib, key, c, acts[..i + 1]) == Sync(lib, key, History(lib, key, c, acts[..i]), acts[i].job).1
  {
    assert acts[..i + 1][..i] == acts[..i];
  }

  /** What a successful sync answered can be downloaded for the rest of the history: under the chunk identifier the
      chunk built of its own job, and under the manifest identifier the manifest as it was after that sync. */
  lemma AnswersStayStored(lib: Library, key: Digest, c: Client, acts: seq<Action>, i: nat)
    requires Fresh(c) && i < |acts| && Succeeds(lib, key, c, acts, i)
    ensures Built(lib, key, acts[i].job).Ok?
    ensures
      var (store, answer) := (History(lib, key, c, acts).ipfs.store, Answer(lib, key, c, acts, i));
      && Download(store, answer.chunk) == Ok(lib.encodeChunk(Built(lib, key, acts[i].job).value))
      && Download(store, answer.manifest) == Ok(lib.encodeManifest(History(lib, key, c, acts[..i + 1]).manifest))
  {
    var (after, last) := (History(lib, key, c, acts[..i + 1]), History(lib, key, c, acts));
    var answer := Answer(lib, key, c, acts, i);
    HistoryInOrder(lib, key, c, acts[..i]);
    SyncAnswers(lib, key, History(lib, key, c, acts[..i]), acts[i].job);
    SuccessNext(lib, key, c, acts, i);
    HistoryOnlyAdds(lib, key, c, acts, i + 1);
    DownloadSurvives(after.ipfs.store, last.ipfs.store, answer.chunk, lib.encodeChunk(Built(lib, key, acts[i].job).value));
    DownloadSurvives(after.ipfs.store, last.ipfs.store, answer.manifest, lib.encodeManifest(after.manifest));
  }

  /** Round trip, for every history of syncs, successful or not, among other uploads, and whatever the chunk
      ids: from the manifest of any successful sync, at the end of the history, restoring succeeds exactly
      when, in the order of the chunk ids, every chunk of the successful syncs so far names the hash of the one
      before; it then returns all their transactions sorted by nonce, and fails with a broken chain otherwise. */
  lemma SyncRestore(lib: Library, key: Digest, c: Client, acts: seq<Action>, i: nat)
    requires Faithful(lib) && Fresh(c) && i < |acts| && Succeeds(lib, key, c, acts, i)
    ensures
      var r := Restore(lib, History(lib, key, c, acts).ipfs.store, key, Answer(lib, key, c, acts, i).manifest);
      var jobs := InIdOrder(Done(lib, key, c, acts[..i + 1]));
      r == if ProperChain(lib, key, jobs) then Ok(SortBy(Concat(Map(EntriesOf, jobs)), NonceOf)) else Err(HashChainBroken)
  {
    var (synced, last) := (History(lib, key, c, acts[..i + 1]), History(lib, key, c, acts));
    var jobs := Done(lib, key, c, acts[..i + 1]);
    SuccessRecorded(lib, key, c, acts, i);
    HistoryOnlyAdds(lib, key, c, acts, i + 1);
    AllStillRecorded(lib, key, synced, last.ipfs, jobs);
    CollectHistory(lib, key, synced.(ipfs := last.ipfs), jobs, Answer(lib, key, c, acts, i).manifest);
  }

  /** With chunk ids that do not decrease, the chain is the history itself: if every successful job names the
      chunk of the one before it, restoring returns a permutation of all their transactions in nonce order,
      equal nonces in the order they were logged, and just their concatenation when the nonces were already
      in order. */
  lemma RoundTrip(lib: Library, key: Digest, c: Client, acts: seq<Action>, i: nat)
    requires Faithful(lib) && Fresh(c) && i < |acts| && Succeeds(lib, key, c, acts, i)
    requires SortedBy(Done(lib, key, c, acts[..i + 1]), JobId)
    ensures
      var r := Restore(lib, History(lib, key, c, acts).ipfs.store, key, Answer(lib, key, c, acts, i).manifest);
      var jobs := Done(lib, key, c, acts[..i + 1]);
      var all := Concat(Map(EntriesOf, jobs));
      && (r.Ok? <==> ProperChain(lib, key, jobs))
      && (r.Ok? ==> SortedBy(r.value, NonceOf) && multiset(r.value) == multiset(all))
      && (r.Ok? ==> forall k :: WithKey(r.value, NonceOf, k) == WithKey(all, NonceOf, k))
      && (r.Ok? && SortedBy(all, NonceOf) ==> r.value == all)
  {
    var jobs := Done(lib, key, c, acts[..i + 1]);
    var all := Concat(Map(EntriesOf, jobs));
    SyncRestore(lib, key, c, acts, i);
    SortBySorted(jobs, JobId);
    SortByFacts(all, NonceOf);
    forall k ensures WithKey(SortBy(all, NonceOf), NonceOf, k) == WithKey(all, NonceOf, k) {
      SortByStable(all, NonceOf, k);
    }
    if SortedBy(all, NonceOf) { SortBySorted(all, NonceOf); }
  }

  // ----- Any manifest -----

  lemma OpenAllSurvives(lib: Library, decrypt: Decrypter, a: Store, b: Store, entries: seq<ChunkManifestEntry>)
    requires Extends(a, b) && OpenAll(lib, a, decrypt, entries).Ok?
    ensures OpenAll(lib, b, decrypt, entries) == OpenAll(lib, a, decrypt, entries)
  {
    var (x, y) := (Attempts(lib, a, decrypt, entries), Attempts(lib, b, decrypt, entries));
    GatherIff(x);
    forall i | 0 <= i < |entries| ensures x[i] == y[i] {
      assert x[i].Ok?;
    }
    assert x == y;
  }

  /** What restored once, from whatever manifest, restores to the same transactions after any later actions. */
  lemma OldManifestsStillRestore(lib: Library, key: Digest, c: Client, acts: seq<Action>, k: nat, cid: bytes)
    requires Consistent(c.ipfs) && k <= |acts|
    requires Restore(lib, History(lib, key, c, acts[..k]).ipfs.store, key, cid).Ok?
    ensures Restore(lib, History(lib, key, c, acts).ipfs.store, key, cid)
         == Restore(lib, History(lib, key, c, acts[..k]).ipfs.store, key, cid)
  {
    var (a, b) := (History(lib, key, c, acts[..k]).ipfs.store, History(lib, key, c, acts).ipfs.store);
    HistoryOnlyAdds(lib, key, c, acts, k);
    var decrypt := DecryptWith(lib, key);
    CollectIsOpenAll(lib, decrypt, a, cid);
    CollectIsOpenAll(lib, decrypt, b, cid);
    OpenAllSurvives(lib, decrypt, a, b, RestoreOrder(lib, a, cid));
  }
}
