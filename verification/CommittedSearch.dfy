/** Indexing, committing and querying together: in every reachable state of the commit
    protocol, a query over the version of the table it sees finds exactly the matching rows. */
module CommittedSearch {
  import opened Bytes
  import opened Types
  import opened Tokenizer
  import opened ParquetUtil
  import opened SegmentFormat
  import opened IndexedSegment
  import opened IndexRun
  import opened Verify
  import opened Work
  import opened Plan
  import opened Search
  import opened EndToEnd
  import opened Cas
  import opened CasSafety

  /** The worker commits what an indexing run produced for the batch. */
  ghost predicate Produced(c: Codecs, u: Unicode, job: Job, b: Batch)
  {
    && job.column == b.column && job.segment == SegmentBytes(c, b.segment)
    && job.termStats == b.stats && job.dataFiles == Paths(b.files)
    && BatchSegment(u, b.files, b.inv, b.index, b.segment)
    && Encodable(c, b.segment) && Bounds(b.segment, b.stats.minTerm, b.stats.maxTerm)
  }

  /** What a worker commits after an indexing run over its files. */
  function JobOf(batchId: string, column: string, files: seq<ParquetFile>, built: BuiltSegment): Job
  {
    Job(batchId, column, built.bytes, TermStats(built.minTerm, built.maxTerm, built.termCount), Paths(files))
  }

  /** The outcome of an indexing run over a batch within the bounds is what the commit
      protocol and the query need of a job. */
  lemma IndexedIsProduced(c: Codecs, u: Unicode, batchId: string, column: string, files: seq<ParquetFile>, built: BuiltSegment)
    requires IndexOf(c, u, files, built) && BatchFits(c, files, built)
    ensures exists b :: Produced(c, u, JobOf(batchId, column, files, built), b) && b.files == files
  {
    hide BatchSegment, Encodable, BatchFits, Bounds, SegmentBytes, IndexOf;
    IndexIsReadable(c, u, files, built);
    var inv, index, s :| BatchSegment(u, files, inv, index, s) && Encodes(c, s, built) && Encodable(c, s);
    var b := Batch(column, files, inv, index, s, "", "", JobOf(batchId, column, files, built).termStats);
    assert Produced(c, u, JobOf(batchId, column, files, built), b);
  }

  /** Every worker's job comes from an indexing run. The jobs of the queried column read the
      files of its lake, and those with different batch ids read different files; jobs of
      other columns may share files with them, and read other text. */
  ghost predicate Indexing(c: Codecs, u: Unicode, lake: Lake, column: string, s: System, jobs: map<nat, Batch>)
  {
    && (forall id | id in s.workers :: id in jobs && Produced(c, u, s.workers[id].job, jobs[id]))
    && (forall id | id in s.workers && jobs[id].column == column :: FilesIn(lake, jobs[id].files) && DistinctPaths(jobs[id].files))
    && (forall a, b, p | a in s.workers && b in s.workers && jobs[a].column == column && jobs[b].column == column
                         && s.workers[a].job.batchId != s.workers[b].job.batchId && FileOf(jobs[a].files, p) ::
          !FileOf(jobs[b].files, p))
  }

  /** The batch that commit `k` published, with the paths its worker chose. */
  function CommittedBatch(s: System, jobs: map<nat, Batch>, k: nat): Batch
    requires Authored(s, jobs, k)
  {
    var w := s.workers[s.log[k].worker];
    jobs[s.log[k].worker].(manifestPath := w.manifestPath.value, segmentPath := w.segmentPath.value)
  }

  ghost predicate Authored(s: System, jobs: map<nat, Batch>, k: nat)
  {
    && k < |s.log| && s.log[k].worker in s.workers && s.log[k].worker in jobs
    && s.workers[s.log[k].worker].manifestPath.Some? && s.workers[s.log[k].worker].segmentPath.Some?
  }

  function CommittedBatches(s: System, jobs: map<nat, Batch>, n: nat): (batches: seq<Batch>)
    requires forall k | 0 <= k < n :: Authored(s, jobs, k)
    ensures |batches| == n
  {
    seq(n, k requires 0 <= k < n => CommittedBatch(s, jobs, k))
  }

  /** Reading the manifest lists that a metadata file names. */
  function LoadLists(objects: map<string, Object>, paths: seq<string>): (lists: seq<ManifestList>)
    requires forall i | 0 <= i < |paths| :: HasList(objects, paths[i])
    ensures |lists| == |paths|
  {
    seq(|paths|, i requires 0 <= i < |paths| && HasList(objects, paths[i]) => objects[paths[i]].list)
  }

  function Manifests(objects: map<string, Object>): map<string, Manifest>
  {
    map p | p in objects && objects[p].ManifestFile? :: objects[p].manifest
  }

  function Blobs(objects: map<string, Object>): map<string, seq<byte>>
  {
    map p | p in objects && objects[p].SegmentFile? :: objects[p].content
  }

  lemma CommitIsPublished(c: Codecs, u: Unicode, lake: Lake, column: string, s: System, jobs: map<nat, Batch>, k: nat)
    requires Inv(s) && Indexing(c, u, lake, column, s, jobs) && k < |s.log|
    ensures Authored(s, jobs, k) && HasList(s.store.objects, s.log[k].listPath)
    ensures var b := CommittedBatch(s, jobs, k);
      && Published(c, u, s.store.objects[s.log[k].listPath].list, Manifests(s.store.objects), Blobs(s.store.objects), b)
      && (b.column == column ==> FilesIn(lake, b.files) && DistinctPaths(b.files))
  {
    hide Closed, OwnManifests, CacheOk, History, Commits, PhaseOk, ChargesOk, BatchSegment, Encodable, Bounds, FilesIn,
         DistinctPaths, SegmentBytes, FileOf;
    ListOfCommit(s, k);
    var id := s.log[k].worker;
    assert WorkerOk(s, id, s.workers[id]);
    assert Produced(c, u, s.workers[id].job, jobs[id]);
  }

  /** Any version of the table is a snapshot of indexed batches, in the sense the query's
      correctness needs. */
  lemma VersionIsSnapshot(c: Codecs, u: Unicode, lake: Lake, column: string, s: System, jobs: map<nat, Batch>, n: nat)
    requires Inv(s) && Indexing(c, u, lake, column, s, jobs) && n <= |s.log|
    ensures forall k | 0 <= k < n :: Authored(s, jobs, k) && HasList(s.store.objects, s.log[k].listPath)
    ensures var paths := ListPaths(s.log[..n]);
      SnapshotOf(c, u, lake, LoadLists(s.store.objects, paths), Manifests(s.store.objects), Blobs(s.store.objects), column,
                 CommittedBatches(s, jobs, n))
  {
    hide Closed, CacheOk, History, WorkerOk, Published, FilesIn, DistinctPaths, FileOf, Indexing, Manifests, Blobs;
    forall k | 0 <= k < n ensures Authored(s, jobs, k) && HasList(s.store.objects, s.log[k].listPath) {
      CommitIsPublished(c, u, lake, column, s, jobs, k);
    }
    var lists := LoadLists(s.store.objects, ListPaths(s.log[..n]));
    var batches := CommittedBatches(s, jobs, n);
    forall k | 0 <= k < n
      ensures Published(c, u, lists[k], Manifests(s.store.objects), Blobs(s.store.objects), batches[k])
      ensures batches[k].column == column ==> FilesIn(lake, batches[k].files) && DistinctPaths(batches[k].files)
    {
      CommitIsPublished(c, u, lake, column, s, jobs, k);
    }
    forall i, j | 0 <= i < j < n ensures batches[i].manifestPath != batches[j].manifestPath {
      assert s.log[i].worker != s.log[j].worker;
    }
    forall i, j, p | 0 <= i < j < n && batches[i].column == column && batches[j].column == column && FileOf(batches[i].files, p)
      ensures !FileOf(batches[j].files, p)
    {
      assert BatchAt(s, i) != BatchAt(s, j);
      DifferentFiles(c, u, lake, column, s, jobs, s.log[i].worker, s.log[j].worker, p);
    }
  }

  lemma DifferentFiles(c: Codecs, u: Unicode, lake: Lake, column: string, s: System, jobs: map<nat, Batch>, a: nat, b: nat, p: string)
    requires Indexing(c, u, lake, column, s, jobs) && a in s.workers && b in s.workers
    requires jobs[a].column == column && jobs[b].column == column
    requires s.workers[a].job.batchId != s.workers[b].job.batchId && FileOf(jobs[a].files, p)
    ensures !FileOf(jobs[b].files, p)
  {
    hide FileOf, Produced, FilesIn, DistinctPaths;
  }

  /** Workers keep their jobs, so an indexing system stays one. */
  lemma IndexingStable(c: Codecs, u: Unicode, lake: Lake, column: string, s: System, t: System, jobs: map<nat, Batch>)
    requires Grows(s, t) && Indexing(c, u, lake, column, s, jobs)
    ensures Indexing(c, u, lake, column, t, jobs)
  {
    hide Produced, FileOf, FilesIn, DistinctPaths;
    forall a, b, p | a in t.workers && b in t.workers && jobs[a].column == column && jobs[b].column == column
                     && t.workers[a].job.batchId != t.workers[b].job.batchId && FileOf(jobs[a].files, p)
      ensures !FileOf(jobs[b].files, p)
    {
      assert s.workers[a].job == t.workers[a].job && s.workers[b].job == t.workers[b].job;
    }
  }

  /** The path of a metadata version: read from `current.json`, or held by the cache. */
  ghost predicate Seen(s: System, pointer: string)
  {
    pointer == s.store.current || (s.cache.entry.Some? && pointer == s.cache.entry.value.path)
  }

  /** A query that sees a metadata path at any moment `n` of any run in which every worker
      commits what it indexed, and reads the objects at any later moment `m`: every read
      succeeds, and the rows kept of the row groups it reads answer the query exactly for that
      version of the table. */
  method QueryTable(c: Codecs, u: Unicode, ilike: Ilike, lake: Lake, isLarge: string -> bool, pointer: string,
                    objects: map<string, Object>, column: string, queryTerms: seq<string>, op: Operator,
                    ghost run: seq<System>, ghost n: nat, ghost m: nat, ghost jobs: map<nat, Batch>)
    returns (units: Option<seq<Unit>>)
    requires c.Lawful() && ilike.Lawful() && queryTerms != []
    requires Run(run) && n <= m < |run| && Indexing(c, u, lake, column, run[0], jobs)
    requires Seen(run[n], pointer) && objects == run[m].store.objects
    ensures units.Some? && HasMetadata(objects, pointer)
    ensures var paths := objects[pointer].metadata.manifestLists;
      && (forall i | 0 <= i < |paths| :: HasList(objects, paths[i]))
      && Answers(u, lake, isLarge, LoadLists(objects, paths), Manifests(objects), column, queryTerms, op,
                 AllKept(u, ilike, units.value, queryTerms, op))
      && forall x | x in units.value && x.mode.ByScan? ::
           InSnapshot(LoadLists(objects, paths), x.path)
           && !Indexed(ColumnEntries(LoadLists(objects, paths), column), Manifests(objects), x.path)
    ensures var lists := LoadLists(objects, objects[pointer].metadata.manifestLists);
      ScansExactly(u, ilike, lake, isLarge, lists, Manifests(objects), column, queryTerms, op, units.value)
  {
    hide Run, Closed, OwnManifests, History, Commits, WorkerOk, Matches, Scannable, InSnapshot, Indexed, ColumnEntries,
         NoDuplicates, SnapshotOf, Indexing, Answers, AllKept, ScansExactly;
    ghost var s := run[m];
    RunKeeps(run, n);
    RunKeeps(run, m);
    RunGrows(run, 0, m);
    RunGrows(run, n, m);
    IndexingStable(c, u, lake, column, run[0], s, jobs);
    ghost var version := SeenVersion(run[n], s, pointer);
    VersionIsSnapshot(c, u, lake, column, s, jobs, version);
    if !HasMetadata(objects, pointer) { return None; }
    var lists := LoadLists(objects, objects[pointer].metadata.manifestLists);
    var found, work := QuerySnapshot(c, u, ilike, lake, isLarge, lists, Manifests(objects), Blobs(objects), column, queryTerms,
                                     op, CommittedBatches(s, jobs, version));
    units := Some(work);
  }

  /** A path once seen names a version of the table for the rest of the run. */
  lemma SeenVersion(s: System, t: System, pointer: string) returns (k: nat)
    requires Inv(s) && Inv(t) && Grows(s, t) && Seen(s, pointer)
    ensures k <= |t.log| && HasMetadata(t.store.objects, pointer)
    ensures t.store.objects[pointer].metadata.manifestLists == ListPaths(t.log[..k])
  {
    hide Closed, OwnManifests, Commits, WorkerOk;
    k := if pointer == s.store.current then |s.log| else s.cache.entry.value.version;
    VersionStable(s, t, k);
    assert VersionOk(s, k);
  }
}
