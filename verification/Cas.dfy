/** The commit protocol on `current.json`: many indexing workers over one object store,
    interleaved one store operation at a time, with a crash possible at any point. Every
    object but the pointer is written once under a fresh name; the pointer is replaced by
    a conditional PUT that compares its ETag (the If-Match precondition of section 13.1.1
    of RFC 9110). */
module Cas {
  import opened Bytes
  import opened Types
  import opened Plan

  const MAX_RETRIES: nat := 5

  datatype ColumnStatus = Active | Backfilling | Dropped

  datatype IndexedColumn = IndexedColumn(name: string, status: ColumnStatus)

  datatype Metadata = Metadata(indexedColumns: seq<IndexedColumn>, manifestLists: seq<string>)

  datatype Object =
    | MetadataFile(metadata: Metadata)
    | ManifestListFile(list: ManifestList)
    | ManifestFile(manifest: Manifest)
    | SegmentFile(content: seq<byte>)

  /** The object store: the immutable objects by path, the metadata path in `current.json`,
      and the ETag of `current.json`, which no two of its versions share. */
  datatype Store = Store(objects: map<string, Object>, current: string, etag: nat)

  predicate HasMetadata(objects: map<string, Object>, path: string) { path in objects && objects[path].MetadataFile? }

  predicate HasList(objects: map<string, Object>, path: string) { path in objects && objects[path].ManifestListFile? }

  /** What one worker is asked to commit: the outcome of indexing one batch of files. */
  datatype Job = Job(batchId: string, column: string, segment: seq<byte>, termStats: TermStats, dataFiles: seq<string>)

  function ManifestOf(job: Job, segmentPath: string): Manifest
  {
    Manifest(job.column, [SegmentInfo(segmentPath, job.dataFiles)])
  }

  function ListOf(job: Job, manifestPath: string): ManifestList
  {
    ManifestList(job.batchId, job.dataFiles, [ManifestEntry(manifestPath, job.column, job.termStats)])
  }

  datatype WorkerError = NotFound | ColumnMissing | ColumnDropped | TooManyConflicts

  /** The next store operation of a worker. `i` is the manifest list it reads next in a
      duplicate check. */
  datatype Phase =
    | Start
    | ReadMetadata
    | CheckDuplicate(i: nat)
    | PutSegment
    | PutManifest
    | PutManifestList
    | PutMetadata
    | PutCurrent
    | Reread
    | RereadMetadata
    | RecheckDuplicate(i: nat)
    | Done
    | Failed(error: WorkerError)
    | Crashed

  /** A worker's local variables. `conflicts` counts the loop's attempts; `charges` records,
      for each conflict, the commit that caused it. */
  datatype Worker = Worker(
    job: Job, phase: Phase, etag: nat, pointer: string, latest: Metadata,
    segmentPath: Option<string>, manifestPath: Option<string>, listPath: Option<string>, metadataPath: string,
    conflicts: nat, charges: seq<nat>)

  predicate Finished(w: Worker) { w.phase.Done? || w.phase.Failed? || w.phase.Crashed? }

  /** The first column of this name is at `i`. */
  ghost predicate FirstNamed(columns: seq<IndexedColumn>, name: string, i: int)
  {
    0 <= i < |columns| && columns[i].name == name && forall j | 0 <= j < i :: columns[j].name != name
  }

  function FindColumn(columns: seq<IndexedColumn>, name: string): (c: Option<IndexedColumn>)
    ensures c.None? <==> forall x | x in columns :: x.name != name
    ensures c.Some? ==> exists i :: FirstNamed(columns, name, i) && columns[i] == c.value
  {
    if columns == [] then None
    else if columns[0].name == name then
      assert FirstNamed(columns, name, 0);
      Some(columns[0])
    else
      var c := FindColumn(columns[1..], name);
      assert c.Some? ==> exists i :: FirstNamed(columns, name, i) && columns[i] == c.value by {
        if c.Some? {
          var i :| FirstNamed(columns[1..], name, i) && columns[1..][i] == c.value;
          assert FirstNamed(columns, name, i + 1);
        }
      }
      c
  }

  function Fail(w: Worker, e: WorkerError): Worker { w.(phase := Failed(e)) }

  /** Reads the metadata behind the pointer that was read before; the column is checked on
      the first read only. */
  function AfterMetadata(store: Store, w: Worker): Worker
  {
    if !HasMetadata(store.objects, w.pointer) then Fail(w, NotFound)
    else
      var m := store.objects[w.pointer].metadata;
      if w.phase.RereadMetadata? then w.(latest := m, phase := RecheckDuplicate(0))
      else
        match FindColumn(m.indexedColumns, w.job.column)
        case None => Fail(w, ColumnMissing)
        case Some(column) =>
          if column.status.Dropped? then Fail(w, ColumnDropped) else w.(latest := m, phase := CheckDuplicate(0))
  }

  /** One round of `is_batch_duplicate`. */
  function AfterCheck(store: Store, w: Worker, i: nat, next: Phase, clear: Phase): Worker
  {
    var lists := w.latest.manifestLists;
    if i >= |lists| then w.(phase := clear)
    else if !HasList(store.objects, lists[i]) then Fail(w, NotFound)
    else if store.objects[lists[i]].list.batchId == w.job.batchId then w.(phase := Done)
    else w.(phase := next)
  }

  function Put(store: Store, name: string, o: Object): Store
  {
    store.(objects := store.objects[name := o])
  }

  /** One operation of a worker. `name` is the UUID-based name used if it writes a file. */
  function WorkerStep(store: Store, w: Worker, name: string): (Store, Worker)
    requires !Finished(w)
    requires w.phase.PutManifest? ==> w.segmentPath.Some?
    requires w.phase.PutManifestList? ==> w.manifestPath.Some?
    requires w.phase.PutMetadata? ==> w.listPath.Some?
  {
    match w.phase
    case Start => (store, w.(pointer := store.current, etag := store.etag, phase := ReadMetadata))
    case ReadMetadata => (store, AfterMetadata(store, w))
    case CheckDuplicate(i) => (store, AfterCheck(store, w, i, CheckDuplicate(i + 1), PutSegment))
    case PutSegment =>
      (Put(store, name, SegmentFile(w.job.segment)), w.(segmentPath := Some(name), phase := PutManifest))
    case PutManifest =>
      (Put(store, name, ManifestFile(ManifestOf(w.job, w.segmentPath.value))),
       w.(manifestPath := Some(name), phase := PutManifestList))
    case PutManifestList =>
      (Put(store, name, ManifestListFile(ListOf(w.job, w.manifestPath.value))),
       w.(listPath := Some(name), phase := PutMetadata))
    case PutMetadata =>
      var m := w.latest.(manifestLists := w.latest.manifestLists + [w.listPath.value]);
      (Put(store, name, MetadataFile(m)), w.(metadataPath := name, phase := PutCurrent))
    case PutCurrent =>
      if w.etag == store.etag then (store.(current := w.metadataPath, etag := store.etag + 1), w.(phase := Done))
      else (store, w.(conflicts := w.conflicts + 1, charges := w.charges + [w.etag], phase := Reread))
    case Reread => (store, w.(pointer := store.current, etag := store.etag, phase := RereadMetadata))
    case RereadMetadata => (store, AfterMetadata(store, w))
    case RecheckDuplicate(i) =>
      var again := if w.conflicts < MAX_RETRIES then PutMetadata else Failed(TooManyConflicts);
      (store, AfterCheck(store, w, i, RecheckDuplicate(i + 1), again))
  }

  /** A successful conditional PUT: who made it, the metadata it published, and the manifest
      list that metadata added. */
  datatype Commit = Commit(worker: nat, metadataPath: string, listPath: string)

  /** What a query server holds for the table: the metadata and the path it came from.
      `version` is the number of commits before the pointer it read. */
  datatype Cached = Cached(path: string, metadata: Metadata, version: nat)

  /** A poll in flight has read the pointer and not yet the metadata. */
  datatype Flight = Flight(path: string, version: nat)

  datatype Cache = Cache(entry: Option<Cached>, flight: Option<Flight>)

  /** The whole system. `origin` is the metadata `current.json` first pointed at and `log` the
      commits since. */
  datatype System = System(store: Store, workers: map<nat, Worker>, cache: Cache, origin: string, log: seq<Commit>)

  /** The metadata path after `k` commits. */
  function VersionPath(s: System, k: nat): string
    requires k <= |s.log|
  {
    if k == 0 then s.origin else s.log[k - 1].metadataPath
  }

  function ListPaths(log: seq<Commit>): (paths: seq<string>)
    ensures |paths| == |log|
  {
    seq(|log|, k requires 0 <= k < |log| => log[k].listPath)
  }

  /** The manifest lists of the metadata at `path`. */
  function SnapshotLists(s: System, path: string): seq<string>
  {
    if HasMetadata(s.store.objects, path) then s.store.objects[path].metadata.manifestLists else []
  }

  /** The current snapshot. */
  function Snapshot(s: System): seq<string> { SnapshotLists(s, s.store.current) }

  predicate FreshWorker(w: Worker)
  {
    w.phase.Start? && w.segmentPath.None? && w.manifestPath.None? && w.listPath.None? && w.conflicts == 0 && w.charges == []
  }

  /** A newly created table: the pointer and one metadata file with no manifest list. */
  ghost predicate Init(s: System)
  {
    && HasMetadata(s.store.objects, s.origin) && s.store.objects == map[s.origin := s.store.objects[s.origin]]
    && s.store.objects[s.origin].metadata.manifestLists == []
    && s.store.current == s.origin && s.store.etag == 0 && s.log == []
    && (forall id | id in s.workers :: FreshWorker(s.workers[id]))
    && s.cache == Cache(None, None)
  }

  ghost predicate CanStep(w: Worker)
  {
    && !Finished(w)
    && (w.phase.PutManifest? ==> w.segmentPath.Some?)
    && (w.phase.PutManifestList? ==> w.manifestPath.Some?)
    && (w.phase.PutMetadata? ==> w.listPath.Some?)
    && (w.phase.PutCurrent? ==> w.listPath.Some?)
  }

  /** Worker `id` performs its next store operation; a new file gets a name never used. */
  ghost predicate WorkerMoves(s: System, t: System, id: nat, name: string)
  {
    && id in s.workers && CanStep(s.workers[id]) && name !in s.store.objects
    && var w := s.workers[id];
       var (store, w') := WorkerStep(s.store, w, name);
       var committed := w.phase.PutCurrent? && w'.phase.Done?;
       t == s.(store := store, workers := s.workers[id := w'],
               log := if committed then s.log + [Commit(id, w.metadataPath, w.listPath.value)] else s.log)
  }

  /** Worker `id` dies, or any of its store operations fails. */
  ghost predicate WorkerCrashes(s: System, t: System, id: nat)
  {
    && id in s.workers && !Finished(s.workers[id])
    && t == s.(workers := s.workers[id := s.workers[id].(phase := Crashed)])
  }

  /** One operation of the polling task: `refresh_one`, or `register_with_store` while no
      entry exists. */
  function PollStep(store: Store, cache: Cache): Cache
  {
    match cache.flight
    case None =>
      if cache.entry.Some? && cache.entry.value.path == store.current then cache
      else cache.(flight := Some(Flight(store.current, store.etag)))
    case Some(f) =>
      if !HasMetadata(store.objects, f.path) then cache.(flight := None)
      else Cache(Some(Cached(f.path, store.objects[f.path].metadata, f.version)), None)
  }

  ghost predicate CacheMoves(s: System, t: System)
  {
    || t == s.(cache := PollStep(s.store, s.cache))
    || t == s.(cache := s.cache.(flight := None))
  }

  ghost predicate Next(s: System, t: System)
  {
    || (exists id, name :: WorkerMoves(s, t, id, name))
    || (exists id :: WorkerCrashes(s, t, id))
    || CacheMoves(s, t)
  }

  /** A run of the system: any interleaving, of any length. */
  ghost predicate Run(run: seq<System>)
  {
    && run != [] && Init(run[0])
    && forall k | 0 <= k < |run| - 1 :: Next(run[k], run[k + 1])
  }

  // --- The duplicate check on its own -------------------------------------------------------

  /** The manifest list at position `i` can be read and belongs to another batch. */
  predicate OtherBatch(objects: map<string, Object>, metadata: Metadata, batchId: string, i: nat)
    requires i < |metadata.manifestLists|
  {
    HasList(objects, metadata.manifestLists[i]) && objects[metadata.manifestLists[i]].list.batchId != batchId
  }

  predicate FirstOfBatch(objects: map<string, Object>, metadata: Metadata, batchId: string, i: nat)
  {
    && i < |metadata.manifestLists| && HasList(objects, metadata.manifestLists[i])
    && objects[metadata.manifestLists[i]].list.batchId == batchId
    && forall j | 0 <= j < i :: OtherBatch(objects, metadata, batchId, j)
  }

  lemma NoneFirst(objects: map<string, Object>, metadata: Metadata, batchId: string, n: nat)
    requires n <= |metadata.manifestLists| && forall j | 0 <= j < n :: OtherBatch(objects, metadata, batchId, j)
    requires n < |metadata.manifestLists| ==> !HasList(objects, metadata.manifestLists[n])
    ensures n < |metadata.manifestLists| ==> !OtherBatch(objects, metadata, batchId, n)
    ensures !exists i: nat :: FirstOfBatch(objects, metadata, batchId, i)
  {
    forall i: nat ensures !FirstOfBatch(objects, metadata, batchId, i) {
      NotFirst(objects, metadata, batchId, n, i);
    }
  }

  lemma NotFirst(objects: map<string, Object>, metadata: Metadata, batchId: string, n: nat, i: nat)
    requires n <= |metadata.manifestLists| && forall j | 0 <= j < n :: OtherBatch(objects, metadata, batchId, j)
    requires n < |metadata.manifestLists| ==> !HasList(objects, metadata.manifestLists[n])
    ensures !FirstOfBatch(objects, metadata, batchId, i)
  {
    assert i < n ==> OtherBatch(objects, metadata, batchId, i);
    assert n < i < |metadata.manifestLists| ==> !OtherBatch(objects, metadata, batchId, n);
  }

  /** Where a worker's duplicate check ends if it runs from list `i` on without interruption. */
  function ChecksFrom(store: Store, w: Worker, i: nat): Worker
    decreases |w.latest.manifestLists| - i
  {
    var w' := AfterCheck(store, w, i, CheckDuplicate(i + 1), PutSegment);
    if i < |w.latest.manifestLists| && w'.phase == CheckDuplicate(i + 1) then ChecksFrom(store, w', i + 1) else w'
  }

  lemma {:induction false} ChecksEnd(store: Store, w: Worker, i: nat)
    requires i <= |w.latest.manifestLists| && forall j | 0 <= j < i :: OtherBatch(store.objects, w.latest, w.job.batchId, j)
    ensures var phase := ChecksFrom(store, w, i).phase;
      && (phase == Done <==> exists k: nat :: FirstOfBatch(store.objects, w.latest, w.job.batchId, k))
      && (phase == PutSegment <==>
            forall k | 0 <= k < |w.latest.manifestLists| :: OtherBatch(store.objects, w.latest, w.job.batchId, k))
      && (phase == Done || phase == PutSegment || phase == Failed(NotFound))
    decreases |w.latest.manifestLists| - i
  {
    var lists := w.latest.manifestLists;
    if i == |lists| || !HasList(store.objects, lists[i]) {
      NoneFirst(store.objects, w.latest, w.job.batchId, i);
    } else if store.objects[lists[i]].list.batchId == w.job.batchId {
      assert FirstOfBatch(store.objects, w.latest, w.job.batchId, i);
      assert !OtherBatch(store.objects, w.latest, w.job.batchId, i);
    } else {
      assert OtherBatch(store.objects, w.latest, w.job.batchId, i);
      ChecksEnd(store, w.(phase := CheckDuplicate(i + 1)), i + 1);
    }
  }

  /** The check one read at a time decides what `is_batch_duplicate` decides: done at the first
      list of the batch, an error at the first that cannot be read, or else go on. */
  lemma RoundsAreTheCheck(store: Store, w: Worker)
    ensures var phase := ChecksFrom(store, w, 0).phase;
      && (phase == Done <==> exists k: nat :: FirstOfBatch(store.objects, w.latest, w.job.batchId, k))
      && (phase == PutSegment <==>
            forall k | 0 <= k < |w.latest.manifestLists| :: OtherBatch(store.objects, w.latest, w.job.batchId, k))
      && (phase == Done || phase == PutSegment || phase == Failed(NotFound))
  {
    ChecksEnd(store, w, 0);
  }

  /** `is_batch_duplicate`: stops at the first list of the batch, or at the first list that
      cannot be read. */
  method IsBatchDuplicate(objects: map<string, Object>, metadata: Metadata, batchId: string) returns (found: Option<bool>)
    ensures found == Some(false) <==> forall i | 0 <= i < |metadata.manifestLists| :: OtherBatch(objects, metadata, batchId, i)
    ensures found == Some(true) <==> exists i: nat :: FirstOfBatch(objects, metadata, batchId, i)
  {
    var lists := metadata.manifestLists;
    for i := 0 to |lists|
      invariant forall j | 0 <= j < i :: OtherBatch(objects, metadata, batchId, j)
    {
      if !HasList(objects, lists[i]) {
        NoneFirst(objects, metadata, batchId, i);
        return None;
      }
      if objects[lists[i]].list.batchId == batchId {
        assert FirstOfBatch(objects, metadata, batchId, i);
        assert !OtherBatch(objects, metadata, batchId, i);
        return Some(true);
      }
    }
    NoneFirst(objects, metadata, batchId, |lists|);
    return Some(false);
  }
}
