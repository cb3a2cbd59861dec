/** What every run of the commit protocol keeps. */
module CasSafety {
  import opened Types
  import opened Plan
  import opened Cas

  // --- The invariant ------------------------------------------------------------------------

  /** Everything an object refers to exists. */
  ghost predicate Closed(objects: map<string, Object>)
  {
    forall p | p in objects :: RefersToExisting(objects, objects[p])
  }

  ghost predicate RefersToExisting(objects: map<string, Object>, o: Object)
  {
    match o
    case MetadataFile(m) => forall l | l in m.manifestLists :: HasList(objects, l)
    case ManifestListFile(list) => forall e | e in list.manifests :: e.manifestPath in objects && objects[e.manifestPath].ManifestFile?
    case ManifestFile(m) => forall i | i in m.segments :: i.segmentPath in objects && objects[i.segmentPath].SegmentFile?
    case SegmentFile(_) => true
  }

  /** Version `k` of the metadata lists exactly the manifest lists of the first `k` commits;
      the columns are those the table was created with. */
  ghost predicate VersionOk(s: System, k: nat)
    requires k <= |s.log|
  {
    && HasMetadata(s.store.objects, VersionPath(s, k))
    && HasMetadata(s.store.objects, s.origin)
    && s.store.objects[VersionPath(s, k)].metadata
       == Metadata(s.store.objects[s.origin].metadata.indexedColumns, ListPaths(s.log[..k]))
  }

  ghost predicate History(s: System)
  {
    && s.store.etag == |s.log|
    && s.store.current == VersionPath(s, |s.log|)
    && forall k | 0 <= k <= |s.log| :: VersionOk(s, k)
  }

  /** The files a worker has written hold what they should. */
  ghost predicate Artifacts(objects: map<string, Object>, w: Worker)
  {
    && (w.segmentPath.Some? ==> w.segmentPath.value in objects && objects[w.segmentPath.value] == SegmentFile(w.job.segment))
    && (w.manifestPath.Some? ==>
          w.segmentPath.Some? && w.manifestPath.value in objects
          && objects[w.manifestPath.value] == ManifestFile(ManifestOf(w.job, w.segmentPath.value)))
    && (w.listPath.Some? ==>
          w.manifestPath.Some? && w.listPath.value in objects
          && objects[w.listPath.value] == ManifestListFile(ListOf(w.job, w.manifestPath.value)))
  }

  /** Commit `k` was made by a worker that is done, and added that worker's manifest list. */
  ghost predicate CommitOk(s: System, k: nat)
    requires k < |s.log|
  {
    && s.log[k].worker in s.workers
    && s.workers[s.log[k].worker].phase.Done?
    && s.workers[s.log[k].worker].listPath == Some(s.log[k].listPath)
  }

  ghost predicate Commits(s: System)
  {
    && (forall k | 0 <= k < |s.log| :: CommitOk(s, k))
    && (forall j, k | 0 <= j < k < |s.log| :: s.log[j].worker != s.log[k].worker)
    && (forall j, k | 0 <= j < k < |s.log| :: BatchAt(s, j) != BatchAt(s, k))
  }

  /** The batch that commit `k` published. */
  function BatchAt(s: System, k: nat): string
    requires k < |s.log|
  {
    if s.log[k].worker in s.workers then s.workers[s.log[k].worker].job.batchId else ""
  }

  /** The first `n` commits are of other batches. */
  ghost predicate NotAmong(s: System, batchId: string, n: nat)
  {
    n <= |s.log| && forall k | 0 <= k < n :: BatchAt(s, k) != batchId
  }

  /** The batch has been committed. */
  ghost predicate Committed(s: System, batchId: string)
  {
    exists k :: 0 <= k < |s.log| && BatchAt(s, k) == batchId
  }

  /** The worker's `latest` is the metadata its ETag belongs to. */
  ghost predicate Current(s: System, w: Worker)
  {
    && w.etag <= |s.log|
    && HasMetadata(s.store.objects, VersionPath(s, w.etag))
    && w.latest == s.store.objects[VersionPath(s, w.etag)].metadata
  }

  ghost predicate PhaseOk(s: System, w: Worker)
  {
    match w.phase
    case Start => w.conflicts == 0
    case ReadMetadata => w.conflicts == 0 && w.etag <= |s.log| && w.pointer == VersionPath(s, w.etag)
    case CheckDuplicate(i) => w.conflicts == 0 && Current(s, w) && i <= w.etag && NotAmong(s, w.job.batchId, i)
    case PutSegment => w.conflicts == 0 && Current(s, w) && NotAmong(s, w.job.batchId, w.etag)
    case PutManifest => w.conflicts == 0 && Current(s, w) && NotAmong(s, w.job.batchId, w.etag) && w.segmentPath.Some?
    case PutManifestList => w.conflicts == 0 && Current(s, w) && NotAmong(s, w.job.batchId, w.etag) && w.manifestPath.Some?
    case PutMetadata => w.conflicts < MAX_RETRIES && Current(s, w) && NotAmong(s, w.job.batchId, w.etag) && w.listPath.Some?
    case PutCurrent =>
      && w.conflicts < MAX_RETRIES && Current(s, w) && NotAmong(s, w.job.batchId, w.etag) && w.listPath.Some?
      && HasMetadata(s.store.objects, w.metadataPath)
      && s.store.objects[w.metadataPath].metadata == w.latest.(manifestLists := w.latest.manifestLists + [w.listPath.value])
    case Reread => w.conflicts <= MAX_RETRIES && w.listPath.Some?
    case RereadMetadata =>
      w.conflicts <= MAX_RETRIES && w.listPath.Some? && w.etag <= |s.log| && w.pointer == VersionPath(s, w.etag)
    case RecheckDuplicate(i) =>
      w.conflicts <= MAX_RETRIES && w.listPath.Some? && Current(s, w) && i <= w.etag && NotAmong(s, w.job.batchId, i)
    case Done => w.conflicts <= MAX_RETRIES && Committed(s, w.job.batchId)
    case Failed(e) => !e.NotFound? && w.conflicts <= MAX_RETRIES && (e.TooManyConflicts? ==> w.conflicts == MAX_RETRIES)
    case Crashed => w.conflicts <= MAX_RETRIES
  }

  /** Every conflict is charged to a later commit than the one before, none of them the
      worker's own. */
  ghost predicate ChargesOk(s: System, id: nat, w: Worker)
  {
    && |w.charges| == w.conflicts
    && (forall j, k | 0 <= j < k < |w.charges| :: w.charges[j] < w.charges[k])
    && (forall k | 0 <= k < |w.charges| :: w.charges[k] < |s.log| && s.log[w.charges[k]].worker != id)
    && (w.phase.RereadMetadata? || w.phase.RecheckDuplicate? || w.phase.PutMetadata? || w.phase.PutCurrent? ==>
          forall k | 0 <= k < |w.charges| :: w.charges[k] < w.etag)
  }

  /** Files are written in the order segment, manifest, manifest list. */
  predicate WritesInOrder(w: Worker)
  {
    && (w.phase.Start? || w.phase.ReadMetadata? || w.phase.CheckDuplicate? || w.phase.PutSegment? || w.phase.PutManifest? ==>
          w.manifestPath.None? && w.listPath.None?)
    && (w.phase.PutManifestList? ==> w.listPath.None?)
  }

  ghost predicate WorkerOk(s: System, id: nat, w: Worker)
  {
    Artifacts(s.store.objects, w) && PhaseOk(s, w) && ChargesOk(s, id, w) && WritesInOrder(w)
  }

  /** No two workers share a manifest. */
  ghost predicate OwnManifests(workers: map<nat, Worker>)
  {
    forall a, b | a in workers && b in workers && a != b && workers[a].manifestPath.Some? ::
      workers[a].manifestPath != workers[b].manifestPath
  }

  /** What the cache holds, and what it is fetching, are versions of the table. */
  ghost predicate CacheOk(s: System)
  {
    && (s.cache.entry.Some? ==>
          var e := s.cache.entry.value;
          && e.version <= |s.log| && e.path == VersionPath(s, e.version)
          && HasMetadata(s.store.objects, e.path) && e.metadata == s.store.objects[e.path].metadata)
    && (s.cache.flight.Some? ==>
          var f := s.cache.flight.value;
          && f.version <= |s.log| && f.path == VersionPath(s, f.version)
          && (s.cache.entry.Some? ==> s.cache.entry.value.version <= f.version))
  }

  ghost predicate Inv(s: System)
  {
    && Closed(s.store.objects)
    && History(s)
    && Commits(s)
    && (forall id | id in s.workers :: WorkerOk(s, id, s.workers[id]))
    && OwnManifests(s.workers)
    && CacheOk(s)
  }

  // --- Steps -------------------------------------------------------------------------------

  /** What any step does to the state: objects are never changed or removed, the log only
      grows, and workers keep their jobs. */
  ghost predicate Grows(s: System, t: System)
  {
    && (forall p | p in s.store.objects :: p in t.store.objects && t.store.objects[p] == s.store.objects[p])
    && s.log <= t.log && s.origin == t.origin
    && s.workers.Keys == t.workers.Keys
    && forall id | id in s.workers :: t.workers[id].job == s.workers[id].job
  }

  lemma StepGrows(s: System, t: System)
    requires Next(s, t)
    ensures Grows(s, t)
  {
    if id, name :| WorkerMoves(s, t, id, name) {
      WorkerMoveGrows(s, t, id, name);
    }
  }

  lemma WorkerMoveGrows(s: System, t: System, id: nat, name: string)
    requires WorkerMoves(s, t, id, name)
    ensures Grows(s, t)
  {
    var w := s.workers[id];
    var (store, w') := WorkerStep(s.store, w, name);
    assert w'.job == w.job;
  }

  lemma VersionStable(s: System, t: System, k: nat)
    requires Grows(s, t) && k <= |s.log|
    ensures VersionPath(t, k) == VersionPath(s, k)
    ensures VersionOk(s, k) ==> VersionOk(t, k)
  {
    assert t.log[..k] == s.log[..k];
    if k > 0 { assert t.log[k - 1] == s.log[k - 1]; }
  }

  lemma BatchStable(s: System, t: System, k: nat)
    requires Grows(s, t) && k < |s.log| && s.log[k].worker in s.workers
    ensures BatchAt(t, k) == BatchAt(s, k)
  {
    assert t.log[k] == s.log[k];
  }

  lemma NotAmongStable(s: System, t: System, batchId: string, n: nat)
    requires Grows(s, t) && Commits(s) && NotAmong(s, batchId, n)
    ensures NotAmong(t, batchId, n)
  {
    forall k | 0 <= k < n ensures BatchAt(t, k) != batchId {
      assert CommitOk(s, k);
      BatchStable(s, t, k);
    }
  }

  lemma CommittedStable(s: System, t: System, batchId: string)
    requires Grows(s, t) && Commits(s) && Committed(s, batchId)
    ensures Committed(t, batchId)
  {
    var k :| 0 <= k < |s.log| && BatchAt(s, k) == batchId;
    assert CommitOk(s, k);
    BatchStable(s, t, k);
    assert BatchAt(t, k) == batchId;
  }

  lemma CurrentStable(s: System, t: System, w: Worker)
    requires Grows(s, t) && Current(s, w)
    ensures Current(t, w)
  {
    VersionStable(s, t, w.etag);
  }

  /** A worker's invariant survives everybody's steps. */
  lemma PhaseStable(s: System, t: System, w: Worker)
    requires Grows(s, t) && Commits(s) && PhaseOk(s, w)
    ensures PhaseOk(t, w)
  {
    hide Grows, Commits, Current, NotAmong, Committed;
    match w.phase
    case Start =>
    case ReadMetadata => VersionStable(s, t, w.etag); LogGrows(s, t);
    case CheckDuplicate(i) => CurrentStable(s, t, w); NotAmongStable(s, t, w.job.batchId, i);
    case PutSegment => CurrentStable(s, t, w); NotAmongStable(s, t, w.job.batchId, w.etag);
    case PutManifest => CurrentStable(s, t, w); NotAmongStable(s, t, w.job.batchId, w.etag);
    case PutManifestList => CurrentStable(s, t, w); NotAmongStable(s, t, w.job.batchId, w.etag);
    case PutMetadata => CurrentStable(s, t, w); NotAmongStable(s, t, w.job.batchId, w.etag);
    case PutCurrent =>
      CurrentStable(s, t, w);
      NotAmongStable(s, t, w.job.batchId, w.etag);
      LogGrows(s, t);
    case Reread =>
    case RereadMetadata => VersionStable(s, t, w.etag); LogGrows(s, t);
    case RecheckDuplicate(i) => CurrentStable(s, t, w); NotAmongStable(s, t, w.job.batchId, i);
    case Done => CommittedStable(s, t, w.job.batchId);
    case Failed(_) =>
    case Crashed =>
  }

  lemma LogGrows(s: System, t: System)
    requires Grows(s, t)
    ensures |s.log| <= |t.log|
    ensures forall p | p in s.store.objects :: p in t.store.objects && t.store.objects[p] == s.store.objects[p]
  {}

  lemma WorkerStable(s: System, t: System, id: nat, w: Worker)
    requires Grows(s, t) && Commits(s) && WorkerOk(s, id, w)
    ensures WorkerOk(t, id, w)
  {
    PhaseStable(s, t, w);
    hide PhaseOk;
    forall k | 0 <= k < |w.charges| ensures w.charges[k] < |t.log| && t.log[w.charges[k]].worker != id {
      assert t.log[w.charges[k]] == s.log[w.charges[k]];
    }
  }

  // --- One worker's move -----------------------------------------------------------------------

  /** A worker that has not finished has committed nothing. */
  lemma NotAnAuthor(s: System, id: nat)
    requires Commits(s) && id in s.workers && !Finished(s.workers[id])
    ensures forall k | 0 <= k < |s.log| :: s.log[k].worker != id
  {
    forall k | 0 <= k < |s.log| ensures s.log[k].worker != id { assert CommitOk(s, k); }
  }

  /** A successful conditional PUT publishes the next version: the one before it plus the
      worker's manifest list. */
  lemma SwapHistory(s: System, t: System, id: nat, name: string)
    requires Inv(s) && WorkerMoves(s, t, id, name) && Grows(s, t)
    requires s.workers[id].phase.PutCurrent? && s.workers[id].etag == s.store.etag
    ensures History(t) && t.log == s.log + [Commit(id, s.workers[id].metadataPath, s.workers[id].listPath.value)]
  {
    hide Closed, OwnManifests, CacheOk, Artifacts, ChargesOk, Commits, NotAmong, Grows;
    var w, n := s.workers[id], |s.log|;
    assert WorkerOk(s, id, w) && PhaseOk(s, w) && VersionOk(s, n);
    forall k | 0 <= k <= n ensures VersionOk(t, k) { VersionStable(s, t, k); }
    assert t.log[..n + 1] == t.log && s.log[..n] == s.log;
    assert ListPaths(t.log) == ListPaths(s.log) + [w.listPath.value];
    assert VersionOk(t, n + 1);
  }

  /** A successful conditional PUT: the snapshot gains one list, of a batch it did not have. */
  lemma SwapCommits(s: System, t: System, id: nat, name: string)
    requires Inv(s) && WorkerMoves(s, t, id, name)
    requires s.workers[id].phase.PutCurrent? && s.workers[id].etag == s.store.etag
    ensures History(t) && Commits(t)
    ensures Committed(t, s.workers[id].job.batchId)
  {
    hide Closed, OwnManifests, CacheOk, Artifacts, ChargesOk, Current, VersionOk;
    var w, n := s.workers[id], |s.log|;
    StepGrows(s, t);
    SwapHistory(s, t, id, name);
    assert WorkerOk(s, id, w) && PhaseOk(s, w);
    NotAnAuthor(s, id);
    forall k | 0 <= k < n ensures CommitOk(t, k) && BatchAt(t, k) == BatchAt(s, k) && BatchAt(t, k) != w.job.batchId {
      assert CommitOk(s, k);
      BatchStable(s, t, k);
    }
    assert CommitOk(t, n) && BatchAt(t, n) == w.job.batchId;
  }

  /** Any other move leaves pointer and log alone. */
  lemma QuietMove(s: System, t: System)
    requires Inv(s) && Grows(s, t) && t.log == s.log
    requires t.store.current == s.store.current && t.store.etag == s.store.etag
    requires forall id | id in s.workers && Finished(s.workers[id]) :: t.workers[id] == s.workers[id]
    ensures History(t) && Commits(t)
  {
    hide Closed, OwnManifests, CacheOk, WorkerOk;
    forall k | 0 <= k <= |s.log| ensures VersionOk(t, k) { VersionStable(s, t, k); }
    VersionStable(s, t, |s.log|);
    forall k | 0 <= k < |s.log| ensures CommitOk(t, k) && BatchAt(t, k) == BatchAt(s, k) {
      assert CommitOk(s, k);
      BatchStable(s, t, k);
    }
  }

  /** Reading the pointer. */
  lemma PointerReadOk(s: System, id: nat, w: Worker, name: string)
    requires History(s) && WorkerOk(s, id, w) && (w.phase.Start? || w.phase.Reread?)
    ensures WorkerOk(s, id, WorkerStep(s.store, w, name).1)
  {
    hide VersionOk;
  }

  /** Reading the metadata never fails. */
  lemma MetadataReadOk(s: System, id: nat, w: Worker, name: string)
    requires History(s) && WorkerOk(s, id, w) && (w.phase.ReadMetadata? || w.phase.RereadMetadata?)
    ensures WorkerOk(s, id, WorkerStep(s.store, w, name).1)
  {
    hide FindColumn;
    assert VersionOk(s, w.etag);
    assert NotAmong(s, w.job.batchId, 0);
  }

  /** The manifest list of commit `i` can be read and names the batch of its author. */
  lemma ListOfCommit(s: System, i: nat)
    requires Inv(s) && i < |s.log|
    ensures s.log[i].worker in s.workers && var a := s.workers[s.log[i].worker];
      && a.manifestPath.Some? && a.listPath == Some(s.log[i].listPath)
      && HasList(s.store.objects, s.log[i].listPath)
      && s.store.objects[s.log[i].listPath].list == ListOf(a.job, a.manifestPath.value)
      && a.job.batchId == BatchAt(s, i)
  {
    hide Closed, OwnManifests, CacheOk, History, PhaseOk, ChargesOk;
    assert CommitOk(s, i);
    var id := s.log[i].worker;
    assert WorkerOk(s, id, s.workers[id]);
  }

  /** One round of the duplicate check: it finds the batch only if it was committed. */
  lemma CheckOk(s: System, id: nat, w: Worker, name: string)
    requires Inv(s) && WorkerOk(s, id, w) && (w.phase.CheckDuplicate? || w.phase.RecheckDuplicate?)
    ensures WorkerOk(s, id, WorkerStep(s.store, w, name).1)
  {
    hide Closed, OwnManifests, CacheOk, Artifacts, ChargesOk, Commits;
    var i := w.phase.i;
    assert VersionOk(s, w.etag);
    if i < w.etag {
      assert w.latest.manifestLists[i] == s.log[i].listPath;
      ListOfCommit(s, i);
    }
    hide History, VersionOk, WorkerStep;
    CheckRound(s, id, w, name);
  }

  lemma CheckRound(s: System, id: nat, w: Worker, name: string)
    requires WorkerOk(s, id, w) && (w.phase.CheckDuplicate? || w.phase.RecheckDuplicate?)
    requires w.etag == |w.latest.manifestLists| <= |s.log|
    requires w.phase.i < w.etag ==>
               HasList(s.store.objects, w.latest.manifestLists[w.phase.i])
               && s.store.objects[w.latest.manifestLists[w.phase.i]].list.batchId == BatchAt(s, w.phase.i)
    ensures WorkerOk(s, id, WorkerStep(s.store, w, name).1)
  {
    hide BatchAt;
    assert Current(s, w) && Current(s, WorkerStep(s.store, w, name).1);
    hide Current, VersionPath;
  }

  predicate Putting(w: Worker) { w.phase.PutSegment? || w.phase.PutManifest? || w.phase.PutManifestList? || w.phase.PutMetadata? }

  /** Writing a file. */
  lemma PutOk(s: System, id: nat, w: Worker, name: string)
    requires WorkerOk(s, id, w) && Putting(w) && name !in s.store.objects
    ensures var (store, w') := WorkerStep(s.store, w, name); WorkerOk(s.(store := store), id, w')
  {
    var (store, w') := WorkerStep(s.store, w, name);
    var s1 := s.(store := store);
    assert NotAmong(s1, w.job.batchId, w.etag) by { assert forall k | 0 <= k < |s.log| :: BatchAt(s1, k) == BatchAt(s, k); }
    assert Current(s1, w) by { assert VersionPath(s1, w.etag) == VersionPath(s, w.etag); }
    hide NotAmong, Current;
  }

  /** A conditional PUT that fails. */
  lemma ConflictOk(s: System, id: nat, w: Worker, name: string)
    requires WorkerOk(s, id, w) && w.phase.PutCurrent? && w.listPath.Some? && s.store.etag == |s.log| && w.etag != s.store.etag
    requires forall k | 0 <= k < |s.log| :: s.log[k].worker != id
    ensures WorkerOk(s, id, WorkerStep(s.store, w, name).1)
  {
    hide NotAmong;
  }

  // --- The whole step ---------------------------------------------------------------------------

  lemma MoverOk(s: System, t: System, id: nat, name: string)
    requires Inv(s) && WorkerMoves(s, t, id, name)
    ensures WorkerOk(t, id, t.workers[id])
  {
    hide Closed, OwnManifests, CacheOk, WorkerOk, WorkerStep;
    var w := s.workers[id];
    assert WorkerOk(s, id, w);
    var (store, w') := WorkerStep(s.store, w, name);
    StepGrows(s, t);
    if w.phase.PutCurrent? && w.etag == s.store.etag {
      CommitterOk(s, t, id, name);
    } else {
      var s1 := s.(store := store);
      MoveInPlace(s, id, w, name);
      StoreGrows(s, w, name);
      CommitsSame(s, s1);
      WorkerStable(s1, t, id, w');
    }
  }

  lemma MoveInPlace(s: System, id: nat, w: Worker, name: string)
    requires Inv(s) && id in s.workers && w == s.workers[id] && CanStep(w) && name !in s.store.objects
    requires !(w.phase.PutCurrent? && w.etag == s.store.etag)
    ensures var (store, w') := WorkerStep(s.store, w, name); WorkerOk(s.(store := store), id, w')
  {
    assert WorkerOk(s, id, w);
    NotAnAuthor(s, id);
    if w.phase.Start? || w.phase.Reread? { PointerReadOk(s, id, w, name); }
    if w.phase.ReadMetadata? || w.phase.RereadMetadata? { MetadataReadOk(s, id, w, name); }
    if w.phase.CheckDuplicate? || w.phase.RecheckDuplicate? { CheckOk(s, id, w, name); }
    if Putting(w) { PutOk(s, id, w, name); }
    if w.phase.PutCurrent? { ConflictOk(s, id, w, name); }
    hide WorkerOk, Closed, OwnManifests, CacheOk, History, Commits;
    if !Putting(w) { ReadsOnly(s, w, name); }
  }

  lemma ReadsOnly(s: System, w: Worker, name: string)
    requires CanStep(w) && !Putting(w) && !(w.phase.PutCurrent? && w.etag == s.store.etag)
    ensures s.(store := WorkerStep(s.store, w, name).0) == s
  {}

  lemma StoreGrows(s: System, w: Worker, name: string)
    requires CanStep(w) && name !in s.store.objects
    ensures Grows(s, s.(store := WorkerStep(s.store, w, name).0))
    ensures var store := WorkerStep(s.store, w, name).0;
      forall p | p in store.objects :: p in s.store.objects || p == name
  {}

  lemma CommitsSame(s: System, s1: System)
    requires Commits(s) && s1 == s.(store := s1.store)
    ensures Commits(s1)
  {
    forall k | 0 <= k < |s.log| ensures CommitOk(s1, k) && BatchAt(s1, k) == BatchAt(s, k) { assert CommitOk(s, k); }
  }

  lemma CommitterOk(s: System, t: System, id: nat, name: string)
    requires Inv(s) && WorkerMoves(s, t, id, name) && s.workers[id].phase.PutCurrent? && s.workers[id].etag == s.store.etag
    ensures WorkerOk(t, id, t.workers[id])
  {
    assert WorkerOk(s, id, s.workers[id]);
    SwapCommits(s, t, id, name);
    hide Closed, OwnManifests, CacheOk, Commits, History, Committed;
  }

  /** New files refer only to files that exist. */
  lemma MoveClosed(s: System, t: System, id: nat, name: string)
    requires Inv(s) && WorkerMoves(s, t, id, name)
    ensures Closed(t.store.objects)
  {
    hide OwnManifests, CacheOk, Commits, History, ChargesOk;
    var w := s.workers[id];
    assert WorkerOk(s, id, w);
    StepGrows(s, t);
    forall p | p in s.store.objects ensures RefersToExisting(t.store.objects, t.store.objects[p]) {
      assert RefersToExisting(s.store.objects, s.store.objects[p]);
    }
    if w.phase.PutMetadata? {
      assert RefersToExisting(s.store.objects, s.store.objects[VersionPath(s, w.etag)]);
    }
  }

  /** Fresh names keep manifests apart. */
  lemma MoveOwn(s: System, t: System, id: nat, name: string)
    requires Inv(s) && WorkerMoves(s, t, id, name)
    ensures OwnManifests(t.workers)
  {
    hide Closed, CacheOk, Commits, History, ChargesOk, PhaseOk;
    forall a | a in s.workers && s.workers[a].manifestPath.Some? ensures s.workers[a].manifestPath.value != name {
      assert WorkerOk(s, a, s.workers[a]);
    }
  }

  lemma CacheStable(s: System, t: System)
    requires CacheOk(s) && Grows(s, t) && t.cache == s.cache
    ensures CacheOk(t)
  {
    if s.cache.entry.Some? { VersionStable(s, t, s.cache.entry.value.version); }
    if s.cache.flight.Some? { VersionStable(s, t, s.cache.flight.value.version); }
  }

  lemma PollOk(s: System, t: System)
    requires Inv(s) && CacheMoves(s, t)
    ensures CacheOk(t)
  {
    hide Closed, OwnManifests, Commits, WorkerOk;
    if s.cache.flight.Some? { assert VersionOk(s, s.cache.flight.value.version); }
    VersionStable(s, t, |s.log|);
    if s.cache.entry.Some? { VersionStable(s, t, s.cache.entry.value.version); }
    if s.cache.flight.Some? { VersionStable(s, t, s.cache.flight.value.version); }
  }

  lemma MoveKeeps(s: System, t: System, id: nat, name: string)
    requires Inv(s) && WorkerMoves(s, t, id, name)
    ensures Inv(t)
  {
    hide Closed, OwnManifests, CacheOk, History, Commits, WorkerOk;
    StepGrows(s, t);
    MoverOk(s, t, id, name);
    MoveClosed(s, t, id, name);
    MoveOwn(s, t, id, name);
    CacheStable(s, t);
    HistoryOk(s, t, id, name);
    forall a | a in s.workers && a != id ensures WorkerOk(t, a, t.workers[a]) { WorkerStable(s, t, a, s.workers[a]); }
  }

  lemma HistoryOk(s: System, t: System, id: nat, name: string)
    requires Inv(s) && WorkerMoves(s, t, id, name)
    ensures History(t) && Commits(t)
  {
    hide Closed, OwnManifests, CacheOk, History, Commits, WorkerOk;
    StepGrows(s, t);
    if s.workers[id].phase.PutCurrent? && s.workers[id].etag == s.store.etag {
      SwapCommits(s, t, id, name);
    } else {
      QuietMove(s, t);
    }
  }

  lemma CrashKeeps(s: System, t: System, id: nat)
    requires Inv(s) && WorkerCrashes(s, t, id)
    ensures Inv(t)
  {
    hide Closed, CacheOk, History, Commits, WorkerOk;
    CrashGrows(s, t, id);
    QuietMove(s, t);
    CacheStable(s, t);
    assert WorkerOk(s, id, s.workers[id]);
    CrashedOk(s, id, s.workers[id]);
    forall a | a in s.workers ensures WorkerOk(t, a, t.workers[a]) { WorkerStable(s, t, a, t.workers[a]); }
  }

  lemma CrashGrows(s: System, t: System, id: nat)
    requires WorkerCrashes(s, t, id)
    ensures Grows(s, t)
  {}

  lemma CrashedOk(s: System, id: nat, w: Worker)
    requires WorkerOk(s, id, w)
    ensures WorkerOk(s, id, w.(phase := Crashed))
  {}

  /** The invariant is inductive. */
  lemma StepKeeps(s: System, t: System)
    requires Inv(s) && Next(s, t)
    ensures Inv(t)
  {
    hide Closed, OwnManifests, CacheOk, History, Commits, WorkerOk, WorkerMoves, WorkerCrashes;
    StepGrows(s, t);
    if id, name :| WorkerMoves(s, t, id, name) {
      MoveKeeps(s, t, id, name);
    } else if id :| WorkerCrashes(s, t, id) {
      CrashKeeps(s, t, id);
    } else {
      PollOk(s, t);
      QuietMove(s, t);
      forall a | a in s.workers ensures WorkerOk(t, a, t.workers[a]) { WorkerStable(s, t, a, s.workers[a]); }
    }
  }

  lemma InitOk(s: System)
    requires Init(s)
    ensures Inv(s)
  {
    assert ListPaths(s.log[..0]) == [];
    assert VersionOk(s, 0);
  }

  // --- Every run --------------------------------------------------------------------------------

  lemma {:induction false} RunKeeps(run: seq<System>, k: nat)
    requires Run(run) && k < |run|
    ensures Inv(run[k])
    decreases k
  {
    hide Inv, Init, Next;
    if k == 0 {
      InitOk(run[0]);
    } else {
      RunKeeps(run, k - 1);
      StepKeeps(run[k - 1], run[k - 1 + 1]);
    }
  }

  lemma {:induction false} RunGrows(run: seq<System>, i: nat, j: nat)
    requires Run(run) && i <= j < |run|
    ensures Grows(run[i], run[j])
    decreases j
  {
    hide Inv, Init, Next;
    if i < j {
      RunGrows(run, i, j - 1);
      StepGrows(run[j - 1], run[j - 1 + 1]);
    }
  }

  /** The current snapshot lists exactly the committed manifest lists, in commit order. */
  lemma SnapshotIsLog(s: System)
    requires Inv(s)
    ensures Snapshot(s) == ListPaths(s.log)
  {
    hide Closed, OwnManifests, CacheOk, Commits, WorkerOk;
    assert VersionOk(s, |s.log|);
    assert s.log[..|s.log|] == s.log;
  }

  /** No lost update: from any point of a run to any later one, the snapshot's history only
      grows at its end. */
  lemma HistoryOnlyAppends(run: seq<System>, i: nat, j: nat)
    requires Run(run) && i <= j < |run|
    ensures Snapshot(run[i]) <= Snapshot(run[j])
  {
    hide Run, Inv, Snapshot;
    RunKeeps(run, i);
    RunKeeps(run, j);
    RunGrows(run, i, j);
    SnapshotIsLog(run[i]);
    SnapshotIsLog(run[j]);
    ListPathsPrefix(run[i].log, run[j].log);
  }

  lemma ListPathsPrefix(a: seq<Commit>, b: seq<Commit>)
    requires a <= b
    ensures ListPaths(a) <= ListPaths(b)
  {
    forall k | 0 <= k < |a| ensures ListPaths(a)[k] == ListPaths(b)[k] { assert b[k] == a[k]; }
  }

  /** One step appends nothing, or the manifest list of the one worker that committed. */
  lemma StepAppends(s: System, t: System)
    requires Inv(s) && Next(s, t)
    ensures Snapshot(t) == Snapshot(s)
            || exists id :: id in s.workers && s.workers[id].phase.PutCurrent? && t.workers[id].phase.Done?
                 && s.workers[id].listPath.Some? && Snapshot(t) == Snapshot(s) + [s.workers[id].listPath.value]
  {
    hide Inv, Snapshot, WorkerStep;
    StepKeeps(s, t);
    SnapshotIsLog(s);
    SnapshotIsLog(t);
    if id, name :| WorkerMoves(s, t, id, name) && t.log != s.log {
      assert ListPaths(t.log) == ListPaths(s.log) + [s.workers[id].listPath.value];
    }
  }

  /** The manifest list at position `k` of the current snapshot. */
  function ListAt(s: System, k: nat): ManifestList
    requires k < |Snapshot(s)| && HasList(s.store.objects, Snapshot(s)[k])
  {
    s.store.objects[Snapshot(s)[k]].list
  }

  /** Every manifest list of the snapshot can be read, and no two are of the same batch. */
  lemma NoBatchTwice(run: seq<System>, n: nat)
    requires Run(run) && n < |run|
    ensures forall k | 0 <= k < |Snapshot(run[n])| :: HasList(run[n].store.objects, Snapshot(run[n])[k])
    ensures forall j, k | 0 <= j < k < |Snapshot(run[n])| :: ListAt(run[n], j).batchId != ListAt(run[n], k).batchId
  {
    hide Run, Snapshot, Closed, OwnManifests, CacheOk, WorkerOk, History;
    var s := run[n];
    RunKeeps(run, n);
    SnapshotIsLog(s);
    forall k | 0 <= k < |s.log| ensures HasList(s.store.objects, Snapshot(s)[k]) && ListAt(s, k).batchId == BatchAt(s, k) {
      ListOfCommit(s, k);
    }
  }

  /** A worker that reports success leaves its batch in the snapshot, then and ever after. */
  lemma SuccessIsVisible(run: seq<System>, i: nat, j: nat, id: nat)
    requires Run(run) && i <= j < |run|
    requires id in run[i].workers && run[i].workers[id].phase.Done?
    ensures exists k :: 0 <= k < |Snapshot(run[j])| && HasList(run[j].store.objects, Snapshot(run[j])[k])
              && ListAt(run[j], k).batchId == run[i].workers[id].job.batchId
  {
    hide Run, Snapshot, Closed, OwnManifests, CacheOk, History, Grows;
    RunKeeps(run, i);
    RunKeeps(run, j);
    RunGrows(run, i, j);
    var b := run[i].workers[id].job.batchId;
    assert WorkerOk(run[i], id, run[i].workers[id]);
    CommittedStable(run[i], run[j], b);
    var k: nat :| k < |run[j].log| && BatchAt(run[j], k) == b;
    SnapshotIsLog(run[j]);
    ListOfCommit(run[j], k);
    assert ListAt(run[j], k).batchId == b;
  }

  /** The snapshot has a manifest list of this batch whose manifest is for this column. */
  ghost predicate CoversColumn(s: System, batchId: string, column: string)
  {
    exists k :: 0 <= k < |Snapshot(s)| && HasList(s.store.objects, Snapshot(s)[k]) && ListAt(s, k).batchId == batchId
                && exists e :: e in ListAt(s, k).manifests && e.indexedColumn == column
  }

  /** Commit `k` is of this batch and was made for this column. */
  predicate CommittedFor(s: System, k: nat, batchId: string, column: string)
  {
    k < |s.log| && BatchAt(s, k) == batchId && s.log[k].worker in s.workers && s.workers[s.log[k].worker].job.column == column
  }

  /** A batch id names the files and not the column. So success means that the files are
      indexed for the worker's column exactly when the worker whose commit stands for the
      batch indexed that column. */
  lemma ColumnCoveredIff(s: System, batchId: string, column: string)
    requires Inv(s)
    ensures CoversColumn(s, batchId, column) <==> exists k: nat :: CommittedFor(s, k, batchId, column)
  {
    hide Closed, OwnManifests, CacheOk, WorkerOk, History, Commits, Snapshot;
    SnapshotIsLog(s);
    forall k | 0 <= k < |s.log|
      ensures HasList(s.store.objects, Snapshot(s)[k]) && s.log[k].worker in s.workers && ListAt(s, k).batchId == BatchAt(s, k)
      ensures (exists e :: e in ListAt(s, k).manifests && e.indexedColumn == column)
              <==> s.workers[s.log[k].worker].job.column == column
    {
      ListOfCommit(s, k);
      var a := s.workers[s.log[k].worker];
      assert ListAt(s, k).manifests[0] in ListAt(s, k).manifests;
    }
    if k: nat :| CommittedFor(s, k, batchId, column) {
      assert ListAt(s, k).batchId == batchId;
    }
    if CoversColumn(s, batchId, column) {
      var k :| 0 <= k < |Snapshot(s)| && HasList(s.store.objects, Snapshot(s)[k]) && ListAt(s, k).batchId == batchId
               && exists e :: e in ListAt(s, k).manifests && e.indexedColumn == column;
      assert CommittedFor(s, k, batchId, column);
    }
  }

  // --- Columns ----------------------------------------------------------------------------------

  /** The table was created with the column, and it is not dropped. */
  predicate ColumnUsable(s: System, column: string)
  {
    && HasMetadata(s.store.objects, s.origin)
    && var c := FindColumn(s.store.objects[s.origin].metadata.indexedColumns, column);
       c.Some? && !c.value.status.Dropped?
  }

  predicate PastColumnCheck(w: Worker)
  {
    !(w.phase.Start? || w.phase.ReadMetadata? || w.phase.Failed? || w.phase.Crashed?)
  }

  ghost predicate ColumnsOk(s: System)
  {
    forall id | id in s.workers && PastColumnCheck(s.workers[id]) :: ColumnUsable(s, s.workers[id].job.column)
  }

  lemma ColumnStep(s: System, t: System)
    requires Inv(s) && ColumnsOk(s) && Next(s, t)
    ensures ColumnsOk(t)
  {
    hide Closed, OwnManifests, CacheOk, Commits, FindColumn;
    StepGrows(s, t);
    if id, name :| WorkerMoves(s, t, id, name) {
      assert WorkerOk(s, id, s.workers[id]);
      if s.workers[id].phase.ReadMetadata? { assert VersionOk(s, s.workers[id].etag); }
      hide History, WorkerOk;
    }
  }

  /** A batch is committed, or found committed, only for a column that the table has and that
      is not dropped. */
  lemma {:induction false} ColumnsAreChecked(run: seq<System>, n: nat)
    requires Run(run) && n < |run|
    ensures ColumnsOk(run[n])
    decreases n
  {
    hide Inv, Next;
    if n > 0 {
      ColumnsAreChecked(run, n - 1);
      RunKeeps(run, n - 1);
      ColumnStep(run[n - 1], run[n - 1 + 1]);
    }
  }

  /** The columns the table was created with. */
  function TableColumns(s: System): seq<IndexedColumn>
  {
    if HasMetadata(s.store.objects, s.origin) then s.store.objects[s.origin].metadata.indexedColumns else []
  }

  /** The errors about a worker's column mean what they say. */
  ghost predicate ColumnErrorOk(s: System, w: Worker)
  {
    && (w.phase == Failed(ColumnMissing) ==> forall x | x in TableColumns(s) :: x.name != w.job.column)
    && (w.phase == Failed(ColumnDropped) ==>
          exists i :: FirstNamed(TableColumns(s), w.job.column, i) && TableColumns(s)[i].status.Dropped?)
  }

  /** A column can be used when the first of that name is not dropped, a backfilling one
      included. */
  lemma ColumnUsableIff(s: System, column: string)
    ensures ColumnUsable(s, column) <==>
              exists i :: FirstNamed(TableColumns(s), column, i)
                          && (TableColumns(s)[i].status == Active || TableColumns(s)[i].status == Backfilling)
  {
    hide FindColumn;
    if i :| FirstNamed(TableColumns(s), column, i) {
      assert TableColumns(s)[i] in TableColumns(s);
    }
  }

  lemma SameColumns(s: System, t: System)
    requires Inv(s) && Grows(s, t)
    ensures TableColumns(t) == TableColumns(s)
  {
    hide Closed, OwnManifests, CacheOk, Commits, WorkerOk;
    assert VersionOk(s, 0);
  }

  lemma MoverColumnError(s: System, t: System, id: nat, name: string)
    requires Inv(s) && WorkerMoves(s, t, id, name) && ColumnErrorOk(s, s.workers[id])
    ensures ColumnErrorOk(s, t.workers[id])
  {
    hide Closed, OwnManifests, CacheOk, Commits, Artifacts, ChargesOk, NotAmong, FirstNamed;
    var w := s.workers[id];
    assert WorkerOk(s, id, w);
    if w.phase.ReadMetadata? || w.phase.RereadMetadata? {
      assert VersionOk(s, w.etag);
      assert s.store.objects[w.pointer].metadata.indexedColumns == TableColumns(s);
    }
    hide WorkerOk, History, Inv;
  }

  lemma ColumnErrorStep(s: System, t: System)
    requires Inv(s) && Next(s, t) && forall id | id in s.workers :: ColumnErrorOk(s, s.workers[id])
    ensures forall id | id in t.workers :: ColumnErrorOk(t, t.workers[id])
  {
    hide Inv, Grows, TableColumns, FirstNamed, WorkerStep;
    StepGrows(s, t);
    SameColumns(s, t);
    forall id | id in t.workers ensures ColumnErrorOk(t, t.workers[id]) {
      SameWorkers(s, t);
      if name :| WorkerMoves(s, t, id, name) { MoverColumnError(s, t, id, name); }
    }
  }

  lemma SameWorkers(s: System, t: System)
    requires Grows(s, t)
    ensures s.workers.Keys == t.workers.Keys
  {}

  /** A worker fails for a missing column only when the table has none of that name, and for a
      dropped one only when the first of that name is dropped. */
  lemma {:induction false} ColumnErrors(run: seq<System>, n: nat)
    requires Run(run) && n < |run|
    ensures forall id | id in run[n].workers :: ColumnErrorOk(run[n], run[n].workers[id])
    decreases n
  {
    hide Inv, Next, ColumnErrorOk;
    if n == 0 {
      forall id | id in run[0].workers ensures ColumnErrorOk(run[0], run[0].workers[id]) {
        FreshHasNoError(run[0], run[0].workers[id]);
      }
    } else {
      ColumnErrors(run, n - 1);
      RunKeeps(run, n - 1);
      ColumnErrorStep(run[n - 1], run[n - 1 + 1]);
    }
  }

  lemma FreshHasNoError(s: System, w: Worker)
    requires FreshWorker(w)
    ensures ColumnErrorOk(s, w)
  {}

  // --- Conflicts --------------------------------------------------------------------------------

  /** The worker behind each conflict. */
  function Culprits(s: System, charges: seq<nat>): (c: seq<nat>)
    requires forall k | 0 <= k < |charges| :: charges[k] < |s.log|
    ensures |c| == |charges|
  {
    seq(|charges|, k requires 0 <= k < |charges| => s.log[charges[k]].worker)
  }

  lemma {:induction false} DistinctInSet(xs: seq<nat>, bound: set<nat>)
    requires forall j, k | 0 <= j < k < |xs| :: xs[j] != xs[k]
    requires forall k | 0 <= k < |xs| :: xs[k] in bound
    ensures |xs| <= |bound|
  {
    if xs != [] {
      var n := |xs| - 1;
      DistinctInSet(xs[..n], bound - {xs[n]});
    }
  }

  /** Each conflict of a worker is caused by the success of another worker, never the same
      one twice. */
  lemma ConflictsAreOthersCommits(s: System, id: nat)
    requires Inv(s) && id in s.workers
    ensures var w := s.workers[id];
      && |w.charges| == w.conflicts
      && (forall k | 0 <= k < w.conflicts :: w.charges[k] < |s.log|)
      && var c := Culprits(s, w.charges);
         && (forall k | 0 <= k < |c| :: c[k] != id && c[k] in s.workers && s.workers[c[k]].phase.Done?)
         && (forall j, k | 0 <= j < k < |c| :: c[j] != c[k])
  {
    hide Closed, OwnManifests, CacheOk, History;
    var w := s.workers[id];
    assert WorkerOk(s, id, w);
    forall k | 0 <= k < |w.charges| ensures CommitOk(s, w.charges[k]) {}
  }

  /** With `n` workers nobody conflicts more than `n - 1` times, so with at most five
      workers the retry loop never gives up. */
  lemma ConflictBound(run: seq<System>, n: nat, id: nat)
    requires Run(run) && n < |run| && id in run[n].workers
    ensures run[n].workers[id].conflicts <= |run[n].workers.Keys| - 1
    ensures |run[n].workers.Keys| <= 5 ==> run[n].workers[id].phase != Failed(TooManyConflicts)
  {
    hide Run, Closed, OwnManifests, CacheOk, History, Commits, Culprits;
    RunKeeps(run, n);
    var s := run[n];
    assert WorkerOk(s, id, s.workers[id]);
    ConflictsAreOthersCommits(s, id);
    DistinctInSet(Culprits(s, s.workers[id].charges), s.workers.Keys - {id});
  }

  // --- Integrity --------------------------------------------------------------------------------

  ghost predicate HasManifest(objects: map<string, Object>, p: string) { p in objects && objects[p].ManifestFile? }

  ghost predicate ReachesFromManifest(objects: map<string, Object>, m: string, p: string)
  {
    p == m || (HasManifest(objects, m) && exists i :: i in objects[m].manifest.segments && p == i.segmentPath)
  }

  ghost predicate ReachesFromList(objects: map<string, Object>, l: string, p: string)
  {
    || p == l
    || (HasList(objects, l) && exists e :: e in objects[l].list.manifests && ReachesFromManifest(objects, e.manifestPath, p))
  }

  /** `p` is reached from the metadata at `from`. */
  ghost predicate Reaches(objects: map<string, Object>, from: string, p: string)
  {
    || p == from
    || (HasMetadata(objects, from)
        && exists l :: l in objects[from].metadata.manifestLists && ReachesFromList(objects, l, p))
  }

  /** At every point of every run, crashes included, everything reached from `current.json`
      exists, and stays as it is for the rest of the run. */
  lemma SnapshotIntact(run: seq<System>, i: nat, j: nat, p: string)
    requires Run(run) && i <= j < |run|
    requires Reaches(run[i].store.objects, run[i].store.current, p)
    ensures p in run[i].store.objects && p in run[j].store.objects
    ensures run[j].store.objects[p] == run[i].store.objects[p]
  {
    hide Run, OwnManifests, CacheOk, WorkerOk, Commits;
    RunKeeps(run, i);
    RunGrows(run, i, j);
    var o := run[i].store.objects;
    assert VersionOk(run[i], |run[i].log|);
    ReachedExists(o, run[i].store.current, p);
  }

  lemma ReachedExists(o: map<string, Object>, from: string, p: string)
    requires Closed(o) && HasMetadata(o, from) && Reaches(o, from, p)
    ensures p in o
  {
    assert RefersToExisting(o, o[from]);
    if l :| l in o[from].metadata.manifestLists && ReachesFromList(o, l, p) {
      assert RefersToExisting(o, o[l]);
      if e :| e in o[l].list.manifests && ReachesFromManifest(o, e.manifestPath, p) {
        assert RefersToExisting(o, o[e.manifestPath]);
      }
    }
  }

  /** No store read of a worker finds its object missing. */
  lemma ReadsSucceed(run: seq<System>, n: nat, id: nat)
    requires Run(run) && n < |run| && id in run[n].workers
    ensures run[n].workers[id].phase != Failed(NotFound)
  {
    hide Run, Closed, OwnManifests, CacheOk, History, Commits;
    RunKeeps(run, n);
    assert WorkerOk(run[n], id, run[n].workers[id]);
  }

  // --- The cache ----------------------------------------------------------------------------------

  /** The cached metadata is what its path holds, and its manifest lists are a prefix of the
      current snapshot's. */
  lemma CacheIsAVersion(run: seq<System>, n: nat)
    requires Run(run) && n < |run| && run[n].cache.entry.Some?
    ensures var s := run[n];
      var e := s.cache.entry.value;
      && HasMetadata(s.store.objects, e.path) && s.store.objects[e.path].metadata == e.metadata
      && e.metadata.manifestLists <= Snapshot(s)
  {
    hide Run, Closed, OwnManifests, Commits, WorkerOk, Snapshot;
    RunKeeps(run, n);
    var s := run[n];
    var e := s.cache.entry.value;
    assert VersionOk(s, e.version);
    SnapshotIsLog(s);
    ListPathsPrefix(s.log[..e.version], s.log);
  }

  lemma StepCache(s: System, t: System)
    requires Inv(s) && Next(s, t) && s.cache.entry.Some?
    ensures t.cache.entry.Some? && s.cache.entry.value.version <= t.cache.entry.value.version
  {
    hide Closed, OwnManifests, Commits, WorkerOk, History, WorkerStep;
  }

  lemma {:induction false} CacheAdvances(run: seq<System>, i: nat, j: nat)
    requires Run(run) && i <= j < |run| && run[i].cache.entry.Some?
    ensures run[j].cache.entry.Some? && run[i].cache.entry.value.version <= run[j].cache.entry.value.version
    decreases j
  {
    hide Inv, Init, Next;
    if i < j {
      CacheAdvances(run, i, j - 1);
      RunKeeps(run, j - 1);
      StepCache(run[j - 1], run[j - 1 + 1]);
    }
  }

  /** The cache never goes back: once an entry is held there is always one, and each holds
      all the manifest lists of the ones before. */
  lemma CacheNeverGoesBack(run: seq<System>, i: nat, j: nat)
    requires Run(run) && i <= j < |run| && run[i].cache.entry.Some?
    ensures run[j].cache.entry.Some?
    ensures run[i].cache.entry.value.metadata.manifestLists <= run[j].cache.entry.value.metadata.manifestLists
  {
    hide Run, Closed, OwnManifests, Commits, WorkerOk;
    RunKeeps(run, i);
    RunKeeps(run, j);
    CacheAdvances(run, i, j);
    RunGrows(run, i, j);
    var a, b := run[i].cache.entry.value, run[j].cache.entry.value;
    assert VersionOk(run[i], a.version) && VersionOk(run[j], b.version);
    assert run[j].log[..a.version] == run[i].log[..a.version];
    ListPathsPrefix(run[j].log[..a.version], run[j].log[..b.version]);
  }

  /** A poll that nobody interferes with brings the cache up to date. */
  lemma PollCatchesUp(s: System)
    requires Inv(s) && s.cache.flight.None?
    ensures var c := PollStep(s.store, PollStep(s.store, s.cache));
      && c.flight.None? && c.entry.Some? && c.entry.value.path == s.store.current
      && c.entry.value.metadata.manifestLists == Snapshot(s)
  {
    hide Closed, OwnManifests, Commits, WorkerOk;
    assert VersionOk(s, |s.log|);
  }

  // --- Termination ----------------------------------------------------------------------------------

  function PhaseRank(p: Phase): nat
  {
    match p
    case Start => 12
    case ReadMetadata => 11
    case CheckDuplicate(_) => 10
    case PutSegment => 9
    case PutManifest => 8
    case PutManifestList => 7
    case Reread => 6
    case RereadMetadata => 5
    case RecheckDuplicate(_) => 4
    case PutMetadata => 3
    case PutCurrent => 2
    case Done => 0
    case Failed(_) => 0
    case Crashed => 0
  }

  function ListsLeft(w: Worker): nat
  {
    if (w.phase.CheckDuplicate? || w.phase.RecheckDuplicate?) && w.phase.i <= |w.latest.manifestLists|
    then |w.latest.manifestLists| - w.phase.i else 0
  }

  /** Less work is left for `w'` than for `w`. */
  predicate CloserToEnd(w: Worker, w': Worker)
  {
    || w'.conflicts > w.conflicts
    || (w'.conflicts == w.conflicts && PhaseRank(w'.phase) < PhaseRank(w.phase))
    || (w'.conflicts == w.conflicts && PhaseRank(w'.phase) == PhaseRank(w.phase) && ListsLeft(w') < ListsLeft(w))
  }

  lemma StepCloser(store: Store, w: Worker, name: string)
    requires CanStep(w)
    requires w.phase.CheckDuplicate? || w.phase.RecheckDuplicate? ==> w.phase.i <= |w.latest.manifestLists|
    ensures CloserToEnd(w, WorkerStep(store, w, name).1)
  {
    hide FindColumn;
  }

  /** Every worker finishes after finitely many of its own operations, however the others
      interleave: conflicts are at most five, and between two of them each operation brings
      it closer to its end. */
  lemma WorkerTerminates(s: System, t: System, id: nat, name: string)
    requires Inv(s) && WorkerMoves(s, t, id, name)
    ensures CloserToEnd(s.workers[id], t.workers[id])
    ensures t.workers[id].conflicts <= 5
  {
    hide Closed, OwnManifests, Commits, CacheOk, Artifacts, ChargesOk, NotAmong, CloserToEnd, WorkerStep;
    var w := s.workers[id];
    assert WorkerOk(s, id, w);
    if w.phase.CheckDuplicate? || w.phase.RecheckDuplicate? {
      assert VersionOk(s, w.etag);
      assert w.phase.i <= w.etag == |w.latest.manifestLists|;
    }
    StepCloser(s.store, w, name);
    MoveKeeps(s, t, id, name);
    assert WorkerOk(t, id, t.workers[id]);
  }
}
