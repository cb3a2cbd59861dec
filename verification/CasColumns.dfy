/** What a worker's success means for its column. A batch id names the files of a batch and
    not the column they are indexed for, and the duplicate check compares batch ids only:
    a worker whose files were committed for another column reports success and indexes
    nothing. */
module CasColumns {
  import opened Cas
  import opened CasSafety
  import opened CasSharp

  // --- Which commits a batch can still get ------------------------------------------------------

  /** Some continuation has this worker commit: it is running, its column can be used, and
      the conflict it is bound to have, if what it read is out of date, is not its last. */
  predicate CanStillCommit(s: System, w: Worker)
  {
    && !Finished(w) && ColumnUsable(s, w.job.column)
    && w.conflicts + (if UpToDate(s, w) then 0 else 1) < MAX_RETRIES
  }

  lemma UsableStable(s: System, t: System, column: string)
    requires Inv(s) && Grows(s, t)
    ensures ColumnUsable(t, column) <==> ColumnUsable(s, column)
  {
    hide Closed, OwnManifests, CacheOk, Commits, WorkerOk, FindColumn;
    assert VersionOk(s, 0);
  }

  lemma EtagBound(s: System, id: nat)
    requires Inv(s) && id in s.workers && !Finished(s.workers[id]) && !UpToDate(s, s.workers[id])
    ensures s.workers[id].etag < |s.log|
  {
    hide Closed, OwnManifests, CacheOk, Commits, History, Artifacts, ChargesOk, NotAmong;
    assert WorkerOk(s, id, s.workers[id]);
  }

  /** A worker's own operation does not bring it closer to a commit it could not make. */
  lemma OwnMoveNoNearer(s: System, t: System, id: nat, name: string)
    requires Inv(s) && WorkerMoves(s, t, id, name) && CanStillCommit(t, t.workers[id])
    ensures CanStillCommit(s, s.workers[id])
  {
    hide Closed, OwnManifests, CacheOk, Commits, WorkerOk, VersionOk, FindColumn;
    WorkerMoveGrows(s, t, id, name);
    UsableStable(s, t, s.workers[id].job.column);
    hide ColumnUsable, Grows, AfterMetadata;
  }

  lemma OthersMoveNoNearer(s: System, t: System, id: nat)
    requires Inv(s) && Grows(s, t) && id in s.workers && t.workers[id] == s.workers[id] && CanStillCommit(t, t.workers[id])
    ensures CanStillCommit(s, s.workers[id])
  {
    UsableStable(s, t, s.workers[id].job.column);
    if !UpToDate(s, s.workers[id]) { EtagBound(s, id); }
  }

  /** A worker that can no longer commit never can again. */
  lemma NoNearer(s: System, t: System, id: nat)
    requires Inv(s) && Next(s, t) && id in s.workers && id in t.workers && CanStillCommit(t, t.workers[id])
    ensures CanStillCommit(s, s.workers[id])
  {
    hide Inv, Grows, WorkerStep, ColumnUsable, UpToDate;
    StepGrows(s, t);
    if name :| WorkerMoves(s, t, id, name) {
      OwnMoveNoNearer(s, t, id, name);
    } else if t.workers[id] == s.workers[id] {
      OthersMoveNoNearer(s, t, id);
    }
  }

  // --- Coverage ---------------------------------------------------------------------------------

  /** Commit `k` is the batch's only one. */
  ghost predicate OnlyCommitOf(s: System, batchId: string, k: nat)
  {
    && k < |s.log| && s.log[k].worker in s.workers && BatchAt(s, k) == batchId
    && forall j: nat | j < |s.log| && BatchAt(s, j) == batchId :: j == k
  }

  lemma OneCommit(s: System, batchId: string)
    requires Inv(s) && Committed(s, batchId)
    ensures exists k: nat :: OnlyCommitOf(s, batchId, k)
  {
    hide Closed, OwnManifests, CacheOk, WorkerOk, History;
    var k: nat :| k < |s.log| && BatchAt(s, k) == batchId;
    assert CommitOk(s, k);
    assert OnlyCommitOf(s, batchId, k);
  }

  lemma CoveredByAuthor(s: System, batchId: string, k: nat, column: string)
    requires Inv(s) && OnlyCommitOf(s, batchId, k)
    ensures CoversColumn(s, batchId, column) <==> s.workers[s.log[k].worker].job.column == column
  {
    hide Inv, CoversColumn;
    ColumnCoveredIff(s, batchId, column);
    if s.workers[s.log[k].worker].job.column == column { assert CommittedFor(s, k, batchId, column); }
  }

  /** In any run, a worker that reports success has its files indexed for its column exactly
      when the worker that made the batch's one commit was working for that column. */
  lemma DoneCoversIff(run: seq<System>, n: nat, id: nat)
    requires Run(run) && n < |run| && id in run[n].workers && run[n].workers[id].phase.Done?
    ensures var s, job := run[n], run[n].workers[id].job;
      exists k: nat :: OnlyCommitOf(s, job.batchId, k)
        && (CoversColumn(s, job.batchId, job.column) <==> s.workers[s.log[k].worker].job.column == job.column)
  {
    hide Run, CoversColumn, Closed, OwnManifests, CacheOk, History, Commits, OnlyCommitOf;
    RunKeeps(run, n);
    var s, job := run[n], run[n].workers[id].job;
    assert WorkerOk(s, id, s.workers[id]);
    OneCommit(s, job.batchId);
    var k: nat :| OnlyCommitOf(s, job.batchId, k);
    CoveredByAuthor(s, job.batchId, k, job.column);
  }

  lemma CoverageStays(s: System, t: System, batchId: string, column: string)
    requires Inv(s) && Inv(t) && Grows(s, t) && CoversColumn(s, batchId, column)
    ensures CoversColumn(t, batchId, column)
  {
    hide CoversColumn;
    ColumnCoveredIff(s, batchId, column);
    ColumnCoveredIff(t, batchId, column);
    var k: nat :| CommittedFor(s, k, batchId, column);
    hide Inv;
    assert t.log[k] == s.log[k];
    assert CommittedFor(t, k, batchId, column);
  }

  lemma NoNewCoverage(s: System, t: System, batchId: string, column: string)
    requires Inv(s) && Inv(t) && Grows(s, t) && t.log == s.log && CoversColumn(t, batchId, column)
    ensures CoversColumn(s, batchId, column)
  {
    hide CoversColumn;
    ColumnCoveredIff(s, batchId, column);
    ColumnCoveredIff(t, batchId, column);
    var k: nat :| CommittedFor(t, k, batchId, column);
    assert CommitOk(s, k);
    hide Inv;
    assert CommittedFor(s, k, batchId, column);
  }

  // --- When success means coverage ------------------------------------------------------------------

  /** No worker can still commit these files for another column. */
  ghost predicate NoRival(s: System, batchId: string, column: string)
  {
    forall r | r in s.workers && s.workers[r].job.batchId == batchId && s.workers[r].job.column != column ::
      !CanStillCommit(s, s.workers[r])
  }

  /** The files have only been committed for this column, and can only be. */
  ghost predicate Exclusive(s: System, batchId: string, column: string)
  {
    && NoRival(s, batchId, column)
    && forall k: nat | k < |s.log| && BatchAt(s, k) == batchId :: CommittedFor(s, k, batchId, column)
  }

  /** A worker that commits could still commit before. */
  lemma CommitterCould(s: System, t: System, id: nat, name: string)
    requires Inv(s) && ColumnsOk(s) && WorkerMoves(s, t, id, name) && t.log != s.log
    ensures CanStillCommit(s, s.workers[id])
    ensures |t.log| == |s.log| + 1 && t.log[|s.log|].worker == id
  {
    hide Closed, OwnManifests, CacheOk, Commits, Artifacts, ChargesOk, VersionOk, NotAmong, FindColumn;
    assert WorkerOk(s, id, s.workers[id]);
    assert PastColumnCheck(s.workers[id]);
    hide ColumnUsable, AfterMetadata, AfterCheck;
  }

  lemma NoRivalStays(s: System, t: System, batchId: string, column: string)
    requires Inv(s) && Next(s, t) && Grows(s, t) && NoRival(s, batchId, column)
    ensures NoRival(t, batchId, column)
  {
    hide Inv, Next, CanStillCommit;
    forall r | r in t.workers && t.workers[r].job.batchId == batchId && t.workers[r].job.column != column
      ensures !CanStillCommit(t, t.workers[r])
    {
      if CanStillCommit(t, t.workers[r]) { NoNearer(s, t, r); }
    }
  }

  lemma ExclusiveStep(s: System, t: System, batchId: string, column: string)
    requires Inv(s) && ColumnsOk(s) && Next(s, t) && Exclusive(s, batchId, column)
    ensures Exclusive(t, batchId, column)
  {
    hide Inv, ColumnsOk, CanStillCommit, Grows;
    StepGrows(s, t);
    NoRivalStays(s, t, batchId, column);
    forall k: nat | k < |t.log| && BatchAt(t, k) == batchId ensures CommittedFor(t, k, batchId, column) {
      if k < |s.log| {
        BatchKept(s, t, k);
        OldCommit(s, t, k, batchId, column);
      } else {
        hide Grows;
        var id, name :| WorkerMoves(s, t, id, name);
        CommitterCould(s, t, id, name);
        NewCommit(s, t, id, batchId, column);
      }
    }
  }

  lemma OldCommit(s: System, t: System, k: nat, batchId: string, column: string)
    requires Grows(s, t) && CommittedFor(s, k, batchId, column)
    ensures CommittedFor(t, k, batchId, column)
  {
    assert t.log[k] == s.log[k];
  }

  lemma NewCommit(s: System, t: System, id: nat, batchId: string, column: string)
    requires Grows(s, t) && id in s.workers && CanStillCommit(s, s.workers[id]) && NoRival(s, batchId, column)
    requires |t.log| == |s.log| + 1 && t.log[|s.log|].worker == id && BatchAt(t, |s.log|) == batchId
    ensures CommittedFor(t, |s.log|, batchId, column)
  {
    hide CanStillCommit;
  }

  lemma {:induction false} ExclusiveRun(run: seq<System>, i: nat, j: nat, batchId: string, column: string)
    requires Run(run) && i <= j < |run| && Exclusive(run[i], batchId, column)
    ensures Exclusive(run[j], batchId, column)
    decreases j
  {
    hide Init, Next, Inv, ColumnsOk, Exclusive;
    if i < j {
      ExclusiveRun(run, i, j - 1, batchId, column);
      RunKeeps(run, j - 1);
      ColumnsAreChecked(run, j - 1);
      ExclusiveStep(run[j - 1], run[j - 1 + 1], batchId, column);
    }
  }

  // --- A worker that commits ----------------------------------------------------------------------

  /** A worker with conflicts to spare has not given up. */
  lemma Ready(s: System, id: nat)
    requires Inv(s) && id in s.workers && AtEnd(s.workers[id]) && s.workers[id].conflicts < MAX_RETRIES
    ensures s.workers[id].phase.PutCurrent?
  {
    hide Closed, OwnManifests, CacheOk, Commits, History;
    assert WorkerOk(s, id, s.workers[id]);
  }

  /** The worker can commit, and nobody has committed its files. */
  ghost predicate Free(s: System, id: nat)
  {
    id in s.workers && CanStillCommit(s, s.workers[id]) && !Committed(s, s.workers[id].job.batchId)
  }

  /** From `s` to `t` only worker `id` acted, and it committed. */
  ghost predicate OnlyCommitted(s: System, t: System, id: nat)
  {
    && Grows(s, t) && OthersIdle(s, t, id, id) && id in s.workers
    && |t.log| == |s.log| + 1 && t.log[|s.log|].worker == id && BatchAt(t, |s.log|) == s.workers[id].job.batchId
  }

  lemma CommitsAtOnce(run: seq<System>, id: nat) returns (longer: seq<System>)
    requires Run(run) && Eager(run[|run| - 1], id) && run[|run| - 1].workers[id].conflicts < MAX_RETRIES
    ensures Run(longer) && run <= longer && OnlyCommitted(run[|run| - 1], longer[|longer| - 1], id)
  {
    hide Init, Next, Willing, UpToDate, Grows, Inv, BatchAt;
    var s := run[|run| - 1];
    EagerIsThere(s, id);
    var driven := Drive(run, id);
    var t := driven[|driven| - 1];
    RunKeeps(driven, |driven| - 1);
    Ready(t, id);
    longer := Win(driven, id);
    SameJob(s, t, id);
    GrowsTwice(s, t, longer[|longer| - 1]);
  }

  lemma EagerIsThere(s: System, id: nat)
    requires Eager(s, id)
    ensures id in s.workers
  {}

  /** A worker that lost its conditional PUT will try again. */
  lemma LostStillTries(s: System, t: System, id: nat)
    requires Inv(s) && Grows(s, t) && t.log == s.log && Willing(s, id) && t.workers[id].phase.Reread?
    ensures Eager(t, id)
  {
    SameCommitted(s, t, s.workers[id].job.batchId);
    UsableStable(s, t, s.workers[id].job.column);
  }

  lemma LosesThenCommits(run: seq<System>, id: nat) returns (longer: seq<System>)
    requires Run(run) && Willing(run[|run| - 1], id)
    requires var w := run[|run| - 1].workers[id];
      w.phase.PutCurrent? && w.etag < |run[|run| - 1].log| && w.conflicts + 1 < MAX_RETRIES
    ensures Run(longer) && run <= longer && OnlyCommitted(run[|run| - 1], longer[|longer| - 1], id)
  {
    hide Init, Next, Grows, Inv, BatchAt, Willing, UpToDate, ColumnUsable, Committed;
    var s := run[|run| - 1];
    WillingIsRunning(s, id);
    RunKeeps(run, |run| - 1);
    longer := Lose(run, id);
    var t := longer[|longer| - 1];
    LostStillTries(s, t, id);
    longer := CommitsAtOnce(longer, id);
    SameJob(s, t, id);
    GrowsTwice(s, t, longer[|longer| - 1]);
  }

  /** A worker that can still commit does so when it runs alone: at its first conditional
      PUT, or at the one after. */
  lemma RunsAndCommits(run: seq<System>, id: nat) returns (longer: seq<System>)
    requires Run(run) && Free(run[|run| - 1], id)
    ensures Run(longer) && run <= longer && OnlyCommitted(run[|run| - 1], longer[|longer| - 1], id)
  {
    hide Init, Next, Grows, Inv, BatchAt, Committed, ColumnUsable, UpToDate;
    var s := run[|run| - 1];
    var driven := Drive(run, id);
    var t := driven[|driven| - 1];
    RunKeeps(driven, |driven| - 1);
    Ready(t, id);
    if UpToDate(t, t.workers[id]) {
      longer := Win(driven, id);
    } else {
      EtagBound(t, id);
      longer := LosesThenCommits(driven, id);
    }
    SameJob(s, t, id);
    GrowsTwice(s, t, longer[|longer| - 1]);
  }

  // --- A worker that finds its batch committed ------------------------------------------------------

  /** The worker will find its batch among the committed ones, or has. */
  ghost predicate WillFind(s: System, id: nat)
  {
    && id in s.workers && ColumnUsable(s, s.workers[id].job.column) && Committed(s, s.workers[id].job.batchId)
    && Finding(s.workers[id], |s.log|)
  }

  predicate Finding(w: Worker, commits: nat)
  {
    w.phase.Start? || w.phase.Done? || ((w.phase.ReadMetadata? || w.phase.CheckDuplicate?) && w.etag == commits)
  }

  lemma FindReads(s: System, id: nat, w: Worker, name: string)
    requires Inv(s) && WillFind(s, id) && w == s.workers[id] && (w.phase.Start? || w.phase.ReadMetadata?)
    ensures var (store, w') := WorkerStep(s.store, w, name); store == s.store && w' == w.(phase := w'.phase, etag := w'.etag, pointer := w'.pointer, latest := w'.latest) && Finding(w', |s.log|)
  {
    hide Closed, OwnManifests, CacheOk, Commits, FindColumn, Committed;
    assert WorkerOk(s, id, w);
    if w.phase.ReadMetadata? { assert VersionOk(s, w.etag); }
  }

  lemma FindChecks(s: System, id: nat, w: Worker, name: string)
    requires Inv(s) && WillFind(s, id) && w == s.workers[id] && w.phase.CheckDuplicate?
    ensures var (store, w') := WorkerStep(s.store, w, name); store == s.store && w' == w.(phase := w'.phase, etag := w'.etag, pointer := w'.pointer, latest := w'.latest) && Finding(w', |s.log|)
  {
    hide Closed, OwnManifests, CacheOk, Commits, FindColumn, Artifacts, ChargesOk, ColumnUsable;
    assert WorkerOk(s, id, w);
    assert VersionOk(s, w.etag);
    if w.phase.i < w.etag {
      assert w.latest.manifestLists[w.phase.i] == s.log[w.phase.i].listPath;
      ListOfCommit(s, w.phase.i);
    }
    hide WorkerOk, History;
  }

  lemma FindStep(s: System, id: nat, name: string)
    requires Inv(s) && WillFind(s, id) && !s.workers[id].phase.Done? && CanStep(s.workers[id]) && name !in s.store.objects
    ensures var t := Move(s, id, name);
      && WorkerMoves(s, t, id, name) && WillFind(t, id) && t.log == s.log
      && CloserToEnd(s.workers[id], t.workers[id]) && t.workers[id].conflicts == s.workers[id].conflicts
  {
    var w, t := s.workers[id], Move(s, id, name);
    CheckBound(s, id, w);
    StepCloser(s.store, w, name);
    hide Inv, WorkerStep, CloserToEnd, ColumnUsable, Committed, Grows;
    if w.phase.CheckDuplicate? { FindChecks(s, id, w, name); } else { FindReads(s, id, w, name); }
    assert WorkerMoves(s, t, id, name);
    WorkerMoveGrows(s, t, id, name);
    UsableStable(s, t, w.job.column);
    SameBatches(s, t, w.job.batchId);
  }

  lemma SameBatches(s: System, t: System, batchId: string)
    requires Inv(s) && Grows(s, t) && t.log == s.log
    ensures Committed(t, batchId) <==> Committed(s, batchId)
  {
    SameCommitted(s, t, batchId);
  }

  lemma FindOnce(run: seq<System>, id: nat) returns (longer: seq<System>)
    requires Run(run) && WillFind(run[|run| - 1], id) && !run[|run| - 1].workers[id].phase.Done?
    ensures Run(longer) && run <= longer && WillFind(longer[|longer| - 1], id)
    ensures var s, t := run[|run| - 1], longer[|longer| - 1];
      t.log == s.log && CloserToEnd(s.workers[id], t.workers[id]) && t.workers[id].conflicts == s.workers[id].conflicts
  {
    hide Init, Next, Inv, CanStep, Committed, ColumnUsable, WorkerMoves, CloserToEnd, Move;
    var s := run[|run| - 1];
    RunKeeps(run, |run| - 1);
    CanStepNow(s, id);
    var name := FreshName(s.store.objects);
    FindStep(s, id, name);
    longer := RunMove(run, id, name);
  }

  lemma WillFindHas(s: System, id: nat)
    requires WillFind(s, id)
    ensures id in s.workers
  {}

  /** A worker that starts when its batch has been committed reports success and commits nothing. */
  lemma {:induction false} FindsDuplicate(run: seq<System>, id: nat) returns (longer: seq<System>)
    requires Run(run) && WillFind(run[|run| - 1], id)
    ensures Run(longer) && run <= longer && longer[|longer| - 1].log == run[|run| - 1].log
    ensures id in longer[|longer| - 1].workers && longer[|longer| - 1].workers[id].phase.Done?
    decreases PhaseRank(run[|run| - 1].workers[id].phase), ListsLeft(run[|run| - 1].workers[id])
  {
    hide Init, Next, WillFind, PhaseRank, ListsLeft;
    WillFindHas(run[|run| - 1], id);
    longer := run;
    if !run[|run| - 1].workers[id].phase.Done? {
      longer := FindOnce(run, id);
      longer := FindsDuplicate(longer, id);
    }
  }

  // --- The exact condition --------------------------------------------------------------------------

  /** If the worker has reported success, its files are indexed for its column. */
  ghost predicate CoveredAtEnd(run: seq<System>, id: nat)
  {
    run != [] && id in run[|run| - 1].workers
    && var s := run[|run| - 1];
       s.workers[id].phase.Done? ==> CoversColumn(s, s.workers[id].job.batchId, s.workers[id].job.column)
  }

  /** However the run goes on, success means coverage. */
  ghost predicate AlwaysCovered(run: seq<System>, id: nat)
  {
    forall longer: seq<System> | Run(longer) && run <= longer :: CoveredAtEnd(longer, id)
  }

  /** What can be checked before a worker starts: its column cannot be used, or its files are
      indexed for it already, or they are committed for no column and no worker that can
      still commit them is working for another. */
  ghost predicate SafeToStart(s: System, id: nat)
  {
    id in s.workers
    && var job := s.workers[id].job;
       || !ColumnUsable(s, job.column)
       || CoversColumn(s, job.batchId, job.column)
       || (!Committed(s, job.batchId) && NoRival(s, job.batchId, job.column))
  }

  lemma DoneIsCommitted(s: System, id: nat)
    requires Inv(s) && id in s.workers && s.workers[id].phase.Done?
    ensures Committed(s, s.workers[id].job.batchId)
  {
    hide Closed, OwnManifests, CacheOk, Commits, History;
    assert WorkerOk(s, id, s.workers[id]);
  }

  lemma ExclusiveCovers(s: System, batchId: string, column: string)
    requires Inv(s) && Committed(s, batchId) && Exclusive(s, batchId, column)
    ensures CoversColumn(s, batchId, column)
  {
    hide Inv, CoversColumn;
    var k: nat :| k < |s.log| && BatchAt(s, k) == batchId;
    assert CommittedFor(s, k, batchId, column);
    ColumnCoveredIff(s, batchId, column);
  }

  lemma SafeIsCovered(run: seq<System>, longer: seq<System>, id: nat)
    requires Run(run) && Run(longer) && run <= longer && SafeToStart(run[|run| - 1], id)
    ensures CoveredAtEnd(longer, id)
  {
    hide Init, Next, Inv, ColumnUsable, CoversColumn, Committed, NoRival, Grows;
    var i, j := |run| - 1, |longer| - 1;
    var s, t := longer[i], longer[j];
    assert s == run[i];
    RunKeeps(longer, i);
    RunKeeps(longer, j);
    RunGrows(longer, i, j);
    SameJob(s, t, id);
    if t.workers[id].phase.Done? {
      var job := s.workers[id].job;
      ColumnsAreChecked(longer, j);
      UsableStable(s, t, job.column);
      if CoversColumn(s, job.batchId, job.column) {
        CoverageStays(s, t, job.batchId, job.column);
      } else {
        NeverCommitted(s, job.batchId, job.column);
        ExclusiveRun(longer, i, j, job.batchId, job.column);
        DoneIsCommitted(t, id);
        ExclusiveCovers(t, job.batchId, job.column);
      }
    }
  }

  lemma NeverCommitted(s: System, batchId: string, column: string)
    requires !Committed(s, batchId) && NoRival(s, batchId, column)
    ensures Exclusive(s, batchId, column)
  {
    hide NoRival, BatchAt;
  }

  /** A commit for one column does not cover another. */
  lemma CommittedForAnother(s: System, t: System, r: nat, column: string)
    requires Inv(s) && Inv(t) && OnlyCommitted(s, t, r) && !Committed(s, s.workers[r].job.batchId)
    requires s.workers[r].job.column != column
    ensures Committed(t, s.workers[r].job.batchId) && !CoversColumn(t, s.workers[r].job.batchId, column)
    ensures t.workers[r].phase.Done? && CoversColumn(t, s.workers[r].job.batchId, s.workers[r].job.column)
  {
    hide CoversColumn, Closed, OwnManifests, CacheOk, WorkerOk, History, Grows, BatchAt;
    var job, n := s.workers[r].job, |s.log|;
    SameJob(s, t, r);
    assert CommitOk(t, n);
    ColumnCoveredIff(t, job.batchId, column);
    ColumnCoveredIff(t, job.batchId, job.column);
    assert CommittedFor(t, n, job.batchId, job.column);
    if k: nat :| CommittedFor(t, k, job.batchId, column) {
      if k < n { BatchKept(s, t, k); }
    }
  }

  lemma SameCoverage(s: System, t: System, batchId: string, column: string)
    requires Inv(s) && Inv(t) && Grows(s, t) && t.log == s.log
    ensures CoversColumn(t, batchId, column) <==> CoversColumn(s, batchId, column)
  {
    hide Inv, Grows, CoversColumn;
    if CoversColumn(s, batchId, column) { CoverageStays(s, t, batchId, column); }
    if CoversColumn(t, batchId, column) { NoNewCoverage(s, t, batchId, column); }
  }

  lemma AuthorIsDone(s: System, k: nat)
    requires Inv(s) && k < |s.log|
    ensures s.log[k].worker in s.workers && s.workers[s.log[k].worker].phase.Done?
  {
    hide Closed, OwnManifests, CacheOk, WorkerOk, History;
    assert CommitOk(s, k);
  }

  /** Behind a worker that commits the same files for another column. */
  lemma BehindRival(run: seq<System>, id: nat, r: nat) returns (longer: seq<System>)
    requires Run(run) && Free(run[|run| - 1], r) && id in run[|run| - 1].workers
    requires var s := run[|run| - 1];
      && s.workers[id].phase.Start? && ColumnUsable(s, s.workers[id].job.column)
      && s.workers[r].job.batchId == s.workers[id].job.batchId && s.workers[r].job.column != s.workers[id].job.column
    ensures Run(longer) && run <= longer && !CoveredAtEnd(longer, id)
    ensures var t := longer[|longer| - 1];
      && r in t.workers && t.workers[r].phase.Done?
      && CoversColumn(t, t.workers[r].job.batchId, t.workers[r].job.column)
  {
    hide Init, Next, Inv, ColumnUsable, CoversColumn, Committed, Grows, CanStillCommit;
    var s := run[|run| - 1];
    var job := s.workers[id].job;
    var won := RunsAndCommits(run, r);
    var t := won[|won| - 1];
    RunKeeps(won, |run| - 1);
    RunKeeps(won, |won| - 1);
    CommittedForAnother(s, t, r, job.column);
    UsableStable(s, t, job.column);
    longer := FindsDuplicate(won, id);
    var u := longer[|longer| - 1];
    RunKeeps(longer, |longer| - 1);
    assert longer[|won| - 1] == t;
    RunGrows(longer, |won| - 1, |longer| - 1);
    SameJob(t, u, id);
    SameJob(s, t, r);
    SameJob(t, u, r);
    SameCoverage(t, u, job.batchId, job.column);
    SameCoverage(t, u, job.batchId, s.workers[r].job.column);
    AuthorIsDone(u, |s.log|);
  }

  /** A worker that is not safe to start can end in success without coverage. */
  lemma UnsafeIsSkipped(run: seq<System>, id: nat) returns (longer: seq<System>)
    requires Run(run) && id in run[|run| - 1].workers && run[|run| - 1].workers[id].phase.Start?
    requires !SafeToStart(run[|run| - 1], id)
    ensures Run(longer) && run <= longer && !CoveredAtEnd(longer, id)
  {
    hide Init, Next, Inv, ColumnUsable, CoversColumn, Committed, Grows, CanStillCommit;
    var s := run[|run| - 1];
    var job := s.workers[id].job;
    RunKeeps(run, |run| - 1);
    if Committed(s, job.batchId) {
      longer := FindsDuplicate(run, id);
      var t := longer[|longer| - 1];
      RunKeeps(longer, |longer| - 1);
      assert longer[|run| - 1] == s;
      RunGrows(longer, |run| - 1, |longer| - 1);
      SameJob(s, t, id);
      SameCoverage(s, t, job.batchId, job.column);
    } else {
      var r :| r in s.workers && s.workers[r].job.batchId == job.batchId && s.workers[r].job.column != job.column
               && CanStillCommit(s, s.workers[r]);
      longer := BehindRival(run, id, r);
    }
  }

  /** From any point of any run, a worker that starts there has its files indexed for its
      column whenever it reports success, however the run goes on, if and only if it was
      safe to start. */
  lemma SuccessCoversIff(run: seq<System>, id: nat)
    requires Run(run) && id in run[|run| - 1].workers && run[|run| - 1].workers[id].phase.Start?
    ensures AlwaysCovered(run, id) <==> SafeToStart(run[|run| - 1], id)
  {
    hide Init, Next, SafeToStart, CoveredAtEnd;
    if SafeToStart(run[|run| - 1], id) {
      forall longer: seq<System> | Run(longer) && run <= longer ensures CoveredAtEnd(longer, id) {
        SafeIsCovered(run, longer, id);
      }
    } else {
      var longer := UnsafeIsSkipped(run, id);
    }
  }

  /** Two workers with the same files and different columns of a new table: there is a run in
      which both report success, and the files are indexed for the first column only. */
  lemma SecondColumnIsSkipped(s: System, first: nat, second: nat) returns (run: seq<System>)
    requires Init(s) && first in s.workers && second in s.workers
    requires var a, b := s.workers[first].job, s.workers[second].job;
      && a.batchId == b.batchId && a.column != b.column && ColumnUsable(s, a.column) && ColumnUsable(s, b.column)
    ensures Run(run) && run[0] == s
    ensures var t, a, b := run[|run| - 1], s.workers[first].job, s.workers[second].job;
      && first in t.workers && t.workers[first].phase.Done? && CoversColumn(t, a.batchId, a.column)
      && second in t.workers && t.workers[second].phase.Done? && !CoversColumn(t, b.batchId, b.column)
  {
    InitRun(s);
    InitFree(s, first);
    hide Init, Next, CoversColumn, Free, ColumnUsable;
    run := BehindRival([s], second, first);
    RunGrows(run, 0, |run| - 1);
  }

  lemma InitFree(s: System, id: nat)
    requires Init(s) && id in s.workers && ColumnUsable(s, s.workers[id].job.column)
    ensures Free(s, id)
  {
    hide FindColumn;
  }
}
