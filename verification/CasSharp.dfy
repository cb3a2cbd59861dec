/** The bound on conflicts is sharp: with six workers the retry loop can give up. */
module CasSharp {
  import opened Cas
  import opened CasSafety

  /** The state after worker `id`'s next operation. */
  function Move(s: System, id: nat, name: string): System
    requires id in s.workers && CanStep(s.workers[id])
  {
    var w := s.workers[id];
    var (store, w') := WorkerStep(s.store, w, name);
    s.(store := store, workers := s.workers[id := w'],
       log := if w.phase.PutCurrent? && w'.phase.Done? then s.log + [Commit(id, w.metadataPath, w.listPath.value)] else s.log)
  }

  /** What the worker has read is current, or it is about to read. */
  predicate UpToDate(s: System, w: Worker)
  {
    w.phase.Start? || w.phase.Reread? || w.etag == |s.log|
  }

  /** The worker will try to commit: its batch is not committed and its column can be used. */
  ghost predicate Willing(s: System, id: nat)
  {
    && id in s.workers
    && !Finished(s.workers[id]) && !Committed(s, s.workers[id].job.batchId) && ColumnUsable(s, s.workers[id].job.column)
  }

  /** The worker will try to commit, and what it has read is current. */
  ghost predicate Eager(s: System, id: nat)
  {
    Willing(s, id) && UpToDate(s, s.workers[id])
  }

  /** Only worker `id` has acted, and it has not committed. */
  ghost predicate OnlyActed(s: System, t: System, id: nat)
  {
    && Grows(s, t) && t.log == s.log && t.store.etag == s.store.etag
    && id in s.workers && t.workers == s.workers[id := t.workers[id]]
    && t.workers[id].conflicts == s.workers[id].conflicts
  }

  predicate AtEnd(w: Worker) { w.phase.PutCurrent? || w.phase == Failed(TooManyConflicts) }

  lemma CanStepNow(s: System, id: nat)
    requires Inv(s) && id in s.workers && !Finished(s.workers[id])
    ensures CanStep(s.workers[id])
  {
    hide Closed, OwnManifests, CacheOk, Commits, History;
    assert WorkerOk(s, id, s.workers[id]);
  }

  /** A willing worker neither fails nor finds a duplicate. */
  ghost predicate StaysWilling(s: System, w: Worker, w': Worker)
  {
    && w'.job == w.job && w'.conflicts == w.conflicts
    && (AtEnd(w') || !Finished(w'))
    && (UpToDate(s, w) && !w'.phase.Failed? ==> UpToDate(s, w'))
  }

  lemma WillingReads(s: System, id: nat, w: Worker, name: string)
    requires Inv(s) && Willing(s, id) && w == s.workers[id] && CanStep(w)
    requires w.phase.ReadMetadata? || w.phase.RereadMetadata?
    ensures StaysWilling(s, w, WorkerStep(s.store, w, name).1)
  {
    hide Closed, OwnManifests, CacheOk, Commits, FindColumn, Committed;
    assert WorkerOk(s, id, w);
    assert VersionOk(s, w.etag);
  }

  lemma WillingChecks(s: System, id: nat, w: Worker, name: string)
    requires Inv(s) && Willing(s, id) && w == s.workers[id] && CanStep(w)
    requires w.phase.CheckDuplicate? || w.phase.RecheckDuplicate?
    ensures StaysWilling(s, w, WorkerStep(s.store, w, name).1)
  {
    hide Closed, OwnManifests, CacheOk, Commits, FindColumn, Artifacts, ChargesOk, NotAmong;
    var i := w.phase.i;
    assert WorkerOk(s, id, w);
    assert VersionOk(s, w.etag);
    assert |w.latest.manifestLists| == w.etag && w.conflicts <= MAX_RETRIES;
    if i < w.etag {
      assert w.latest.manifestLists[i] == s.log[i].listPath;
      ListOfCommit(s, i);
      assert BatchAt(s, i) != w.job.batchId;
    }
    hide WorkerOk, History, Committed;
  }

  lemma WillingOther(s: System, id: nat, w: Worker, name: string)
    requires Inv(s) && Willing(s, id) && w == s.workers[id] && CanStep(w)
    requires w.phase.Start? || w.phase.Reread? || Putting(w)
    ensures StaysWilling(s, w, WorkerStep(s.store, w, name).1)
  {
    hide Closed, OwnManifests, CacheOk, Commits, WorkerOk, Committed, ColumnUsable, VersionOk;
  }

  lemma WillingWorker(s: System, id: nat, w: Worker, name: string)
    requires Inv(s) && Willing(s, id) && w == s.workers[id] && CanStep(w) && !AtEnd(w)
    ensures StaysWilling(s, w, WorkerStep(s.store, w, name).1)
    ensures CloserToEnd(w, WorkerStep(s.store, w, name).1)
  {
    CheckBound(s, id, w);
    StepCloser(s.store, w, name);
    hide Inv, StaysWilling, WorkerStep, CloserToEnd, Committed, ColumnUsable;
    if w.phase.ReadMetadata? || w.phase.RereadMetadata? {
      WillingReads(s, id, w, name);
    } else if w.phase.CheckDuplicate? || w.phase.RecheckDuplicate? {
      WillingChecks(s, id, w, name);
    } else {
      WillingOther(s, id, w, name);
    }
  }

  lemma CheckBound(s: System, id: nat, w: Worker)
    requires Inv(s) && id in s.workers && w == s.workers[id]
    ensures w.phase.CheckDuplicate? || w.phase.RecheckDuplicate? ==> w.phase.i <= |w.latest.manifestLists|
  {
    hide Closed, OwnManifests, CacheOk, Commits, Artifacts, ChargesOk, NotAmong;
    assert WorkerOk(s, id, w);
    if w.phase.CheckDuplicate? || w.phase.RecheckDuplicate? { assert VersionOk(s, w.etag); }
  }

  lemma SameCommitted(s: System, t: System, batchId: string)
    requires Grows(s, t) && Commits(s) && t.log == s.log
    ensures Committed(t, batchId) <==> Committed(s, batchId)
  {
    forall k | 0 <= k < |s.log| ensures BatchAt(t, k) == BatchAt(s, k) {
      assert CommitOk(s, k);
      BatchStable(s, t, k);
    }
  }

  /** The worker is as willing, and as up to date, as it was. */
  ghost predicate KeepsTrying(s: System, t: System, id: nat)
  {
    Willing(t, id) && (Eager(s, id) ==> Eager(t, id))
  }

  /** One operation of a willing worker. */
  lemma WillingStep(s: System, id: nat, name: string)
    requires Inv(s) && Willing(s, id) && !AtEnd(s.workers[id]) && CanStep(s.workers[id]) && name !in s.store.objects
    ensures var t := Move(s, id, name);
      && WorkerMoves(s, t, id, name) && OnlyActed(s, t, id) && CloserToEnd(s.workers[id], t.workers[id])
      && (t.workers[id].phase != Failed(TooManyConflicts) ==> KeepsTrying(s, t, id))
  {
    hide Closed, OwnManifests, CacheOk, History, WorkerOk, CloserToEnd, Commits, Committed, FindColumn;
    var t, w := Move(s, id, name), s.workers[id];
    WillingWorker(s, id, w, name);
    StoreOnly(s.store, w, name);
    hide WorkerStep;
    assert WorkerMoves(s, t, id, name);
    WorkerMoveGrows(s, t, id, name);
    SameCommitted(s, t, w.job.batchId);
  }

  lemma StoreOnly(store: Store, w: Worker, name: string)
    requires CanStep(w) && !w.phase.PutCurrent?
    ensures WorkerStep(store, w, name).0.etag == store.etag
  {}

  // --- Building runs ---------------------------------------------------------------------------

  lemma {:induction false} LongName(keys: set<string>) returns (n: nat)
    ensures forall k | k in keys :: |k| < n
    decreases |keys|
  {
    if keys == {} {
      n := 0;
    } else {
      var k :| k in keys;
      n := LongName(keys - {k});
      if n <= |k| { n := |k| + 1; }
    }
  }

  /** There is always a name that no object has. */
  lemma FreshName(objects: map<string, Object>) returns (name: string)
    ensures name !in objects
  {
    var n := LongName(objects.Keys);
    name := seq(n, _ => 'x');
    assert |name| == n && name !in objects.Keys;
  }

  lemma RunMove(run: seq<System>, id: nat, name: string) returns (longer: seq<System>)
    requires Run(run) && id in run[|run| - 1].workers && CanStep(run[|run| - 1].workers[id])
    requires name !in run[|run| - 1].store.objects
    ensures Run(longer) && run <= longer && longer[|longer| - 1] == Move(run[|run| - 1], id, name)
  {
    var s := run[|run| - 1];
    var t := Move(s, id, name);
    assert WorkerMoves(s, t, id, name);
    assert Next(s, t);
    hide Next, Init;
    longer := run + [t];
    assert forall k | 0 <= k < |run| :: longer[k] == run[k];
  }

  lemma OnlyActedTwice(a: System, b: System, c: System, id: nat)
    requires OnlyActed(a, b, id) && OnlyActed(b, c, id)
    ensures OnlyActed(a, c, id)
  {}

  lemma WillingIsRunning(s: System, id: nat)
    requires Willing(s, id)
    ensures id in s.workers && !Finished(s.workers[id])
  {}

  lemma DriveOnce(run: seq<System>, id: nat) returns (longer: seq<System>)
    requires Run(run) && Willing(run[|run| - 1], id) && !AtEnd(run[|run| - 1].workers[id])
    ensures Run(longer) && run <= longer
    ensures var s, t := run[|run| - 1], longer[|longer| - 1];
      && OnlyActed(s, t, id) && CloserToEnd(s.workers[id], t.workers[id])
      && (t.workers[id].phase != Failed(TooManyConflicts) ==> KeepsTrying(s, t, id))
  {
    hide Init, Next, Inv, CanStep, Committed, CloserToEnd, WorkerMoves, Move, ColumnUsable, OnlyActed, KeepsTrying;
    var s := run[|run| - 1];
    WillingIsRunning(s, id);
    RunKeeps(run, |run| - 1);
    CanStepNow(s, id);
    var name := FreshName(s.store.objects);
    WillingStep(s, id, name);
    longer := RunMove(run, id, name);
  }

  /** A willing worker runs alone until it is about to replace the pointer, or gives up. */
  lemma {:induction false} Drive(run: seq<System>, id: nat) returns (longer: seq<System>)
    requires Run(run) && Willing(run[|run| - 1], id)
    ensures Run(longer) && run <= longer
    ensures var s, t := run[|run| - 1], longer[|longer| - 1];
      && OnlyActed(s, t, id) && AtEnd(t.workers[id]) && (t.workers[id].phase.PutCurrent? ==> KeepsTrying(s, t, id))
    decreases PhaseRank(run[|run| - 1].workers[id].phase), ListsLeft(run[|run| - 1].workers[id])
  {
    hide Init, Next, Willing, UpToDate, Grows, ListsLeft, PhaseRank;
    var s := run[|run| - 1];
    WillingIsRunning(s, id);
    if AtEnd(s.workers[id]) {
      longer := run;
      OnlyActedNone(s, id);
    } else {
      var next := DriveOnce(run, id);
      var t := next[|next| - 1];
      if AtEnd(t.workers[id]) {
        longer := next;
      } else {
        longer := Drive(next, id);
        OnlyActedTwice(s, t, longer[|longer| - 1], id);
      }
    }
  }

  lemma OnlyActedNone(s: System, id: nat)
    requires id in s.workers
    ensures OnlyActed(s, s, id)
  {}

  // --- The adversary's schedule -------------------------------------------------------------------

  /** Workers other than `a` and `b` are as they were. */
  predicate OthersIdle(s: System, t: System, a: nat, b: nat)
  {
    s.workers.Keys == t.workers.Keys && forall o | o in s.workers && o != a && o != b :: t.workers[o] == s.workers[o]
  }

  /** A conditional PUT with the current ETag. */
  lemma Win(run: seq<System>, id: nat) returns (longer: seq<System>)
    requires Run(run) && Eager(run[|run| - 1], id) && run[|run| - 1].workers[id].phase.PutCurrent?
    ensures Run(longer) && run <= longer
    ensures var s, t := run[|run| - 1], longer[|longer| - 1];
      && Grows(s, t) && OthersIdle(s, t, id, id)
      && |t.log| == |s.log| + 1 && t.log[|s.log|].worker == id && BatchAt(t, |s.log|) == s.workers[id].job.batchId
  {
    hide Init, Next, Committed, ColumnUsable, Closed, OwnManifests, CacheOk, Commits, WorkerOk;
    var s := run[|run| - 1];
    RunKeeps(run, |run| - 1);
    CanStepNow(s, id);
    var name := FreshName(s.store.objects);
    longer := RunMove(run, id, name);
    assert WorkerMoves(s, longer[|longer| - 1], id, name);
    WorkerMoveGrows(s, longer[|longer| - 1], id, name);
  }

  /** A conditional PUT with an ETag that is no longer current. */
  lemma Lose(run: seq<System>, id: nat) returns (longer: seq<System>)
    requires Run(run) && id in run[|run| - 1].workers
    requires var s := run[|run| - 1]; s.workers[id].phase.PutCurrent? && s.workers[id].etag < |s.log|
    ensures Run(longer) && run <= longer
    ensures var s, t := run[|run| - 1], longer[|longer| - 1];
      && Grows(s, t) && OthersIdle(s, t, id, id) && t.log == s.log
      && t.workers[id].phase.Reread? && t.workers[id].conflicts == s.workers[id].conflicts + 1
  {
    hide Init, Next, Closed, OwnManifests, CacheOk, Commits, WorkerOk;
    var s := run[|run| - 1];
    RunKeeps(run, |run| - 1);
    CanStepNow(s, id);
    var name := FreshName(s.store.objects);
    longer := RunMove(run, id, name);
    assert WorkerMoves(s, longer[|longer| - 1], id, name);
    WorkerMoveGrows(s, longer[|longer| - 1], id, name);
  }

  /** A worker about to read the pointer stays eager while only other batches are committed. */
  lemma StillEager(s: System, t: System, id: nat)
    requires Inv(s) && Grows(s, t) && Eager(s, id)
    requires t.workers[id].phase.Start? || t.workers[id].phase.Reread?
    requires forall k | |s.log| <= k < |t.log| :: BatchAt(t, k) != s.workers[id].job.batchId
    ensures Eager(t, id)
  {
    hide Closed, OwnManifests, CacheOk, History, WorkerOk, FindColumn;
    forall k | 0 <= k < |t.log| ensures BatchAt(t, k) != s.workers[id].job.batchId {
      if k < |s.log| {
        assert CommitOk(s, k) && BatchAt(s, k) != s.workers[id].job.batchId;
        BatchStable(s, t, k);
      }
    }
  }

  /** The victim is about to replace the pointer, or has given up. */
  ghost predicate Victim(s: System, id: nat, conflicts: nat)
  {
    && id in s.workers && AtEnd(s.workers[id]) && s.workers[id].conflicts == conflicts
    && (s.workers[id].phase.PutCurrent? ==> Eager(s, id))
  }

  /** Rivals that have not started, with batches of their own. */
  ghost predicate Rivals(s: System, victim: nat, rivals: seq<nat>)
  {
    && victim in s.workers && victim !in rivals
    && (forall r | r in rivals :: r in s.workers && s.workers[r].phase.Start? && Eager(s, r)
          && s.workers[r].job.batchId != s.workers[victim].job.batchId)
    && (forall i, j | 0 <= i < j < |rivals| ::
          rivals[i] != rivals[j] && s.workers[rivals[i]].job.batchId != s.workers[rivals[j]].job.batchId)
  }

  lemma VictimWaits(s: System, victim: nat, conflicts: nat)
    requires Inv(s) && Victim(s, victim, conflicts) && conflicts < MAX_RETRIES
    ensures s.workers[victim].phase.PutCurrent?
  {
    hide Closed, OwnManifests, CacheOk, Commits, History;
    assert WorkerOk(s, victim, s.workers[victim]);
  }

  lemma GrowsTwice(a: System, b: System, c: System)
    requires Grows(a, b) && Grows(b, c)
    ensures Grows(a, c)
  {}

  /** A worker without a conflict does not give up. */
  lemma NoConflictNoFailure(s: System, id: nat)
    requires Inv(s) && id in s.workers && s.workers[id].conflicts == 0 && AtEnd(s.workers[id])
    ensures s.workers[id].phase.PutCurrent?
  {
    hide Closed, OwnManifests, CacheOk, Commits, History;
    assert WorkerOk(s, id, s.workers[id]);
  }

  lemma BatchKept(s: System, t: System, k: nat)
    requires Inv(s) && Grows(s, t) && k < |s.log|
    ensures k < |t.log| && BatchAt(t, k) == BatchAt(s, k)
  {
    hide Closed, OwnManifests, CacheOk, WorkerOk, History;
    assert CommitOk(s, k);
    BatchStable(s, t, k);
  }

  /** A rival runs alone and commits. */
  lemma RivalCommits(run: seq<System>, victim: nat, rival: nat) returns (longer: seq<System>)
    requires Run(run) && Rivals(run[|run| - 1], victim, [rival])
    ensures Run(longer) && run <= longer
    ensures var s, t := run[|run| - 1], longer[|longer| - 1];
      && Grows(s, t) && OthersIdle(s, t, rival, rival)
      && |t.log| == |s.log| + 1 && BatchAt(t, |s.log|) == s.workers[rival].job.batchId
  {
    hide Init, Next, Willing, UpToDate, Grows, Inv, BatchAt;
    var s := run[|run| - 1];
    assert rival in [rival];
    RunKeeps(run, |run| - 1);
    StartHasNone(s, rival);
    var driven := Drive(run, rival);
    var t := driven[|driven| - 1];
    RunKeeps(driven, |driven| - 1);
    NoConflictNoFailure(t, rival);
    longer := Win(driven, rival);
    SameJob(s, t, rival);
    GrowsTwice(s, t, longer[|longer| - 1]);
  }

  lemma SameJob(s: System, t: System, id: nat)
    requires Grows(s, t) && id in s.workers
    ensures id in t.workers && t.workers[id].job == s.workers[id].job
  {}

  lemma StartHasNone(s: System, id: nat)
    requires Inv(s) && id in s.workers && s.workers[id].phase.Start?
    ensures s.workers[id].conflicts == 0
  {
    hide Closed, OwnManifests, CacheOk, Commits, History;
    assert WorkerOk(s, id, s.workers[id]);
  }

  /** After somebody else's commit the victim conflicts, reads again, and comes back. */
  lemma VictimRetries(s: System, run: seq<System>, victim: nat, conflicts: nat) returns (longer: seq<System>)
    requires Run(run) && Inv(s) && Grows(s, run[|run| - 1]) && Victim(s, victim, conflicts) && conflicts < MAX_RETRIES
    requires var t := run[|run| - 1];
      && t.workers[victim] == s.workers[victim] && |t.log| == |s.log| + 1
      && BatchAt(t, |s.log|) != s.workers[victim].job.batchId
    ensures Run(longer) && run <= longer
    ensures var t, e := run[|run| - 1], longer[|longer| - 1];
      Victim(e, victim, conflicts + 1) && Grows(t, e) && OthersIdle(t, e, victim, victim) && e.log == t.log
  {
    hide Init, Next, Grows, Inv, BatchAt, Committed, ColumnUsable;
    var t := run[|run| - 1];
    VictimWaits(s, victim, conflicts);
    SameJob(s, t, victim);
    RunKeeps(run, |run| - 1);
    var lost := Lose(run, victim);
    var u := lost[|lost| - 1];
    hide Eager;
    GrowsTwice(s, t, u);
    BatchKept(t, u, |s.log|);
    StillEager(s, u, victim);
    longer := Drive(lost, victim);
    assert Grows(u, longer[|longer| - 1]);
    GrowsTwice(t, u, longer[|longer| - 1]);
  }

  /** One round: a rival runs alone and commits, and the victim conflicts with it. */
  lemma Round(run: seq<System>, victim: nat, rival: nat, conflicts: nat) returns (longer: seq<System>)
    requires Run(run) && Victim(run[|run| - 1], victim, conflicts) && conflicts < MAX_RETRIES
    requires Rivals(run[|run| - 1], victim, [rival])
    ensures Run(longer) && run <= longer
    ensures var s, t := run[|run| - 1], longer[|longer| - 1];
      && Victim(t, victim, conflicts + 1) && Grows(s, t) && OthersIdle(s, t, victim, rival)
      && |t.log| == |s.log| + 1 && BatchAt(t, |s.log|) == s.workers[rival].job.batchId
  {
    hide Init, Next, Eager, Grows, Inv, BatchAt, AtEnd;
    var s := run[|run| - 1];
    RunKeeps(run, |run| - 1);
    assert rival in [rival];
    var won := RivalCommits(run, victim, rival);
    var t := won[|won| - 1];
    RunKeeps(won, |won| - 1);
    longer := VictimRetries(s, won, victim, conflicts);
    GrowsTwice(s, t, longer[|longer| - 1]);
    BatchKept(t, longer[|longer| - 1], |s.log|);
  }

  /** The rivals that have not had their turn are still waiting. */
  lemma RivalsWait(s: System, t: System, victim: nat, rivals: seq<nat>)
    requires Inv(s) && rivals != [] && Rivals(s, victim, rivals) && Grows(s, t) && OthersIdle(s, t, victim, rivals[0])
    requires |t.log| == |s.log| + 1 && BatchAt(t, |s.log|) == s.workers[rivals[0]].job.batchId
    ensures Rivals(t, victim, rivals[1..])
  {
    hide Inv, Eager, Grows, BatchAt;
    SameJob(s, t, victim);
    forall r | r in rivals[1..]
      ensures r in t.workers && t.workers[r].phase.Start? && Eager(t, r)
              && t.workers[r].job.batchId != t.workers[victim].job.batchId
              && t.workers[r] == s.workers[r]
    {
      var i :| 1 <= i < |rivals| && rivals[i] == r;
      assert rivals[i] in rivals && rivals[0] != rivals[i];
      StillEager(s, t, r);
    }
  }

  lemma {:induction false} Rounds(run: seq<System>, victim: nat, rivals: seq<nat>, conflicts: nat) returns (longer: seq<System>)
    requires Run(run) && Victim(run[|run| - 1], victim, conflicts) && Rivals(run[|run| - 1], victim, rivals)
    requires conflicts + |rivals| <= MAX_RETRIES
    ensures Run(longer) && run <= longer
    ensures Victim(longer[|longer| - 1], victim, conflicts + |rivals|)
    decreases |rivals|
  {
    hide Init, Next, Victim, Inv, Eager, Grows;
    if rivals == [] {
      longer := run;
    } else {
      var s := run[|run| - 1];
      assert Rivals(s, victim, [rivals[0]]) by { assert rivals[0] in rivals; }
      var next := Round(run, victim, rivals[0], conflicts);
      RunKeeps(run, |run| - 1);
      RivalsWait(s, next[|next| - 1], victim, rivals);
      longer := Rounds(next, victim, rivals[1..], conflicts + 1);
    }
  }

  /** Different workers, each with a batch of its own. */
  predicate OwnBatches(s: System, workers: seq<nat>)
  {
    && (forall i | 0 <= i < |workers| :: workers[i] in s.workers)
    && (forall i, j | 0 <= i < j < |workers| ::
          workers[i] != workers[j] && s.workers[workers[i]].job.batchId != s.workers[workers[j]].job.batchId)
  }

  /** The bound of `ConflictBound` is attained: among up to six workers with batches of
      their own there is a schedule in which one conflicts with every other, and with six
      it gives up. */
  lemma BoundIsSharp(s: System, workers: seq<nat>) returns (run: seq<System>)
    requires Init(s) && 0 < |workers| <= 6 && OwnBatches(s, workers)
    requires forall i | 0 <= i < |workers| :: ColumnUsable(s, s.workers[workers[i]].job.column)
    ensures Run(run) && run[0] == s && workers[0] in run[|run| - 1].workers
    ensures var w := run[|run| - 1].workers[workers[0]];
      && w.conflicts == |workers| - 1
      && (|workers| == 6 ==> w.phase == Failed(TooManyConflicts))
  {
    hide Init, Next, Inv, Willing, UpToDate, Grows, OnlyActed, Victim, Rivals, ColumnUsable;
    var victim := workers[0];
    InitRun(s);
    InitOk(s);
    forall i | 0 <= i < |workers| ensures Waiting(s, workers[i]) { InitWaits(s, workers[i]); }
    run := FirstTry([s], victim);
    StartingRivals(s, run[|run| - 1], workers);
    run := Rounds(run, victim, workers[1..], 0);
    assert Victim(run[|run| - 1], victim, |workers| - 1);
    VictimIs(run[|run| - 1], victim, |workers| - 1);
    if |workers| == 6 { GivesUp(run, victim); }
  }

  lemma VictimIs(s: System, id: nat, conflicts: nat)
    requires Victim(s, id, conflicts)
    ensures id in s.workers && s.workers[id].conflicts == conflicts
  {}

  /** The victim comes to its first conditional PUT. */
  lemma FirstTry(run: seq<System>, victim: nat) returns (longer: seq<System>)
    requires Run(run) && Waiting(run[|run| - 1], victim)
    ensures Run(longer) && run <= longer
    ensures OnlyActed(run[|run| - 1], longer[|longer| - 1], victim) && Victim(longer[|longer| - 1], victim, 0)
  {
    hide Init, Next, Inv, Willing, UpToDate, Grows;
    RunKeeps(run, |run| - 1);
    StartHasNone(run[|run| - 1], victim);
    longer := Drive(run, victim);
    RunKeeps(longer, |longer| - 1);
    NoConflictNoFailure(longer[|longer| - 1], victim);
  }

  lemma InitRun(s: System)
    requires Init(s)
    ensures Run([s])
  {}

  /** The worker has not started, and will try to commit. */
  ghost predicate Waiting(s: System, id: nat)
  {
    id in s.workers && s.workers[id].phase.Start? && Eager(s, id)
  }

  lemma InitWaits(s: System, id: nat)
    requires Init(s) && id in s.workers && ColumnUsable(s, s.workers[id].job.column)
    ensures Waiting(s, id)
  {
    hide FindColumn;
  }

  lemma StartingRivals(s: System, t: System, workers: seq<nat>)
    requires Inv(s) && workers != [] && OnlyActed(s, t, workers[0]) && OwnBatches(s, workers)
    requires forall i | 0 <= i < |workers| :: Waiting(s, workers[i])
    ensures Rivals(t, workers[0], workers[1..])
  {
    hide Inv, Eager, Grows;
    var victim, rivals := workers[0], workers[1..];
    SameJob(s, t, victim);
    forall w | w in rivals
      ensures w in s.workers && w in t.workers
      ensures t.workers[w] == s.workers[w] && w != victim && s.workers[w].job.batchId != s.workers[victim].job.batchId
      ensures Eager(t, w) && t.workers[w].phase.Start?
    {
      var i :| 1 <= i < |workers| && workers[i] == w;
      assert Waiting(s, workers[i]);
      StillEager(s, t, w);
    }
  }

  lemma GivesUp(run: seq<System>, victim: nat)
    requires Run(run) && Victim(run[|run| - 1], victim, MAX_RETRIES)
    ensures run[|run| - 1].workers[victim].phase == Failed(TooManyConflicts)
  {
    hide Init, Next, Closed, OwnManifests, CacheOk, Commits, History;
    RunKeeps(run, |run| - 1);
    var s := run[|run| - 1];
    assert WorkerOk(s, victim, s.workers[victim]);
  }
}
