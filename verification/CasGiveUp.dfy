/** When the retry loop of `commit_metadata` can give up. */
module CasGiveUp {
  import opened Cas
  import opened CasSafety
  import opened CasSharp
  import opened CasColumns

  /** Enough workers of a table to make one of them give up: as many as the retry loop has
      attempts and one more, each with a batch of its own and a column that can be used. */
  ghost predicate EnoughRivals(s: System, workers: seq<nat>)
  {
    && |workers| == 6 && OwnBatches(s, workers)
    && forall i | 0 <= i < |workers| :: ColumnUsable(s, s.workers[workers[i]].job.column)
  }

  /** A run from `s` in which some worker gives up. */
  ghost predicate GivesUpIn(s: System, run: seq<System>, id: nat)
  {
    && Run(run) && run[0] == s
    && id in run[|run| - 1].workers && run[|run| - 1].workers[id].phase == Failed(TooManyConflicts)
  }

  /** The worker's next step, at the end of its last duplicate check, is to give up. */
  ghost predicate AboutToGiveUp(s: System, id: nat)
  {
    && id in s.workers && s.workers[id].phase.RecheckDuplicate? && s.workers[id].conflicts >= MAX_RETRIES
    && s.workers[id].phase.i >= |s.workers[id].latest.manifestLists|
  }

  lemma GivingUpStep(s: System, t: System, id: nat)
    requires Next(s, t) && id in s.workers && id in t.workers
    requires t.workers[id].phase == Failed(TooManyConflicts) && s.workers[id].phase != Failed(TooManyConflicts)
    ensures AboutToGiveUp(s, id)
  {
    hide FindColumn;
  }

  /** Who gives up went through such a state. */
  lemma {:induction false} GaveUpSomewhere(run: seq<System>, n: nat, id: nat) returns (k: nat)
    requires Run(run) && n < |run| && id in run[n].workers && run[n].workers[id].phase == Failed(TooManyConflicts)
    ensures k < n && AboutToGiveUp(run[k], id)
    decreases n
  {
    hide Next, AboutToGiveUp;
    RunGrows(run, 0, n);
    if n > 0 {
      RunGrows(run, n - 1, n);
      if run[n - 1].workers[id].phase == Failed(TooManyConflicts) {
        k := GaveUpSomewhere(run, n - 1, id);
      } else {
        k := n - 1;
        assert Next(run[k], run[k + 1]);
        GivingUpStep(run[k], run[k + 1], id);
      }
    }
  }

  /** Its conflicts were charged to commits it has just checked. */
  lemma ChargesWereChecked(s: System, id: nat)
    requires Inv(s) && AboutToGiveUp(s, id)
    ensures var w := s.workers[id];
      && |w.charges| == MAX_RETRIES && (forall j, k | 0 <= j < k < |w.charges| :: w.charges[j] < w.charges[k])
      && (forall k | 0 <= k < |w.charges| :: w.charges[k] < |s.log| && BatchAt(s, w.charges[k]) != w.job.batchId)
  {
    hide Closed, OwnManifests, CacheOk, Commits, Artifacts;
    var w := s.workers[id];
    assert WorkerOk(s, id, w);
    assert VersionOk(s, w.etag);
    assert w.phase.i == w.etag;
  }

  /** The worker, and the authors of the commits it conflicted with. */
  lemma RivalsOf(s: System, id: nat) returns (workers: seq<nat>)
    requires Inv(s) && ColumnsOk(s) && AboutToGiveUp(s, id)
    ensures EnoughRivals(s, workers)
  {
    hide Closed, OwnManifests, CacheOk, WorkerOk, History, ColumnUsable;
    ChargesWereChecked(s, id);
    var w := s.workers[id];
    workers := Culprits(s, w.charges) + [id];
    forall i | 0 <= i < |w.charges|
      ensures workers[i] in s.workers && s.workers[workers[i]].phase.Done?
      ensures s.workers[workers[i]].job.batchId == BatchAt(s, w.charges[i])
    {
      assert CommitOk(s, w.charges[i]);
    }
  }

  lemma RivalsAtStart(s: System, t: System, workers: seq<nat>)
    requires Inv(s) && Grows(s, t) && EnoughRivals(t, workers)
    ensures EnoughRivals(s, workers)
  {
    hide Inv, ColumnUsable;
    forall i | 0 <= i < |workers| ensures ColumnUsable(s, s.workers[workers[i]].job.column) {
      UsableStable(s, t, s.workers[workers[i]].job.column);
    }
  }

  /** From a new table some run makes some worker give up if and only if six workers have
      usable columns and batches that differ from each other. */
  lemma GiveUpIff(s: System)
    requires Init(s)
    ensures (exists run, id :: GivesUpIn(s, run, id)) <==> exists workers :: EnoughRivals(s, workers)
  {
    hide Init, Next, Inv, Grows, OwnBatches, ColumnUsable, AboutToGiveUp;
    if workers :| EnoughRivals(s, workers) {
      var run := BoundIsSharp(s, workers);
      assert GivesUpIn(s, run, workers[0]);
    }
    if run, id :| GivesUpIn(s, run, id) {
      var k := GaveUpSomewhere(run, |run| - 1, id);
      RunKeeps(run, 0);
      RunKeeps(run, k);
      ColumnsAreChecked(run, k);
      var workers := RivalsOf(run[k], id);
      RunGrows(run, 0, k);
      RivalsAtStart(s, run[k], workers);
    }
  }
}
