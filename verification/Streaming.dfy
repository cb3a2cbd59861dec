/** `run_query` without scores: the stream of what arrives, which nothing truncates. */
module Streaming {
  import opened Types
  import opened Pipeline
  import opened PipelineSafety
  import opened Rank
  import opened CollectedQuery
  import opened QueryRun

  // --- One record batch ---------------------------------------------------------------------------

  lemma Continue(c: Config, run: seq<System>, step: Step) returns (longer: seq<System>)
    requires Run(c, run) && Enabled(c, run[|run| - 1], step)
    ensures Run(c, longer) && |longer| == |run| + 1 && longer[0] == run[0]
    ensures longer[|longer| - 1] == Apply(c, run[|run| - 1], step)
  {
    longer := run + [Apply(c, run[|run| - 1], step)];
    hide Init, Enabled, Apply;
    assert forall k | 0 <= k < |run| :: longer[k] == run[k];
    assert Next(c, longer[|run| - 1], longer[|run|]);
  }

  /** One file whose one record batch `rows` has been verified but not collected. */
  function OneBatchVerified(rows: RowBatch): System
  {
    System([Stopped], [], Dispatcher(Polling, [Task(rows, true)], false, 0, [], []), [], Coalescer(Receiving, [], 0), [], [], Open, [])
  }

  lemma ReachVerified(c: Config, rows: RowBatch) returns (run: seq<System>)
    requires c.permits > 0 && c.maxCpu > 0
    ensures Run(c, run) && run[|run| - 1] == OneBatchVerified(rows)
  {
    hide Flatten, CountRunning;
    run := [System([Waiting([rows])], [], Dispatcher(Polling, [], false, 0, [], []), [], Coalescer(Receiving, [], 0), [], [], Open, [])];
    OneProducer(Waiting([rows]));
    run := Continue(c, run, Acquire(0));
    run := Continue(c, run, Send(0));
    run := Continue(c, run, Send(0));
    run := Continue(c, run, Pull);
    run := Continue(c, run, Complete(0));
    assert run[|run| - 1] == OneBatchVerified(rows);
  }

  /** The dispatcher has sent `rows` and returned at the limit. */
  function OneBatchSent(rows: RowBatch): System
  {
    System([Stopped], [], Dispatcher(Returned, [], false, |rows|, [rows], [rows]), [rows], Coalescer(Receiving, [], 0), [], [], Open, [])
  }

  lemma ReachSent(c: Config, before: seq<System>, rows: RowBatch) returns (run: seq<System>)
    requires Run(c, before) && before[|before| - 1] == OneBatchVerified(rows)
    requires rows != [] && c.earlyLimit.Some? && c.earlyLimit.value <= |rows|
    ensures Run(c, run) && run[|run| - 1] == OneBatchSent(rows)
  {
    hide Flatten, CountRunning, Run;
    run := Continue(c, before, Collect(0));
    run := Continue(c, run, Emit);
    run := Continue(c, run, CheckLimit);
    assert run[|run| - 1] == OneBatchSent(rows);
  }

  /** `run_query` streams what arrives and truncates nothing: with one file and one record
      batch the consumer gets every matching row of it, however low the limit. */
  lemma StreamMayExceedLimit(c: Config, rows: RowBatch) returns (run: seq<System>)
    requires c.permits > 0 && c.maxCpu > 0 && c.earlyLimit.Some? && c.earlyLimit.value < |rows| < TARGET_BATCH_SIZE
    ensures Drained(c, run) && Flatten(run[|run| - 1].received) == rows
  {
    run := ReachVerified(c, rows);
    run := ReachSent(c, run, rows);
    hide Flatten, CountRunning;
    FlattenOne(rows);
    run := Continue(c, run, Coalesce);
    run := Continue(c, run, EndOfOutput);
    run := Continue(c, run, Flush);
    run := Continue(c, run, Receive);
    run := Continue(c, run, EndOfResults);
    assert run[|run| - 1].received == [rows];
  }

  lemma OneProducer(p: Producer)
    ensures CountRunning([p]) == if p.Running? then 1 else 0
  {}

  // --- Every record batch on its way ----------------------------------------------------------------

  /** Every record batch that is in the pipeline or was collected has the property. */
  ghost predicate AllBatches(s: System, ok: RowBatch -> bool)
  {
    && (forall p, b | p in s.producers && !p.Stopped? && b in p.batches :: ok(b))
    && (forall b | b in s.input :: ok(b))
    && (forall t | t in s.dispatcher.inFlight :: ok(t.rows))
    && (forall b | b in s.dispatcher.collected :: ok(b))
  }

  lemma ProducerBatches(c: Config, s: System, step: Step, ok: RowBatch -> bool)
    requires AllBatches(s, ok) && Enabled(c, s, step) && (step.Acquire? || step.Send?)
    ensures AllBatches(Apply(c, s, step), ok)
  {
    hide CountRunning;
    assert s.producers[step.i] in s.producers;
  }

  lemma DispatcherBatches(c: Config, s: System, step: Step, ok: RowBatch -> bool)
    requires AllBatches(s, ok) && Enabled(c, s, step) && OfDispatcher(step)
    ensures AllBatches(Apply(c, s, step), ok)
  {
    hide LimitReached, NoneCompleted, AllStopped;
    var d := s.dispatcher;
    if step.Complete? || step.Collect? { assert d.inFlight[step.i] in d.inFlight; }
  }

  lemma OtherBatches(c: Config, s: System, step: Step, ok: RowBatch -> bool)
    requires AllBatches(s, ok) && Enabled(c, s, step) && (OfCoalescer(step) || OfConsumer(step))
    ensures AllBatches(Apply(c, s, step), ok)
  {
    hide Flatten;
  }

  lemma {:induction false} RunBatches(c: Config, run: seq<System>, k: nat, ok: RowBatch -> bool)
    requires Run(c, run) && k < |run| && AllBatches(run[0], ok)
    ensures AllBatches(run[k], ok)
    decreases k
  {
    hide AllBatches, Init, Enabled, Apply;
    if k > 0 {
      RunBatches(c, run, k - 1, ok);
      var s, t := run[k - 1], run[k - 1 + 1];
      assert Next(c, s, t);
      var step :| Enabled(c, s, step) && t == Apply(c, s, step);
      if step.Acquire? || step.Send? {
        ProducerBatches(c, s, step, ok);
      } else if OfDispatcher(step) {
        DispatcherBatches(c, s, step, ok);
      } else {
        OtherBatches(c, s, step, ok);
      }
    }
  }

  /** When no record batch has more than `size` rows, an unscored query sends fewer than
      `size` rows beyond a limit above zero, and at most `size` when the limit is zero. */
  lemma OvershootBound(c: Config, run: seq<System>, n: nat, limit: nat, size: nat)
    requires Run(c, run) && n < |run| && c.earlyLimit == Some(limit) && size > 0
    requires AllBatches(run[0], (b: RowBatch) => |b| <= size)
    ensures |Flatten(run[n].received)| <= (if limit == 0 then 1 else limit) - 1 + size
  {
    hide Run, Flatten, LimitReached;
    StopsAtLimit(c, run, n);
    OnlyMatchesArrive(c, run, n);
    RunBatches(c, run, n, (b: RowBatch) => |b| <= size);
    var collected := run[n].dispatcher.collected;
    if collected == [] {
      NothingLeft();
    } else {
      var k := |collected| - 1;
      assert collected[k] in collected;
      FlattenPrefix(collected, k);
      assert collected[..k + 1] == collected;
      if k == 0 { NothingLeft(); }
    }
  }

  // --- Following a run to its end --------------------------------------------------------------------

  lemma StepCounts(c: Config, s: System, step: Step)
    requires Enabled(c, s, step) && !step.Drop? && !s.consumer.Dropped?
    ensures var t := Apply(c, s, step); !t.consumer.Dropped? && s.dispatcher.rowsMatched <= t.dispatcher.rowsMatched
  {
    hide Flatten, CountRunning, NoneCompleted;
  }

  /** Any run whose consumer has not gone away can be followed to its end. */
  lemma {:induction false} RunsToItsEnd(c: Config, run: seq<System>) returns (longer: seq<System>)
    requires Run(c, run) && c.permits > 0 && c.maxCpu > 0 && !run[|run| - 1].consumer.Dropped?
    ensures Drained(c, longer) && longer[0] == run[0]
    ensures run[|run| - 1].dispatcher.rowsMatched <= longer[|longer| - 1].dispatcher.rowsMatched
    decreases StepsLeft(run[|run| - 1])
  {
    hide Init, Next, Inv, StepsLeft, AllRows, Enabled, Apply;
    var s := run[|run| - 1];
    if Over(s) {
      longer := run;
    } else {
      RunKeeps(c, run, |run| - 1);
      var step := Progress(c, s, AllRows(run[0]));
      StepCounts(c, s, step);
      StepWorks(c, s, step);
      longer := Continue(c, run, step);
      longer := RunsToItsEnd(c, longer);
    }
  }

  // --- Loading: everything is read before anything is verified -------------------------------------------

  /** Only producers have acted, and the dispatcher has pulled all they sent. */
  ghost predicate Loading(c: Config, s: System)
  {
    && s == Start(s.producers).(dispatcher := Dispatcher(Polling, s.dispatcher.inFlight, false, 0, [], []))
    && NoneCompleted(s.dispatcher.inFlight) && |s.dispatcher.inFlight| + ProducersWork(s.producers) < c.maxCpu
  }

  lemma {:induction false} LoadAll(c: Config, run: seq<System>) returns (longer: seq<System>)
    requires Run(c, run) && Loading(c, run[|run| - 1]) && c.permits > 0
    ensures Run(c, longer) && longer[0] == run[0]
    ensures Loading(c, longer[|longer| - 1]) && AllStopped(longer[|longer| - 1].producers)
    decreases ProducersWork(run[|run| - 1].producers)
  {
    hide Init, Next, CountRunning, ProducersWork;
    var s := run[|run| - 1];
    if AllStopped(s.producers) {
      longer := run;
    } else {
      var step := ProducersProgress(c, s);
      longer := Continue(c, run, step);
      var t := longer[|longer| - 1];
      ProducerWorkUpdated(s.producers, step.i, t.producers[step.i]);
      if t.input != [] {
        longer := Continue(c, longer, Pull);
      }
      longer := LoadAll(c, longer);
    }
  }

  // --- Collecting one task after another ---------------------------------------------------------------

  /** Nothing is left to read, nothing is verified, and the later stages are idle. */
  ghost predicate Collecting(s: System)
  {
    && AllStopped(s.producers) && s.input == [] && s.dispatcher.phase.Polling? && NoneCompleted(s.dispatcher.inFlight)
    && s.output == [] && s.coalescer.phase.Receiving? && s.final == [] && s.consumer.Open?
  }

  /** Completes and collects task `i`. */
  lemma CompleteAndCollect(c: Config, run: seq<System>, i: nat) returns (longer: seq<System>)
    requires Run(c, run) && Collecting(run[|run| - 1]) && i < |run[|run| - 1].dispatcher.inFlight|
    ensures Run(c, longer) && longer[0] == run[0]
    ensures var s := run[|run| - 1];
      var rows := s.dispatcher.inFlight[i].rows;
      longer[|longer| - 1] == s.(dispatcher := s.dispatcher.(
        phase := if rows == [] then CheckingLimit else Sending(rows), inFlight := Remove(s.dispatcher.inFlight, i),
        rowsMatched := s.dispatcher.rowsMatched + |rows|, collected := s.dispatcher.collected + [rows]))
  {
    hide Init, Next, CountRunning, AllStopped;
    var d := run[|run| - 1].dispatcher;
    longer := Continue(c, run, Complete(i));
    longer := Continue(c, longer, Collect(i));
    assert Remove(d.inFlight[i := d.inFlight[i].(completed := true)], i) == Remove(d.inFlight, i);
  }

  lemma Emits(c: Config, run: seq<System>) returns (longer: seq<System>)
    requires Run(c, run) && run[|run| - 1].dispatcher.phase.Sending? && !LimitReached(c, run[|run| - 1].dispatcher)
    requires run[|run| - 1].output == [] && run[|run| - 1].coalescer.phase.Receiving?
    ensures Run(c, longer) && longer[0] == run[0]
    ensures var s, d := run[|run| - 1], run[|run| - 1].dispatcher;
      longer[|longer| - 1] == s.(dispatcher := d.(phase := Polling, sent := d.sent + [d.phase.batch]), output := [d.phase.batch])
  {
    hide Init, Next, CountRunning, AllStopped, NoneCompleted, Flatten;
    longer := Continue(c, run, Emit);
    longer := Continue(c, longer, CheckLimit);
  }

  /** What was sent goes all the way to the consumer, or waits in the coalescer. */
  lemma PassesOn(c: Config, run: seq<System>) returns (longer: seq<System>)
    requires Run(c, run) && |run[|run| - 1].output| == 1 && Collecting(run[|run| - 1].(output := []))
    ensures Run(c, longer) && longer[0] == run[0] && Collecting(longer[|longer| - 1])
    ensures longer[|longer| - 1].dispatcher == run[|run| - 1].dispatcher
  {
    hide Init, Next, CountRunning, AllStopped, NoneCompleted, Flatten;
    longer := Continue(c, run, Coalesce);
    if longer[|longer| - 1].coalescer.phase.Flushing? {
      longer := Continue(c, longer, Flush);
      longer := Continue(c, longer, Receive);
    }
  }

  /** One task is verified, collected and passed on, and the limit is not reached. */
  lemma CollectOne(c: Config, run: seq<System>, i: nat) returns (longer: seq<System>)
    requires Run(c, run) && Collecting(run[|run| - 1]) && i < |run[|run| - 1].dispatcher.inFlight| && c.earlyLimit.Some?
    requires var d := run[|run| - 1].dispatcher; d.rowsMatched + |d.inFlight[i].rows| < c.earlyLimit.value
    ensures Run(c, longer) && longer[0] == run[0] && Collecting(longer[|longer| - 1])
    ensures var d, e := run[|run| - 1].dispatcher, longer[|longer| - 1].dispatcher;
      e.inFlight == Remove(d.inFlight, i) && e.rowsMatched == d.rowsMatched + |d.inFlight[i].rows|
  {
    hide Init, Next, AllStopped;
    longer := CompleteAndCollect(c, run, i);
    if longer[|longer| - 1].dispatcher.phase.Sending? {
      longer := Emits(c, longer);
      longer := PassesOn(c, longer);
    } else {
      longer := Continue(c, longer, CheckLimit);
    }
  }

  /** Task `j` has at least `size` rows, and every other at most one. */
  predicate OneBig(tasks: seq<Task>, j: nat, size: nat)
  {
    j < |tasks| && |tasks[j].rows| >= size && forall i | 0 <= i < |tasks| && i != j :: |tasks[i].rows| <= 1
  }

  /** The tasks that the limit leaves room for are collected one row at a time, and then the
      big one. */
  lemma {:induction false} CollectsTooMuch(c: Config, run: seq<System>, j: nat) returns (longer: seq<System>)
    requires Run(c, run) && Collecting(run[|run| - 1]) && c.earlyLimit.Some?
    requires var d, limit := run[|run| - 1].dispatcher, c.earlyLimit.value;
      && OneBig(d.inFlight, j, if limit == 0 then 1 else 2)
      && (d.rowsMatched == 0 || d.rowsMatched < limit) && limit < d.rowsMatched + |TasksRows(d.inFlight)|
    ensures Run(c, longer) && longer[0] == run[0] && !longer[|longer| - 1].consumer.Dropped?
    ensures longer[|longer| - 1].dispatcher.rowsMatched > c.earlyLimit.value
    decreases |run[|run| - 1].dispatcher.inFlight|
  {
    hide Init, Next, TasksRows;
    var d, limit := run[|run| - 1].dispatcher, c.earlyLimit.value;
    if |d.inFlight| == 1 || d.rowsMatched + 1 >= limit {
      if |d.inFlight| == 1 {
        assert d.inFlight == [d.inFlight[0]];
        OneTask(d.inFlight[0]);
      }
      longer := CompleteAndCollect(c, run, j);
    } else {
      var i := if j == 0 then 1 else 0;
      TaskRemoved(d.inFlight, i);
      longer := CollectOne(c, run, i);
      longer := CollectsTooMuch(c, longer, if i < j then j - 1 else j);
    }
  }

  lemma OneTask(t: Task)
    ensures TasksRows([t]) == multiset(t.rows)
  {
    NothingLeft();
    assert [t][..0] == [];
  }

  /** A run in which the consumer gets more rows than the limit. */
  lemma Overshoots(c: Config, run: seq<System>, j: nat) returns (longer: seq<System>)
    requires Run(c, run) && Collecting(run[|run| - 1]) && c.earlyLimit.Some? && c.permits > 0 && c.maxCpu > 0
    requires var d, limit := run[|run| - 1].dispatcher, c.earlyLimit.value;
      && OneBig(d.inFlight, j, if limit == 0 then 1 else 2)
      && d.rowsMatched == 0 && limit < |TasksRows(d.inFlight)|
    ensures Drained(c, longer) && longer[0] == run[0] && |Flatten(longer[|longer| - 1].received)| > c.earlyLimit.value
  {
    hide Init, Next, TasksRows, Flatten, WellSized, AllRows;
    longer := CollectsTooMuch(c, run, j);
    longer := RunsToItsEnd(c, longer);
    Delivery(c, longer);
  }
}
