/** What every schedule of the query pipeline keeps, and that every schedule ends. */
module PipelineSafety {
  import opened Types
  import opened Pipeline

  // --- Sums over batches, producers and tasks -------------------------------------------------

  lemma FlattenAppend<T>(a: seq<seq<T>>, x: seq<T>)
    ensures Flatten(a + [x]) == Flatten(a) + x
  {
    assert (a + [x])[..|a|] == a;
  }

  function Unsent(p: Producer): (rows: multiset<Row>)
  {
    if p.Stopped? then multiset{} else multiset(Flatten(p.batches))
  }

  function ProducersRows(producers: seq<Producer>): (rows: multiset<Row>)
  {
    if producers == [] then multiset{}
    else ProducersRows(producers[..|producers| - 1]) + Unsent(producers[|producers| - 1])
  }

  lemma AddBoth(a: multiset<Row>, x: multiset<Row>, b: multiset<Row>, y: multiset<Row>, z: multiset<Row>)
    requires a + x == b + y
    ensures (a + z) + x == (b + z) + y
  {
    assert (a + z) + x == (a + x) + z && (b + z) + y == (b + y) + z;
  }

  lemma {:induction false} ProducerUpdated(producers: seq<Producer>, i: nat, p: Producer)
    requires i < |producers|
    ensures ProducersRows(producers[i := p]) + Unsent(producers[i]) == ProducersRows(producers) + Unsent(p)
    ensures CountRunning(producers[i := p]) + (if producers[i].Running? then 1 else 0)
         == CountRunning(producers) + (if p.Running? then 1 else 0)
  {
    hide Unsent;
    var n := |producers| - 1;
    if i == n {
      assert producers[i := p][..n] == producers[..n];
    } else {
      assert producers[i := p][..n] == producers[..n][i := p];
      ProducerUpdated(producers[..n], i, p);
      AddBoth(ProducersRows(producers[..n][i := p]), Unsent(producers[i]), ProducersRows(producers[..n]), Unsent(p),
              Unsent(producers[n]));
    }
  }

  lemma {:induction false} StoppedHasNothing(producers: seq<Producer>)
    requires AllStopped(producers)
    ensures ProducersRows(producers) == multiset{} && CountRunning(producers) == 0
  {
    if producers != [] { StoppedHasNothing(producers[..|producers| - 1]); }
  }

  function TasksRows(tasks: seq<Task>): (rows: multiset<Row>)
  {
    if tasks == [] then multiset{} else TasksRows(tasks[..|tasks| - 1]) + multiset(tasks[|tasks| - 1].rows)
  }

  lemma {:induction false} TaskUpdated(tasks: seq<Task>, i: nat, t: Task)
    requires i < |tasks| && t.rows == tasks[i].rows
    ensures TasksRows(tasks[i := t]) == TasksRows(tasks)
  {
    var n := |tasks| - 1;
    if i == n {
      assert tasks[i := t][..n] == tasks[..n];
    } else {
      assert tasks[i := t][..n] == tasks[..n][i := t];
      TaskUpdated(tasks[..n], i, t);
    }
  }

  lemma {:induction false} TaskRemoved(tasks: seq<Task>, i: nat)
    requires i < |tasks|
    ensures TasksRows(tasks) == TasksRows(Remove(tasks, i)) + multiset(tasks[i].rows)
  {
    var n := |tasks| - 1;
    if i == n {
      assert Remove(tasks, i) == tasks[..n];
    } else {
      assert Remove(tasks, i)[..n - 1] == Remove(tasks[..n], i);
      TaskRemoved(tasks[..n], i);
    }
  }

  lemma TaskAppended(tasks: seq<Task>, t: Task)
    ensures TasksRows(tasks + [t]) == TasksRows(tasks) + multiset(t.rows)
  {
    assert (tasks + [t])[..|tasks|] == tasks;
  }

  // --- The invariant --------------------------------------------------------------------------

  /** Rows on their way to the dispatcher, and those it has taken. */
  function Accounted(s: System): multiset<Row>
  {
    ProducersRows(s.producers) + multiset(Flatten(s.input)) + TasksRows(s.dispatcher.inFlight)
    + multiset(Flatten(s.dispatcher.collected))
  }

  /** Why the dispatcher may return. */
  predicate MayReturn(c: Config, s: System, all: multiset<Row>)
  {
    || multiset(Flatten(s.dispatcher.collected)) == all
    || LimitReached(c, s.dispatcher)
    || s.consumer.Dropped?
    || c.maxCpu == 0
  }

  /** No matching row is lost or made up before it reaches the dispatcher. */
  predicate InputOk(c: Config, s: System, all: multiset<Row>)
  {
    var d := s.dispatcher;
    && (if d.phase.Returned? then MayReturn(c, s, all) && d.inFlight == [] && s.input == [] else Accounted(s) == all)
    && multiset(Flatten(d.collected)) <= all
    && (d.inputDone ==> AllStopped(s.producers) && s.input == [])
    && d.rowsMatched == |Flatten(d.collected)|
  }

  function BeingSent(p: DispatcherPhase): RowBatch { if p.Sending? then p.batch else [] }

  function InHand(p: CoalescerPhase): RowBatch { if p.Flushing? || p.FinalFlush? then p.batch else [] }

  /** Rows leave the dispatcher and the coalescer in the order they came. */
  predicate OutputOk(s: System)
  {
    var d, k := s.dispatcher, s.coalescer;
    && (if d.phase.Returned? && s.consumer.Dropped? then Flatten(d.sent) <= Flatten(d.collected)
        else Flatten(d.collected) == Flatten(d.sent) + BeingSent(d.phase))
    && (if k.phase.Ended? && s.consumer.Dropped? then Flatten(s.flushed) <= Flatten(d.sent)
        else Flatten(d.sent) == Flatten(s.flushed) + InHand(k.phase) + Flatten(k.pending) + Flatten(s.output))
    && (if s.consumer.Dropped? then s.received <= s.flushed else s.flushed == s.received + s.final)
    && (d.phase.Sending? ==> d.phase.batch != [])
  }

  /** The coalescer's variables, and the sizes of what it has sent. */
  predicate CoalescerOk(s: System)
  {
    var k := s.coalescer;
    && (match k.phase
        case Receiving => k.pendingRows == |Flatten(k.pending)| < 8192
        case Flushing(b) => k.pending == [] && k.pendingRows == 0 && |b| >= 8192
        case FinalFlush(b) => k.pending == [] && s.output == [] && s.dispatcher.phase.Returned?
        case Ended => k.pending == [] && s.output == [] && (s.consumer.Dropped? || (s.dispatcher.phase.Returned? && s.flushed != [])))
    && (forall i | 0 <= i < |s.flushed| - (if k.phase.Ended? then 1 else 0) :: |s.flushed[i]| >= 8192)
    && (s.consumer.Finished? ==> k.phase.Ended? && s.final == [] && AllStopped(s.producers))
  }

  /** Channels, permits and the thread pool stay within their bounds. */
  predicate BoundsOk(c: Config, s: System)
  {
    && CountRunning(s.producers) <= c.permits
    && |s.input| <= 16 && |s.output| <= 16 && |s.final| <= 16
    && |s.dispatcher.inFlight| <= c.maxCpu
  }

  predicate Inv(c: Config, s: System, all: multiset<Row>)
  {
    InputOk(c, s, all) && OutputOk(s) && CoalescerOk(s) && BoundsOk(c, s)
  }

  // --- Steps -----------------------------------------------------------------------------------

  lemma RowsMoved(p: multiset<Row>, p': multiset<Row>, h: multiset<Row>, r: multiset<Row>, i: multiset<Row>, t: multiset<Row>,
                  d: multiset<Row>)
    requires p' + (h + r) == p + r
    ensures p' + (i + h) + t + d == p + i + t + d
  {
    forall x ensures (p' + (i + h) + t + d)[x] == (p + i + t + d)[x] {
      assert (p' + (h + r))[x] == (p + r)[x];
    }
  }

  lemma SendKeepsRows(s: System, i: nat, all: multiset<Row>)
    requires i < |s.producers| && s.producers[i].Running? && s.producers[i].batches != []
    ensures var rest := s.producers[i].batches;
      Accounted(s.(producers := s.producers[i := Running(rest[1..])], input := s.input + [rest[0]])) == Accounted(s)
  {
    hide ProducersRows, TasksRows, Flatten;
    var rest := s.producers[i].batches;
    var p := Running(rest[1..]);
    ProducerUpdated(s.producers, i, p);
    FlattenHead(rest);
    FlattenAppend(s.input, rest[0]);
    RowsMoved(ProducersRows(s.producers), ProducersRows(s.producers[i := p]), multiset(rest[0]), multiset(Flatten(rest[1..])),
              multiset(Flatten(s.input)), TasksRows(s.dispatcher.inFlight), multiset(Flatten(s.dispatcher.collected)));
  }

  lemma SameUnsent(producers: seq<Producer>, i: nat, p: Producer)
    requires i < |producers| && Unsent(p) == Unsent(producers[i])
    ensures ProducersRows(producers[i := p]) == ProducersRows(producers)
  {
    hide ProducersRows, Unsent;
    ProducerUpdated(producers, i, p);
    var a, b := ProducersRows(producers[i := p]), ProducersRows(producers);
    assert a == (a + Unsent(p)) - Unsent(p) && b == (b + Unsent(p)) - Unsent(p);
  }

  lemma ProducerInput(c: Config, s: System, all: multiset<Row>, step: Step)
    requires Inv(c, s, all) && Enabled(c, s, step) && (step.Acquire? || step.Send?)
    ensures InputOk(c, Apply(c, s, step), all)
  {
    hide OutputOk, CoalescerOk, BoundsOk, ProducersRows, CountRunning, TasksRows;
    var t, i := Apply(c, s, step), step.i;
    assert !s.producers[i].Stopped? && s.producers[i] in s.producers;
    if step.Send? && s.producers[i].batches != [] {
      SendKeepsRows(s, i, all);
    } else {
      SameUnsent(s.producers, i, t.producers[i]);
    }
    hide Flatten;
  }

  lemma ProducerBounds(c: Config, s: System, all: multiset<Row>, step: Step)
    requires Inv(c, s, all) && Enabled(c, s, step) && (step.Acquire? || step.Send?)
    ensures BoundsOk(c, Apply(c, s, step))
    ensures OutputOk(Apply(c, s, step)) && CoalescerOk(Apply(c, s, step))
  {
    hide InputOk, ProducersRows, CountRunning, TasksRows, Flatten;
    var t, i := Apply(c, s, step), step.i;
    assert !s.producers[i].Stopped? && s.producers[i] in s.producers;
    ProducerUpdated(s.producers, i, t.producers[i]);
  }

  predicate OfDispatcher(step: Step)
  {
    step.Complete? || step.Collect? || step.Pull? || step.CloseInput? || step.Break? || step.Emit? || step.CheckLimit?
  }

  lemma CollectKeepsRows(s: System, i: nat)
    requires i < |s.dispatcher.inFlight|
    ensures var d := s.dispatcher;
      Accounted(s.(dispatcher := d.(inFlight := Remove(d.inFlight, i), collected := d.collected + [d.inFlight[i].rows])))
      == Accounted(s)
  {
    hide ProducersRows, TasksRows, Flatten;
    TaskRemoved(s.dispatcher.inFlight, i);
    FlattenAppend(s.dispatcher.collected, s.dispatcher.inFlight[i].rows);
  }

  lemma PullKeepsRows(s: System)
    requires s.input != []
    ensures var d := s.dispatcher;
      Accounted(s.(dispatcher := d.(inFlight := d.inFlight + [Task(s.input[0], false)]), input := s.input[1..])) == Accounted(s)
  {
    hide ProducersRows, TasksRows, Flatten;
    FlattenHead(s.input);
    TaskAppended(s.dispatcher.inFlight, Task(s.input[0], false));
  }

  lemma CollectInput(c: Config, s: System, all: multiset<Row>, i: nat)
    requires InputOk(c, s, all) && Enabled(c, s, Collect(i))
    ensures InputOk(c, Apply(c, s, Collect(i)), all)
  {
    hide ProducersRows, TasksRows, Flatten;
    var t, d := Apply(c, s, Collect(i)), s.dispatcher;
    CollectKeepsRows(s, i);
    FlattenAppend(d.collected, d.inFlight[i].rows);
    assert Accounted(t) == all && multiset(Flatten(t.dispatcher.collected)) <= Accounted(t);
    hide Accounted;
  }

  lemma BreakInput(c: Config, s: System, all: multiset<Row>)
    requires InputOk(c, s, all) && Enabled(c, s, Break)
    ensures InputOk(c, Apply(c, s, Break), all)
  {
    hide ProducersRows, TasksRows, Flatten;
    if c.maxCpu != 0 {
      StoppedHasNothing(s.producers);
      NothingLeft();
    }
  }

  lemma CompleteInput(c: Config, s: System, all: multiset<Row>, i: nat)
    requires InputOk(c, s, all) && Enabled(c, s, Complete(i))
    ensures InputOk(c, Apply(c, s, Complete(i)), all)
  {
    hide ProducersRows, TasksRows, Flatten;
    TaskUpdated(s.dispatcher.inFlight, i, s.dispatcher.inFlight[i].(completed := true));
  }

  lemma PullInput(c: Config, s: System, all: multiset<Row>)
    requires InputOk(c, s, all) && Enabled(c, s, Pull)
    ensures InputOk(c, Apply(c, s, Pull), all)
  {
    hide ProducersRows, TasksRows, Flatten;
    PullKeepsRows(s);
    hide Accounted;
  }

  lemma QuietInput(c: Config, s: System, all: multiset<Row>, step: Step)
    requires InputOk(c, s, all) && Enabled(c, s, step) && (step.CloseInput? || step.Emit? || step.CheckLimit?)
    requires s.coalescer.phase.Ended? ==> s.consumer.Dropped? || s.dispatcher.phase.Returned?
    ensures InputOk(c, Apply(c, s, step), all)
  {
    hide ProducersRows, TasksRows, Flatten;
  }

  lemma DispatcherInput(c: Config, s: System, all: multiset<Row>, step: Step)
    requires InputOk(c, s, all) && CoalescerOk(s) && Enabled(c, s, step) && OfDispatcher(step)
    ensures InputOk(c, Apply(c, s, step), all)
  {
    hide InputOk, Apply;
    match step
    case Collect(i) => CollectInput(c, s, all, i);
    case Break => BreakInput(c, s, all);
    case Complete(i) => CompleteInput(c, s, all, i);
    case Pull => PullInput(c, s, all);
    case _ => QuietInput(c, s, all, step);
  }

  lemma NothingLeft()
    ensures Flatten<Row>([]) == [] && TasksRows([]) == multiset{}
  {}

  lemma CollectOutput(c: Config, s: System, i: nat)
    requires OutputOk(s) && CoalescerOk(s) && BoundsOk(c, s) && Enabled(c, s, Collect(i))
    ensures var t := Apply(c, s, Collect(i)); OutputOk(t) && CoalescerOk(t) && BoundsOk(c, t)
  {
    hide CountRunning, Flatten;
    FlattenAppend(s.dispatcher.collected, s.dispatcher.inFlight[i].rows);
  }

  lemma EmitOutput(c: Config, s: System)
    requires OutputOk(s) && CoalescerOk(s) && BoundsOk(c, s) && Enabled(c, s, Emit)
    ensures var t := Apply(c, s, Emit); OutputOk(t) && CoalescerOk(t) && BoundsOk(c, t)
  {
    hide CountRunning, Flatten;
    FlattenAppend(s.dispatcher.sent, s.dispatcher.phase.batch);
    FlattenAppend(s.output, s.dispatcher.phase.batch);
  }

  lemma QuietOutput(c: Config, s: System, step: Step)
    requires OutputOk(s) && CoalescerOk(s) && BoundsOk(c, s) && Enabled(c, s, step)
    requires step.Complete? || step.Pull? || step.CloseInput? || step.Break? || step.CheckLimit?
    ensures var t := Apply(c, s, step); OutputOk(t) && CoalescerOk(t) && BoundsOk(c, t)
  {
    hide CountRunning, Flatten;
  }

  lemma DispatcherOutput(c: Config, s: System, step: Step)
    requires OutputOk(s) && CoalescerOk(s) && BoundsOk(c, s) && Enabled(c, s, step) && OfDispatcher(step)
    ensures OutputOk(Apply(c, s, step)) && CoalescerOk(Apply(c, s, step)) && BoundsOk(c, Apply(c, s, step))
  {
    hide OutputOk, CoalescerOk, BoundsOk, Apply;
    match step
    case Collect(i) => CollectOutput(c, s, i);
    case Emit => EmitOutput(c, s);
    case _ => QuietOutput(c, s, step);
  }

  /** Each channel holds sixteen batches: a sender waits exactly while its channel is full. */
  lemma SendersWaitWhenFull(c: Config, s: System, i: nat)
    requires i < |s.producers| && s.producers[i].Running? && s.producers[i].batches != []
    ensures !s.dispatcher.phase.Returned? ==> (Enabled(c, s, Send(i)) <==> |s.input| < 16)
    ensures s.dispatcher.phase.Sending? && !s.coalescer.phase.Ended? ==> (Enabled(c, s, Emit) <==> |s.output| < 16)
    ensures s.coalescer.phase.Flushing? && !s.consumer.Dropped? ==> (Enabled(c, s, Flush) <==> |s.final| < 16)
  {
    hide CountRunning;
  }

  /** Finished work goes first: while a completed task waits, the dispatcher collects one and
      pulls nothing new. */
  lemma CompletedGoFirst(c: Config, s: System, step: Step)
    requires Enabled(c, s, step) && OfDispatcher(step) && s.dispatcher.phase.Polling?
    requires exists t :: t in s.dispatcher.inFlight && t.completed
    ensures step.Complete? || (step.Collect? && s.dispatcher.inFlight[step.i].completed)
  {
    hide CountRunning;
  }

  predicate OfCoalescer(step: Step) { step.Coalesce? || step.EndOfOutput? || step.Flush? }

  /** The first stage does not notice what the later ones do. */
  lemma SameInput(c: Config, s: System, t: System, all: multiset<Row>)
    requires InputOk(c, s, all) && t.producers == s.producers && t.input == s.input && t.dispatcher == s.dispatcher
    requires s.consumer.Dropped? ==> t.consumer.Dropped?
    ensures InputOk(c, t, all)
  {}

  lemma CoalesceKeeps(c: Config, s: System)
    requires OutputOk(s) && CoalescerOk(s) && BoundsOk(c, s) && Enabled(c, s, Coalesce)
    ensures var t := Apply(c, s, Coalesce); OutputOk(t) && CoalescerOk(t) && BoundsOk(c, t)
  {
    hide CountRunning, Flatten;
    NothingLeft();
    FlattenHead(s.output);
    FlattenAppend(s.coalescer.pending, s.output[0]);
  }

  lemma EndOfOutputKeeps(c: Config, s: System)
    requires OutputOk(s) && CoalescerOk(s) && BoundsOk(c, s) && Enabled(c, s, EndOfOutput)
    ensures var t := Apply(c, s, EndOfOutput); OutputOk(t) && CoalescerOk(t) && BoundsOk(c, t)
  {
    hide CountRunning, Flatten;
    NothingLeft();
  }

  lemma FlushKeeps(c: Config, s: System)
    requires OutputOk(s) && CoalescerOk(s) && BoundsOk(c, s) && Enabled(c, s, Flush)
    ensures var t := Apply(c, s, Flush); OutputOk(t) && CoalescerOk(t) && BoundsOk(c, t)
  {
    hide CountRunning, Flatten;
    NothingLeft();
    if !s.consumer.Dropped? { FlattenAppend(s.flushed, s.coalescer.phase.batch); }
  }

  lemma CoalescerKeeps(c: Config, s: System, all: multiset<Row>, step: Step)
    requires Inv(c, s, all) && Enabled(c, s, step) && OfCoalescer(step)
    ensures Inv(c, Apply(c, s, step), all)
  {
    hide OutputOk, CoalescerOk, BoundsOk, InputOk;
    SameInput(c, s, Apply(c, s, step), all);
    match step
    case Coalesce => CoalesceKeeps(c, s);
    case EndOfOutput => EndOfOutputKeeps(c, s);
    case Flush => FlushKeeps(c, s);
  }

  predicate OfConsumer(step: Step) { step.Receive? || step.EndOfResults? || step.Drop? }

  lemma ConsumerKeeps(c: Config, s: System, all: multiset<Row>, step: Step)
    requires Inv(c, s, all) && Enabled(c, s, step) && OfConsumer(step)
    ensures Inv(c, Apply(c, s, step), all)
  {
    hide InputOk, CountRunning, Flatten;
    SameInput(c, s, Apply(c, s, step), all);
  }

  /** The invariant is inductive. */
  lemma StepKeeps(c: Config, s: System, t: System, all: multiset<Row>)
    requires Inv(c, s, all) && Next(c, s, t)
    ensures Inv(c, t, all)
  {
    hide InputOk, OutputOk, CoalescerOk, BoundsOk, Enabled, Apply;
    var step :| Enabled(c, s, step) && t == Apply(c, s, step);
    if step.Acquire? || step.Send? {
      ProducerInput(c, s, all, step);
      ProducerBounds(c, s, all, step);
    } else if OfDispatcher(step) {
      DispatcherInput(c, s, all, step);
      DispatcherOutput(c, s, step);
    } else if OfCoalescer(step) {
      CoalescerKeeps(c, s, all, step);
    } else {
      ConsumerKeeps(c, s, all, step);
    }
  }

  /** Every row the pipeline is given. */
  function AllRows(s: System): multiset<Row> { ProducersRows(s.producers) }

  lemma {:induction false} NoneRunning(producers: seq<Producer>)
    requires forall p | p in producers :: p.Waiting?
    ensures CountRunning(producers) == 0
  {
    if producers != [] {
      assert producers[|producers| - 1] in producers;
      NoneRunning(producers[..|producers| - 1]);
    }
  }

  lemma InitOk(c: Config, s: System)
    requires Init(s)
    ensures Inv(c, s, AllRows(s))
  {
    hide ProducersRows, CountRunning, Flatten, TasksRows, InputOk, OutputOk, CoalescerOk;
    NoneRunning(s.producers);
    InitInput(c, s);
    InitOutput(s);
  }

  lemma InitInput(c: Config, s: System)
    requires Init(s)
    ensures InputOk(c, s, AllRows(s))
  {
    hide ProducersRows, Flatten, TasksRows;
    NothingLeft();
    assert Accounted(s) == AllRows(s);
    hide Accounted, MayReturn;
  }

  lemma InitOutput(s: System)
    requires Init(s)
    ensures OutputOk(s) && CoalescerOk(s)
  {
    hide Flatten;
    NothingLeft();
  }

  // --- The early limit -----------------------------------------------------------------------------

  /** Nothing is collected once the limit is reached: before its last result the dispatcher
      had fewer rows than the limit. */
  predicate LimitOk(c: Config, s: System)
  {
    var d := s.dispatcher;
    c.earlyLimit.Some? ==>
      && (d.phase.Polling? && d.collected != [] ==> d.rowsMatched < c.earlyLimit.value)
      && (|d.collected| > 1 ==> |Flatten(d.collected[..|d.collected| - 1])| < c.earlyLimit.value)
  }

  lemma LimitCollect(c: Config, s: System, i: nat)
    requires LimitOk(c, s) && Enabled(c, s, Collect(i)) && s.dispatcher.rowsMatched == |Flatten(s.dispatcher.collected)|
    ensures LimitOk(c, Apply(c, s, Collect(i)))
  {
    hide Flatten;
    var d, t := s.dispatcher, Apply(c, s, Collect(i));
    assert t.dispatcher.collected[..|d.collected|] == d.collected;
  }

  lemma LimitDispatcher(c: Config, s: System, step: Step)
    requires LimitOk(c, s) && Enabled(c, s, step) && OfDispatcher(step) && !step.Collect?
    ensures LimitOk(c, Apply(c, s, step))
  {
    hide Flatten;
  }

  lemma LimitStep(c: Config, s: System, t: System, all: multiset<Row>)
    requires Inv(c, s, all) && LimitOk(c, s) && Next(c, s, t)
    ensures LimitOk(c, t)
  {
    hide OutputOk, CoalescerOk, BoundsOk, Accounted, MayReturn, Enabled, LimitOk, AllStopped;
    var step :| Enabled(c, s, step) && t == Apply(c, s, step);
    if step.Collect? {
      LimitCollect(c, s, step.i);
    } else if OfDispatcher(step) {
      LimitDispatcher(c, s, step);
    } else {
      SameDispatcher(c, s, step);
      LimitOfDispatcher(c, s, t);
    }
  }

  lemma SameDispatcher(c: Config, s: System, step: Step)
    requires Enabled(c, s, step) && !OfDispatcher(step)
    ensures Apply(c, s, step).dispatcher == s.dispatcher
  {}

  lemma LimitOfDispatcher(c: Config, s: System, t: System)
    requires LimitOk(c, s) && t.dispatcher == s.dispatcher
    ensures LimitOk(c, t)
  {}

  /** An unscored query stops at its limit: it overshoots by less than one record batch. */
  lemma {:induction false} StopsAtLimit(c: Config, run: seq<System>, k: nat)
    requires Run(c, run) && k < |run|
    ensures LimitOk(c, run[k])
    decreases k
  {
    hide Inv, Next, AllRows, LimitOk;
    if k == 0 {
      assert LimitOk(c, run[0]) by { NothingCollected(c, run[0]); }
    } else {
      StopsAtLimit(c, run, k - 1);
      RunKeeps(c, run, k - 1);
      LimitStep(c, run[k - 1], run[k - 1 + 1], AllRows(run[0]));
    }
  }

  lemma NothingCollected(c: Config, s: System)
    requires Init(s)
    ensures LimitOk(c, s)
  {}

  // --- No schedule gets stuck --------------------------------------------------------------------

  lemma {:induction false} SomeRunning(producers: seq<Producer>)
    requires CountRunning(producers) > 0
    ensures exists i :: 0 <= i < |producers| && producers[i].Running?
  {
    var n := |producers| - 1;
    if !producers[n].Running? {
      SomeRunning(producers[..n]);
      var i :| 0 <= i < n && producers[..n][i].Running?;
      assert producers[i].Running?;
    }
  }

  /** A producer that is not done can go on, if the input channel has room or is closed. */
  lemma ProducersProgress(c: Config, s: System) returns (step: Step)
    requires c.permits > 0 && !AllStopped(s.producers)
    requires s.dispatcher.phase.Returned? || |s.input| < CHANNEL_CAPACITY
    ensures Enabled(c, s, step) && (step.Acquire? || step.Send?)
  {
    if CountRunning(s.producers) > 0 {
      SomeRunning(s.producers);
      var i :| 0 <= i < |s.producers| && s.producers[i].Running?;
      step := Send(i);
    } else {
      hide CountRunning;
      var p :| p in s.producers && !p.Stopped?;
      var i :| 0 <= i < |s.producers| && s.producers[i] == p;
      step := if p.Running? then Send(i) else Acquire(i);
    }
  }

  /** A dispatcher that has not returned can go on, if the output channel has room or is
      closed, or else a task or a producer can. */
  lemma DispatcherProgress(c: Config, s: System) returns (step: Step)
    requires c.permits > 0 && c.maxCpu > 0 && !s.dispatcher.phase.Returned?
    requires s.coalescer.phase.Ended? || |s.output| < CHANNEL_CAPACITY
    ensures Enabled(c, s, step) && !step.Drop?
  {
    var d := s.dispatcher;
    if d.phase.Sending? {
      step := Emit;
    } else if d.phase.CheckingLimit? {
      step := CheckLimit;
    } else if d.inFlight != [] {
      step := if d.inFlight[0].completed then Collect(0) else Complete(0);
    } else if d.inputDone {
      step := Break;
    } else if s.input != [] {
      step := Pull;
    } else if AllStopped(s.producers) {
      step := CloseInput;
    } else {
      step := ProducersProgress(c, s);
    }
  }

  /** With at least one I/O permit and one CPU thread no reachable state is stuck: somebody
      other than a consumer who gives up can move, until all have stopped. */
  lemma Progress(c: Config, s: System, all: multiset<Row>) returns (step: Step)
    requires Inv(c, s, all) && c.permits > 0 && c.maxCpu > 0 && !Over(s)
    ensures Enabled(c, s, step) && !step.Drop?
  {
    hide InputOk, OutputOk, CountRunning;
    if s.consumer.Open? && s.final != [] {
      step := Receive;
    } else if s.coalescer.phase.Flushing? || s.coalescer.phase.FinalFlush? {
      step := Flush;
    } else if s.coalescer.phase.Receiving? && s.output != [] {
      step := Coalesce;
    } else if !s.dispatcher.phase.Returned? {
      step := DispatcherProgress(c, s);
    } else if s.coalescer.phase.Receiving? {
      step := EndOfOutput;
    } else if !AllStopped(s.producers) {
      step := ProducersProgress(c, s);
    } else {
      step := EndOfResults;
    }
  }

  // --- Every schedule ends -----------------------------------------------------------------------

  /** Steps that a producer and the batches it still has can cause. */
  function ProducerWork(p: Producer): nat
  {
    match p
    case Waiting(batches) => 2 + 10 * |batches|
    case Running(batches) => 1 + 10 * |batches|
    case Stopped => 0
  }

  function ProducersWork(producers: seq<Producer>): nat
  {
    if producers == [] then 0 else ProducersWork(producers[..|producers| - 1]) + ProducerWork(producers[|producers| - 1])
  }

  function TasksWork(tasks: seq<Task>): nat
  {
    if tasks == [] then 0 else TasksWork(tasks[..|tasks| - 1]) + (if tasks[|tasks| - 1].completed then 7 else 8)
  }

  function DispatcherWork(d: Dispatcher): nat
  {
    if d.phase.Returned? then 0
    else (if d.inputDone then 1 else 2) + (match d.phase case Sending(_) => 6 case CheckingLimit => 1 case _ => 0)
  }

  function CoalescerWork(k: Coalescer): nat
  {
    match k.phase
    case Receiving => 5
    case Flushing(_) => 8
    case FinalFlush(_) => 4
    case Ended => 0
  }

  /** An upper bound on the number of steps that can still happen. */
  function StepsLeft(s: System): nat
  {
    ProducersWork(s.producers) + 9 * |s.input| + TasksWork(s.dispatcher.inFlight) + DispatcherWork(s.dispatcher)
    + 4 * |s.output| + CoalescerWork(s.coalescer) + 2 * |s.final| + (if s.consumer.Open? then 1 else 0)
  }

  lemma {:induction false} ProducerWorkUpdated(producers: seq<Producer>, i: nat, p: Producer)
    requires i < |producers|
    ensures ProducersWork(producers[i := p]) + ProducerWork(producers[i]) == ProducersWork(producers) + ProducerWork(p)
  {
    hide ProducerWork;
    var n := |producers| - 1;
    if i == n {
      assert producers[i := p][..n] == producers[..n];
    } else {
      assert producers[i := p][..n] == producers[..n][i := p];
      ProducerWorkUpdated(producers[..n], i, p);
    }
  }

  lemma {:induction false} TaskWorkCompleted(tasks: seq<Task>, i: nat)
    requires i < |tasks| && !tasks[i].completed
    ensures TasksWork(tasks[i := tasks[i].(completed := true)]) + 1 == TasksWork(tasks)
  {
    var n, t := |tasks| - 1, tasks[i].(completed := true);
    if i == n {
      assert tasks[i := t][..n] == tasks[..n];
    } else {
      assert tasks[i := t][..n] == tasks[..n][i := t];
      TaskWorkCompleted(tasks[..n], i);
    }
  }

  lemma {:induction false} TaskWorkRemoved(tasks: seq<Task>, i: nat)
    requires i < |tasks| && tasks[i].completed
    ensures TasksWork(Remove(tasks, i)) + 7 == TasksWork(tasks)
  {
    var n := |tasks| - 1;
    if i == n {
      assert Remove(tasks, i) == tasks[..n];
    } else {
      assert Remove(tasks, i)[..n - 1] == Remove(tasks[..n], i);
      TaskWorkRemoved(tasks[..n], i);
    }
  }

  lemma TaskWorkAdded(tasks: seq<Task>, rows: RowBatch)
    ensures TasksWork(tasks + [Task(rows, false)]) == TasksWork(tasks) + 8
  {
    assert (tasks + [Task(rows, false)])[..|tasks|] == tasks;
  }

  /** Every step uses up some of the work. */
  lemma StepWorks(c: Config, s: System, step: Step)
    requires Enabled(c, s, step)
    ensures StepsLeft(Apply(c, s, step)) < StepsLeft(s)
  {
    hide CountRunning, ProducersWork, TasksWork, Flatten;
    var t, d := Apply(c, s, step), s.dispatcher;
    assert TasksWork([]) == 0 by { NoTasks(); }
    match step
    case Acquire(i) => ProducerWorkUpdated(s.producers, i, t.producers[i]);
    case Send(i) => ProducerWorkUpdated(s.producers, i, t.producers[i]);
    case Complete(i) => TaskWorkCompleted(d.inFlight, i);
    case Collect(i) => TaskWorkRemoved(d.inFlight, i);
    case Pull => TaskWorkAdded(d.inFlight, s.input[0]);
    case _ =>
  }

  lemma NoTasks()
    ensures TasksWork([]) == 0
  {}

  /** Every run is finite, whatever the schedule, with the early limit and a consumer that
      drops its receiver included. */
  lemma {:induction false} RunIsShort(c: Config, run: seq<System>, k: nat)
    requires Run(c, run) && k < |run|
    ensures k + StepsLeft(run[k]) <= StepsLeft(run[0])
    decreases k
  {
    hide StepsLeft, Init, Enabled, Apply;
    if k > 0 {
      RunIsShort(c, run, k - 1);
      var s, t := run[k - 1], run[k - 1 + 1];
      assert Next(c, s, t);
      var step :| Enabled(c, s, step) && t == Apply(c, s, step);
      StepWorks(c, s, step);
    }
  }

  // --- What arrives ------------------------------------------------------------------------------

  lemma {:induction false} RunKeeps(c: Config, run: seq<System>, k: nat)
    requires Run(c, run) && k < |run|
    ensures Inv(c, run[k], AllRows(run[0]))
    decreases k
  {
    hide Inv, Init, Next, AllRows;
    if k == 0 {
      InitOk(c, run[0]);
    } else {
      RunKeeps(c, run, k - 1);
      StepKeeps(c, run[k - 1], run[k - 1 + 1], AllRows(run[0]));
    }
  }

  lemma {:induction false} PrefixFlattens<T>(a: seq<seq<T>>, b: seq<seq<T>>)
    requires a <= b
    ensures Flatten(a) <= Flatten(b)
  {
    hide Flatten;
    FlattenPrefix(b, |a|);
    assert b[..|a|] == a;
  }

  /** At any moment the consumer has received a prefix of the matching rows the dispatcher
      collected, and those are among the rows the pipeline was given. */
  lemma OnlyMatchesArrive(c: Config, run: seq<System>, n: nat)
    requires Run(c, run) && n < |run|
    ensures Flatten(run[n].received) <= Flatten(run[n].dispatcher.collected)
    ensures multiset(Flatten(run[n].dispatcher.collected)) <= AllRows(run[0])
  {
    hide Run, CoalescerOk, BoundsOk, Flatten, Accounted;
    var s := run[n];
    RunKeeps(c, run, n);
    PrefixFlattens(s.received, s.flushed);
  }

  /** The consumer has received all matching rows, or at least the early limit of them. */
  predicate Delivered(c: Config, s: System, all: multiset<Row>)
  {
    var rows := Flatten(s.received);
    && |rows| == s.dispatcher.rowsMatched
    && multiset(rows) <= all
    && (multiset(rows) == all || (c.earlyLimit.Some? && |rows| >= c.earlyLimit.value))
  }

  predicate WellSized(batches: seq<RowBatch>)
  {
    batches != [] && forall i | 0 <= i < |batches| - 1 :: |batches[i]| >= 8192
  }

  lemma EverythingArrives(s: System)
    requires OutputOk(s) && CoalescerOk(s) && s.consumer.Finished?
    ensures Flatten(s.received) == Flatten(s.dispatcher.collected) && s.dispatcher.phase.Returned?
    ensures WellSized(s.received)
  {
    hide Flatten;
    NothingLeft();
    assert s.received == s.flushed;
  }

  /** A run that the consumer follows to its end delivers exactly the rows counted in
      `rows_matched`: all matching rows, or at least as many as the early limit. Every batch
      but the last has at least 8192 rows. */
  lemma Delivery(c: Config, run: seq<System>)
    requires Run(c, run) && c.maxCpu > 0 && run[|run| - 1].consumer.Finished?
    ensures Delivered(c, run[|run| - 1], AllRows(run[0])) && WellSized(run[|run| - 1].received)
  {
    hide OutputOk, CoalescerOk, BoundsOk, Flatten, Accounted, AllRows;
    RunKeeps(c, run, |run| - 1);
    EverythingArrives(run[|run| - 1]);
  }
}
