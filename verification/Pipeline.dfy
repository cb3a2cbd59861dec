/** The three-stage query pipeline: I/O producers under a semaphore, one CPU dispatcher,
    one coalescer, and the consumer of the results, joined by bounded channels. Any number
    of producers, any interleaving, verification tasks that complete in any order. */
module Pipeline {
  import opened Types
  import opened Work

  const CHANNEL_CAPACITY: nat := 16
  const TARGET_BATCH_SIZE: nat := 8192

  type Row = RowKey

  /** The rows of a record batch. A work item is represented by the rows of its record batch
      that verification keeps. */
  type RowBatch = seq<Row>

  /** One I/O task: the record batches of its file that it has not sent yet. It holds a sender
      of the input channel, and one of the final channel, until it is done. */
  datatype Producer =
    | Waiting(batches: seq<RowBatch>)
    | Running(batches: seq<RowBatch>)
    | Stopped

  /** A verification task handed to the thread pool. */
  datatype Task = Task(rows: RowBatch, completed: bool)

  datatype DispatcherPhase =
    | Polling
    | Sending(batch: RowBatch)
    | CheckingLimit
    | Returned

  /** The dispatcher's variables. `collected` and `sent` record, for the statements below, the
      results it has taken from the pool and the batches it has sent on. */
  datatype Dispatcher = Dispatcher(
    phase: DispatcherPhase, inFlight: seq<Task>, inputDone: bool, rowsMatched: nat,
    collected: seq<RowBatch>, sent: seq<RowBatch>)

  datatype CoalescerPhase =
    | Receiving
    | Flushing(batch: RowBatch)
    | FinalFlush(batch: RowBatch)
    | Ended

  datatype Coalescer = Coalescer(phase: CoalescerPhase, pending: seq<RowBatch>, pendingRows: nat)

  datatype ConsumerPhase = Open | Finished | Dropped

  /** The whole pipeline; the channels are the queues between the stages. `flushed` records
      the batches the coalescer has sent to the final channel. */
  datatype System = System(
    producers: seq<Producer>, input: seq<RowBatch>, dispatcher: Dispatcher, output: seq<RowBatch>,
    coalescer: Coalescer, final: seq<RowBatch>, flushed: seq<RowBatch>, consumer: ConsumerPhase, received: seq<RowBatch>)

  /** `max_io_tasks` permits, `max_cpu` tasks in flight, the early limit of an unscored query. */
  datatype Config = Config(permits: nat, maxCpu: nat, earlyLimit: Option<nat>)

  function CountRunning(producers: seq<Producer>): nat
  {
    if producers == [] then 0
    else CountRunning(producers[..|producers| - 1]) + (if producers[|producers| - 1].Running? then 1 else 0)
  }

  predicate AllStopped(producers: seq<Producer>) { forall p | p in producers :: p.Stopped? }

  predicate NoneCompleted(tasks: seq<Task>) { forall t | t in tasks :: !t.completed }

  predicate LimitReached(c: Config, d: Dispatcher) { c.earlyLimit.Some? && d.rowsMatched >= c.earlyLimit.value }

  datatype Step =
    | Acquire(i: nat)
    | Send(i: nat)
    | Complete(i: nat)
    | Collect(i: nat)
    | Pull
    | CloseInput
    | Break
    | Emit
    | CheckLimit
    | Coalesce
    | EndOfOutput
    | Flush
    | Receive
    | EndOfResults
    | Drop

  /** The step can be taken: neither blocked on a channel or a permit, nor in the wrong place. */
  predicate Enabled(c: Config, s: System, step: Step)
  {
    var d := s.dispatcher;
    match step
    case Acquire(i) => i < |s.producers| && s.producers[i].Waiting? && CountRunning(s.producers) < c.permits
    case Send(i) =>
      i < |s.producers| && s.producers[i].Running?
      && (s.producers[i].batches == [] || d.phase.Returned? || |s.input| < CHANNEL_CAPACITY)
    case Complete(i) => i < |d.inFlight| && !d.inFlight[i].completed
    case Collect(i) => d.phase.Polling? && i < |d.inFlight| && d.inFlight[i].completed
    case Pull => MayPull(c, d) && s.input != []
    case CloseInput => MayPull(c, d) && s.input == [] && AllStopped(s.producers)
    case Break => d.phase.Polling? && d.inFlight == [] && !MayPull(c, d)
    case Emit => d.phase.Sending? && (s.coalescer.phase.Ended? || |s.output| < CHANNEL_CAPACITY)
    case CheckLimit => d.phase.CheckingLimit?
    case Coalesce => s.coalescer.phase.Receiving? && s.output != []
    case EndOfOutput => s.coalescer.phase.Receiving? && s.output == [] && d.phase.Returned?
    case Flush =>
      (s.coalescer.phase.Flushing? || s.coalescer.phase.FinalFlush?)
      && (s.consumer.Dropped? || |s.final| < CHANNEL_CAPACITY)
    case Receive => s.consumer.Open? && s.final != []
    case EndOfResults => s.consumer.Open? && s.final == [] && s.coalescer.phase.Ended? && AllStopped(s.producers)
    case Drop => s.consumer.Open?
  }

  /** The second branch of the biased select: only when no completed task is waiting. */
  predicate MayPull(c: Config, d: Dispatcher)
  {
    d.phase.Polling? && NoneCompleted(d.inFlight) && !d.inputDone && |d.inFlight| < c.maxCpu
  }

  function Remove<T>(xs: seq<T>, i: nat): (r: seq<T>)
    requires i < |xs|
    ensures |r| == |xs| - 1
  {
    xs[..i] + xs[i + 1..]
  }

  /** The dispatcher returns: its receiver and sender are dropped, its tasks abandoned. */
  function Return(s: System): System
  {
    s.(dispatcher := s.dispatcher.(phase := Returned, inFlight := []), input := [])
  }

  /** The effect of an enabled step. */
  function Apply(c: Config, s: System, step: Step): System
    requires Enabled(c, s, step)
  {
    var d := s.dispatcher;
    match step
    case Acquire(i) => s.(producers := s.producers[i := Running(s.producers[i].batches)])
    case Send(i) =>
      var rest := s.producers[i].batches;
      if rest == [] || d.phase.Returned? then s.(producers := s.producers[i := Stopped])
      else s.(producers := s.producers[i := Running(rest[1..])], input := s.input + [rest[0]])
    case Complete(i) => s.(dispatcher := d.(inFlight := d.inFlight[i := d.inFlight[i].(completed := true)]))
    case Collect(i) =>
      var rows := d.inFlight[i].rows;
      s.(dispatcher := d.(inFlight := Remove(d.inFlight, i), rowsMatched := d.rowsMatched + |rows|,
                          collected := d.collected + [rows], phase := if rows == [] then CheckingLimit else Sending(rows)))
    case Pull => s.(dispatcher := d.(inFlight := d.inFlight + [Task(s.input[0], false)]), input := s.input[1..])
    case CloseInput => s.(dispatcher := d.(inputDone := true))
    case Break => Return(s)
    case Emit =>
      if s.coalescer.phase.Ended? then Return(s)
      else
        s.(dispatcher := d.(phase := CheckingLimit, sent := d.sent + [d.phase.batch]), output := s.output + [d.phase.batch])
    case CheckLimit => if LimitReached(c, d) then Return(s) else s.(dispatcher := d.(phase := Polling))
    case Coalesce =>
      var pending := s.coalescer.pending + [s.output[0]];
      var pendingRows := s.coalescer.pendingRows + |s.output[0]|;
      s.(output := s.output[1..],
         coalescer := if pendingRows >= TARGET_BATCH_SIZE then Coalescer(Flushing(Flatten(pending)), [], 0)
                      else Coalescer(Receiving, pending, pendingRows))
    case EndOfOutput => s.(coalescer := s.coalescer.(phase := FinalFlush(Flatten(s.coalescer.pending)), pending := []))
    case Flush =>
      var phase := if s.consumer.Dropped? || s.coalescer.phase.FinalFlush? then Ended else Receiving;
      var coalescer := s.coalescer.(phase := phase);
      if s.consumer.Dropped? then s.(coalescer := coalescer, output := [])
      else
        s.(coalescer := coalescer, final := s.final + [s.coalescer.phase.batch], flushed := s.flushed + [s.coalescer.phase.batch])
    case Receive => s.(final := s.final[1..], received := s.received + [s.final[0]])
    case EndOfResults => s.(consumer := Finished)
    case Drop => s.(consumer := Dropped, final := [])
  }

  /** A new pipeline over the given tasks. */
  predicate Init(s: System)
  {
    && (forall p | p in s.producers :: p.Waiting?)
    && s.input == [] && s.output == [] && s.final == [] && s.flushed == [] && s.received == [] && s.consumer.Open?
    && s.dispatcher == Dispatcher(Polling, [], false, 0, [], [])
    && s.coalescer == Coalescer(Receiving, [], 0)
  }

  ghost predicate Next(c: Config, s: System, t: System)
  {
    exists step :: Enabled(c, s, step) && t == Apply(c, s, step)
  }

  /** Everybody has stopped. */
  predicate Over(s: System)
  {
    && AllStopped(s.producers) && s.dispatcher.phase.Returned? && s.coalescer.phase.Ended? && !s.consumer.Open?
  }

  ghost predicate Run(c: Config, run: seq<System>)
  {
    && run != [] && Init(run[0])
    && forall k | 0 <= k < |run| - 1 :: Next(c, run[k], run[k + 1])
  }
}
