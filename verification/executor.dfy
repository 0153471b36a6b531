/**
 * The batch and chunk workers of core/src/executor.rs. A run is the list of commands in the order in
 * which the worker takes them, with the ticks of its timer in between.
 */
module BatchWorkers {
  import opened Counters
  import opened Sequences

  datatype Item<T> = Item(value: T, size: nat)

  /** `Close` is the channel closing, `Tick` the flush interval passing. */
  datatype Command<T> = Push(item: Item<T>) | Flush | Shutdown | Close | Tick

  /** What the worker does: run a batch, or answer a flush or a shutdown. */
  datatype Output<T> = Executed(batch: seq<Item<T>>) | Acknowledged

  datatype State<T> = State(pending: seq<Item<T>>, size: nat, log: seq<Output<T>>, over: bool)

  function Flushed<T>(pending: seq<Item<T>>, log: seq<Output<T>>): seq<Output<T>> {
    if pending == [] then log else log + [Executed(pending)]
  }

  function Pushed<T>(limit: nat, s: State<T>, item: Item<T>): State<T> {
    var pending, size := s.pending + [item], SaturatingAdd(s.size, item.size);
    if size >= limit then State([], 0, s.log + [Executed(pending)], false) else State(pending, size, s.log, false)
  }

  function Next<T>(limit: nat, s: State<T>, command: Command<T>): State<T> {
    if s.over then s
    else if command.Push? then Pushed(limit, s, command.item)
    else
      var log := Flushed(s.pending, s.log);
      if command.Flush? then State([], 0, log + [Acknowledged], false)
      else if command.Shutdown? then State([], 0, log + [Acknowledged], true)
      else State([], 0, log, command.Close?)
  }

  function After<T>(limit: nat, commands: seq<Command<T>>): State<T> {
    if commands == [] then State([], 0, [], false)
    else Next(limit, After(limit, commands[..|commands| - 1]), commands[|commands| - 1])
  }

  // ---------------------------------------------------------------- what a run means

  /** The items taken before the worker stopped. */
  function Accepted<T>(commands: seq<Command<T>>): seq<Item<T>> {
    if commands == [] then []
    else
      var before, last := commands[..|commands| - 1], commands[|commands| - 1];
      if last.Push? && !Stopped(before) then Accepted(before) + [last.item] else Accepted(before)
  }

  predicate Stopped<T>(commands: seq<Command<T>>) {
    exists i :: 0 <= i < |commands| && (commands[i].Shutdown? || commands[i].Close?)
  }

  function Batches<T>(log: seq<Output<T>>): seq<seq<Item<T>>> {
    if log == [] then []
    else
      var last := log[|log| - 1];
      Batches(log[..|log| - 1]) + if last.Executed? then [last.batch] else []
  }

  function Acknowledgements<T>(log: seq<Output<T>>): nat {
    if log == [] then 0 else Acknowledgements(log[..|log| - 1]) + if log[|log| - 1].Acknowledged? then 1 else 0
  }

  function Total<T>(items: seq<Item<T>>): nat {
    if items == [] then 0 else Total(items[..|items| - 1]) + items[|items| - 1].size
  }

  /** No batch is empty, and none could have been run one item earlier. */
  predicate Minimal<T>(limit: nat, batch: seq<Item<T>>) {
    batch != [] && Capped(Total(batch[..|batch| - 1])) < limit
  }

  ghost predicate AllMinimal<T>(limit: nat, batches: seq<seq<Item<T>>>) {
    forall i {:trigger batches[i]} :: 0 <= i < |batches| ==> Minimal(limit, batches[i])
  }

  /** The batches that were run before they reached the limit. */
  function Partial<T>(limit: nat, batches: seq<seq<Item<T>>>): nat {
    if batches == [] then 0
    else Partial(limit, batches[..|batches| - 1]) + if Capped(Total(batches[|batches| - 1])) < limit then 1 else 0
  }

  /** The commands that may cut a batch short. */
  function Flushes<T>(commands: seq<Command<T>>): nat {
    if commands == [] then 0
    else Flushes(commands[..|commands| - 1]) + if commands[|commands| - 1].Push? then 0 else 1
  }

  ghost predicate Inv<T>(limit: nat, s: State<T>) {
    && s.size == Capped(Total(s.pending)) && s.size < limit
    && AllMinimal(limit, Batches(s.log))
    && (s.over ==> s.pending == [])
  }

  lemma BatchesAppend<T>(log: seq<Output<T>>, output: Output<T>)
    ensures Batches(log + [output]) == Batches(log) + if output.Executed? then [output.batch] else []
    ensures Acknowledgements(log + [output]) == Acknowledgements(log) + if output.Acknowledged? then 1 else 0
  {
    assert (log + [output])[..|log|] == log;
  }

  lemma TotalAppend<T>(items: seq<Item<T>>, item: Item<T>)
    ensures Total(items + [item]) == Total(items) + item.size
  {
    assert (items + [item])[..|items|] == items;
  }

  lemma PartialAppend<T>(limit: nat, batches: seq<seq<Item<T>>>, batch: seq<Item<T>>)
    ensures Partial(limit, batches + [batch]) == Partial(limit, batches) + if Capped(Total(batch)) < limit then 1 else 0
  {
    assert (batches + [batch])[..|batches|] == batches;
  }

  /** The items run so far, in order. */
  function Ran<T>(log: seq<Output<T>>): seq<Item<T>> {
    Flatten(Batches(log))
  }

  function Cuts<T>(limit: nat, log: seq<Output<T>>): nat {
    Partial(limit, Batches(log))
  }

  lemma ExecuteEffect<T>(limit: nat, log: seq<Output<T>>, batch: seq<Item<T>>, log': seq<Output<T>>)
    requires log' == log + [Executed(batch)]
    ensures Ran(log') == Ran(log) + batch && Acknowledgements(log') == Acknowledgements(log)
    ensures Cuts(limit, log') == Cuts(limit, log) + if Capped(Total(batch)) < limit then 1 else 0
    ensures AllMinimal(limit, Batches(log)) && Minimal(limit, batch) ==> AllMinimal(limit, Batches(log'))
  {
    BatchesAppend(log, Executed(batch));
    FlattenAppend(Batches(log), batch);
    PartialAppend(limit, Batches(log), batch);
  }

  lemma AcknowledgeEffect<T>(limit: nat, log: seq<Output<T>>, log': seq<Output<T>>)
    requires log' == log + [Acknowledged]
    ensures Batches(log') == Batches(log) && Ran(log') == Ran(log) && Cuts(limit, log') == Cuts(limit, log)
    ensures Acknowledgements(log') == Acknowledgements(log) + 1
  {
    BatchesAppend<T>(log, Acknowledged);
  }

  /** Running the pending items, which are below the limit. */
  lemma FlushEffect<T>(limit: nat, s: State<T>, log': seq<Output<T>>)
    requires Inv(limit, s) && log' == Flushed(s.pending, s.log)
    ensures AllMinimal(limit, Batches(log')) && Ran(log') == Ran(s.log) + s.pending
    ensures Cuts(limit, log') <= Cuts(limit, s.log) + 1 && Acknowledgements(log') == Acknowledgements(s.log)
  {
    if s.pending != [] {
      var last := |s.pending| - 1;
      assert s.pending == s.pending[..last] + [s.pending[last]];
      assert Minimal(limit, s.pending);
      ExecuteEffect(limit, s.log, s.pending, log');
    }
  }

  /** What one step does to the stream, to the cuts and to the invariant. */
  ghost predicate StepIs<T>(limit: nat, s: State<T>, command: Command<T>, s': State<T>) {
    && Inv(limit, s')
    && Ran(s'.log) + s'.pending == Ran(s.log) + s.pending + (if command.Push? && !s.over then [command.item] else [])
    && Cuts(limit, s'.log) <= Cuts(limit, s.log) + (if command.Push? then 0 else 1)
  }

  lemma FillingPush<T>(limit: nat, s: State<T>, command: Command<T>, s': State<T>)
    requires Inv(limit, s) && !s.over && 0 < limit && command.Push? && s' == Next(limit, s, command)
    requires SaturatingAdd(s.size, command.item.size) >= limit
    ensures StepIs(limit, s, command, s')
  {
    var pending := s.pending + [command.item];
    TotalAppend(s.pending, command.item);
    assert pending[..|s.pending|] == s.pending;
    assert Capped(Total(pending)) == SaturatingAdd(s.size, command.item.size);
    ExecuteEffect(limit, s.log, pending, s'.log);
    assert Ran(s.log) + pending == Ran(s.log) + s.pending + [command.item];
  }

  lemma QuietPush<T>(limit: nat, s: State<T>, command: Command<T>, s': State<T>)
    requires Inv(limit, s) && !s.over && command.Push? && s' == Next(limit, s, command)
    requires SaturatingAdd(s.size, command.item.size) < limit
    ensures StepIs(limit, s, command, s')
  {
    TotalAppend(s.pending, command.item);
    assert Ran(s.log) + (s.pending + [command.item]) == Ran(s.log) + s.pending + [command.item];
  }

  lemma FlushingStep<T>(limit: nat, s: State<T>, command: Command<T>, s': State<T>)
    requires Inv(limit, s) && !s.over && 0 < limit && !command.Push? && s' == Next(limit, s, command)
    ensures StepIs(limit, s, command, s')
  {
    var flushed := Flushed(s.pending, s.log);
    FlushEffect(limit, s, flushed);
    AcknowledgeEffect(limit, flushed, flushed + [Acknowledged]);
    assert Ran(s'.log) + [] == Ran(s'.log);
    assert Ran(s.log) + s.pending + [] == Ran(s.log) + s.pending;
  }

  lemma Step<T>(limit: nat, s: State<T>, command: Command<T>, s': State<T>)
    requires Inv(limit, s) && 0 < limit && s' == Next(limit, s, command)
    ensures StepIs(limit, s, command, s')
  {
    if s.over {
      assert Ran(s.log) + s.pending + [] == Ran(s.log) + s.pending;
    } else if !command.Push? {
      FlushingStep(limit, s, command, s');
    } else if SaturatingAdd(s.size, command.item.size) >= limit {
      FillingPush(limit, s, command, s');
    } else {
      QuietPush(limit, s, command, s');
    }
  }

  lemma {:induction false} EveryRunKeepsInv<T>(limit: nat, commands: seq<Command<T>>)
    requires 0 < limit
    ensures Inv(limit, After(limit, commands))
  {
    if commands != [] {
      var before := commands[..|commands| - 1];
      EveryRunKeepsInv(limit, before);
      Step(limit, After(limit, before), commands[|commands| - 1], After(limit, commands));
    }
  }

  lemma {:induction false} OverWhenStopped<T>(limit: nat, commands: seq<Command<T>>)
    ensures After(limit, commands).over <==> Stopped(commands)
  {
    if commands != [] {
      var before := commands[..|commands| - 1];
      OverWhenStopped(limit, before);
      StoppedAppend(before, commands[|commands| - 1]);
      assert commands == before + [commands[|commands| - 1]];
    }
  }

  lemma StoppedAppend<T>(before: seq<Command<T>>, last: Command<T>)
    ensures Stopped(before + [last]) <==> Stopped(before) || last.Shutdown? || last.Close?
  {
    var longer := before + [last];
    assert forall i :: 0 <= i < |before| ==> longer[i] == before[i];
    assert longer[|before|] == last;
  }

  /**
   * Batching preserves the stream: the batches run so far, one after the other, followed by the
   * pending items are the accepted items in order. Nothing is lost, repeated or reordered.
   */
  lemma {:induction false} BatchesAreTheStream<T>(limit: nat, commands: seq<Command<T>>)
    requires 0 < limit
    ensures Ran(After(limit, commands).log) + After(limit, commands).pending == Accepted(commands)
  {
    if commands != [] {
      var before, last := commands[..|commands| - 1], commands[|commands| - 1];
      BatchesAreTheStream(limit, before);
      EveryRunKeepsInv(limit, before);
      OverWhenStopped(limit, before);
      Step(limit, After(limit, before), last, After(limit, commands));
    }
  }

  /** Every batch that was run reached the limit with its last item or not at all, and its size was tracked exactly. */
  lemma BatchesRespectTheLimit<T>(limit: nat, commands: seq<Command<T>>, i: nat)
    requires 0 < limit && i < |Batches(After(limit, commands).log)|
    ensures Minimal(limit, Batches(After(limit, commands).log)[i])
    ensures After(limit, commands).size == Capped(Total(After(limit, commands).pending)) < limit
  {
    EveryRunKeepsInv(limit, commands);
  }

  /** A batch is cut short only by a flush, a tick or the end: at most one for each. */
  lemma {:induction false} OnlyFlushesCutShort<T>(limit: nat, commands: seq<Command<T>>)
    requires 0 < limit
    ensures Cuts(limit, After(limit, commands).log) <= Flushes(commands)
  {
    if commands != [] {
      var before, last := commands[..|commands| - 1], commands[|commands| - 1];
      OnlyFlushesCutShort(limit, before);
      EveryRunKeepsInv(limit, before);
      Step(limit, After(limit, before), last, After(limit, commands));
    }
  }

  /** When a flush or a shutdown is answered, everything accepted before it has been run. */
  lemma AcknowledgedMeansDone<T>(limit: nat, commands: seq<Command<T>>, last: Command<T>)
    requires 0 < limit && !Stopped(commands) && (last.Flush? || last.Shutdown?)
    ensures var s, s' := After(limit, commands), After(limit, commands + [last]);
      && s'.log == Flushed(s.pending, s.log) + [Acknowledged]
      && s'.pending == [] && Ran(s'.log) == Accepted(commands)
  {
    var s, longer := After(limit, commands), commands + [last];
    assert longer[..|commands|] == commands;
    EveryRunKeepsInv(limit, commands);
    OverWhenStopped(limit, commands);
    BatchesAreTheStream(limit, commands);
    var flushed := Flushed(s.pending, s.log);
    FlushEffect(limit, s, flushed);
    AcknowledgeEffect(limit, flushed, flushed + [Acknowledged]);
  }

  /** Nothing stays pending past a flush, a tick of the timer, a shutdown or the closing of the channel. */
  lemma NothingPendingAfter<T>(limit: nat, commands: seq<Command<T>>, last: Command<T>)
    requires 0 < limit && !last.Push?
    ensures After(limit, commands + [last]).pending == []
    ensures Ran(After(limit, commands + [last]).log) == Accepted(commands)
  {
    var longer := commands + [last];
    assert longer[..|commands|] == commands;
    EveryRunKeepsInv(limit, commands);
    BatchesAreTheStream(limit, longer);
    assert Ran(After(limit, longer).log) + [] == Ran(After(limit, longer).log);
  }

  /** The flushes and shutdowns that reached the worker before it stopped. */
  function Requests<T>(commands: seq<Command<T>>): nat {
    if commands == [] then 0
    else
      var before, last := commands[..|commands| - 1], commands[|commands| - 1];
      Requests(before) + if (last.Flush? || last.Shutdown?) && !Stopped(before) then 1 else 0
  }

  lemma FlushedAcknowledges<T>(pending: seq<Item<T>>, log: seq<Output<T>>)
    ensures Acknowledgements(Flushed(pending, log)) == Acknowledgements(log)
  {
    BatchesAppend(log, Executed(pending));
  }

  lemma StepAcknowledges<T>(limit: nat, s: State<T>, command: Command<T>)
    ensures Acknowledgements(Next(limit, s, command).log) ==
      Acknowledgements(s.log) + if !s.over && (command.Flush? || command.Shutdown?) then 1 else 0
  {
    if command.Push? {
      BatchesAppend(s.log, Executed(s.pending + [command.item]));
    } else {
      FlushedAcknowledges(s.pending, s.log);
      BatchesAppend<T>(Flushed(s.pending, s.log), Acknowledged);
    }
  }

  /** Every flush and shutdown is answered, once, and nothing else is. */
  lemma {:induction false} EveryRequestIsAnswered<T>(limit: nat, commands: seq<Command<T>>)
    ensures Acknowledgements(After(limit, commands).log) == Requests(commands)
  {
    if commands != [] {
      var before := commands[..|commands| - 1];
      EveryRequestIsAnswered(limit, before);
      OverWhenStopped(limit, before);
      StepAcknowledges(limit, After(limit, before), commands[|commands| - 1]);
    }
  }

  // ---------------------------------------------------------------- the batch worker counts items

  /** The commands of the batch executor, whose items all count as one. */
  ghost predicate UnitSizes<T>(commands: seq<Command<T>>) {
    forall i :: 0 <= i < |commands| && commands[i].Push? ==> commands[i].item.size == 1
  }

  ghost predicate UnitItems<T>(items: seq<Item<T>>) {
    forall i :: 0 <= i < |items| ==> items[i].size == 1
  }

  lemma {:induction false} UnitTotal<T>(items: seq<Item<T>>)
    requires UnitItems(items)
    ensures Total(items) == |items|
  {
    if items != [] {
      UnitTotal(items[..|items| - 1]);
    }
  }

  ghost predicate UnitLog<T>(log: seq<Output<T>>) {
    forall i {:trigger Batches(log)[i]} :: 0 <= i < |Batches(log)| ==> UnitItems(Batches(log)[i])
  }

  ghost predicate UnitState<T>(s: State<T>) {
    UnitItems(s.pending) && UnitLog(s.log)
  }

  lemma UnitAppend<T>(log: seq<Output<T>>, output: Output<T>)
    requires UnitLog(log) && (output.Executed? ==> UnitItems(output.batch))
    ensures UnitLog(log + [output])
  {
    BatchesAppend(log, output);
  }

  lemma UnitStep<T>(limit: nat, s: State<T>, command: Command<T>, s': State<T>)
    requires UnitState(s) && (command.Push? ==> command.item.size == 1) && s' == Next(limit, s, command)
    ensures UnitState(s')
  {
    if s.over {
    } else if command.Push? {
      UnitAppend(s.log, Executed(s.pending + [command.item]));
    } else {
      UnitAppend(s.log, Executed(s.pending));
      UnitAppend(Flushed(s.pending, s.log), Acknowledged);
    }
  }

  lemma {:induction false} UnitBatches<T>(limit: nat, commands: seq<Command<T>>)
    requires UnitSizes(commands)
    ensures UnitState(After(limit, commands))
  {
    if commands != [] {
      var before, last := commands[..|commands| - 1], commands[|commands| - 1];
      assert forall i :: 0 <= i < |before| ==> before[i] == commands[i];
      UnitBatches(limit, before);
      UnitStep(limit, After(limit, before), last, After(limit, commands));
    }
  }

  lemma UnitSize<T>(limit: nat, commands: seq<Command<T>>)
    requires 0 < limit <= MAX && UnitSizes(commands)
    ensures After(limit, commands).size == |After(limit, commands).pending| < limit
  {
    EveryRunKeepsInv(limit, commands);
    UnitBatches(limit, commands);
    UnitTotal(After(limit, commands).pending);
  }

  /** Batches of the batch executor have between one and `maxBatchSize` items. */
  lemma BatchSizes<T>(maxBatchSize: nat, commands: seq<Command<T>>, i: nat)
    requires 0 < maxBatchSize <= MAX && UnitSizes(commands)
    requires i < |Batches(After(maxBatchSize, commands).log)|
    ensures 1 <= |Batches(After(maxBatchSize, commands).log)[i]| <= maxBatchSize
    ensures |After(maxBatchSize, commands).pending| < maxBatchSize
  {
    UnitBatches(maxBatchSize, commands);
    UnitSize(maxBatchSize, commands);
    BatchesRespectTheLimit(maxBatchSize, commands, i);
    var batch := Batches(After(maxBatchSize, commands).log)[i];
    UnitTotal(batch[..|batch| - 1]);
  }

  // ---------------------------------------------------------------- the workers

  class Worker<T> {
    /** The batches handed to the callback and the answers sent, in order. */
    var log: seq<Output<T>>

    constructor ()
      ensures log == []
    {
      log := [];
    }

    method Execute(batch: seq<Item<T>>)
      modifies this
      ensures log == old(log) + [Executed(batch)]
    {
      log := log + [Executed(batch)];
    }

    method Acknowledge()
      modifies this
      ensures log == old(log) + [Acknowledged]
    {
      log := log + [Acknowledged];
    }

    /** Takes the batch, leaving it empty. */
    method FlushBatch(batch: seq<Item<T>>) returns (rest: seq<Item<T>>)
      modifies this
      ensures rest == [] && log == Flushed(batch, old(log))
    {
      rest := batch;
      if batch != [] {
        rest := [];
        Execute(batch);
      }
    }

    method RunChunkWorker(maxChunkBytes: nat, commands: seq<Command<T>>) returns (chunk: seq<Item<T>>)
      requires log == [] && 0 < maxChunkBytes
      modifies this
      ensures chunk == After(maxChunkBytes, commands).pending && log == After(maxChunkBytes, commands).log
      ensures Ran(log) + chunk == Accepted(commands)
    {
      BatchesAreTheStream(maxChunkBytes, commands);
      chunk := [];
      var chunkBytes: nat := 0;
      for i := 0 to |commands|
        invariant State(chunk, chunkBytes, log, false) == After(maxChunkBytes, commands[..i])
      {
        assert commands[..i + 1][..i] == commands[..i];
        match commands[i]
        case Push(item) =>
          chunk := chunk + [item];
          chunkBytes := SaturatingAdd(chunkBytes, item.size);
          if chunkBytes >= maxChunkBytes {
            Execute(chunk);
            chunk, chunkBytes := [], 0;
          }
        case Flush =>
          chunk := FlushBatch(chunk);
          chunkBytes := 0;
          Acknowledge();
        case Shutdown =>
          chunk := FlushBatch(chunk);
          Acknowledge();
          NothingAfterTheEnd(maxChunkBytes, commands, i + 1);
          return;
        case Close =>
          chunk := FlushBatch(chunk);
          NothingAfterTheEnd(maxChunkBytes, commands, i + 1);
          return;
        case Tick =>
          chunk := FlushBatch(chunk);
          chunkBytes := 0;
      }
      assert commands[..|commands|] == commands;
    }

    /** The same worker with the length of the batch in place of a running size. */
    method RunWorker(maxBatchSize: nat, commands: seq<Command<T>>) returns (batch: seq<Item<T>>)
      requires log == [] && 0 < maxBatchSize <= MAX && UnitSizes(commands)
      modifies this
      ensures batch == After(maxBatchSize, commands).pending && log == After(maxBatchSize, commands).log
      ensures Ran(log) + batch == Accepted(commands)
    {
      BatchesAreTheStream(maxBatchSize, commands);
      batch := [];
      for i := 0 to |commands|
        invariant State(batch, |batch|, log, false) == After(maxBatchSize, commands[..i])
      {
        assert commands[..i + 1][..i] == commands[..i];
        UnitSize(maxBatchSize, commands[..i]);
        match commands[i]
        case Push(item) =>
          batch := batch + [item];
          if |batch| >= maxBatchSize {
            Execute(batch);
            batch := [];
          }
        case Flush =>
          batch := FlushBatch(batch);
          Acknowledge();
        case Shutdown =>
          batch := FlushBatch(batch);
          Acknowledge();
          NothingAfterTheEnd(maxBatchSize, commands, i + 1);
          return;
        case Close =>
          batch := FlushBatch(batch);
          NothingAfterTheEnd(maxBatchSize, commands, i + 1);
          return;
        case Tick =>
          batch := FlushBatch(batch);
      }
      assert commands[..|commands|] == commands;
    }
  }

  lemma {:induction false} NothingAfterTheEnd<T>(limit: nat, commands: seq<Command<T>>, i: nat)
    requires i <= |commands| && After(limit, commands[..i]).over
    ensures After(limit, commands) == After(limit, commands[..i])
    decreases |commands|
  {
    if i == |commands| {
      assert commands[..i] == commands;
    } else {
      assert commands[..|commands| - 1][..i] == commands[..i];
      NothingAfterTheEnd(limit, commands[..|commands| - 1], i);
    }
  }
}
