/** `LogConsumer`: the fetch goroutine, the batching loop, flush and commit, cancellation, crash and
    restart. One `Step` is one atomic action of a scheduler that chooses freely among the enabled ones. */
module RawLogConsumer {
  import opened Common
  import opened Events
  import opened LogTable
  import opened Processing

  /** A Kafka message; `decoded` is the outcome of `json.Unmarshal` on its value. */
  datatype Message = Message(partition: nat, offset: nat, size: nat, decoded: Option<RawLogEvent>)

  /** The partitions of the raw topic, and the limits of the consumer. */
  datatype Config = Config(log: seq<seq<Message>>, maxBatchRows: nat, maxBatchBytes: nat, messageBuffer: nat)

  /** The limits after `NewLogConsumer` has replaced the ones that are not positive. */
  function NewConfig(log: seq<seq<Message>>, rows: int, bytes: int, buffer: int): (c: Config)
    ensures c.log == log && c.maxBatchRows > 0 && c.maxBatchBytes > 0 && c.messageBuffer > 0
    ensures rows > 0 ==> c.maxBatchRows == rows
    ensures rows <= 0 ==> c.maxBatchRows == 1000
    ensures bytes > 0 ==> c.maxBatchBytes == bytes
    ensures bytes <= 0 ==> c.maxBatchBytes == 4194304
    ensures buffer > 0 ==> c.messageBuffer == buffer
    ensures buffer <= 0 ==> c.messageBuffer == 2 * c.maxBatchRows
  {
    var maxRows := if rows <= 0 then 1000 else rows;
    Config(log, maxRows,
           if bytes <= 0 then 4 * 1024 * 1024 else bytes,
           if buffer <= 0 then maxRows * 2 else buffer)
  }

  /** A commit succeeds, is lost, or takes effect although the client sees an error. */
  datatype CommitOutcome = Committed | CommitLost | CommitUnacknowledged

  datatype FlushFaults = FlushFaults(process: ProcessFaults, commit: CommitOutcome)

  /** The `select` case that fires in one iteration of the loop. */
  datatype Arm = Done | Receive(invalidCommit: CommitOutcome) | Tick

  datatype Choice =
    | Fetch(partition: nat)
    | Enqueue
    | FetchExit
    | Cancel
    | Loop(arm: Arm, faults: FlushFaults)
    | Crash

  /** The stores, the broker's committed offsets and everything the consumer process holds.
      `handed` records every message that was ever passed to `CommitMessages`. */
  datatype State = State(
    stores: Stores,
    committed: seq<nat>,
    handed: seq<Message>,
    position: seq<nat>,
    inHand: Option<Message>,
    msgChan: seq<Message>,
    fetchExited: bool,
    cancelled: bool,
    batchEvents: seq<RawLogEvent>,
    batchMsgs: seq<Message>,
    currentBatchBytes: nat,
    shuttingDown: bool,
    stopped: bool)

  function Zeros(n: nat): seq<nat> { seq(n, _ => 0) }

  /** A new process that resumes from the committed offsets. */
  function Restart(stores: Stores, committed: seq<nat>, handed: seq<Message>): State {
    State(stores, committed, handed, committed, None, [], false, false, [], [], 0, false, false)
  }

  function Init(c: Config): State { Restart(EMPTY_STORES, Zeros(|c.log|), []) }

  // ------------------------------------------------------------ commits

  /** What one commit request writes for partition `p`: one past the highest of its offsets. */
  function Target(msgs: seq<Message>, p: nat): Option<nat> {
    if msgs == [] then None
    else
      var front, m := Target(msgs[..|msgs| - 1], p), msgs[|msgs| - 1];
      if m.partition != p || (front.Some? && front.value > m.offset + 1) then front
      else Some(m.offset + 1)
  }

  /** The broker stores what the request says, even when that is lower than before. */
  function Overwrite(committed: seq<nat>, msgs: seq<Message>): (r: seq<nat>)
    ensures |r| == |committed|
  {
    seq(|committed|, p requires 0 <= p < |committed| =>
      match Target(msgs, p) case Some(o) => o case None => committed[p])
  }

  function Commit(s: State, msgs: seq<Message>, outcome: CommitOutcome): State {
    s.(handed := s.handed + msgs,
       committed := if outcome.CommitLost? then s.committed else Overwrite(s.committed, msgs))
  }

  // ------------------------------------------------------------ flush

  function ClearBatch(s: State): State { s.(batchEvents := [], batchMsgs := [], currentBatchBytes := 0) }

  function Flush(s: State, f: FlushFaults): (State, bool) {
    if s.batchEvents == [] then (s, true)
    else
      var (stores, processed) := ProcessBatch(s.stores, s.batchEvents, f.process);
      var s' := s.(stores := stores);
      if !processed then (s', false)
      else
        var s'' := Commit(s', s.batchMsgs, f.commit);
        if f.commit.Committed? then (ClearBatch(s''), true) else (s'', false)
  }

  predicate LimitReached(c: Config, s: State) {
    |s.batchEvents| >= c.maxBatchRows || s.currentBatchBytes >= c.maxBatchBytes
  }

  // ------------------------------------------------------------ one step

  function AppendToBatch(s: State, m: Message, e: RawLogEvent): State {
    s.(batchEvents := s.batchEvents + [e], batchMsgs := s.batchMsgs + [m],
       currentBatchBytes := s.currentBatchBytes + m.size)
  }

  function ReceiveStep(s: State, invalidCommit: CommitOutcome, f: FlushFaults): State {
    if s.msgChan != [] then
      var m, s' := s.msgChan[0], s.(msgChan := s.msgChan[1..]);
      match m.decoded
      case None => Commit(s', [m], invalidCommit)
      case Some(e) => AppendToBatch(s', m, e)
    else if s.fetchExited then Flush(s, f).0.(stopped := true)
    else s
  }

  function LoopStep(c: Config, s: State, arm: Arm, f: FlushFaults): State {
    if s.stopped then s
    else if !s.cancelled && !s.shuttingDown && LimitReached(c, s) then Flush(s, f).0
    else
      match arm
      case Done => if s.cancelled then s.(shuttingDown := true) else s
      case Receive(invalidCommit) => ReceiveStep(s, invalidCommit, f)
      case Tick => if s.shuttingDown then s else Flush(s, f).0
  }

  function FetchStep(c: Config, s: State, p: nat): State {
    if !s.fetchExited && s.inHand.None? && p < |c.log| && p < |s.position| && s.position[p] < |c.log[p]| then
      s.(inHand := Some(c.log[p][s.position[p]]), position := s.position[p := s.position[p] + 1])
    else s
  }

  function EnqueueStep(c: Config, s: State): State {
    if !s.fetchExited && s.inHand.Some? && |s.msgChan| < c.messageBuffer then
      s.(inHand := None, msgChan := s.msgChan + [s.inHand.value])
    else s
  }

  function Step(c: Config, s: State, choice: Choice): State {
    match choice
    case Fetch(p) => FetchStep(c, s, p)
    case Enqueue => EnqueueStep(c, s)
    case FetchExit => if s.cancelled then s.(fetchExited := true, inHand := None) else s
    case Cancel => s.(cancelled := true)
    case Loop(arm, f) => LoopStep(c, s, arm, f)
    case Crash => Restart(s.stores, s.committed, s.handed)
  }

  function RunFrom(c: Config, s: State, script: seq<Choice>): State {
    if script == [] then s else Step(c, RunFrom(c, s, script[..|script| - 1]), script[|script| - 1])
  }

  function Run(c: Config, script: seq<Choice>): State { RunFrom(c, Init(c), script) }

  // ------------------------------------------------------------ the imperative consumer

  class KafkaReader {
    const log: seq<seq<Message>>
    var position: seq<nat>
    var committed: seq<nat>
    var handed: seq<Message>

    constructor (log: seq<seq<Message>>)
      ensures this.log == log && position == committed == Zeros(|log|) && handed == []
    {
      this.log := log;
      position, committed, handed := Zeros(|log|), Zeros(|log|), [];
    }

    /** The next message of partition `p`, when there is one. */
    method FetchMessage(p: nat) returns (r: Option<Message>)
      modifies this`position
      ensures if p < |log| && p < |old(position)| && old(position)[p] < |log[p]|
              then r == Some(log[p][old(position)[p]]) && position == old(position)[p := old(position)[p] + 1]
              else r == None && position == old(position)
    {
      if p < |log| && p < |position| && position[p] < |log[p]| {
        r := Some(log[p][position[p]]);
        position := position[p := position[p] + 1];
      } else {
        r := None;
      }
    }

    method CommitMessages(msgs: seq<Message>, outcome: CommitOutcome) returns (ok: bool)
      modifies this`committed, this`handed
      ensures ok == outcome.Committed?
      ensures handed == old(handed) + msgs
      ensures committed == if outcome.CommitLost? then old(committed) else Overwrite(old(committed), msgs)
    {
      handed := handed + msgs;
      if !outcome.CommitLost? {
        committed := Overwrite(committed, msgs);
      }
      return outcome.Committed?;
    }

    /** A new group member starts at the committed offsets. */
    method Rejoin()
      modifies this`position
      ensures position == committed
    {
      position := committed;
    }
  }

  class LogConsumer {
    const reader: KafkaReader
    const processor: ProcessingService
    const maxBatchRows: nat
    const maxBatchBytes: nat
    const messageBuffer: nat

    var inHand: Option<Message>
    var msgChan: seq<Message>
    var fetchExited: bool
    var cancelled: bool
    var batchEvents: seq<RawLogEvent>
    var batchMsgs: seq<Message>
    var currentBatchBytes: nat
    var shuttingDown: bool
    var stopped: bool

    constructor (c: Config, reader: KafkaReader, processor: ProcessingService)
      requires reader.log == c.log && reader.position == reader.committed
      ensures this.reader == reader && this.processor == processor && TheConfig() == c
      ensures View() == Restart(processor.View(), reader.committed, reader.handed)
    {
      this.reader, this.processor := reader, processor;
      maxBatchRows, maxBatchBytes, messageBuffer := c.maxBatchRows, c.maxBatchBytes, c.messageBuffer;
      inHand, msgChan, fetchExited, cancelled := None, [], false, false;
      batchEvents, batchMsgs, currentBatchBytes, shuttingDown, stopped := [], [], 0, false, false;
    }

    function TheConfig(): Config { Config(reader.log, maxBatchRows, maxBatchBytes, messageBuffer) }

    function View(): State
      reads this, reader, processor.repo, processor.producer, processor.processedLogProducer
    {
      State(processor.View(), reader.committed, reader.handed, reader.position, inHand, msgChan, fetchExited,
            cancelled, batchEvents, batchMsgs, currentBatchBytes, shuttingDown, stopped)
    }

    /** The closure `flush` of `Start`. */
    method FlushBatch(f: FlushFaults) returns (ok: bool)
      modifies this, reader, processor.repo, processor.producer, processor.processedLogProducer
      ensures (View(), ok) == Flush(old(View()), f)
    {
      hide ProcessBatch, Overwrite;
      if |batchEvents| == 0 {
        return true;
      }
      var processed := processor.ProcessLog(batchEvents, f.process);
      if !processed {
        return false;
      }
      var committed := reader.CommitMessages(batchMsgs, f.commit);
      if !committed {
        return false;
      }
      batchEvents := [];
      batchMsgs := [];
      currentBatchBytes := 0;
      return true;
    }

    method ReceiveMessage(invalidCommit: CommitOutcome, f: FlushFaults)
      modifies this, reader, processor.repo, processor.producer, processor.processedLogProducer
      ensures View() == ReceiveStep(old(View()), invalidCommit, f)
    {
      hide Flush, Overwrite, ProcessBatch;
      if |msgChan| > 0 {
        var msg := msgChan[0];
        msgChan := msgChan[1..];
        if msg.decoded.None? {
          var ok := reader.CommitMessages([msg], invalidCommit);
        } else {
          batchEvents := batchEvents + [msg.decoded.value];
          batchMsgs := batchMsgs + [msg];
          currentBatchBytes := currentBatchBytes + msg.size;
        }
      } else if fetchExited {
        var ok := FlushBatch(f);
        stopped := true;
      }
    }

    /** One iteration of the loop of `Start`. */
    method Iterate(arm: Arm, f: FlushFaults)
      modifies this, reader, processor.repo, processor.producer, processor.processedLogProducer
      ensures View() == LoopStep(TheConfig(), old(View()), arm, f)
    {
      hide Flush, ReceiveStep;
      if stopped {
        return;
      }
      if !cancelled && !shuttingDown && (|batchEvents| >= maxBatchRows || currentBatchBytes >= maxBatchBytes) {
        var ok := FlushBatch(f);
        return;
      }
      match arm
      case Done =>
        if cancelled {
          shuttingDown := true;
        }
      case Receive(invalidCommit) =>
        ReceiveMessage(invalidCommit, f);
      case Tick =>
        if !shuttingDown {
          var ok := FlushBatch(f);
        }
    }

    /** `fetchLoop`: take the next message of some partition. */
    method FetchNext(p: nat)
      modifies this`inHand, reader`position
      ensures View() == FetchStep(TheConfig(), old(View()), p)
    {
      if !fetchExited && inHand.None? {
        var msg := reader.FetchMessage(p);
        inHand := msg;
      }
    }

    /** `fetchLoop`: hand the message to the channel when it has room. */
    method EnqueueMessage()
      modifies this`inHand, this`msgChan
      ensures View() == EnqueueStep(TheConfig(), old(View()))
    {
      if !fetchExited && inHand.Some? && |msgChan| < messageBuffer {
        msgChan := msgChan + [inHand.value];
        inHand := None;
      }
    }

    /** The process dies; a new one joins the group with empty memory. */
    method CrashAndRestart()
      modifies this, reader`position
      ensures View() == Restart(old(View()).stores, old(View()).committed, old(View()).handed)
    {
      reader.Rejoin();
      inHand, msgChan, fetchExited, cancelled := None, [], false, false;
      batchEvents, batchMsgs, currentBatchBytes, shuttingDown, stopped := [], [], 0, false, false;
    }

    /** One action of the fetch goroutine, of the environment or of the loop. */
    method Act(choice: Choice)
      modifies this, reader, processor.repo, processor.producer, processor.processedLogProducer
      ensures View() == Step(TheConfig(), old(View()), choice)
    {
      hide LoopStep, FetchStep, EnqueueStep, Restart;
      match choice
      case Fetch(p) =>
        FetchNext(p);
      case Enqueue =>
        EnqueueMessage();
      case FetchExit =>
        if cancelled {
          fetchExited := true;
          inHand := None;
        }
      case Cancel =>
        cancelled := true;
      case Loop(arm, f) =>
        Iterate(arm, f);
      case Crash =>
        CrashAndRestart();
    }

    /** The whole life of the consumer under a schedule. */
    method Start(script: seq<Choice>)
      modifies this, reader, processor.repo, processor.producer, processor.processedLogProducer
      ensures View() == RunFrom(TheConfig(), old(View()), script)
    {
      hide Step;
      for i := 0 to |script|
        invariant View() == RunFrom(TheConfig(), old(View()), script[..i])
      {
        assert script[..i + 1][..i] == script[..i];
        Act(script[i]);
      }
      assert script[..|script|] == script;
    }
  }
}
