/** What the retrying, batching, crash-prone pipeline guarantees over every run. */
module Pipeline {
  import opened Common
  import opened Events
  import opened LogTable
  import opened Processing
  import opened RawLogConsumer

  predicate ValidLog(log: seq<seq<Message>>) {
    forall p, o | 0 <= p < |log| && 0 <= o < |log[p]| :: log[p][o].partition == p && log[p][o].offset == o
  }

  predicate InLog(log: seq<seq<Message>>, m: Message) {
    m.partition < |log| && m.offset < |log[m.partition]| && log[m.partition][m.offset] == m
  }

  ghost predicate EventInLog(log: seq<seq<Message>>, e: RawLogEvent) {
    exists m :: InLog(log, m) && m.decoded == Some(e)
  }

  function Hand(s: State): seq<Message> { if s.inHand.Some? then [s.inHand.value] else [] }

  /** The messages that have been fetched and not yet committed or dropped, in fetch order. */
  function Pending(s: State): seq<Message> { s.batchMsgs + s.msgChan + Hand(s) }

  // ------------------------------------------------------------ the stores

  /** The stores hold rows of valid events of the log, each id once, behind their alerts. */
  ghost predicate StoresOk(log: seq<seq<Message>>, s: Stores) {
    && UniqueIds(s.rows)
    && StageOrder(s)
    && forall r | r in s.rows :: RowFromLog(log, r)
  }

  ghost predicate RowFromLog(log: seq<seq<Message>>, r: LogRow) {
    exists e :: EventInLog(log, e) && RowOfEvent(r, e)
  }

  lemma BatchKeepsStoresOk(log: seq<seq<Message>>, s: Stores, events: seq<RawLogEvent>, f: ProcessFaults)
    requires StoresOk(log, s)
    requires forall e | e in events :: EventInLog(log, e)
    ensures StoresOk(log, ProcessBatch(s, events, f).0)
  {
    hide CreateLogModel, ProcessBatch;
    ProcessKeepsUnique(s, events, f);
    ProcessKeepsStageOrder(s, events, f);
    forall r | r in ProcessBatch(s, events, f).0.rows
      ensures RowFromLog(log, r)
    {
      if r !in s.rows {
        ProcessAddsOnlyItsBatch(s, events, f, r);
      }
    }
  }

  // ------------------------------------------------------------ the batch mirrors its messages

  function SumSizes(msgs: seq<Message>): nat {
    if msgs == [] then 0 else SumSizes(msgs[..|msgs| - 1]) + msgs[|msgs| - 1].size
  }

  /** Events mirror messages one for one, and the byte count is the sum of the value lengths. */
  ghost predicate Mirror(s: State) {
    && |s.batchEvents| == |s.batchMsgs|
    && (forall i | 0 <= i < |s.batchMsgs| :: s.batchMsgs[i].decoded == Some(s.batchEvents[i]))
    && s.currentBatchBytes == SumSizes(s.batchMsgs)
  }

  /** While the context is live: rows within the limit, and bytes below the byte limit before the last message. */
  ghost predicate WithinLimits(c: Config, s: State) {
    !s.cancelled ==>
      && |s.batchMsgs| <= c.maxBatchRows
      && (s.batchMsgs != [] ==> s.currentBatchBytes < c.maxBatchBytes + s.batchMsgs[|s.batchMsgs| - 1].size)
  }

  ghost predicate Flags(s: State) {
    (s.fetchExited ==> s.cancelled && s.inHand.None?) && (s.shuttingDown ==> s.cancelled)
  }

  ghost predicate BatchOk(c: Config, s: State) { Mirror(s) && WithinLimits(c, s) && Flags(s) }

  // ------------------------------------------------------------ offsets

  ghost predicate Offsets(c: Config, s: State) {
    && |s.position| == |s.committed| == |c.log|
    && forall p | 0 <= p < |c.log| :: s.position[p] <= |c.log[p]| && s.committed[p] <= |c.log[p]|
  }

  ghost predicate Fetched(c: Config, s: State, m: Message)
    requires |s.position| == |c.log|
  {
    InLog(c.log, m) && m.offset < s.position[m.partition]
  }

  /** Messages of one partition come in offset order. */
  ghost predicate Ordered(msgs: seq<Message>) {
    forall i, j | 0 <= i < j < |msgs| && msgs[i].partition == msgs[j].partition :: msgs[i].offset < msgs[j].offset
  }

  ghost predicate PendingOk(c: Config, s: State) {
    && Offsets(c, s)
    && (forall m | m in Pending(s) :: Fetched(c, s, m))
    && Ordered(Pending(s))
  }

  /** Nothing more is owed to the message: it cannot be decoded, or its event is handled. */
  ghost predicate Settled(s: Stores, m: Message) {
    m.decoded.Some? ==> Handled(s, m.decoded.value)
  }

  /** Every message ever handed to `CommitMessages` cannot be decoded or was processed before. */
  ghost predicate HandedOk(s: State) { forall m | m in s.handed :: Settled(s.stores, m) }

  ghost predicate Inv(c: Config, s: State) {
    && StoresOk(c.log, s.stores)
    && BatchOk(c, s)
    && PendingOk(c, s)
    && HandedOk(s)
  }

  // ------------------------------------------------------------ each step keeps the invariant

  lemma TargetBounds(msgs: seq<Message>, p: nat)
    ensures Target(msgs, p).Some? ==> exists m | m in msgs :: m.partition == p && m.offset + 1 == Target(msgs, p).value
    ensures forall m | m in msgs && m.partition == p :: Target(msgs, p).Some? && m.offset + 1 <= Target(msgs, p).value
  {
    if msgs != [] {
      TargetBounds(msgs[..|msgs| - 1], p);
    }
  }

  lemma OverwriteKeepsOffsets(c: Config, s: State, msgs: seq<Message>)
    requires Offsets(c, s) && forall m | m in msgs :: InLog(c.log, m)
    ensures Offsets(c, s.(committed := Overwrite(s.committed, msgs)))
  {
    forall p | 0 <= p < |c.log|
      ensures Overwrite(s.committed, msgs)[p] <= |c.log[p]|
    {
      TargetBounds(msgs, p);
    }
  }

  lemma HandledStaysFor(s: Stores, t: Stores, msgs: seq<Message>)
    requires Extends(s, t) && forall m | m in msgs :: Settled(s, m)
    ensures forall m | m in msgs :: Settled(t, m)
  {
    forall m | m in msgs
      ensures Settled(t, m)
    {
      if m.decoded.Some? { HandledStays(s, t, m.decoded.value); }
    }
  }

  /** The state with new stores only. */
  function WithStores(s: State, stores: Stores): State { s.(stores := stores) }

  lemma ProcessKeepsInv(c: Config, s: State, f: ProcessFaults)
    requires Inv(c, s)
    ensures Inv(c, WithStores(s, ProcessBatch(s.stores, s.batchEvents, f).0))
    ensures ProcessBatch(s.stores, s.batchEvents, f).1 ==>
              forall m | m in s.batchMsgs :: Settled(ProcessBatch(s.stores, s.batchEvents, f).0, m)
  {
    hide ProcessBatch, CreateLogModel, Handled;
    forall e | e in s.batchEvents
      ensures EventInLog(c.log, e)
    {
      var i :| 0 <= i < |s.batchEvents| && s.batchEvents[i] == e;
      assert s.batchMsgs[i] in Pending(s);
      assert InLog(c.log, s.batchMsgs[i]);
    }
    BatchKeepsStoresOk(c.log, s.stores, s.batchEvents, f);
    ProcessOnlyAdds(s.stores, s.batchEvents, f);
    var (stores, ok) := ProcessBatch(s.stores, s.batchEvents, f);
    HandledStaysFor(s.stores, stores, s.handed);
    if ok {
      forall m | m in s.batchMsgs
        ensures Settled(stores, m)
      {
        var i :| 0 <= i < |s.batchMsgs| && s.batchMsgs[i] == m;
        assert s.batchEvents[i] in s.batchEvents;
        ProcessedBatchIsHandled(s.stores, s.batchEvents, f, s.batchEvents[i]);
      }
    }
  }

  lemma CommitKeepsInv(c: Config, s: State, msgs: seq<Message>, outcome: CommitOutcome)
    requires Inv(c, s)
    requires forall m | m in msgs :: InLog(c.log, m) && Settled(s.stores, m)
    ensures Inv(c, Commit(s, msgs, outcome))
  {
    hide StoresOk, Handled, Overwrite, Ordered;
    OverwriteKeepsOffsets(c, s, msgs);
    assert Pending(Commit(s, msgs, outcome)) == Pending(s);
  }

  lemma OrderedSuffix(front: seq<Message>, msgs: seq<Message>)
    requires Ordered(front + msgs)
    ensures Ordered(msgs)
  {
    forall i, j | 0 <= i < j < |msgs| && msgs[i].partition == msgs[j].partition
      ensures msgs[i].offset < msgs[j].offset
    {
      assert (front + msgs)[|front| + i] == msgs[i] && (front + msgs)[|front| + j] == msgs[j];
    }
  }

  lemma ClearKeepsInv(c: Config, s: State)
    requires Inv(c, s)
    ensures Inv(c, ClearBatch(s))
  {
    hide StoresOk, Handled, Ordered;
    assert Pending(s) == s.batchMsgs + Pending(ClearBatch(s));
    assert forall m | m in Pending(ClearBatch(s)) :: m in Pending(s);
    OrderedSuffix(s.batchMsgs, Pending(ClearBatch(s)));
  }

  lemma FlushKeepsInv(c: Config, s: State, f: FlushFaults)
    requires Inv(c, s)
    ensures Inv(c, Flush(s, f).0)
  {
    hide ProcessBatch, Inv, Settled, Overwrite;
    if s.batchEvents != [] {
      ProcessKeepsInv(c, s, f.process);
      var (stores, processed) := ProcessBatch(s.stores, s.batchEvents, f.process);
      if processed {
        BatchInLog(c, s);
        CommitKeepsInv(c, WithStores(s, stores), s.batchMsgs, f.commit);
        if f.commit.Committed? {
          ClearKeepsInv(c, Commit(WithStores(s, stores), s.batchMsgs, f.commit));
        }
      }
    }
  }

  lemma BatchInLog(c: Config, s: State)
    requires Inv(c, s)
    ensures forall m | m in s.batchMsgs :: InLog(c.log, m)
  {
    assert forall m | m in s.batchMsgs :: m in Pending(s);
  }

  lemma OrderedWithout(a: seq<Message>, m: Message, b: seq<Message>)
    requires Ordered(a + [m] + b)
    ensures Ordered(a + b)
  {
    var old', new' := a + [m] + b, a + b;
    forall i, j | 0 <= i < j < |new'| && new'[i].partition == new'[j].partition
      ensures new'[i].offset < new'[j].offset
    {
      var i', j' := if i < |a| then i else i + 1, if j < |a| then j else j + 1;
      assert old'[i'] == new'[i] && old'[j'] == new'[j];
    }
  }

  function DropHead(s: State): State requires s.msgChan != [] { s.(msgChan := s.msgChan[1..]) }

  lemma DropHeadKeepsInv(c: Config, s: State)
    requires Inv(c, s) && s.msgChan != []
    ensures Inv(c, DropHead(s)) && Fetched(c, s, s.msgChan[0])
  {
    hide StoresOk, Handled, Ordered;
    var m, rest := s.msgChan[0], s.msgChan[1..] + Hand(s);
    assert Pending(s) == s.batchMsgs + [m] + rest;
    assert Pending(DropHead(s)) == s.batchMsgs + rest;
    assert forall x | x in Pending(DropHead(s)) :: x in Pending(s);
    assert m in Pending(s);
    OrderedWithout(s.batchMsgs, m, rest);
  }

  lemma AppendKeepsInv(c: Config, s: State)
    requires Inv(c, s) && s.msgChan != [] && s.msgChan[0].decoded.Some?
    requires !s.cancelled ==> !LimitReached(c, s)
    ensures Inv(c, AppendToBatch(DropHead(s), s.msgChan[0], s.msgChan[0].decoded.value))
  {
    hide StoresOk, Handled, Ordered;
    var m := s.msgChan[0];
    var t := AppendToBatch(DropHead(s), m, m.decoded.value);
    assert Pending(t) == Pending(s);
    assert t.batchMsgs[..|s.batchMsgs|] == s.batchMsgs;
  }

  lemma InvFlags(c: Config, s: State)
    requires Inv(c, s)
    ensures (s.shuttingDown ==> s.cancelled) && (s.fetchExited ==> s.cancelled && s.inHand.None?)
  {
  }

  lemma LoopKeepsInv(c: Config, s: State, arm: Arm, f: FlushFaults)
    requires Inv(c, s)
    ensures Inv(c, LoopStep(c, s, arm, f))
  {
    hide Inv, Flush, AppendToBatch, Commit;
    FlushKeepsInv(c, s, f);
    InvFlags(c, s);
    if arm.Receive? && s.msgChan != [] {
      DropHeadKeepsInv(c, s);
      var m := s.msgChan[0];
      if m.decoded.None? {
        CommitKeepsInv(c, DropHead(s), [m], arm.invalidCommit);
      } else if !s.cancelled ==> !LimitReached(c, s) {
        AppendKeepsInv(c, s);
      }
    }
    StopKeepsInv(c, Flush(s, f).0);
    ShutDownKeepsInv(c, s);
  }

  lemma StopKeepsInv(c: Config, s: State)
    requires Inv(c, s)
    ensures Inv(c, s.(stopped := true))
  {
    hide StoresOk, Settled, Ordered;
    assert Pending(s.(stopped := true)) == Pending(s);
  }

  lemma ShutDownKeepsInv(c: Config, s: State)
    requires Inv(c, s)
    ensures s.cancelled ==> Inv(c, s.(shuttingDown := true))
    ensures Inv(c, s.(cancelled := true))
  {
    hide StoresOk, Settled, Ordered;
    assert Pending(s.(shuttingDown := true)) == Pending(s.(cancelled := true)) == Pending(s);
  }

  lemma FetchKeepsInv(c: Config, s: State, p: nat)
    requires ValidLog(c.log) && Inv(c, s)
    ensures Inv(c, FetchStep(c, s, p))
  {
    hide StoresOk, Settled;
    var t := FetchStep(c, s, p);
    if t != s {
      var m := t.inHand.value;
      assert Pending(t) == Pending(s) + [m];
      assert m.partition == p && m.offset == s.position[p];
      forall x | x in Pending(s) ensures x.partition == p ==> x.offset < m.offset { assert Fetched(c, s, x); }
    }
  }

  lemma EnqueueKeepsInv(c: Config, s: State)
    requires Inv(c, s)
    ensures Inv(c, EnqueueStep(c, s))
  {
    hide StoresOk, Settled, Ordered;
    assert Pending(EnqueueStep(c, s)) == Pending(s);
  }

  lemma FetchExitKeepsInv(c: Config, s: State)
    requires Inv(c, s) && s.cancelled
    ensures Inv(c, s.(fetchExited := true, inHand := None))
  {
    hide StoresOk, Settled, Ordered;
    var t := s.(fetchExited := true, inHand := None);
    if s.inHand.Some? {
      assert Pending(s) == Pending(t) + [s.inHand.value] + [];
      OrderedWithout(Pending(t), s.inHand.value, []);
      assert Pending(t) + [] == Pending(t);
    } else {
      assert Pending(s) == Pending(t);
    }
    assert forall x | x in Pending(t) :: x in Pending(s);
  }

  lemma RestartKeepsInv(c: Config, s: State)
    requires Inv(c, s)
    ensures Inv(c, Restart(s.stores, s.committed, s.handed))
  {
    hide StoresOk, Handled;
  }

  /** Every action, whatever fails in it, keeps the invariant. */
  lemma StepKeepsInv(c: Config, s: State, choice: Choice)
    requires ValidLog(c.log) && Inv(c, s)
    ensures Inv(c, Step(c, s, choice))
  {
    hide Inv, LoopStep, FetchStep, EnqueueStep, Restart, ValidLog;
    match choice
    case Fetch(p) => FetchKeepsInv(c, s, p);
    case Enqueue => EnqueueKeepsInv(c, s);
    case FetchExit => if s.cancelled { FetchExitKeepsInv(c, s); }
    case Cancel => ShutDownKeepsInv(c, s);
    case Loop(arm, f) => LoopKeepsInv(c, s, arm, f);
    case Crash => RestartKeepsInv(c, s);
  }

  lemma {:induction false} RunKeepsInv(c: Config, script: seq<Choice>)
    requires ValidLog(c.log)
    ensures Inv(c, Run(c, script))
  {
    if script != [] {
      hide Inv, Step;
      RunKeepsInv(c, script[..|script| - 1]);
      StepKeepsInv(c, Run(c, script[..|script| - 1]), script[|script| - 1]);
    } else {
      InitHoldsInv(c);
    }
  }

  lemma InitHoldsInv(c: Config)
    ensures Inv(c, Init(c))
  {
    hide CreateLogModel;
  }

  // ------------------------------------------------------------ what holds in every run

  /** Exactly-once, soundness: with distinct non-empty ids, the table holds only rows of valid events of
      the log, and none of them twice, whatever failed so far. */
  lemma TableHoldsEachValidEventAtMostOnce(c: Config, script: seq<Choice>)
    requires ValidLog(c.log) && DistinctIds(c.log)
    ensures NoDuplicates(Run(c, script).stores.rows)
    ensures forall r | r in Run(c, script).stores.rows :: RowFromLog(c.log, r)
  {
    RunKeepsInv(c, script);
    var rows := Run(c, script).stores.rows;
    hide CreateLogModel, Run;
    forall r | r in rows ensures r.eventId != "" { RowFromLogHasId(c.log, r); }
  }

  /** The decodable messages of the log carry pairwise different, non-empty ids. */
  ghost predicate DistinctIds(log: seq<seq<Message>>) {
    && (forall m | InLog(log, m) && m.decoded.Some? :: m.decoded.value.eventId != "")
    && (forall m, n | InLog(log, m) && InLog(log, n) && m.decoded.Some? && n.decoded.Some? ::
          m.decoded.value.eventId == n.decoded.value.eventId ==> m == n)
  }

  lemma RowFromLogHasId(log: seq<seq<Message>>, r: LogRow)
    requires DistinctIds(log) && RowFromLog(log, r)
    ensures r.eventId != ""
  {
    var e :| EventInLog(log, e) && RowOfEvent(r, e);
    var m :| InLog(log, m) && m.decoded == Some(e);
  }

  /** Stage order in every run: a serious row has its alert on the topic, a published event has its row. */
  lemma StageOrderInEveryRun(c: Config, script: seq<Choice>)
    requires ValidLog(c.log)
    ensures StageOrder(Run(c, script).stores)
  {
    RunKeepsInv(c, script);
  }

  /** Every message handed to `CommitMessages` cannot be decoded or has been processed. */
  lemma OnlySettledMessagesAreCommitted(c: Config, script: seq<Choice>)
    requires ValidLog(c.log)
    ensures HandedOk(Run(c, script))
  {
    RunKeepsInv(c, script);
  }

  /** In every run the batch mirrors its messages and stays within the limits while the context is live. */
  lemma BatchIsBoundedInEveryRun(c: Config, script: seq<Choice>)
    requires ValidLog(c.log)
    ensures BatchOk(c, Run(c, script))
  {
    RunKeepsInv(c, script);
  }
}
