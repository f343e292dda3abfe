/** Flushing: what a flush does when it succeeds and when it fails, when it happens, and that a shutdown
    leaves nothing of the drained messages behind. */
module Shutdown {
  import opened Common
  import opened Events
  import opened LogTable
  import opened Processing
  import opened RawLogConsumer
  import opened Pipeline
  import opened CommitSafety
  import opened ConsumerRuns

  /** No call of the flush fails: processing returns nil and the commit is acknowledged. */
  predicate FlushSucceeds(s: State, f: FlushFaults) {
    ProcessBatch(s.stores, s.batchEvents, f.process).1 && f.commit == Committed
  }

  lemma FaultFreeFlushSucceeds(s: State)
    ensures FlushSucceeds(s, NO_FAULTS)
  {
    hide ProcessBatch;
    FaultFreeBatchSucceeds(s.stores, s.batchEvents);
  }

  /** The state after the batch of `s` was flushed: every event of it is handled, every message of it was handed
      to the commit and lies below its partition's offset, and the batch is empty. */
  ghost predicate Flushed(s: State, t: State) {
    && t.batchEvents == [] && t.batchMsgs == [] && t.currentBatchBytes == 0
    && (forall e | e in s.batchEvents :: Handled(t.stores, e))
    && t.handed == s.handed + s.batchMsgs
    && |t.committed| == |s.committed|
    && (forall m | m in s.batchMsgs && m.partition < |t.committed| :: m.offset < t.committed[m.partition])
    && t.msgChan == s.msgChan && t.inHand == s.inHand && t.position == s.position
  }

  lemma OverwriteCovers(committed: seq<nat>, msgs: seq<Message>, m: Message)
    requires m in msgs && m.partition < |committed|
    ensures m.offset < Overwrite(committed, msgs)[m.partition]
  {
    TargetBounds(msgs, m.partition);
  }

  lemma FlushOfBatch(s: State, f: FlushFaults)
    requires s.batchEvents != [] && FlushSucceeds(s, f)
    ensures Flushed(s, Flush(s, f).0) && Flush(s, f).1
    ensures var t := Flush(s, f).0; t.stopped == s.stopped && t.cancelled == s.cancelled && t.fetchExited == s.fetchExited
  {
    hide ProcessBatch, Overwrite, Handled;
    var t := Flush(s, f).0;
    forall e | e in s.batchEvents ensures Handled(t.stores, e) {
      ProcessedBatchIsHandled(s.stores, s.batchEvents, f.process, e);
    }
    forall m | m in s.batchMsgs && m.partition < |t.committed| ensures m.offset < t.committed[m.partition] {
      OverwriteCovers(s.committed, s.batchMsgs, m);
    }
  }

  /** A flush that fails keeps the whole batch for the next one; when processing failed nothing is committed. */
  lemma FailedFlushKeepsBatch(s: State, f: FlushFaults)
    requires s.batchEvents != [] && !FlushSucceeds(s, f)
    ensures var (t, ok) := Flush(s, f);
            && !ok && t.batchEvents == s.batchEvents && t.batchMsgs == s.batchMsgs
            && t.currentBatchBytes == s.currentBatchBytes
            && (!ProcessBatch(s.stores, s.batchEvents, f.process).1 ==> t.committed == s.committed && t.handed == s.handed)
  {
    hide ProcessBatch, Overwrite;
  }

  // ------------------------------------------------------------ when a flush happens

  /** The final flush: when the channel is closed and empty, the loop flushes what is left and stops. */
  lemma FinalFlushSettles(c: Config, s: State, invalidCommit: CommitOutcome, f: FlushFaults)
    requires s.fetchExited && s.cancelled && !s.stopped && s.msgChan == [] && s.batchEvents != [] && FlushSucceeds(s, f)
    ensures var t := Step(c, s, Loop(Receive(invalidCommit), f)); t.stopped && Flushed(s, t)
  {
    hide Flush, ProcessBatch, Handled, FlushSucceeds;
    FlushOfBatch(s, f);
  }

  /** A failing final flush stops the loop all the same. */
  lemma FinalFlushStops(c: Config, s: State, invalidCommit: CommitOutcome, f: FlushFaults)
    requires s.fetchExited && s.cancelled && !s.stopped && s.msgChan == []
    ensures Step(c, s, Loop(Receive(invalidCommit), f)).stopped
    ensures s.batchEvents == [] ==> Step(c, s, Loop(Receive(invalidCommit), f)) == s.(stopped := true)
  {
    hide ProcessBatch, Overwrite;
  }

  /** With a live context a full batch, by rows or by bytes, is flushed before anything else. */
  lemma LimitFlushSettles(c: Config, s: State, arm: Arm, f: FlushFaults)
    requires !s.stopped && !s.cancelled && !s.shuttingDown && s.batchEvents != [] && FlushSucceeds(s, f)
    requires |s.batchEvents| >= c.maxBatchRows || s.currentBatchBytes >= c.maxBatchBytes
    ensures var t := Step(c, s, Loop(arm, f)); !t.stopped && Flushed(s, t)
  {
    hide Flush, ProcessBatch, Handled, FlushSucceeds;
    FlushOfBatch(s, f);
  }

  /** The ticker flushes a batch of any length, until the shutdown was seen. */
  lemma TickFlushSettles(c: Config, s: State, f: FlushFaults)
    requires !s.stopped && !s.shuttingDown && s.batchEvents != [] && FlushSucceeds(s, f)
    ensures var t := Step(c, s, Loop(Tick, f)); !t.stopped && Flushed(s, t)
  {
    hide Flush, ProcessBatch, Handled, FlushSucceeds;
    FlushOfBatch(s, f);
  }

  /** Once the loop has seen the end of the context, ticks change nothing. */
  lemma SeenShutdownSilencesTicks(c: Config, s: State, f: FlushFaults, g: FlushFaults)
    requires s.cancelled && !s.stopped
    ensures var t := Step(c, s, Loop(Done, f));
            t == s.(shuttingDown := true) && Step(c, t, Loop(Tick, g)) == t
  {
    hide Flush;
  }

  /** In every run at most `messageBuffer` messages wait in the channel. */
  lemma {:induction false} ChannelIsBounded(c: Config, script: seq<Choice>)
    ensures |Run(c, script).msgChan| <= c.messageBuffer
  {
    hide Step;
    if script != [] {
      ChannelIsBounded(c, script[..|script| - 1]);
      StepKeepsChannelBounded(c, Run(c, script[..|script| - 1]), script[|script| - 1]);
    }
  }

  lemma StepKeepsChannelBounded(c: Config, s: State, choice: Choice)
    requires |s.msgChan| <= c.messageBuffer
    ensures |Step(c, s, choice).msgChan| <= c.messageBuffer
  {
    hide ProcessBatch, Overwrite;
  }

  // ------------------------------------------------------------ the drain as a whole

  /** Nothing is left to do for the message: it was handed to a commit, it is settled, and unless it cannot be
      decoded its partition's offset lies beyond it. */
  ghost predicate Finished(s: State, m: Message) {
    && Settled(s.stores, m) && m in s.handed
    && (m.decoded.Some? ==> m.partition < |s.committed| && m.offset < s.committed[m.partition])
  }

  /** The pending messages of its partition come after it. */
  ghost predicate Behind(s: State, m: Message) {
    forall x | x in Pending(s) && x.partition == m.partition :: m.offset < x.offset
  }

  /** The message is finished and, unless it cannot be decoded, what is pending of its partition comes after it. */
  ghost predicate DealtWith(s: State, m: Message) { Finished(s, m) && (m.decoded.Some? ==> Behind(s, m)) }

  ghost predicate Accounted(s: State, m: Message) { m in Pending(s) || DealtWith(s, m) }

  /** The drain of the messages `drained`: the process is shutting down, and each of them is accounted for. */
  ghost predicate DrainOk(c: Config, drained: seq<Message>, s: State) {
    && Inv(c, s) && Draining(s) && s.inHand.None?
    && forall m | m in drained :: Accounted(s, m)
  }

  /** A commit of pending messages keeps finished ones finished. */
  lemma CommitKeepsFinished(c: Config, s: State, msgs: seq<Message>, outcome: CommitOutcome, m: Message)
    requires |s.committed| == |c.log| && DealtWith(s, m) && forall x | x in msgs :: x in Pending(s)
    ensures DealtWith(Commit(s, msgs, outcome), m)
  {
    hide Settled;
    var t := Commit(s, msgs, outcome);
    assert Pending(t) == Pending(s);
    TargetBounds(msgs, m.partition);
  }

  lemma LaterStoresKeepFinished(s: State, stores: Stores, m: Message)
    requires DealtWith(s, m) && Extends(s.stores, stores)
    ensures DealtWith(WithStores(s, stores), m)
  {
    hide Handled;
    assert Pending(WithStores(s, stores)) == Pending(s);
    HandledStaysFor(s.stores, stores, [m]);
    assert m in [m];
  }

  lemma FirstIsBehind(c: Config, s: State, front: seq<Message>, rest: seq<Message>, t: State, m: Message)
    requires PendingOk(c, s) && Pending(s) == front + rest && m in front && Pending(t) == rest
    ensures Behind(t, m)
  {
    var i :| 0 <= i < |front| && front[i] == m;
    forall x | x in rest && x.partition == m.partition ensures m.offset < x.offset {
      var j :| 0 <= j < |rest| && rest[j] == x;
      assert Pending(s)[i] == m && Pending(s)[|front| + j] == x;
    }
  }

  lemma InvGivesLengths(c: Config, s: State)
    requires Inv(c, s)
    ensures |s.committed| == |c.log| && PendingOk(c, s) && |s.batchEvents| == |s.batchMsgs|
    ensures forall m | m in Pending(s) :: InLog(c.log, m)
  {
    assert forall m | m in Pending(s) :: Fetched(c, s, m);
  }

  /** Processing the batch, whether it succeeds or not. */
  lemma ProcessKeepsDrain(c: Config, drained: seq<Message>, s: State, f: ProcessFaults)
    requires DrainOk(c, drained, s)
    ensures DrainOk(c, drained, WithStores(s, ProcessBatch(s.stores, s.batchEvents, f).0))
  {
    hide ProcessBatch, Inv, DealtWith, Extends;
    var t := WithStores(s, ProcessBatch(s.stores, s.batchEvents, f).0);
    ProcessKeepsInv(c, s, f);
    ProcessOnlyAdds(s.stores, s.batchEvents, f);
    assert Pending(t) == Pending(s);
    forall m | m in drained ensures Accounted(t, m) {
      if m !in Pending(s) { LaterStoresKeepFinished(s, t.stores, m); }
    }
  }

  /** Committing messages that are pending and settled. */
  lemma CommitKeepsDrain(c: Config, drained: seq<Message>, s: State, msgs: seq<Message>, outcome: CommitOutcome)
    requires DrainOk(c, drained, s) && forall m | m in msgs :: m in Pending(s) && Settled(s.stores, m)
    ensures DrainOk(c, drained, Commit(s, msgs, outcome))
  {
    hide Inv, DealtWith, Settled, Overwrite;
    var t := Commit(s, msgs, outcome);
    InvGivesLengths(c, s);
    CommitKeepsInv(c, s, msgs, outcome);
    assert Pending(t) == Pending(s);
    forall m | m in drained ensures Accounted(t, m) {
      if m !in Pending(s) { CommitKeepsFinished(c, s, msgs, outcome, m); }
    }
  }

  lemma FewerPendingKeepFinished(s: State, t: State, m: Message)
    requires DealtWith(s, m)
    requires t.stores == s.stores && t.handed == s.handed && t.committed == s.committed
    requires forall x | x in Pending(t) :: x in Pending(s)
    ensures DealtWith(t, m)
  {
    hide Settled;
  }

  /** Clearing a batch whose messages are finished. */
  lemma ClearKeepsDrain(c: Config, drained: seq<Message>, s: State)
    requires DrainOk(c, drained, s) && forall m | m in s.batchMsgs :: Finished(s, m)
    ensures DrainOk(c, drained, ClearBatch(s))
  {
    hide Inv, Finished, Behind;
    var t := ClearBatch(s);
    InvGivesLengths(c, s);
    ClearKeepsInv(c, s);
    assert Pending(s) == s.batchMsgs + Pending(t);
    forall m | m in drained ensures Accounted(t, m) {
      if m in s.batchMsgs {
        FirstIsBehind(c, s, s.batchMsgs, Pending(t), t, m);
        SameBooks(s, t, m);
      } else if m !in Pending(s) {
        FewerPendingKeepFinished(s, t, m);
      }
    }
  }

  lemma SameBooks(s: State, t: State, m: Message)
    requires t.stores == s.stores && t.handed == s.handed && t.committed == s.committed && Finished(s, m)
    ensures Finished(t, m)
  {
    hide Settled;
  }

  lemma FlushKeepsDrain(c: Config, drained: seq<Message>, s: State, f: FlushFaults)
    requires DrainOk(c, drained, s)
    ensures DrainOk(c, drained, Flush(s, f).0)
  {
    hide ProcessBatch, Inv, Settled, Accounted, Overwrite, Finished;
    if s.batchEvents != [] {
      var (stores, processed) := ProcessBatch(s.stores, s.batchEvents, f.process);
      var t := WithStores(s, stores);
      ProcessKeepsDrain(c, drained, s, f.process);
      ProcessKeepsInv(c, s, f.process);
      InvGivesLengths(c, t);
      if processed {
        CommitKeepsDrain(c, drained, t, t.batchMsgs, f.commit);
        if f.commit == Committed {
          forall m | m in t.batchMsgs ensures Finished(Commit(t, t.batchMsgs, f.commit), m) {
            CommittedIsFinished(c, t, t.batchMsgs, m);
          }
          ClearKeepsDrain(c, drained, Commit(t, t.batchMsgs, f.commit));
        }
      }
    }
  }

  lemma CommittedIsFinished(c: Config, s: State, msgs: seq<Message>, m: Message)
    requires |s.committed| == |c.log| && InLog(c.log, m) && m in msgs && Settled(s.stores, m)
    ensures Finished(Commit(s, msgs, Committed), m)
  {
    hide Settled, Overwrite;
    OverwriteCovers(s.committed, msgs, m);
  }

  /** Receiving a message that cannot be decoded. */
  lemma InvalidKeepsDrain(c: Config, drained: seq<Message>, s: State, outcome: CommitOutcome)
    requires DrainOk(c, drained, s) && s.msgChan != [] && s.msgChan[0].decoded.None?
    ensures DrainOk(c, drained, Commit(DropHead(s), [s.msgChan[0]], outcome))
  {
    hide Inv, Settled, DealtWith, Overwrite, Ordered;
    var head, t := s.msgChan[0], Commit(s, [s.msgChan[0]], outcome);
    NoneIsSettled(s.stores, head);
    CommitKeepsDrain(c, drained, s, [head], outcome);
    var u := DropHead(t);
    assert u == Commit(DropHead(s), [head], outcome);
    DropHeadKeepsInv(c, t);
    InvGivesLengths(c, t);
    forall m | m in drained ensures Accounted(u, m) {
      if m == head {
        HeadIsFinished(t, m);
        DealtWithOutOfChannel(t, u, m);
      } else if m !in Pending(t) {
        DealtWithOutOfChannel(t, u, m);
      }
    }
  }

  lemma HeadIsFinished(s: State, m: Message)
    requires m.decoded.None? && m in s.handed
    ensures DealtWith(s, m)
  {
  }

  lemma DealtWithOutOfChannel(s: State, t: State, m: Message)
    requires s.msgChan != [] && t == DropHead(s) && DealtWith(s, m)
    ensures DealtWith(t, m)
  {
    hide Finished;
    SameBooks(s, t, m);
    assert forall x | x in Pending(t) :: x in Pending(s);
  }

  lemma LoopKeepsDrain(c: Config, drained: seq<Message>, s: State, arm: Arm, f: FlushFaults)
    requires DrainOk(c, drained, s)
    ensures DrainOk(c, drained, LoopStep(c, s, arm, f))
  {
    hide Flush, Inv, Accounted, Commit, AppendToBatch;
    FlushKeepsDrain(c, drained, s, f);
    LoopKeepsInv(c, s, arm, f);
    FlagKeepsDrain(c, drained, s);
    FlagKeepsDrain(c, drained, Flush(s, f).0);
    if arm.Receive? && s.msgChan != [] {
      if s.msgChan[0].decoded.None? {
        InvalidKeepsDrain(c, drained, s, arm.invalidCommit);
      } else {
        AppendKeepsDrain(c, drained, s);
      }
    }
  }

  lemma FlagKeepsDrain(c: Config, drained: seq<Message>, s: State)
    requires DrainOk(c, drained, s)
    ensures DrainOk(c, drained, s.(stopped := true)) && DrainOk(c, drained, s.(shuttingDown := true))
  {
    hide Inv, Settled, Accounted;
    StopKeepsInv(c, s);
    ShutDownKeepsInv(c, s);
    forall m | m in drained ensures Accounted(s.(stopped := true), m) && Accounted(s.(shuttingDown := true), m) {
      SamePendingAccounts(s, s.(stopped := true), m);
      SamePendingAccounts(s, s.(shuttingDown := true), m);
    }
  }

  lemma SamePendingAccounts(s: State, t: State, m: Message)
    requires Pending(t) == Pending(s) && t.stores == s.stores && t.handed == s.handed && t.committed == s.committed
    requires Accounted(s, m)
    ensures Accounted(t, m)
  {
    hide Settled;
  }

  lemma AppendKeepsDrain(c: Config, drained: seq<Message>, s: State)
    requires DrainOk(c, drained, s) && s.msgChan != [] && s.msgChan[0].decoded.Some?
    ensures DrainOk(c, drained, AppendToBatch(DropHead(s), s.msgChan[0], s.msgChan[0].decoded.value))
  {
    hide Inv, Settled, Accounted;
    var t := AppendToBatch(DropHead(s), s.msgChan[0], s.msgChan[0].decoded.value);
    AppendKeepsInv(c, s);
    assert Pending(t) == Pending(s);
    forall m | m in drained ensures Accounted(t, m) { SamePendingAccounts(s, t, m); }
  }

  lemma StepKeepsDrain(c: Config, drained: seq<Message>, s: State, choice: Choice)
    requires DrainOk(c, drained, s) && !choice.Crash?
    ensures DrainOk(c, drained, Step(c, s, choice))
  {
    hide LoopStep, Inv, Accounted;
    match choice
    case Loop(arm, f) => LoopKeepsDrain(c, drained, s, arm, f);
    case Fetch(p) =>
    case Enqueue =>
    case FetchExit => assert s.(fetchExited := true, inHand := None) == s;
    case Cancel => assert s.(cancelled := true) == s;
    case Crash =>
  }

  lemma {:induction false} RunKeepsDrain(c: Config, drained: seq<Message>, s: State, script: seq<Choice>)
    requires DrainOk(c, drained, s) && NoCrash(script)
    ensures DrainOk(c, drained, RunFrom(c, s, script))
  {
    hide Step, DrainOk;
    if script != [] {
      var front, last := script[..|script| - 1], script[|script| - 1];
      assert last in script && forall x | x in front :: x in script;
      RunKeepsDrain(c, drained, s, front);
      StepKeepsDrain(c, drained, RunFrom(c, s, front), last);
    }
  }

  /** In every run: from the moment fetching has stopped, a process that does not crash and whose final flush
      does not fail stops with every drained message settled and handed to a commit, and every one of them that
      can be decoded below its partition's offset. Earlier flushes may have failed. */
  lemma ShutdownSettlesEverything(c: Config, script: seq<Choice>, drain: seq<Choice>, invalidCommit: CommitOutcome,
                                  f: FlushFaults)
    requires ValidLog(c.log) && Run(c, script).fetchExited && NoCrash(drain)
    requires var t := RunFrom(c, Run(c, script), drain); !t.stopped && t.msgChan == [] && FlushSucceeds(t, f)
    ensures var s := Run(c, script);
            var t := Step(c, RunFrom(c, s, drain), Loop(Receive(invalidCommit), f));
            t.stopped && Pending(t) == [] && forall m | m in s.batchMsgs + s.msgChan :: Finished(t, m)
  {
    hide Step, Inv, FlushSucceeds, Finished, Behind, Run, RunFrom;
    var s := Run(c, script);
    RunKeepsInv(c, script);
    ExitedFetchIsDraining(c, script);
    var drained := s.batchMsgs + s.msgChan;
    assert Pending(s) == drained;
    RunKeepsDrain(c, drained, s, drain);
    var t := RunFrom(c, s, drain);
    var last := Step(c, t, Loop(Receive(invalidCommit), f));
    StepKeepsDrain(c, drained, t, Loop(Receive(invalidCommit), f));
    FinalStepEmpties(c, t, invalidCommit, f);
    assert forall m | m in drained :: Accounted(last, m);
  }

  lemma FinalStepEmpties(c: Config, s: State, invalidCommit: CommitOutcome, f: FlushFaults)
    requires Inv(c, s) && Draining(s) && s.inHand.None? && !s.stopped && s.msgChan == [] && FlushSucceeds(s, f)
    ensures var t := Step(c, s, Loop(Receive(invalidCommit), f)); t.stopped && Pending(t) == []
  {
    hide Step, FlushSucceeds, Handled, Flush;
    InvGivesLengths(c, s);
    FinalFlushStops(c, s, invalidCommit, f);
    if s.batchEvents != [] {
      FinalFlushSettles(c, s, invalidCommit, f);
    }
  }

  // ------------------------------------------------------------ a cancelled process can always stop

  /** A cancelled context ends fetching, with the message in hand dropped; nothing else ends it. */
  lemma CancelEndsFetching(c: Config, s: State)
    ensures Step(c, s, Cancel) == s.(cancelled := true)
    ensures s.cancelled ==> Step(c, s, FetchExit) == s.(fetchExited := true, inHand := None)
    ensures !s.cancelled ==> Step(c, s, FetchExit) == s
  {
  }

  /** The loop receives `n` times without a failing call. */
  function ReceiveTimes(n: nat): (script: seq<Choice>)
    ensures |script| == n && forall x | x in script :: x == Loop(Receive(Committed), NO_FAULTS)
  {
    seq(n, _ => Loop(Receive(Committed), NO_FAULTS))
  }

  lemma {:induction false} CountsReceives(n: nat)
    ensures Receives(ReceiveTimes(n)) == n
  {
    if n > 0 {
      assert ReceiveTimes(n)[..n - 1] == ReceiveTimes(n - 1);
      CountsReceives(n - 1);
    }
  }

  /** From every reachable state of a running process, a cancellation followed by one receive for each message in
      the channel and one more stops it, with the whole batch and the whole channel settled and handed to a commit. */
  lemma CancellationCanSettleEverything(c: Config, script: seq<Choice>)
    requires ValidLog(c.log) && !Run(c, script).stopped
    ensures var s := Run(c, script);
            var t := RunFrom(c, s, [Cancel, FetchExit] + ReceiveTimes(|s.msgChan| + 1));
            t.stopped && Pending(t) == [] && forall m | m in s.batchMsgs + s.msgChan :: Finished(t, m)
  {
    hide Step, Finished, FlushSucceeds, Inv;
    var s, close := Run(c, script), [Cancel, FetchExit];
    var n := |s.msgChan|;
    var closed := Step(c, Step(c, s, Cancel), FetchExit);
    CancelEndsFetching(c, s);
    CancelEndsFetching(c, Step(c, s, Cancel));
    assert close[..1][..0] == [] && close[..1] == [Cancel];
    assert RunFrom(c, s, close[..1]) == Step(c, RunFrom(c, s, []), Cancel);
    assert RunFrom(c, s, close) == closed;
    RunFromSplit(c, Init(c), script, close);
    CountsReceives(n);
    DrainIsExact(c, closed, ReceiveTimes(n));
    FaultFreeFlushSucceeds(RunFrom(c, closed, ReceiveTimes(n)));
    ShutdownSettlesEverything(c, script + close, ReceiveTimes(n), Committed, NO_FAULTS);
    var rest := ReceiveTimes(n + 1);
    assert rest[..n] == ReceiveTimes(n) && rest[n] == Loop(Receive(Committed), NO_FAULTS);
    RunFromSplit(c, s, close, rest);
  }
}
