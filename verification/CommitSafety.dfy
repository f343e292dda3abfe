/** Committed offsets: when everything below them is settled, and what the table then holds. */
module CommitSafety {
  import opened Common
  import opened Events
  import opened LogTable
  import opened Processing
  import opened RawLogConsumer
  import opened Pipeline

  /** Everything below every committed offset is undecodable, invalid, or saved and republished. */
  ghost predicate CommitSafe(c: Config, s: State) {
    |s.committed| == |c.log| && forall p | 0 <= p < |c.log| :: SafeBelow(c, s, p, s.committed[p])
  }

  ghost predicate SafeBelow(c: Config, s: State, p: nat, n: nat)
    requires p < |c.log|
  {
    n <= |c.log[p]| && forall o | 0 <= o < n :: Settled(s.stores, c.log[p][o])
  }

  /** Each message of partition `p` below `n` is settled or still pending. */
  ghost predicate CoveredBelow(c: Config, s: State, p: nat, n: nat)
    requires p < |c.log|
  {
    n <= |c.log[p]| && forall o | 0 <= o < n :: Settled(s.stores, c.log[p][o]) || c.log[p][o] in Pending(s)
  }

  /** No message is lost: what lies before a pending message, or before the fetch position of a live
      fetch goroutine, is settled or pending. */
  ghost predicate Covered(c: Config, s: State) {
    && PendingOk(c, s)
    && (forall m | m in Pending(s) :: CoveredBelow(c, s, m.partition, m.offset))
    && (!s.fetchExited ==> forall p | 0 <= p < |c.log| :: CoveredBelow(c, s, p, s.position[p]))
  }

  ghost predicate Safe(c: Config, s: State) { ValidLog(c.log) && Inv(c, s) && Covered(c, s) && CommitSafe(c, s) }

  /** The step commits an undecodable message straight away. */
  predicate CommitsInvalid(c: Config, s: State, choice: Choice) {
    && choice.Loop? && choice.arm.Receive? && !choice.arm.invalidCommit.CommitLost?
    && !s.stopped && (s.cancelled || s.shuttingDown || !LimitReached(c, s))
    && s.msgChan != [] && s.msgChan[0].decoded.None?
  }

  /** The step does not commit an undecodable message ahead of an unsettled one of its partition. */
  ghost predicate Clear(c: Config, s: State, choice: Choice) {
    CommitsInvalid(c, s, choice) ==>
      forall m | m in s.batchMsgs && m.partition == s.msgChan[0].partition :: Settled(s.stores, m)
  }

  // ------------------------------------------------------------ coverage under each step

  /** Later stores and pending messages that drop only settled ones keep coverage. */
  lemma CoverageMoves(c: Config, s: State, t: State, p: nat, n: nat)
    requires p < |c.log| && CoveredBelow(c, s, p, n)
    requires Extends(s.stores, t.stores)
    requires forall m | m in Pending(s) && m !in Pending(t) :: Settled(t.stores, m)
    ensures CoveredBelow(c, t, p, n)
  {
    hide Pending, Handled;
    forall o | 0 <= o < n
      ensures Settled(t.stores, c.log[p][o]) || c.log[p][o] in Pending(t)
    {
      var m := c.log[p][o];
      if Settled(s.stores, m) { HandledStaysFor(s.stores, t.stores, [m]); assert m in [m]; }
    }
  }

  lemma CoverageMovesAll(c: Config, s: State, t: State)
    requires Covered(c, s) && PendingOk(c, t)
    requires Extends(s.stores, t.stores) && t.position == s.position
    requires s.fetchExited ==> t.fetchExited
    requires forall m | m in Pending(s) && m !in Pending(t) :: Settled(t.stores, m)
    requires forall m | m in Pending(t) :: m in Pending(s)
    ensures Covered(c, t)
  {
    hide Pending, Settled, CoveredBelow;
    forall m | m in Pending(t)
      ensures CoveredBelow(c, t, m.partition, m.offset)
    {
      CoverageMoves(c, s, t, m.partition, m.offset);
    }
    if !t.fetchExited {
      forall p | 0 <= p < |c.log|
        ensures CoveredBelow(c, t, p, s.position[p])
      {
        CoverageMoves(c, s, t, p, s.position[p]);
      }
    }
  }

  lemma SafetyMoves(c: Config, s: State, t: State)
    requires CommitSafe(c, s) && Extends(s.stores, t.stores) && t.committed == s.committed
    ensures CommitSafe(c, t)
  {
    hide Handled;
    forall p, o | 0 <= p < |c.log| && 0 <= o < s.committed[p]
      ensures Settled(t.stores, c.log[p][o])
    {
      assert SafeBelow(c, s, p, s.committed[p]);
      HandledStaysFor(s.stores, t.stores, [c.log[p][o]]);
      assert c.log[p][o] in [c.log[p][o]];
    }
  }

  // ------------------------------------------------------------ flush

  /** What lies below the highest batch offset of a partition is settled once the batch is. */
  lemma BelowBatchIsSettled(c: Config, s: State, m: Message, o: nat)
    requires ValidLog(c.log) && Covered(c, s) && m in s.batchMsgs && o <= m.offset
    requires forall x | x in s.batchMsgs :: Settled(s.stores, x)
    ensures m.partition < |c.log| && m.offset < |c.log[m.partition]| && Settled(s.stores, c.log[m.partition][o])
  {
    hide Settled;
    assert m in Pending(s);
    assert Fetched(c, s, m);
    if o < m.offset {
      assert CoveredBelow(c, s, m.partition, m.offset);
      var x := c.log[m.partition][o];
      if x in Pending(s) {
        EarlierPendingIsInBatch(c, s, m, x);
      }
    }
  }

  lemma EarlierPendingIsInBatch(c: Config, s: State, m: Message, x: Message)
    requires PendingOk(c, s) && m in s.batchMsgs && x in Pending(s)
    requires x.partition == m.partition && x.offset < m.offset
    ensures x in s.batchMsgs
  {
    assert Fetched(c, s, x) && m in Pending(s) && Fetched(c, s, m);
    var i :| 0 <= i < |s.batchMsgs| && s.batchMsgs[i] == m;
    var j :| 0 <= j < |Pending(s)| && Pending(s)[j] == x;
    assert Pending(s)[i] == m;
  }

  lemma CommitOfBatchIsSafe(c: Config, s: State, outcome: CommitOutcome)
    requires ValidLog(c.log) && Covered(c, s) && CommitSafe(c, s)
    requires forall m | m in s.batchMsgs :: Settled(s.stores, m)
    ensures CommitSafe(c, Commit(s, s.batchMsgs, outcome))
  {
    hide Settled, Covered, Target;
    if !outcome.CommitLost? {
      forall p | 0 <= p < |c.log|
        ensures SafeBelow(c, Commit(s, s.batchMsgs, outcome), p, Overwrite(s.committed, s.batchMsgs)[p])
      {
        TargetBounds(s.batchMsgs, p);
        var target := Target(s.batchMsgs, p);
        assert SafeBelow(c, s, p, s.committed[p]);
        if target.Some? {
          var m :| m in s.batchMsgs && m.partition == p && m.offset + 1 == target.value;
          BelowBatchIsSettled(c, s, m, m.offset);
          forall o | 0 <= o < target.value
            ensures Settled(s.stores, c.log[p][o])
          {
            BelowBatchIsSettled(c, s, m, o);
          }
        }
      }
    }
  }

  lemma CommitKeepsCovered(c: Config, s: State, msgs: seq<Message>, outcome: CommitOutcome)
    requires Covered(c, s) && PendingOk(c, Commit(s, msgs, outcome))
    ensures Covered(c, Commit(s, msgs, outcome))
  {
    hide Settled, PendingOk, Overwrite;
    assert Pending(Commit(s, msgs, outcome)) == Pending(s);
    CoverageMovesAll(c, s, Commit(s, msgs, outcome));
  }

  lemma ClearBatchKeepsCovered(c: Config, s: State)
    requires Covered(c, s) && PendingOk(c, ClearBatch(s))
    requires forall m | m in s.batchMsgs :: Settled(s.stores, m)
    ensures Covered(c, ClearBatch(s))
  {
    hide Settled, PendingOk;
    assert Pending(s) == s.batchMsgs + Pending(ClearBatch(s));
    CoverageMovesAll(c, s, ClearBatch(s));
  }

  lemma ProcessKeepsSafe(c: Config, s: State, f: ProcessFaults)
    requires Safe(c, s)
    ensures Safe(c, WithStores(s, ProcessBatch(s.stores, s.batchEvents, f).0))
  {
    hide ProcessBatch, Inv, Settled, Extends;
    var t := WithStores(s, ProcessBatch(s.stores, s.batchEvents, f).0);
    ProcessKeepsInv(c, s, f);
    ProcessOnlyAdds(s.stores, s.batchEvents, f);
    assert Pending(t) == Pending(s);
    InvGivesPendingOk(c, t);
    CoverageMovesAll(c, s, t);
    SafetyMoves(c, s, t);
  }

  lemma InvGivesPendingOk(c: Config, s: State)
    requires Inv(c, s)
    ensures PendingOk(c, s)
  {
  }

  lemma ClearBatchKeepsSafe(c: Config, s: State)
    requires Safe(c, s) && forall m | m in s.batchMsgs :: Settled(s.stores, m)
    ensures Safe(c, ClearBatch(s))
  {
    hide Settled, Inv, Covered, CommitSafe;
    ClearKeepsInv(c, s);
    InvGivesPendingOk(c, ClearBatch(s));
    ClearBatchKeepsCovered(c, s);
    ExtendsItself(s.stores);
    SafetyMoves(c, s, ClearBatch(s));
  }

  lemma ExtendsItself(s: Stores)
    ensures Extends(s, s)
  {
  }

  lemma CommitBatchKeepsSafe(c: Config, s: State, outcome: CommitOutcome)
    requires Safe(c, s) && forall m | m in s.batchMsgs :: Settled(s.stores, m)
    ensures Safe(c, Commit(s, s.batchMsgs, outcome))
  {
    hide Settled, Inv, Covered, CommitSafe, Commit;
    BatchInLog(c, s);
    CommitKeepsInv(c, s, s.batchMsgs, outcome);
    InvGivesPendingOk(c, Commit(s, s.batchMsgs, outcome));
    CommitKeepsCovered(c, s, s.batchMsgs, outcome);
    CommitOfBatchIsSafe(c, s, outcome);
  }

  lemma FlushKeepsSafe(c: Config, s: State, f: FlushFaults)
    requires Safe(c, s)
    ensures Safe(c, Flush(s, f).0)
  {
    hide ProcessBatch, Safe, Settled, Overwrite;
    if s.batchEvents != [] {
      SafeGivesInv(c, s);
      ProcessKeepsSafe(c, s, f.process);
      ProcessKeepsInv(c, s, f.process);
      var (stores, processed) := ProcessBatch(s.stores, s.batchEvents, f.process);
      if processed {
        var t := WithStores(s, stores);
        CommitBatchKeepsSafe(c, t, f.commit);
        if f.commit.Committed? {
          ClearBatchKeepsSafe(c, Commit(t, t.batchMsgs, f.commit));
        }
      }
    }
  }

  lemma SafeGivesInv(c: Config, s: State)
    requires Safe(c, s)
    ensures ValidLog(c.log) && Inv(c, s)
  {
  }

  // ------------------------------------------------------------ the loop

  lemma DropSettledHead(c: Config, s: State)
    requires Safe(c, s) && s.msgChan != [] && s.msgChan[0].decoded.None?
    ensures Safe(c, DropHead(s))
  {
    hide Inv, CoveredBelow, CommitSafe;
    var m, t := s.msgChan[0], DropHead(s);
    DropHeadKeepsInv(c, s);
    InvGivesPendingOk(c, t);
    assert Pending(s) == s.batchMsgs + [m] + s.msgChan[1..] + Hand(s);
    assert Settled(t.stores, m);
    ExtendsItself(s.stores);
    CoverageMovesAll(c, s, t);
    SafetyMoves(c, s, t);
  }

  lemma AppendKeepsSafe(c: Config, s: State)
    requires Safe(c, s) && s.msgChan != [] && s.msgChan[0].decoded.Some?
    requires !s.cancelled ==> !LimitReached(c, s)
    ensures Safe(c, AppendToBatch(DropHead(s), s.msgChan[0], s.msgChan[0].decoded.value))
  {
    hide Inv, CoveredBelow, CommitSafe;
    var t := AppendToBatch(DropHead(s), s.msgChan[0], s.msgChan[0].decoded.value);
    AppendKeepsInv(c, s);
    InvGivesPendingOk(c, t);
    assert Pending(t) == Pending(s);
    ExtendsItself(s.stores);
    CoverageMovesAll(c, s, t);
    SafetyMoves(c, s, t);
  }

  /** The batch messages ahead of the head of the channel are exactly what an early commit endangers. */
  lemma InvalidCommitSafeIff(c: Config, s: State, outcome: CommitOutcome)
    requires Safe(c, s) && s.msgChan != [] && s.msgChan[0].decoded.None? && !outcome.CommitLost?
    ensures CommitSafe(c, Commit(DropHead(s), [s.msgChan[0]], outcome))
       <==> forall m | m in s.batchMsgs && m.partition == s.msgChan[0].partition :: Settled(s.stores, m)
  {
    hide Inv, Covered, Handled;
    var head := s.msgChan[0];
    var t := Commit(DropHead(s), [head], outcome);
    HeadFacts(c, s);
    SingleTarget(head);
    if forall m | m in s.batchMsgs && m.partition == head.partition :: Settled(s.stores, m) {
      forall p | 0 <= p < |c.log|
        ensures SafeBelow(c, t, p, t.committed[p])
      {
        assert SafeBelow(c, s, p, s.committed[p]);
        if p == head.partition {
          forall o | 0 <= o <= head.offset
            ensures Settled(s.stores, c.log[p][o])
          {
            if o < head.offset { BelowHeadIsSettled(c, s, o); }
          }
        }
      }
    }
    if CommitSafe(c, t) {
      forall m | m in s.batchMsgs && m.partition == head.partition
        ensures Settled(s.stores, m)
      {
        BatchBeforeHead(c, s, m);
        assert SafeBelow(c, t, head.partition, t.committed[head.partition]);
      }
    }
  }

  lemma SingleTarget(m: Message)
    ensures forall p: nat :: Target([m], p) == if m.partition == p then Some(m.offset + 1) else None
  {
    assert [m][..0] == [];
  }

  lemma HeadFacts(c: Config, s: State)
    requires Safe(c, s) && s.msgChan != []
    ensures InLog(c.log, s.msgChan[0]) && s.msgChan[0] in Pending(s)
  {
    assert s.msgChan[0] in Pending(s);
    assert Fetched(c, s, s.msgChan[0]);
  }

  lemma BatchBeforeHead(c: Config, s: State, m: Message)
    requires Safe(c, s) && s.msgChan != [] && m in s.batchMsgs && m.partition == s.msgChan[0].partition
    ensures m.offset < s.msgChan[0].offset && InLog(c.log, m)
  {
    assert m in Pending(s);
    assert Fetched(c, s, m);
    var i :| 0 <= i < |s.batchMsgs| && s.batchMsgs[i] == m;
    assert Pending(s)[i] == m && Pending(s)[|s.batchMsgs|] == s.msgChan[0];
  }

  lemma BelowHeadIsSettled(c: Config, s: State, o: nat)
    requires Safe(c, s) && s.msgChan != [] && o < s.msgChan[0].offset && s.msgChan[0].partition < |c.log|
    requires o < |c.log[s.msgChan[0].partition]|
    requires forall m | m in s.batchMsgs && m.partition == s.msgChan[0].partition :: Settled(s.stores, m)
    ensures Settled(s.stores, c.log[s.msgChan[0].partition][o])
  {
    hide Inv, Settled;
    HeadFacts(c, s);
    var head := s.msgChan[0];
    var x := c.log[head.partition][o];
    assert CoveredBelow(c, s, head.partition, head.offset);
    if x in Pending(s) {
      assert x.partition == head.partition && x.offset == o;
      var j :| 0 <= j < |Pending(s)| && Pending(s)[j] == x;
      assert Pending(s)[|s.batchMsgs|] == head;
      assert j < |s.batchMsgs|;
      assert x == s.batchMsgs[j];
    }
  }

  /** Committing the undecodable head is safe when its partition has nothing unsettled in the batch. */
  lemma InvalidCommitKeepsSafe(c: Config, s: State, outcome: CommitOutcome)
    requires Safe(c, s) && s.msgChan != [] && s.msgChan[0].decoded.None?
    requires outcome.CommitLost? ||
             forall m | m in s.batchMsgs && m.partition == s.msgChan[0].partition :: Settled(s.stores, m)
    ensures Safe(c, Commit(DropHead(s), [s.msgChan[0]], outcome))
  {
    hide Inv, Covered, Settled;
    var m, t := s.msgChan[0], DropHead(s);
    DropSettledHead(c, s);
    HeadFacts(c, s);
    NoneIsSettled(t.stores, m);
    CommitKeepsInv(c, t, [m], outcome);
    InvGivesPendingOk(c, Commit(t, [m], outcome));
    CommitKeepsCovered(c, t, [m], outcome);
    if !outcome.CommitLost? {
      InvalidCommitSafeIff(c, s, outcome);
    }
  }

  lemma NoneIsSettled(s: Stores, m: Message)
    requires m.decoded.None?
    ensures Settled(s, m)
  {
  }

  // ------------------------------------------------------------ every step

  lemma LoopKeepsSafe(c: Config, s: State, arm: Arm, f: FlushFaults)
    requires Safe(c, s) && Clear(c, s, Loop(arm, f))
    ensures Safe(c, LoopStep(c, s, arm, f))
  {
    hide Safe, Settled, Flush, Commit, AppendToBatch;
    FlushKeepsSafe(c, s, f);
    SafeGivesInv(c, s);
    InvFlags(c, s);
    StopKeepsSafe(c, Flush(s, f).0);
    ShutDownKeepsSafe(c, s);
    if arm.Receive? && s.msgChan != [] && !s.stopped && (s.cancelled || s.shuttingDown || !LimitReached(c, s)) {
      if s.msgChan[0].decoded.None? {
        InvalidCommitKeepsSafe(c, s, arm.invalidCommit);
      } else {
        AppendKeepsSafe(c, s);
      }
    }
  }

  lemma SameMessagesKeepSafe(c: Config, s: State, t: State)
    requires Safe(c, s) && Inv(c, t)
    requires t.stores == s.stores && t.position == s.position && t.committed == s.committed
    requires s.fetchExited ==> t.fetchExited
    requires Pending(t) <= Pending(s)
    requires forall m | m in Pending(s) && m !in Pending(t) :: Settled(t.stores, m)
    ensures Safe(c, t)
  {
    hide Inv, Settled, CoveredBelow, CommitSafe;
    InvGivesPendingOk(c, t);
    ExtendsItself(s.stores);
    assert forall m | m in Pending(t) :: m in Pending(s);
    CoverageMovesAll(c, s, t);
    SafetyMoves(c, s, t);
  }

  lemma StopKeepsSafe(c: Config, s: State)
    requires Safe(c, s)
    ensures Safe(c, s.(stopped := true))
  {
    hide Inv, Settled;
    StopKeepsInv(c, s);
    assert Pending(s.(stopped := true)) == Pending(s);
    SameMessagesKeepSafe(c, s, s.(stopped := true));
  }

  lemma ShutDownKeepsSafe(c: Config, s: State)
    requires Safe(c, s)
    ensures s.cancelled ==> Safe(c, s.(shuttingDown := true))
    ensures Safe(c, s.(cancelled := true))
  {
    hide Inv, Settled;
    ShutDownKeepsInv(c, s);
    assert Pending(s.(shuttingDown := true)) == Pending(s.(cancelled := true)) == Pending(s);
    if s.cancelled { SameMessagesKeepSafe(c, s, s.(shuttingDown := true)); }
    SameMessagesKeepSafe(c, s, s.(cancelled := true));
  }

  lemma FetchKeepsSafe(c: Config, s: State, p: nat)
    requires Safe(c, s)
    ensures Safe(c, FetchStep(c, s, p))
  {
    hide Inv, Handled;
    var t := FetchStep(c, s, p);
    FetchKeepsInv(c, s, p);
    if t != s {
      InvGivesPendingOk(c, t);
      var m := t.inHand.value;
      assert Pending(t) == Pending(s) + [m];
      ExtendsItself(s.stores);
      forall x | x in Pending(t)
        ensures CoveredBelow(c, t, x.partition, x.offset)
      {
        if x in Pending(s) {
          CoverageMoves(c, s, t, x.partition, x.offset);
        } else {
          CoverageMoves(c, s, t, p, s.position[p]);
        }
      }
      forall q | 0 <= q < |c.log|
        ensures CoveredBelow(c, t, q, t.position[q])
      {
        CoverageMoves(c, s, t, q, s.position[q]);
      }
      SafetyMoves(c, s, t);
    }
  }

  lemma EnqueueKeepsSafe(c: Config, s: State)
    requires Safe(c, s)
    ensures Safe(c, EnqueueStep(c, s))
  {
    hide Inv, Settled;
    var t := EnqueueStep(c, s);
    EnqueueKeepsInv(c, s);
    assert Pending(t) == Pending(s);
    SameMessagesKeepSafe(c, s, t);
  }

  /** The message that the fetch goroutine drops when it exits is the last one it fetched, so no offset
      beyond it is committed by this process. */
  lemma FetchExitKeepsSafe(c: Config, s: State)
    requires Safe(c, s) && s.cancelled
    ensures Safe(c, s.(fetchExited := true, inHand := None))
  {
    hide Inv, Settled, CommitSafe;
    var t := s.(fetchExited := true, inHand := None);
    FetchExitKeepsInv(c, s);
    InvGivesPendingOk(c, t);
    ExtendsItself(s.stores);
    forall m | m in Pending(t)
      ensures CoveredBelow(c, t, m.partition, m.offset)
    {
      assert Pending(s) == Pending(t) + Hand(s);
      assert m in Pending(s);
      assert CoveredBelow(c, s, m.partition, m.offset);
      forall o | 0 <= o < m.offset
        ensures Settled(t.stores, c.log[m.partition][o]) || c.log[m.partition][o] in Pending(t)
      {
        var x := c.log[m.partition][o];
        if x in Pending(s) { HandIsLast(c, s, m, x); }
      }
    }
    SafetyMoves(c, s, t);
  }

  lemma HandIsLast(c: Config, s: State, m: Message, x: Message)
    requires Safe(c, s) && m in s.batchMsgs + s.msgChan && x in Pending(s)
    requires x.partition == m.partition && x.offset < m.offset
    ensures x in s.batchMsgs + s.msgChan
  {
    var front := s.batchMsgs + s.msgChan;
    var i :| 0 <= i < |front| && front[i] == m;
    var j :| 0 <= j < |Pending(s)| && Pending(s)[j] == x;
    assert Pending(s) == front + Hand(s);
    assert Pending(s)[i] == m;
    assert j < |front|;
    assert x == front[j];
  }

  lemma RestartKeepsSafe(c: Config, s: State)
    requires Safe(c, s)
    ensures Safe(c, Restart(s.stores, s.committed, s.handed))
  {
    hide Inv, Handled;
    var t := Restart(s.stores, s.committed, s.handed);
    RestartKeepsInv(c, s);
    InvGivesPendingOk(c, t);
    assert Pending(t) == [];
    assert forall p | 0 <= p < |c.log| :: SafeBelow(c, s, p, s.committed[p]);
  }

  lemma StepKeepsSafe(c: Config, s: State, choice: Choice)
    requires Safe(c, s) && Clear(c, s, choice)
    ensures Safe(c, Step(c, s, choice))
  {
    hide Safe, LoopStep, FetchStep, EnqueueStep, Restart, Clear;
    match choice
    case Fetch(p) => FetchKeepsSafe(c, s, p);
    case Enqueue => EnqueueKeepsSafe(c, s);
    case FetchExit => if s.cancelled { FetchExitKeepsSafe(c, s); }
    case Cancel => ShutDownKeepsSafe(c, s);
    case Loop(arm, f) => LoopKeepsSafe(c, s, arm, f);
    case Crash => RestartKeepsSafe(c, s);
  }

  lemma UnclearStepIsUnsafe(c: Config, s: State, choice: Choice)
    requires Safe(c, s) && !Clear(c, s, choice)
    ensures !CommitSafe(c, Step(c, s, choice))
  {
    hide Safe, Settled, Commit, CommitSafe;
    InvalidCommitSafeIff(c, s, choice.arm.invalidCommit);
  }

  /** From a safe state, the next state is commit-safe exactly when the step is clear. */
  lemma StepSafeIff(c: Config, s: State, choice: Choice)
    requires Safe(c, s)
    ensures CommitSafe(c, Step(c, s, choice)) <==> Clear(c, s, choice)
  {
    hide Safe, Settled, Commit, CommitSafe, Step, Clear;
    if Clear(c, s, choice) {
      StepKeepsSafe(c, s, choice);
      SafeIsCommitSafe(c, Step(c, s, choice));
    } else {
      UnclearStepIsUnsafe(c, s, choice);
    }
  }

  lemma SafeIsCommitSafe(c: Config, s: State)
    requires Safe(c, s)
    ensures CommitSafe(c, s)
  {
  }

  // ------------------------------------------------------------ every run

  /** No step of the run commits an undecodable message ahead of an unsettled one of its partition. */
  ghost predicate ClearRun(c: Config, script: seq<Choice>) {
    script == [] ||
    (ClearRun(c, script[..|script| - 1]) && Clear(c, Run(c, script[..|script| - 1]), script[|script| - 1]))
  }

  ghost predicate AlwaysSafe(c: Config, script: seq<Choice>) {
    CommitSafe(c, Run(c, script)) && (script != [] ==> AlwaysSafe(c, script[..|script| - 1]))
  }

  lemma InitIsSafe(c: Config)
    requires ValidLog(c.log)
    ensures Safe(c, Init(c))
  {
    hide Settled, Inv;
    InitHoldsInv(c);
    InvGivesPendingOk(c, Init(c));
    assert Pending(Init(c)) == [];
  }

  lemma {:induction false} ClearRunIsSafe(c: Config, script: seq<Choice>)
    requires ValidLog(c.log) && ClearRun(c, script)
    ensures Safe(c, Run(c, script))
  {
    hide Safe, Step, Clear;
    if script == [] {
      InitIsSafe(c);
    } else {
      ClearRunIsSafe(c, script[..|script| - 1]);
      StepKeepsSafe(c, Run(c, script[..|script| - 1]), script[|script| - 1]);
    }
  }

  /** Cumulative commits, both directions: everything below the committed offsets is undecodable, invalid,
      or saved and republished throughout a run, exactly when the run never commits an undecodable
      message ahead of an unsettled one of its partition. */
  lemma {:induction false} AlwaysSafeIffClear(c: Config, script: seq<Choice>)
    requires ValidLog(c.log)
    ensures AlwaysSafe(c, script) <==> ClearRun(c, script)
  {
    hide Safe, Step, Clear, CommitSafe;
    if script == [] {
      InitIsSafe(c);
      SafeIsCommitSafe(c, Init(c));
    } else {
      var front, last := script[..|script| - 1], script[|script| - 1];
      AlwaysSafeIffClear(c, front);
      if ClearRun(c, front) {
        ClearRunIsSafe(c, front);
        StepSafeIff(c, Run(c, front), last);
      }
    }
  }

  // ------------------------------------------------------------ exactly once, completeness

  ghost predicate ReachedTheEnd(c: Config, s: State) {
    |s.committed| == |c.log| && forall p | 0 <= p < |c.log| :: s.committed[p] == |c.log[p]|
  }

  /** Each decodable message of the log, in some order. */
  ghost predicate IsLinearization(log: seq<seq<Message>>, events: seq<RawLogEvent>) {
    forall e :: e in events <==> EventInLog(log, e)
  }

  /** The sequential processor: one pass, one event at a time, nothing fails. */
  function OnePass(events: seq<RawLogEvent>): Stores {
    if events == [] then EMPTY_STORES
    else ProcessBatch(OnePass(events[..|events| - 1]), [events[|events| - 1]], PROCESS_OK).0
  }

  lemma FaultFreeBatchSucceeds(s: Stores, events: seq<RawLogEvent>)
    ensures ProcessBatch(s, events, PROCESS_OK).1
  {
    hide CreateLogModel;
  }

  lemma {:induction false} OnePassIsComplete(log: seq<seq<Message>>, events: seq<RawLogEvent>)
    requires forall e | e in events :: EventInLog(log, e)
    ensures StoresOk(log, OnePass(events))
    ensures forall e | e in events :: Handled(OnePass(events), e)
  {
    hide ProcessBatch, Handled, CreateLogModel;
    if events != [] {
      var front, last := events[..|events| - 1], events[|events| - 1];
      OnePassIsComplete(log, front);
      var s := OnePass(front);
      BatchKeepsStoresOk(log, s, [last], PROCESS_OK);
      ProcessOnlyAdds(s, [last], PROCESS_OK);
      FaultFreeBatchSucceeds(s, [last]);
      forall e | e in events
        ensures Handled(OnePass(events), e)
      {
        if e in front {
          HandledStays(s, OnePass(events), e);
        } else {
          assert e in [last];
          ProcessedBatchIsHandled(s, [last], PROCESS_OK, e);
        }
      }
    }
  }

  /** With distinct ids, stores that hold only rows of the log and have handled all of its events hold
      exactly the rows of its valid events. */
  lemma RowsAreTheLog(log: seq<seq<Message>>, s: Stores, r: LogRow)
    requires DistinctIds(log) && StoresOk(log, s)
    requires forall e | EventInLog(log, e) :: Handled(s, e)
    ensures r in s.rows <==> RowFromLog(log, r)
  {
    if RowFromLog(log, r) {
      var e :| EventInLog(log, e) && RowOfEvent(r, e);
      assert Handled(s, e);
      var r' :| r' in s.rows && r'.eventId == e.eventId;
      assert RowFromLog(log, r');
      var e' :| EventInLog(log, e') && RowOfEvent(r', e');
      SameIdSameEvent(log, e, e');
    }
  }

  lemma SameIdSameEvent(log: seq<seq<Message>>, e: RawLogEvent, e': RawLogEvent)
    requires DistinctIds(log) && EventInLog(log, e) && EventInLog(log, e') && e.eventId == e'.eventId
    ensures e == e'
  {
    var m :| InLog(log, m) && m.decoded == Some(e);
    var m' :| InLog(log, m') && m'.decoded == Some(e');
    assert m == m';
  }

  lemma EndSettlesLog(c: Config, s: State, e: RawLogEvent)
    requires CommitSafe(c, s) && ReachedTheEnd(c, s) && EventInLog(c.log, e)
    ensures Handled(s.stores, e)
  {
    hide Handled;
    var m :| InLog(c.log, m) && m.decoded == Some(e);
    assert SafeBelow(c, s, m.partition, s.committed[m.partition]);
    assert Settled(s.stores, c.log[m.partition][m.offset]);
  }

  lemma RowsWithoutDuplicates(log: seq<seq<Message>>, s: Stores)
    requires DistinctIds(log) && StoresOk(log, s)
    ensures NoDuplicates(s.rows)
  {
    hide RowFromLog;
    forall r | r in s.rows ensures r.eventId != "" { RowFromLogHasId(log, r); }
  }

  /** Exactly-once table effect: when every committed offset has reached the log end, the table holds the
      same rows as the one-pass sequential processor, each as often. */
  lemma TableEqualsOnePass(c: Config, script: seq<Choice>, events: seq<RawLogEvent>)
    requires ValidLog(c.log) && DistinctIds(c.log) && IsLinearization(c.log, events)
    requires ClearRun(c, script) && ReachedTheEnd(c, Run(c, script))
    ensures multiset(Run(c, script).stores.rows) == multiset(OnePass(events).rows)
  {
    hide Safe, Handled, RowFromLog, OnePass, StoresOk, ClearRun, Run, DistinctIds, ReachedTheEnd, CommitSafe;
    var s, t := Run(c, script), OnePass(events);
    ClearRunIsSafe(c, script);
    SafeIsCommitSafe(c, s);
    RunKeepsInv(c, script);
    StoresOfInv(c, s);
    OnePassIsComplete(c.log, events);
    forall e | EventInLog(c.log, e) ensures Handled(s.stores, e) && Handled(t, e) { EndSettlesLog(c, s, e); }
    forall r ensures r in s.stores.rows <==> r in t.rows {
      RowsAreTheLog(c.log, s.stores, r);
      RowsAreTheLog(c.log, t, r);
    }
    RowsWithoutDuplicates(c.log, s.stores);
    RowsWithoutDuplicates(c.log, t);
    SameElementsSameMultiset(s.stores.rows, t.rows);
  }

  lemma StoresOfInv(c: Config, s: State)
    requires Inv(c, s)
    ensures StoresOk(c.log, s.stores)
  {
  }

  ghost predicate AllDecodable(log: seq<seq<Message>>) { forall m | InLog(log, m) :: m.decoded.Some? }

  /** A log of decodable messages needs no assumption on the run. */
  lemma {:induction false} DecodableLogIsClear(c: Config, script: seq<Choice>)
    requires ValidLog(c.log) && AllDecodable(c.log)
    ensures ClearRun(c, script)
  {
    hide Safe, Settled, Run;
    if script != [] {
      var front := script[..|script| - 1];
      DecodableLogIsClear(c, front);
      ClearRunIsSafe(c, front);
      var s := Run(c, front);
      if s.msgChan != [] { HeadFacts(c, s); }
    }
  }

  /** The same for a log of decodable messages, after any run at all. */
  lemma DecodableTableEqualsOnePass(c: Config, script: seq<Choice>, events: seq<RawLogEvent>)
    requires ValidLog(c.log) && DistinctIds(c.log) && IsLinearization(c.log, events) && AllDecodable(c.log)
    requires ReachedTheEnd(c, Run(c, script))
    ensures multiset(Run(c, script).stores.rows) == multiset(OnePass(events).rows)
  {
    hide Run, ClearRun, OnePass, ReachedTheEnd;
    DecodableLogIsClear(c, script);
    TableEqualsOnePass(c, script, events);
  }
}
