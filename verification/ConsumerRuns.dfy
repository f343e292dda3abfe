/** Two facts about particular runs: the early commit that loses a message, and the shutdown drain. */
module ConsumerRuns {
  import opened Common
  import opened Events
  import opened Processing
  import opened RawLogConsumer
  import opened Pipeline
  import opened CommitSafety

  const NO_FAULTS := FlushFaults(PROCESS_OK, Committed)

  // ------------------------------------------------------------ the early commit

  /** One partition: a decodable event, then a payload that cannot be decoded. */
  function WitnessConfig(e: RawLogEvent): Config {
    Config([[Message(0, 0, 1, Some(e)), Message(0, 1, 1, None)]], 1000, 1000, 2000)
  }

  /** Both messages reach the loop, which commits the second while the first is in the batch. */
  const EARLY_COMMIT: seq<Choice> :=
    [Fetch(0), Enqueue, Fetch(0), Enqueue, Loop(Receive(CommitLost), NO_FAULTS), Loop(Receive(Committed), NO_FAULTS), Crash]

  lemma {:induction false} RunFromSplit(c: Config, s: State, a: seq<Choice>, b: seq<Choice>)
    ensures RunFrom(c, s, a + b) == RunFrom(c, RunFrom(c, s, a), b)
  {
    hide Step;
    if b == [] {
      assert a + b == a;
    } else {
      assert (a + b)[..|a + b| - 1] == a + b[..|b| - 1];
      RunFromSplit(c, s, a, b[..|b| - 1]);
    }
  }

  /** The state right after the early commit: offset 2 is committed, event 0 is still in the batch. */
  lemma EarlyCommitState(e: RawLogEvent)
    ensures var c := WitnessConfig(e);
            Run(c, EARLY_COMMIT) == Restart(EMPTY_STORES, [2], [Message(0, 1, 1, None)])
  {
    hide ProcessBatch;
    var c := WitnessConfig(e);
    var m0, m1 := c.log[0][0], c.log[0][1];
    var s0 := Init(c);
    assert s0.position == [0] && s0.committed == [0];
    var s1 := Step(c, s0, Fetch(0));
    var s2 := Step(c, s1, Enqueue);
    assert s2.msgChan == [m0] && s2.position == [1];
    var s3 := Step(c, s2, Fetch(0));
    var s4 := Step(c, s3, Enqueue);
    assert s4.msgChan == [m0, m1] && s4.position == [2];
    var s5 := Step(c, s4, EARLY_COMMIT[4]);
    assert s5.msgChan == [m1] && s5.batchMsgs == [m0] && s5.batchEvents == [e];
    SingleTarget(m1);
    var s6 := Step(c, s5, EARLY_COMMIT[5]);
    assert s6.committed == [2] && s6.handed == [m1];
    EarlyCommitUnfolds(c, s0);
  }

  lemma EarlyCommitUnfolds(c: Config, s: State)
    ensures RunFrom(c, s, EARLY_COMMIT)
         == Step(c, Step(c, Step(c, Step(c, Step(c, Step(c, Step(c, s, Fetch(0)), Enqueue), Fetch(0)), Enqueue),
                                 EARLY_COMMIT[4]), EARLY_COMMIT[5]), Crash)
  {
    hide Step;
    var script := EARLY_COMMIT;
    forall n | 0 < n <= 7
      ensures script[..n][..n - 1] == script[..n - 1] && script[..n][n - 1] == script[n - 1]
    {
    }
    assert script[..7] == script;
    var r := n requires 0 <= n <= 7 => RunFrom(c, s, script[..n]);
    assert r(7) == Step(c, r(6), Crash);
    assert r(6) == Step(c, r(5), EARLY_COMMIT[5]);
    assert r(5) == Step(c, r(4), EARLY_COMMIT[4]);
    assert r(4) == Step(c, r(3), Enqueue);
    assert r(3) == Step(c, r(2), Fetch(0));
    assert r(2) == Step(c, r(1), Enqueue);
    assert r(1) == Step(c, r(0), Fetch(0));
  }

  predicate Idle(c: Config, s: State) {
    && s.stores == EMPTY_STORES && s.inHand.None? && s.msgChan == [] && s.batchEvents == [] && s.batchMsgs == []
    && s.position == s.committed == [2] && |c.log| == 1 && |c.log[0]| == 2
  }

  lemma IdleStaysIdle(c: Config, s: State, choice: Choice)
    requires Idle(c, s)
    ensures Idle(c, Step(c, s, choice))
  {
    hide ProcessBatch, Overwrite;
  }

  lemma {:induction false} IdleForever(c: Config, s: State, more: seq<Choice>)
    requires Idle(c, s)
    ensures Idle(c, RunFrom(c, s, more))
  {
    hide Step, Idle;
    if more != [] {
      IdleForever(c, s, more[..|more| - 1]);
      IdleStaysIdle(c, RunFrom(c, s, more[..|more| - 1]), more[|more| - 1]);
    }
  }

  /** The assumption of the cumulative-commit theorem is needed: for every valid event there is a run that
      commits to the log end without ever storing it, and no continuation stores it either. */
  lemma EarlyCommitLosesTheEvent(e: RawLogEvent, more: seq<Choice>)
    requires CreateLogModel(e).Some?
    ensures var c := WitnessConfig(e);
            && ValidLog(c.log)
            && ReachedTheEnd(c, Run(c, EARLY_COMMIT + more))
            && Run(c, EARLY_COMMIT + more).stores == EMPTY_STORES
            && !CommitSafe(c, Run(c, EARLY_COMMIT + more))
  {
    hide CreateLogModel, Step, Idle;
    var c := WitnessConfig(e);
    EarlyCommitState(e);
    RunFromSplit(c, Init(c), EARLY_COMMIT, more);
    RestartIsIdle(c);
    IdleForever(c, Run(c, EARLY_COMMIT), more);
    IdleIsUnsafe(c, e, Run(c, EARLY_COMMIT + more));
  }

  lemma RestartIsIdle(c: Config)
    requires |c.log| == 1 && |c.log[0]| == 2
    ensures Idle(c, Restart(EMPTY_STORES, [2], [Message(0, 1, 1, None)]))
  {
  }

  lemma IdleIsUnsafe(c: Config, e: RawLogEvent, s: State)
    requires Idle(c, s) && c.log[0][0].decoded == Some(e) && CreateLogModel(e).Some?
    ensures s.stores == EMPTY_STORES && ReachedTheEnd(c, s) && !CommitSafe(c, s)
  {
    hide CreateLogModel;
    assert !SafeBelow(c, s, 0, 2) by {
      assert !Settled(s.stores, c.log[0][0]);
    }
  }

  // ------------------------------------------------------------ the drain

  predicate IsReceive(choice: Choice) { choice.Loop? && choice.arm.Receive? }

  function Receives(script: seq<Choice>): nat {
    if script == [] then 0
    else Receives(script[..|script| - 1]) + (if IsReceive(script[|script| - 1]) then 1 else 0)
  }

  predicate NoCrash(script: seq<Choice>) { forall choice | choice in script :: !choice.Crash? }

  predicate Draining(s: State) { s.fetchExited && s.cancelled }

  lemma DrainStep(c: Config, s: State, choice: Choice)
    requires Draining(s) && s.inHand.None? && !choice.Crash?
    ensures var t := Step(c, s, choice);
            && Draining(t) && t.inHand.None?
            && (s.stopped ==> t.stopped)
            && (!s.stopped && IsReceive(choice) ==>
                  if s.msgChan == [] then t.stopped else !t.stopped && |t.msgChan| == |s.msgChan| - 1)
            && (!s.stopped && !IsReceive(choice) ==> !t.stopped && t.msgChan == s.msgChan)
  {
    hide ProcessBatch, Overwrite;
  }

  /** Once fetching has stopped, `Start` returns after exactly the buffered number of receives plus one. */
  lemma {:induction false} DrainIsExact(c: Config, s: State, script: seq<Choice>)
    requires Draining(s) && s.inHand.None? && !s.stopped && NoCrash(script)
    ensures var t := RunFrom(c, s, script);
            && Draining(t) && t.inHand.None?
            && (t.stopped <==> Receives(script) >= |s.msgChan| + 1)
            && (!t.stopped ==> |t.msgChan| == |s.msgChan| - Receives(script))
  {
    hide Step;
    if script != [] {
      var front, last := script[..|script| - 1], script[|script| - 1];
      assert last in script && forall x | x in front :: x in script;
      DrainIsExact(c, s, front);
      DrainStep(c, RunFrom(c, s, front), last);
    }
  }

  /** In every run a closed channel means cancellation and an empty hand, so the drain applies. */
  lemma ExitedFetchIsDraining(c: Config, script: seq<Choice>)
    requires ValidLog(c.log) && Run(c, script).fetchExited
    ensures Draining(Run(c, script)) && Run(c, script).inHand.None?
  {
    RunKeepsInv(c, script);
    InvFlags(c, Run(c, script));
  }
}
