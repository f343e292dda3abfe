/** Progress: from every reachable state some continuation brings every committed offset to the log end. */
module Progress {
  import opened Common
  import opened Events
  import opened LogTable
  import opened Processing
  import opened RawLogConsumer
  import opened Pipeline
  import opened CommitSafety

  const ALL_WELL := FlushFaults(PROCESS_OK, Committed)

  /** The limits are those that `NewConfig` gives: all positive. */
  predicate PositiveLimits(c: Config) { c.maxBatchRows > 0 && c.maxBatchBytes > 0 && c.messageBuffer > 0 }

  /** A live process with nothing in memory that reads from the committed offsets. */
  predicate Resting(c: Config, s: State) {
    && s.position == s.committed && |s.committed| == |c.log|
    && s.inHand.None? && s.msgChan == [] && s.batchEvents == [] && s.batchMsgs == [] && s.currentBatchBytes == 0
    && !s.fetchExited && !s.cancelled && !s.shuttingDown && !s.stopped
  }

  /** What it takes to deal with the next message of partition `p`. */
  function Serve(p: nat): seq<Choice> {
    [Fetch(p), Enqueue, Loop(Receive(Committed), ALL_WELL), Loop(Tick, ALL_WELL)]
  }

  function Served(c: Config, s: State, p: nat): State
    requires p < |c.log| && p < |s.position| && s.position[p] < |c.log[p]|
  {
    Step(c, Step(c, Step(c, Step(c, s, Fetch(p)), Enqueue), Loop(Receive(Committed), ALL_WELL)), Loop(Tick, ALL_WELL))
  }

  /** The state in which the next message of partition `p` is alone in the channel. */
  function InChannel(c: Config, s: State, p: nat): State
    requires p < |c.log| && p < |s.position| && s.position[p] < |c.log[p]|
  {
    s.(position := s.position[p := s.position[p] + 1], msgChan := [c.log[p][s.position[p]]])
  }

  lemma FetchAndEnqueue(c: Config, s: State, p: nat)
    requires PositiveLimits(c) && Resting(c, s) && p < |c.log| && s.position[p] < |c.log[p]|
    ensures Step(c, Step(c, s, Fetch(p)), Enqueue) == InChannel(c, s, p)
  {
  }

  /** A commit of one message moves the offset of its partition just past it. */
  lemma CommitOfOne(committed: seq<nat>, m: Message)
    requires m.partition < |committed|
    ensures Overwrite(committed, [m]) == committed[m.partition := m.offset + 1]
  {
    SingleTarget(m);
  }

  /** A message that cannot be decoded is committed when it is received. */
  lemma ServeInvalid(c: Config, s: State, p: nat)
    requires PositiveLimits(c) && Resting(c, s) && ValidLog(c.log) && p < |c.log| && s.position[p] < |c.log[p]|
    requires c.log[p][s.position[p]].decoded.None?
    ensures Resting(c, Served(c, s, p)) && Served(c, s, p).committed == s.committed[p := s.committed[p] + 1]
    ensures Clear(c, InChannel(c, s, p), Loop(Receive(Committed), ALL_WELL))
  {
    hide ProcessBatch, Overwrite, Settled;
    FetchAndEnqueue(c, s, p);
    CommitOfOne(s.committed, c.log[p][s.position[p]]);
  }

  /** A message that can be decoded is processed and committed at the next tick. */
  lemma ServeValid(c: Config, s: State, p: nat)
    requires PositiveLimits(c) && Resting(c, s) && ValidLog(c.log) && p < |c.log| && s.position[p] < |c.log[p]|
    requires c.log[p][s.position[p]].decoded.Some?
    ensures Resting(c, Served(c, s, p)) && Served(c, s, p).committed == s.committed[p := s.committed[p] + 1]
  {
    hide ProcessBatch, Overwrite;
    var m := c.log[p][s.position[p]];
    var t := AppendToBatch(DropHead(InChannel(c, s, p)), m, m.decoded.value);
    FetchAndEnqueue(c, s, p);
    assert Step(c, InChannel(c, s, p), Loop(Receive(Committed), ALL_WELL)) == t;
    assert t.batchEvents == [m.decoded.value] && t.batchMsgs == [m];
    FaultFreeBatchSucceeds(t.stores, t.batchEvents);
    CommitOfOne(s.committed, m);
  }

  lemma RunNext(c: Config, script: seq<Choice>, choice: Choice)
    ensures Run(c, script + [choice]) == Step(c, Run(c, script), choice)
    ensures ClearRun(c, script + [choice]) <==> ClearRun(c, script) && Clear(c, Run(c, script), choice)
  {
    hide Step, Clear;
    assert (script + [choice])[..|script|] == script;
  }

  /** Serving the next message of a partition keeps the run clear and the process resting. */
  lemma ServeNext(c: Config, script: seq<Choice>, p: nat)
    requires PositiveLimits(c) && ValidLog(c.log) && Resting(c, Run(c, script))
    requires p < |c.log| && Run(c, script).committed[p] < |c.log[p]|
    ensures Resting(c, Run(c, script + Serve(p))) && (ClearRun(c, script) ==> ClearRun(c, script + Serve(p)))
    ensures Run(c, script + Serve(p)).committed == Run(c, script).committed[p := Run(c, script).committed[p] + 1]
  {
    hide Step, Run, ClearRun, Clear;
    var s := Run(c, script);
    var a := script + [Fetch(p)];
    var b := a + [Enqueue];
    var d := b + [Loop(Receive(Committed), ALL_WELL)];
    RunNext(c, script, Fetch(p));
    RunNext(c, a, Enqueue);
    RunNext(c, b, Loop(Receive(Committed), ALL_WELL));
    RunNext(c, d, Loop(Tick, ALL_WELL));
    assert d + [Loop(Tick, ALL_WELL)] == script + Serve(p);
    FetchAndEnqueue(c, s, p);
    assert Run(c, b) == InChannel(c, s, p);
    OtherStepsAreClear(c, s, Fetch(p));
    OtherStepsAreClear(c, Run(c, a), Enqueue);
    OtherStepsAreClear(c, Run(c, d), Loop(Tick, ALL_WELL));
    if c.log[p][s.position[p]].decoded.None? {
      ServeInvalid(c, s, p);
    } else {
      ServeValid(c, s, p);
      DecodableHeadIsClear(c, InChannel(c, s, p));
    }
  }

  lemma OtherStepsAreClear(c: Config, s: State, choice: Choice)
    requires !choice.Loop? || !choice.arm.Receive?
    ensures Clear(c, s, choice)
  {
  }

  lemma DecodableHeadIsClear(c: Config, s: State)
    requires s.msgChan != [] && s.msgChan[0].decoded.Some?
    ensures Clear(c, s, Loop(Receive(Committed), ALL_WELL))
  {
  }

  /** Serve partition `p` to its end. */
  lemma {:induction false} FinishPartition(c: Config, script: seq<Choice>, p: nat) returns (more: seq<Choice>)
    requires PositiveLimits(c) && ValidLog(c.log) && Resting(c, Run(c, script))
    requires p < |c.log| && Run(c, script).committed[p] <= |c.log[p]|
    ensures Resting(c, Run(c, script + more)) && (ClearRun(c, script) ==> ClearRun(c, script + more))
    ensures Run(c, script + more).committed == Run(c, script).committed[p := |c.log[p]|]
    decreases |c.log[p]| - Run(c, script).committed[p]
  {
    hide Run, ClearRun;
    if Run(c, script).committed[p] == |c.log[p]| {
      more := [];
      assert script + more == script;
    } else {
      ServeNext(c, script, p);
      var rest := FinishPartition(c, script + Serve(p), p);
      more := Serve(p) + rest;
      assert script + more == script + Serve(p) + rest;
    }
  }

  /** Serve the partitions from `p` on. */
  lemma {:induction false} FinishFrom(c: Config, script: seq<Choice>, p: nat) returns (more: seq<Choice>)
    requires PositiveLimits(c) && ValidLog(c.log) && Resting(c, Run(c, script)) && p <= |c.log|
    requires forall q | 0 <= q < |c.log| :: Run(c, script).committed[q] <= |c.log[q]|
    requires forall q | 0 <= q < p :: Run(c, script).committed[q] == |c.log[q]|
    ensures ReachedTheEnd(c, Run(c, script + more)) && (ClearRun(c, script) ==> ClearRun(c, script + more))
    decreases |c.log| - p
  {
    hide Run, ClearRun;
    if p == |c.log| {
      more := [];
      assert script + more == script;
    } else {
      var first := FinishPartition(c, script, p);
      var rest := FinishFrom(c, script + first, p + 1);
      more := first + rest;
      assert script + more == script + first + rest;
    }
  }

  /** From every reachable state, whatever failed before, some continuation brings every committed offset to
      the log end, and it commits no undecodable message early. */
  lemma EndIsReachable(c: Config, script: seq<Choice>) returns (more: seq<Choice>)
    requires PositiveLimits(c) && ValidLog(c.log)
    ensures ReachedTheEnd(c, Run(c, script + more)) && (ClearRun(c, script) ==> ClearRun(c, script + more))
  {
    hide Run, ClearRun, Step, Inv, Settled;
    var restarted := script + [Crash];
    RunNext(c, script, Crash);
    OtherStepsAreClear(c, Run(c, script), Crash);
    RunKeepsInv(c, restarted);
    InvGivesPendingOk(c, Run(c, restarted));
    CrashRests(c, Run(c, script));
    var rest := FinishFrom(c, restarted, 0);
    more := [Crash] + rest;
    assert script + more == restarted + rest;
  }

  lemma CrashRests(c: Config, s: State)
    requires |Step(c, s, Crash).committed| == |c.log|
    ensures Resting(c, Step(c, s, Crash))
  {
  }

  /** Exactly once, without waiting for luck: any clear run can be continued to one whose table holds the rows
      of the one-pass sequential processor, each as often. */
  lemma TableCanAlwaysBeCompleted(c: Config, script: seq<Choice>, events: seq<RawLogEvent>) returns (more: seq<Choice>)
    requires PositiveLimits(c) && ValidLog(c.log) && DistinctIds(c.log) && IsLinearization(c.log, events)
    requires ClearRun(c, script)
    ensures ReachedTheEnd(c, Run(c, script + more))
    ensures multiset(Run(c, script + more).stores.rows) == multiset(OnePass(events).rows)
  {
    hide Run, ClearRun, OnePass, ReachedTheEnd, DistinctIds, IsLinearization;
    more := EndIsReachable(c, script);
    TableEqualsOnePass(c, script + more, events);
  }
}
