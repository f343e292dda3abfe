/** The simulator's insert observer: it polls the log table until every tracked batch is visible. */
module InsertObserver {
  import opened Common
  import opened LoadGenerator

  /** The trace ids of a batch that was sent, and when. */
  datatype InsertBatch = InsertBatch(startedAt: int, traceIds: seq<string>)

  /** The outcome of sending a job; `startedAt` is `None` for the zero time. */
  datatype Result = Result(failed: bool, kind: Kind, startedAt: Option<int>)

  datatype TrackedBatch = TrackedBatch(id: nat, batch: InsertBatch)

  function TraceIds(logs: seq<LogRequest>): (r: seq<string>)
    ensures forall t :: t in r <==> t != "" && exists l | l in logs :: l.traceId == t
  {
    if logs == [] then []
    else
      var last := logs[|logs| - 1];
      assert logs == logs[..|logs| - 1] + [last];
      TraceIds(logs[..|logs| - 1]) + (if last.traceId == "" then [] else [last.traceId])
  }

  /** Only a batch that was sent without error and has a trace id is tracked. */
  function TrackedFor(result: Result, job: Job): Option<InsertBatch> {
    if result.failed || result.kind != Batch || result.startedAt.None? || TraceIds(job.logs) == [] then None
    else Some(InsertBatch(result.startedAt.value, TraceIds(job.logs)))
  }

  function Tracked(batches: seq<InsertBatch>, result: Result, job: Job): (r: seq<InsertBatch>)
    ensures batches <= r && forall b | b in r :: b in batches || b.traceIds != []
  {
    match TrackedFor(result, job) case None => batches case Some(b) => batches + [b]
  }

  /** The batches from `index` on, with their positions. */
  function Since(batches: seq<InsertBatch>, index: nat): (r: seq<TrackedBatch>)
    ensures |r| == if index >= |batches| then 0 else |batches| - index
    ensures forall i: nat | i < |r| :: r[i] == TrackedBatch(index + i, batches[index + i])
  {
    if index >= |batches| then []
    else seq(|batches| - index, i requires 0 <= i < |batches| - index => TrackedBatch(index + i, batches[index + i]))
  }

  class InsertTracker {
    var batches: seq<InsertBatch>

    constructor ()
      ensures batches == []
    {
      batches := [];
    }

    method Track(result: Result, job: Job)
      modifies this
      ensures batches == Tracked(old(batches), result, job)
    {
      if result.failed || result.kind != Batch || result.startedAt.None? {
        return;
      }
      var traceIds := [];
      for i := 0 to |job.logs|
        invariant batches == old(batches) && traceIds == TraceIds(job.logs[..i])
      {
        assert job.logs[..i + 1][..i] == job.logs[..i];
        if job.logs[i].traceId != "" {
          traceIds := traceIds + [job.logs[i].traceId];
        }
      }
      assert job.logs[..|job.logs|] == job.logs;
      if |traceIds| == 0 {
        return;
      }
      batches := batches + [InsertBatch(result.startedAt.value, traceIds)];
    }

    method BatchesSince(index: nat) returns (batchesRead: seq<TrackedBatch>, next: nat)
      ensures batchesRead == Since(batches, index) && next == |batches|
    {
      if index >= |batches| {
        return [], |batches|;
      }
      batchesRead := [];
      for i := index to |batches|
        invariant |batchesRead| == i - index
        invariant forall k: nat | k < |batchesRead| :: batchesRead[k] == TrackedBatch(index + k, batches[index + k])
      {
        batchesRead := batchesRead + [TrackedBatch(i, batches[i])];
      }
      next := |batches|;
    }
  }

  /** What successive calls return when each starts where the last one ended; `snapshots` are the tracker's
      contents at the calls. */
  function AllReturned(snapshots: seq<seq<InsertBatch>>): seq<TrackedBatch> {
    if snapshots == [] then []
    else
      var front := snapshots[..|snapshots| - 1];
      AllReturned(front) + Since(snapshots[|snapshots| - 1], if front == [] then 0 else |front[|front| - 1]|)
  }

  /** Successive calls return every tracked batch exactly once, in order: no gap and no repeat. */
  lemma {:induction false} CallsConcatenate(snapshots: seq<seq<InsertBatch>>)
    requires snapshots != []
    requires forall i, j | 0 <= i < j < |snapshots| :: snapshots[i] <= snapshots[j]
    ensures AllReturned(snapshots) == Since(snapshots[|snapshots| - 1], 0)
  {
    hide Since;
    var front, last := snapshots[..|snapshots| - 1], snapshots[|snapshots| - 1];
    if front == [] {
      assert AllReturned(front) == [];
    } else {
      CallsConcatenate(front);
      assert front[|front| - 1] == snapshots[|snapshots| - 2];
      SinceSplits(front[|front| - 1], last);
    }
  }

  lemma SinceSplits(earlier: seq<InsertBatch>, later: seq<InsertBatch>)
    requires earlier <= later
    ensures Since(earlier, 0) + Since(later, |earlier|) == Since(later, 0)
  {
  }

  // ------------------------------------------------------------ one query

  const CHUNK_SIZE: nat := 1000

  predicate BatchComplete(batch: InsertBatch, found: set<string>) { forall t | t in batch.traceIds :: t in found }

  ghost predicate IsPendingId(pending: map<nat, InsertBatch>, t: string) {
    exists id | id in pending :: t in pending[id].traceIds
  }

  /** Every trace id of the pending batches once, in whatever order the map is walked. */
  method PendingTraceIds(pending: map<nat, InsertBatch>) returns (traceIds: seq<string>)
    ensures NoDuplicates(traceIds)
    ensures forall t :: t in traceIds <==> IsPendingId(pending, t)
  {
    var seen: set<string> := {};
    traceIds := [];
    var keys := pending.Keys;
    ghost var walked: set<nat> := {};
    while keys != {}
      invariant keys + walked == pending.Keys && NoDuplicates(traceIds)
      invariant forall t :: t in seen <==> t in traceIds
      invariant forall t :: t in traceIds <==> exists id | id in walked :: t in pending[id].traceIds
      decreases |keys|
    {
      var id :| id in keys;
      keys := keys - {id};
      var ids := pending[id].traceIds;
      ghost var before := traceIds;
      for i := 0 to |ids|
        invariant NoDuplicates(traceIds)
        invariant forall t :: t in seen <==> t in traceIds
        invariant forall t :: t in traceIds <==> t in before || t in ids[..i]
      {
        if ids[i] !in seen {
          seen := seen + {ids[i]};
          traceIds := traceIds + [ids[i]];
        }
      }
      walked := walked + {id};
    }
  }

  /** The trace ids in the table; none when it cannot be read. */
  function Rows(table: Option<set<string>>): set<string> { if table.Some? then table.value else {} }

  /** The chunked query finds exactly the asked ids that are in the table; it fails when the table cannot be
      read, unless nothing is asked. */
  method QueryInsertedTraceIds(traceIds: seq<string>, table: Option<set<string>>) returns (found: Option<set<string>>)
    ensures found.Some? <==> table.Some? || traceIds == []
    ensures found.Some? ==> found.value == set t | t in traceIds && t in Rows(table)
  {
    var result: set<string> := {};
    var start := 0;
    while start < |traceIds|
      invariant 0 <= start <= |traceIds| && (start > 0 ==> table.Some?)
      invariant result == set t | t in traceIds[..start] && t in Rows(table)
    {
      if table.None? {
        return None;
      }
      var end := if start + CHUNK_SIZE < |traceIds| then start + CHUNK_SIZE else |traceIds|;
      var chunk := traceIds[start..end];
      assert traceIds[..end] == traceIds[..start] + chunk;
      result := result + set t | t in chunk && t in table.value;
      start := end;
    }
    assert traceIds[..|traceIds|] == traceIds;
    return Some(result);
  }

  // ------------------------------------------------------------ the observer

  datatype Event = ContextEnded | LoadDoneReceived | SettleFired | TickFired

  datatype Ending = AllInserted | Settled | Interrupted | Failed

  datatype Phase = Polling | Selecting | Ended(how: Ending)

  /** The workers track batches until the load is closed; the observer alternates between a poll, which sees
      the trace ids in the table or fails, and its `select`. */
  datatype Action = TrackJob(result: Result, job: Job) | CloseLoad | Poll(table: Option<set<string>>) | Select(event: Event)

  datatype State = State(tracked: seq<InsertBatch>, closed: bool, pending: map<nat, InsertBatch>, nextIndex: nat,
                         loadFinished: bool, observed: nat, timedOut: nat, phase: Phase)

  function Complete(pending: map<nat, InsertBatch>, table: set<string>): set<nat> {
    set id | id in pending && BatchComplete(pending[id], table)
  }

  /** There is something to ask for. */
  predicate HasIds(pending: map<nat, InsertBatch>) { exists id | id in pending :: pending[id].traceIds != [] }

  function WithFresh(pending: map<nat, InsertBatch>, batchesRead: seq<TrackedBatch>): map<nat, InsertBatch> {
    if batchesRead == [] then pending
    else
      var last := batchesRead[|batchesRead| - 1];
      WithFresh(pending, batchesRead[..|batchesRead| - 1])[last.id := last.batch]
  }

  /** Take over what was tracked since the last poll. */
  function ReadNew(s: State): State {
    s.(pending := WithFresh(s.pending, Since(s.tracked, s.nextIndex)), nextIndex := |s.tracked|)
  }

  /** Query, take the complete batches out, and return when the load is over and nothing is left. */
  function FinishPoll(s: State, table: Option<set<string>>): State {
    if table.None? && HasIds(s.pending) then s.(phase := Ended(Failed))
    else
      var complete := Complete(s.pending, Rows(table));
      var left := s.pending - complete;
      s.(pending := left, observed := s.observed + |complete|,
         phase := if s.loadFinished && |left| == 0 then Ended(AllInserted) else Selecting)
  }

  function DoPoll(s: State, table: Option<set<string>>): State { FinishPoll(ReadNew(s), table) }

  function DoSelect(s: State, e: Event): State {
    match e
    case ContextEnded => s.(timedOut := s.timedOut + |s.pending|, phase := Ended(Interrupted))
    case LoadDoneReceived => if s.closed && !s.loadFinished then s.(loadFinished := true, phase := Polling) else s
    case SettleFired => if s.loadFinished then s.(timedOut := s.timedOut + |s.pending|, phase := Ended(Settled)) else s
    case TickFired => s.(phase := Polling)
  }

  function Step(s: State, a: Action): State {
    match a
    case TrackJob(result, job) => if s.closed then s else s.(tracked := Tracked(s.tracked, result, job))
    case CloseLoad => s.(closed := true)
    case Poll(table) => if s.phase.Polling? then DoPoll(s, table) else s
    case Select(e) => if s.phase.Selecting? then DoSelect(s, e) else s
  }

  const INITIAL := State([], false, map[], 0, false, 0, 0, Polling)

  function Run(actions: seq<Action>): State {
    if actions == [] then INITIAL else Step(Run(actions[..|actions| - 1]), actions[|actions| - 1])
  }

  class Observer {
    const tracker: InsertTracker
    var closed: bool
    var pending: map<nat, InsertBatch>
    var nextIndex: nat
    var loadFinished: bool
    var observed: nat
    var timedOut: nat
    var phase: Phase

    constructor (tracker: InsertTracker)
      requires tracker.batches == []
      ensures this.tracker == tracker && View() == INITIAL
    {
      this.tracker, closed, pending, nextIndex := tracker, false, map[], 0;
      loadFinished, observed, timedOut, phase := false, 0, 0, Polling;
    }

    function View(): State
      reads this, tracker
    {
      State(tracker.batches, closed, pending, nextIndex, loadFinished, observed, timedOut, phase)
    }

    /** The part of the loop before the `select`. */
    method PollOnce(table: Option<set<string>>)
      requires phase.Polling?
      modifies this
      ensures View() == DoPoll(old(View()), table)
    {
      hide ReadNew, FinishPoll;
      ReadBatches();
      QueryOnce(table);
    }

    method ReadBatches()
      modifies this
      ensures View() == ReadNew(old(View()))
    {
      hide WithFresh, Since;
      var batchesRead, next := tracker.BatchesSince(nextIndex);
      nextIndex := next;
      AddPending(batchesRead);
    }

    method QueryOnce(table: Option<set<string>>)
      modifies this
      ensures View() == FinishPoll(old(View()), table)
    {
      hide Complete, HasIds;
      var failed := CheckPending(table);
      if failed {
        phase := Ended(Failed);
        return;
      }
      phase := if loadFinished && |pending| == 0 then Ended(AllInserted) else Selecting;
    }

    /** Query the pending ids, and take the complete batches out. */
    method CheckPending(table: Option<set<string>>) returns (failed: bool)
      modifies this`pending, this`observed
      ensures failed <==> table.None? && HasIds(old(pending))
      ensures pending == if failed then old(pending) else old(pending) - Complete(old(pending), Rows(table))
      ensures observed == if failed then old(observed) else old(observed) + |Complete(old(pending), Rows(table))|
    {
      hide Complete, HasIds, IsPendingId;
      if |pending| == 0 {
        NothingPending(pending, Rows(table));
        return false;
      }
      var traceIds := PendingTraceIds(pending);
      PendingHasIds(pending, traceIds);
      var found := QueryInsertedTraceIds(traceIds, table);
      if found.None? {
        return true;
      }
      RemoveComplete(found.value, Rows(table), traceIds);
      return false;
    }

    method AddPending(batchesRead: seq<TrackedBatch>)
      modifies this`pending
      ensures pending == WithFresh(old(pending), batchesRead)
    {
      for i := 0 to |batchesRead|
        invariant pending == WithFresh(old(pending), batchesRead[..i])
      {
        assert batchesRead[..i + 1][..i] == batchesRead[..i];
        pending := pending[batchesRead[i].id := batchesRead[i].batch];
      }
      assert batchesRead[..|batchesRead|] == batchesRead;
    }

    /** Record and delete every complete batch, in whatever order the map is walked. */
    method RemoveComplete(found: set<string>, ghost table: set<string>, ghost traceIds: seq<string>)
      requires forall t :: t in found <==> t in traceIds && t in table
      requires forall t :: t in traceIds <==> IsPendingId(pending, t)
      modifies this`pending, this`observed
      ensures pending == old(pending) - Complete(old(pending), table)
      ensures observed == old(observed) + |Complete(old(pending), table)|
    {
      hide BatchComplete, IsPendingId, Complete;
      ghost var all := pending;
      ghost var removed: set<nat> := {};
      var keys := pending.Keys;
      while keys != {}
        invariant keys <= all.Keys && removed <= all.Keys && keys !! removed
        invariant forall id | id in all :: id in keys || (id in removed <==> BatchComplete(all[id], table))
        invariant pending == all - removed
        invariant observed == old(observed) + |removed|
        decreases |keys|
      {
        var id :| id in keys;
        keys := keys - {id};
        FoundMeansStored(all, id, found, table, traceIds);
        if BatchComplete(pending[id], found) {
          removed := removed + {id};
          observed := observed + 1;
          pending := pending - {id};
        }
      }
      CompleteIs(all, table, removed);
    }

    method SelectOne(e: Event)
      requires phase.Selecting?
      modifies this
      ensures View() == DoSelect(old(View()), e)
    {
      match e
      case ContextEnded =>
        timedOut, phase := timedOut + |pending|, Ended(Interrupted);
      case LoadDoneReceived =>
        if closed && !loadFinished {
          loadFinished, phase := true, Polling;
        }
      case SettleFired =>
        if loadFinished {
          timedOut, phase := timedOut + |pending|, Ended(Settled);
        }
      case TickFired =>
        phase := Polling;
    }

    method Act(a: Action)
      modifies this, tracker
      ensures View() == Step(old(View()), a)
    {
      hide DoPoll, DoSelect, Tracked;
      match a
      case TrackJob(result, job) =>
        if !closed {
          tracker.Track(result, job);
        }
      case CloseLoad =>
        closed := true;
      case Poll(table) =>
        if phase.Polling? {
          PollOnce(table);
        }
      case Select(e) =>
        if phase.Selecting? {
          SelectOne(e);
        }
    }

    method Observe(actions: seq<Action>)
      requires View() == INITIAL
      modifies this, tracker
      ensures View() == Run(actions)
    {
      hide Step;
      for i := 0 to |actions|
        invariant View() == Run(actions[..i])
      {
        assert actions[..i + 1][..i] == actions[..i];
        Act(actions[i]);
      }
      assert actions[..|actions|] == actions;
    }
  }

  lemma NothingPending(pending: map<nat, InsertBatch>, table: set<string>)
    requires |pending| == 0
    ensures Complete(pending, table) == {} && !HasIds(pending)
  {
    assert pending == map[];
  }

  lemma CompleteIs(pending: map<nat, InsertBatch>, table: set<string>, ids: set<nat>)
    requires ids <= pending.Keys && forall id | id in pending :: id in ids <==> BatchComplete(pending[id], table)
    ensures ids == Complete(pending, table)
  {
    hide BatchComplete;
  }

  lemma PendingHasIds(pending: map<nat, InsertBatch>, traceIds: seq<string>)
    requires forall t :: t in traceIds <==> IsPendingId(pending, t)
    ensures traceIds != [] <==> HasIds(pending)
  {
    if traceIds != [] {
      assert IsPendingId(pending, traceIds[0]);
    } else if HasIds(pending) {
      var id :| id in pending && pending[id].traceIds != [];
      assert IsPendingId(pending, pending[id].traceIds[0]);
    }
  }

  /** Asking only for the pending ids, without repeats and in chunks, does not change which batches are complete. */
  lemma FoundMeansStored(pending: map<nat, InsertBatch>, id: nat, found: set<string>, table: set<string>,
        traceIds: seq<string>)
    requires id in pending
    requires forall t :: t in found <==> t in traceIds && t in table
    requires forall t :: t in traceIds <==> IsPendingId(pending, t)
    ensures BatchComplete(pending[id], found) <==> BatchComplete(pending[id], table)
  {
    forall t | t in pending[id].traceIds ensures t in traceIds {
      assert IsPendingId(pending, t);
    }
  }

  // ------------------------------------------------------------ conservation

  /** Every batch read from the tracker is pending or was counted as observed. */
  ghost predicate Accounted(tracked: seq<InsertBatch>, pending: map<nat, InsertBatch>, nextIndex: nat, observed: nat) {
    && nextIndex <= |tracked|
    && (forall b | b in tracked :: b.traceIds != [])
    && (forall id | id in pending :: id < nextIndex && pending[id] == tracked[id])
    && observed + |pending| == nextIndex
  }

  /** Nothing times out before the end, and once the end of the load was received, a select sees no unread batch. */
  ghost predicate Inv(s: State) {
    && Accounted(s.tracked, s.pending, s.nextIndex, s.observed)
    && (s.loadFinished ==> s.closed)
    && (s.loadFinished && !s.phase.Polling? && s.phase != Ended(Failed) ==> s.nextIndex == |s.tracked|)
    && (s.phase == Ended(AllInserted) ==> s.loadFinished && |s.pending| == 0)
    && (s.phase == Ended(Settled) ==> s.loadFinished)
    && (s.phase == Ended(Failed) ==> s.pending != map[])
    && s.timedOut == if s.phase == Ended(Settled) || s.phase == Ended(Interrupted) then |s.pending| else 0
  }

  lemma {:induction false} FreshIsNew(pending: map<nat, InsertBatch>, tracked: seq<InsertBatch>, from: nat,
        batchesRead: seq<TrackedBatch>)
    requires from + |batchesRead| <= |tracked|
    requires forall i: nat | i < |batchesRead| :: batchesRead[i] == TrackedBatch(from + i, tracked[from + i])
    requires forall id | id in pending :: id < from && pending[id] == tracked[id]
    ensures forall id | id in WithFresh(pending, batchesRead) ::
              id < from + |batchesRead| && WithFresh(pending, batchesRead)[id] == tracked[id]
    ensures |WithFresh(pending, batchesRead)| == |pending| + |batchesRead|
  {
    if batchesRead != [] {
      var front, last := batchesRead[..|batchesRead| - 1], batchesRead[|batchesRead| - 1];
      FreshIsNew(pending, tracked, from, front);
      assert last.id == from + |front| && last.id !in WithFresh(pending, front);
    }
  }

  lemma RemovedCount(pending: map<nat, InsertBatch>, gone: set<nat>)
    requires gone <= pending.Keys
    ensures |pending - gone| == |pending| - |gone|
  {
    assert (pending - gone).Keys == pending.Keys - gone;
    assert |pending.Keys| == |pending| && |(pending - gone).Keys| == |pending - gone|;
  }

  lemma ReadKeepsAccount(s: State)
    requires Accounted(s.tracked, s.pending, s.nextIndex, s.observed)
    ensures Accounted(s.tracked, WithFresh(s.pending, Since(s.tracked, s.nextIndex)), |s.tracked|, s.observed)
  {
    hide WithFresh, Since;
    FreshIsNew(s.pending, s.tracked, s.nextIndex, Since(s.tracked, s.nextIndex));
  }

  lemma RemoveKeepsAccount(tracked: seq<InsertBatch>, pending: map<nat, InsertBatch>, nextIndex: nat,
        observed: nat, table: set<string>)
    requires Accounted(tracked, pending, nextIndex, observed)
    ensures var gone := Complete(pending, table); Accounted(tracked, pending - gone, nextIndex, observed + |gone|)
  {
    hide BatchComplete;
    RemovedCount(pending, Complete(pending, table));
  }

  lemma HasIdsMeansPending(pending: map<nat, InsertBatch>)
    ensures HasIds(pending) ==> pending != map[]
  {
  }

  lemma FinishKeepsInv(s: State, table: Option<set<string>>)
    requires Inv(s) && s.phase.Polling? && s.nextIndex == |s.tracked|
    ensures Inv(FinishPoll(s, table))
  {
    hide Complete, HasIds, Accounted;
    HasIdsMeansPending(s.pending);
    RemoveKeepsAccount(s.tracked, s.pending, s.nextIndex, s.observed, Rows(table));
  }

  lemma PollKeepsInv(s: State, table: Option<set<string>>)
    requires Inv(s) && s.phase.Polling?
    ensures Inv(DoPoll(s, table))
  {
    hide WithFresh, Since, FinishPoll, Accounted;
    ReadKeepsAccount(s);
    FinishKeepsInv(ReadNew(s), table);
  }

  lemma SelectKeepsInv(s: State, e: Event)
    requires Inv(s) && s.phase.Selecting?
    ensures Inv(DoSelect(s, e))
  {
    hide Accounted;
  }

  lemma TrackKeepsInv(s: State, result: Result, job: Job)
    requires Inv(s) && !s.closed
    ensures Inv(s.(tracked := Tracked(s.tracked, result, job)))
  {
    hide TrackedFor;
  }

  lemma {:induction false} RunKeepsInv(actions: seq<Action>)
    ensures Inv(Run(actions))
  {
    hide DoPoll, DoSelect, Tracked, Accounted;
    if actions != [] {
      var s, a := Run(actions[..|actions| - 1]), actions[|actions| - 1];
      RunKeepsInv(actions[..|actions| - 1]);
      match a
      case TrackJob(result, job) => if !s.closed { TrackKeepsInv(s, result, job); }
      case CloseLoad =>
      case Poll(table) => if s.phase.Polling? { PollKeepsInv(s, table); }
      case Select(e) => if s.phase.Selecting? { SelectKeepsInv(s, e); }
    } else {
      NothingAccounted();
    }
  }

  lemma NothingAccounted()
    ensures Accounted([], map[], 0, 0)
  {
  }

  /** For any interleaving of workers, polls and timers: a normal end or the settle timer leaves every tracked
      batch counted exactly once, as observed or as timed out. A cancelled observation does so if and only if it had
      read every tracked batch; a failed one never does. */
  lemma {:induction false} ObservationConserves(actions: seq<Action>)
    ensures var s := Run(actions);
            && s.observed + s.timedOut <= |s.tracked|
            && (s.phase == Ended(AllInserted) ==> s.observed == |s.tracked| && s.timedOut == 0)
            && (s.phase == Ended(Settled) ==> s.observed + s.timedOut == |s.tracked|)
            && (s.phase == Ended(Interrupted) ==>
                  (s.observed + s.timedOut == |s.tracked| <==> s.nextIndex == |s.tracked|))
            && (s.phase == Ended(Failed) ==> s.timedOut == 0 && s.observed < |s.tracked|)
  {
    RunKeepsInv(actions);
  }

  /** A batch tracked after the last poll is in neither count when the context ends. */
  lemma CancellationCanMissABatch(result: Result, job: Job)
    requires TrackedFor(result, job).Some?
    ensures var s := Run([Poll(None), TrackJob(result, job), Select(ContextEnded)]);
            s.phase == Ended(Interrupted) && s.observed + s.timedOut < |s.tracked|
  {
    hide TrackedFor;
    var actions := [Poll(None), TrackJob(result, job), Select(ContextEnded)];
    assert actions[..2][..1] == [Poll(None)] && [Poll(None)][..0] == [];
    assert actions[..2] == [Poll(None), TrackJob(result, job)];
    assert Run([Poll(None)]) == Step(INITIAL, Poll(None));
    assert Run(actions[..2]) == Step(Run([Poll(None)]), actions[1]);
  }

  /** A batch read from the tracker and no longer pending was complete in some poll's view of the table. */
  ghost predicate WasComplete(actions: seq<Action>, batch: InsertBatch) {
    exists a | a in actions :: a.Poll? && a.table.Some? && BatchComplete(batch, a.table.value)
  }

  /** Whatever counts as observed had all its trace ids in the table at one poll. */
  lemma {:induction false} ObservedWereInserted(actions: seq<Action>, id: nat)
    requires id < Run(actions).nextIndex && id !in Run(actions).pending
    ensures id < |Run(actions).tracked| && WasComplete(actions, Run(actions).tracked[id])
  {
    hide BatchComplete, TrackedFor, DoPoll, WasComplete, Inv;
    if actions != [] {
      var front, a := actions[..|actions| - 1], actions[|actions| - 1];
      var s := Run(front);
      RunKeepsInv(front);
      assert actions == front + [a];
      if id < s.nextIndex && id !in s.pending {
        ObservedWereInserted(front, id);
        WasCompleteStays(front, a, s.tracked[id]);
        StepKeepsTracked(s, a);
      } else {
        PollTakesComplete(s, a.table, id);
        assert a in actions;
        WasCompleteNow(actions, a, s.tracked[id]);
        StepKeepsTracked(s, a);
      }
    }
  }

  lemma StepKeepsTracked(s: State, a: Action)
    ensures s.tracked <= Step(s, a).tracked
  {
    hide TrackedFor;
  }

  lemma WasCompleteNow(actions: seq<Action>, a: Action, batch: InsertBatch)
    requires a in actions && a.Poll? && a.table.Some? && BatchComplete(batch, a.table.value)
    ensures WasComplete(actions, batch)
  {
  }

  lemma WasCompleteStays(front: seq<Action>, a: Action, batch: InsertBatch)
    requires WasComplete(front, batch)
    ensures WasComplete(front + [a], batch)
  {
    var b :| b in front && b.Poll? && b.table.Some? && BatchComplete(batch, b.table.value);
    assert b in front + [a];
  }

  lemma {:induction false} WithFreshKeys(pending: map<nat, InsertBatch>, batchesRead: seq<TrackedBatch>, id: nat)
    ensures id in WithFresh(pending, batchesRead)
       <==> id in pending || exists i | 0 <= i < |batchesRead| :: batchesRead[i].id == id
  {
    if batchesRead != [] {
      WithFreshKeys(pending, batchesRead[..|batchesRead| - 1], id);
    }
  }

  lemma PollTakesComplete(s: State, table: Option<set<string>>, id: nat)
    requires Inv(s) && s.phase.Polling?
    requires id < DoPoll(s, table).nextIndex && id !in DoPoll(s, table).pending
    requires id in s.pending || s.nextIndex <= id
    ensures table.Some? && id < |s.tracked| && BatchComplete(s.tracked[id], table.value)
  {
    hide BatchComplete, WithFresh;
    var batchesRead := Since(s.tracked, s.nextIndex);
    FreshIsNew(s.pending, s.tracked, s.nextIndex, batchesRead);
    if s.nextIndex <= id {
      assert batchesRead[id - s.nextIndex].id == id;
    }
    WithFreshKeys(s.pending, batchesRead, id);
  }

  // ------------------------------------------------------------ what is tracked and what is observed

  /** A job is tracked exactly when it is a batch that was sent without error at a known time and one of its logs
      has a trace id; what is tracked are its non-empty trace ids. */
  lemma TracksIff(batches: seq<InsertBatch>, result: Result, job: Job)
    ensures var sent := !result.failed && result.kind == Batch && result.startedAt.Some?;
            var traced := exists l | l in job.logs :: l.traceId != "";
            var after := Tracked(batches, result, job);
            && (sent && traced ==>
                  after == batches + [InsertBatch(result.startedAt.value, TraceIds(job.logs))])
            && (!(sent && traced) ==> after == batches)
  {
    var ids := TraceIds(job.logs);
    assert (exists l | l in job.logs :: l.traceId != "") ==> ids != [] by {
      if l :| l in job.logs && l.traceId != "" { assert l.traceId in ids; }
    }
    if ids != [] { assert ids[0] in ids; }
  }

  /** Trace ids are collected log by log, in order. */
  lemma {:induction false} TraceIdsLogByLog(a: seq<LogRequest>, b: seq<LogRequest>)
    ensures TraceIds(a + b) == TraceIds(a) + TraceIds(b)
  {
    if b == [] {
      assert a + b == a;
    } else {
      assert (a + b)[..|a + b| - 1] == a + b[..|b| - 1];
      TraceIdsLogByLog(a, b[..|b| - 1]);
    }
  }

  /** A log without a trace id adds none. */
  lemma TraceIdOfOne(l: LogRequest)
    ensures TraceIds([l]) == if l.traceId == "" then [] else [l.traceId]
  {
    assert [l][..0] == [];
  }

  /** A poll that can read the table takes out exactly the complete batches: a batch that was pending or new is
      pending afterwards if and only if one of its trace ids is not in the table, and each one taken out is counted. */
  lemma PollObservesExactly(s: State, table: set<string>, id: nat)
    requires Inv(s) && s.phase == Polling && id < |s.tracked|
    ensures var t := DoPoll(s, Some(table));
            && (id in t.pending <==>
                  && (id in s.pending || id >= s.nextIndex)
                  && exists trace | trace in s.tracked[id].traceIds :: trace !in table)
            && t.nextIndex == |s.tracked| && t.tracked == s.tracked && t.timedOut == s.timedOut
            && t.observed + |t.pending| == |s.tracked|
            && t.phase == if s.loadFinished && t.pending == map[] then Ended(AllInserted) else Selecting
  {
    hide WithFresh, Since, FinishPoll, Accounted, HasIds;
    PollKeepsInv(s, Some(table));
    ReadKeepsAccount(s);
    ReadTakesOver(s, id);
    FinishTakesComplete(ReadNew(s), table, id);
  }

  /** What was pending stays so, and all that was tracked since joins it. */
  lemma ReadTakesOver(s: State, id: nat)
    requires Inv(s)
    ensures id in ReadNew(s).pending <==> id in s.pending || s.nextIndex <= id < |s.tracked|
  {
    hide WithFresh;
    var batchesRead := Since(s.tracked, s.nextIndex);
    WithFreshKeys(s.pending, batchesRead, id);
    if s.nextIndex <= id < |s.tracked| { assert batchesRead[id - s.nextIndex].id == id; }
  }

  lemma FinishTakesComplete(s: State, table: set<string>, id: nat)
    requires Accounted(s.tracked, s.pending, s.nextIndex, s.observed) && s.nextIndex == |s.tracked| && id < |s.tracked|
    ensures var t := FinishPoll(s, Some(table));
            && (id in t.pending <==> id in s.pending && exists trace | trace in s.tracked[id].traceIds :: trace !in table)
            && t.tracked == s.tracked && t.nextIndex == s.nextIndex && t.timedOut == s.timedOut
            && t.observed + |t.pending| == |s.tracked|
            && t.phase == if s.loadFinished && t.pending == map[] then Ended(AllInserted) else Selecting
  {
    hide HasIds;
    RemovedCount(s.pending, Complete(s.pending, table));
  }

  /** A poll that cannot read the table ends the observation when something is pending, and only then. */
  lemma PollFailsIff(s: State)
    requires Inv(s) && s.phase == Polling
    ensures DoPoll(s, None).phase == Ended(Failed) <==> s.pending != map[] || s.nextIndex < |s.tracked|
  {
    hide WithFresh, Since, Inv;
    var read := ReadNew(s).pending;
    assert Accounted(s.tracked, s.pending, s.nextIndex, s.observed) by { InvAccounts(s); }
    ReadKeepsAccount(s);
    FreshCount(s);
    if read != map[] {
      var id := PendingId(ReadNew(s));
      assert read[id] == s.tracked[id] && s.tracked[id] in s.tracked;
      assert HasIds(read);
    }
  }

  lemma InvAccounts(s: State)
    requires Inv(s)
    ensures Accounted(s.tracked, s.pending, s.nextIndex, s.observed)
  {
  }

  lemma FreshCount(s: State)
    requires Accounted(s.tracked, s.pending, s.nextIndex, s.observed)
    ensures |ReadNew(s).pending| == |s.pending| + |s.tracked| - s.nextIndex
  {
    hide WithFresh;
    FreshIsNew(s.pending, s.tracked, s.nextIndex, Since(s.tracked, s.nextIndex));
  }

  ghost function PendingId(s: State): nat
    requires s.pending != map[]
  {
    assert s.pending.Keys != {};
    var id :| id in s.pending; id
  }

  /** The four cases of the `select`: the context and the settle timer count what is pending as timed out and end
      the observation, the end of the load and the ticker lead to another poll. */
  lemma SelectEffects(s: State)
    requires s.phase == Selecting
    ensures Step(s, Select(ContextEnded)) == s.(timedOut := s.timedOut + |s.pending|, phase := Ended(Interrupted))
    ensures s.loadFinished ==>
              Step(s, Select(SettleFired)) == s.(timedOut := s.timedOut + |s.pending|, phase := Ended(Settled))
    ensures s.closed && !s.loadFinished ==> Step(s, Select(LoadDoneReceived)) == s.(loadFinished := true, phase := Polling)
    ensures Step(s, Select(TickFired)) == s.(phase := Polling)
    ensures !s.loadFinished ==> Step(s, Select(SettleFired)) == s
  {
  }

  /** When every tracked trace id is in the table, closing the load, one more poll, hearing of the end and a last
      poll end the observation with every batch observed. */
  lemma CompleteLoadIsObserved(s: State, table: set<string>)
    requires Inv(s) && s.phase == Polling && !s.loadFinished
    requires forall b, trace | b in s.tracked && trace in b.traceIds :: trace in table
    ensures var t := Step(Step(Step(Step(s, CloseLoad), Poll(Some(table))), Select(LoadDoneReceived)), Poll(Some(table)));
            t.phase == Ended(AllInserted) && t.observed == |s.tracked| && t.timedOut == 0
  {
    hide DoPoll;
    var a := Step(s, CloseLoad);
    assert Inv(a);
    PollEmpties(a, table);
    PollKeepsInv(a, Some(table));
    var b := Step(a, Poll(Some(table)));
    PollKeepsLoad(a, table);
    var c := Step(b, Select(LoadDoneReceived));
    assert c == b.(loadFinished := true, phase := Polling);
    SelectKeepsInv(b, LoadDoneReceived);
    PollEmpties(c, table);
  }

  lemma PollKeepsLoad(s: State, table: set<string>)
    ensures DoPoll(s, Some(table)).closed == s.closed && DoPoll(s, Some(table)).loadFinished == s.loadFinished
  {
  }

  lemma PollEmpties(s: State, table: set<string>)
    requires Inv(s) && s.phase == Polling
    requires forall b, trace | b in s.tracked && trace in b.traceIds :: trace in table
    ensures var t := DoPoll(s, Some(table));
            && t.pending == map[] && t.observed == |s.tracked| && t.tracked == s.tracked && t.timedOut == s.timedOut
            && t.phase == if s.loadFinished then Ended(AllInserted) else Selecting
  {
    hide DoPoll;
    var t := DoPoll(s, Some(table));
    PollKeepsInv(s, Some(table));
    if |s.tracked| > 0 { PollObservesExactly(s, table, 0); } else { NothingTracked(s, table); }
    forall id: nat | id < |s.tracked| ensures id !in t.pending {
      assert s.tracked[id] in s.tracked;
      PollObservesExactly(s, table, id);
    }
    PendingIsTracked(t);
  }

  lemma PendingIsTracked(s: State)
    requires Inv(s)
    requires forall id: nat | id < |s.tracked| :: id !in s.pending
    ensures s.pending == map[]
  {
    forall id: nat ensures id !in s.pending { }
    assert s.pending == map[];
  }

  lemma NothingTracked(s: State, table: set<string>)
    requires Inv(s) && s.phase == Polling && s.tracked == []
    ensures var t := DoPoll(s, Some(table));
            && t.pending == map[] && t.observed == 0 && t.tracked == [] && t.timedOut == s.timedOut
            && t.phase == if s.loadFinished then Ended(AllInserted) else Selecting
  {
    assert |s.pending| == 0 && s.pending == map[];
    assert Complete(map[], table) == {};
  }
}
