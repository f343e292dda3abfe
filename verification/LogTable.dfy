/** The ClickHouse log repository: `Save` filters out EventIDs it has already stored, then inserts. */
module LogTable {
  import opened Common
  import opened Events

  /** What the insert of a batch did: all of it, or an error after some of its rows became visible. */
  datatype SendOutcome = Sent | SendFailed(persisted: set<nat>)

  /** How the database calls of one `Save` turn out. */
  datatype SaveFaults = SaveFaults(queryOk: bool, prepareOk: bool, appendFailsAt: Option<nat>, send: SendOutcome)

  const SAVE_OK := SaveFaults(true, true, None, Sent)

  function Ids(rows: seq<LogRow>): set<string> { set r | r in rows :: r.eventId }

  function RowsOf(models: seq<LogModel>): (rows: seq<LogRow>)
    ensures |rows| == |models|
    ensures forall i | 0 <= i < |models| :: rows[i] == RowOf(models[i])
  {
    seq(|models|, i requires 0 <= i < |models| => RowOf(models[i]))
  }

  predicate HasIds(logs: seq<LogModel>) { exists m | m in logs :: m.eventId != "" }

  // ------------------------------------------------------------ the first-occurrence filter

  /** Position `i` passes the filter: no id, or an unknown id that does not occur earlier in the batch. */
  predicate Keep(known: set<string>, logs: seq<LogModel>, i: nat)
    requires i < |logs|
  {
    || logs[i].eventId == ""
    || (logs[i].eventId !in known && forall j | 0 <= j < i :: logs[j].eventId != logs[i].eventId)
  }

  /** The positions below `n` that pass, in order. */
  function KeptBelow(known: set<string>, logs: seq<LogModel>, n: nat): (idx: seq<nat>)
    requires n <= |logs|
    ensures forall k | 0 <= k < |idx| :: idx[k] < n
    ensures forall k, l | 0 <= k < l < |idx| :: idx[k] < idx[l]
    ensures forall i: nat | i < n :: i in idx <==> Keep(known, logs, i)
  {
    if n == 0 then []
    else KeptBelow(known, logs, n - 1) + (if Keep(known, logs, n - 1) then [n - 1] else [])
  }

  /** The ids below `n` that have passed. */
  function NewIds(known: set<string>, logs: seq<LogModel>, n: nat): (ids: set<string>)
    requires n <= |logs|
    ensures forall id | id in ids :: exists j | 0 <= j < n :: logs[j].eventId == id
    ensures forall j | 0 <= j < n :: logs[j].eventId == "" || logs[j].eventId in known || logs[j].eventId in ids
  {
    if n == 0 then {}
    else
      var id := logs[n - 1].eventId;
      NewIds(known, logs, n - 1) + (if id == "" || id in known then {} else {id})
  }

  lemma KeepBySeen(known: set<string>, logs: seq<LogModel>, i: nat)
    requires i < |logs|
    ensures var id := logs[i].eventId;
            Keep(known, logs, i) <==> id == "" || (id !in known && id !in NewIds(known, logs, i))
  {
  }

  function Select<T>(s: seq<T>, idx: seq<nat>): (r: seq<T>)
    requires forall k | 0 <= k < |idx| :: idx[k] < |s|
    ensures |r| == |idx|
    ensures forall k | 0 <= k < |idx| :: r[k] == s[idx[k]]
  {
    seq(|idx|, k requires 0 <= k < |idx| => s[idx[k]])
  }

  lemma KeptNext(known: set<string>, logs: seq<LogModel>, i: nat)
    requires i < |logs|
    ensures Select(logs, KeptBelow(known, logs, i + 1))
         == Select(logs, KeptBelow(known, logs, i)) + (if Keep(known, logs, i) then [logs[i]] else [])
  {
  }

  lemma NewIdsNext(known: set<string>, logs: seq<LogModel>, i: nat)
    requires i < |logs|
    ensures var id := logs[i].eventId;
            NewIds(known, logs, i + 1) == NewIds(known, logs, i) + (if id == "" || id in known then {} else {id})
  {
  }

  /** The order-preserving first-occurrence filter. */
  function NewLogs(known: set<string>, logs: seq<LogModel>): seq<LogModel> {
    Select(logs, KeptBelow(known, logs, |logs|))
  }

  /** Non-empty ids are unknown and pairwise different. */
  ghost predicate Fresh(known: set<string>, models: seq<LogModel>) {
    && (forall m | m in models :: m.eventId != "" ==> m.eventId !in known)
    && (forall i, j | 0 <= i < j < |models| :: models[i].eventId != "" ==> models[i].eventId != models[j].eventId)
  }

  lemma NewLogsAreFresh(known: set<string>, logs: seq<LogModel>)
    ensures Fresh(known, NewLogs(known, logs))
  {
    var idx := KeptBelow(known, logs, |logs|);
    forall k | 0 <= k < |idx| ensures Keep(known, logs, idx[k]) { assert idx[k] in idx; }
  }

  lemma KeepAgrees(known: set<string>, other: set<string>, logs: seq<LogModel>, i: nat)
    requires i < |logs|
    requires logs[i].eventId != "" ==> (logs[i].eventId in known <==> logs[i].eventId in other)
    ensures Keep(known, logs, i) == Keep(other, logs, i)
  {
  }

  /** The filter only depends on which ids of the batch are known. */
  lemma {:induction false} OnlyBatchIdsMatter(known: set<string>, other: set<string>, logs: seq<LogModel>, n: nat)
    requires n <= |logs|
    requires forall m | m in logs :: m.eventId != "" ==> (m.eventId in known <==> m.eventId in other)
    ensures KeptBelow(known, logs, n) == KeptBelow(other, logs, n)
  {
    hide Keep;
    if n > 0 {
      OnlyBatchIdsMatter(known, other, logs, n - 1);
      assert logs[n - 1] in logs;
      KeepAgrees(known, other, logs, n - 1);
    }
  }

  lemma NewLogsComeFromBatch(known: set<string>, logs: seq<LogModel>)
    ensures forall m | m in NewLogs(known, logs) :: m in logs
  {
  }

  /** An id of the batch that is not in the table survives the filter. */
  lemma {:induction false} UnknownIdSurvives(known: set<string>, logs: seq<LogModel>, i: nat)
    requires i < |logs| && (logs[i].eventId == "" || logs[i].eventId !in known)
    ensures exists m | m in NewLogs(known, logs) :: m.eventId == logs[i].eventId
  {
    if Keep(known, logs, i) {
      var idx := KeptBelow(known, logs, |logs|);
      assert i in idx;
      var k :| 0 <= k < |idx| && idx[k] == i;
      assert NewLogs(known, logs)[k] == logs[i];
    } else {
      var j :| 0 <= j < i && logs[j].eventId == logs[i].eventId;
      UnknownIdSurvives(known, logs, j);
    }
  }

  // ------------------------------------------------------------ partial inserts

  /** The elements at the positions in `keep`, in order. */
  function Pick<T>(s: seq<T>, keep: set<nat>): (r: seq<T>)
    ensures |r| <= |s|
    ensures forall x | x in r :: x in s
  {
    if s == [] then []
    else Pick(s[..|s| - 1], keep) + (if |s| - 1 in keep then [s[|s| - 1]] else [])
  }

  lemma {:induction false} PickKeepsFresh(known: set<string>, models: seq<LogModel>, keep: set<nat>)
    requires Fresh(known, models)
    ensures Fresh(known, Pick(models, keep))
  {
    if models != [] {
      var front, last := models[..|models| - 1], models[|models| - 1];
      PickKeepsFresh(known, front, keep);
      forall m | m in Pick(front, keep)
        ensures m.eventId != "" ==> m.eventId != last.eventId
      {
        assert m in front;
        var i :| 0 <= i < |front| && front[i] == m;
        assert models[i] == m;
      }
    }
  }

  lemma {:induction false} PickCommutesWithRows(models: seq<LogModel>, keep: set<nat>)
    ensures Pick(RowsOf(models), keep) == RowsOf(Pick(models, keep))
  {
    if models != [] {
      PickCommutesWithRows(models[..|models| - 1], keep);
      assert RowsOf(models)[..|models| - 1] == RowsOf(models[..|models| - 1]);
    }
  }

  // ------------------------------------------------------------ Save as a function

  function Inserted(rows: seq<LogRow>, batch: seq<LogModel>, send: SendOutcome): (seq<LogRow>, bool) {
    match send
    case Sent => (rows + RowsOf(batch), true)
    case SendFailed(persisted) => (rows + RowsOf(Pick(batch, persisted)), false)
  }

  /** The table after `Save`, and whether `Save` reported success. */
  function SaveRows(rows: seq<LogRow>, logs: seq<LogModel>, f: SaveFaults): (seq<LogRow>, bool) {
    if HasIds(logs) && !f.queryOk then (rows, false)
    else
      var batch := NewLogs(Ids(rows), logs);
      if batch == [] then (rows, true)
      else if !f.prepareOk then (rows, false)
      else if f.appendFailsAt.Some? && f.appendFailsAt.value < |batch| then (rows, false)
      else Inserted(rows, batch, f.send)
  }

  lemma SaveOfNothing(rows: seq<LogRow>, f: SaveFaults)
    ensures SaveRows(rows, [], f) == (rows, true)
  {
  }

  lemma RowsOfNext(models: seq<LogModel>, i: nat)
    requires i < |models|
    ensures RowsOf(models[..i + 1]) == RowsOf(models[..i]) + [RowOf(models[i])]
  {
    hide RowOf;
  }

  class ClickHouseLogRepo {
    var rows: seq<LogRow>

    constructor ()
      ensures rows == []
    {
      rows := [];
    }

    /** The ids among `eventIDs` that the table holds. */
    method ExistingEventIds(eventIds: seq<string>) returns (existing: set<string>)
      ensures existing == set id | id in eventIds && id in Ids(rows)
    {
      existing := {};
      for i := 0 to |rows|
        invariant existing == set id | id in eventIds && id in Ids(rows[..i])
      {
        assert rows[..i + 1] == rows[..i] + [rows[i]];
        if rows[i].eventId in eventIds {
          existing := existing + {rows[i].eventId};
        }
      }
      assert rows[..|rows|] == rows;
    }

    /** The distinct non-empty ids of the batch. */
    method DistinctIds(logs: seq<LogModel>) returns (eventIds: seq<string>)
      ensures forall m | m in logs :: m.eventId != "" ==> m.eventId in eventIds
      ensures forall id | id in eventIds :: id != "" && exists m | m in logs :: m.eventId == id
    {
      var seenInBatch: set<string> := {};
      eventIds := [];
      for i := 0 to |logs|
        invariant forall id | id in seenInBatch :: id in eventIds
        invariant forall j | 0 <= j < i :: logs[j].eventId != "" ==> logs[j].eventId in eventIds
        invariant forall id | id in eventIds :: id != "" && exists m | m in logs :: m.eventId == id
      {
        var l := logs[i];
        assert l in logs;
        if l.eventId != "" && l.eventId !in seenInBatch {
          seenInBatch := seenInBatch + {l.eventId};
          eventIds := eventIds + [l.eventId];
        }
      }
    }

    method DropKnown(logs: seq<LogModel>, existing: set<string>) returns (filtered: seq<LogModel>)
      ensures filtered == NewLogs(existing, logs)
    {
      var seenInBatch: set<string> := {};
      filtered := [];
      for i := 0 to |logs|
        invariant seenInBatch == NewIds(existing, logs, i)
        invariant filtered == Select(logs, KeptBelow(existing, logs, i))
      {
        hide KeptBelow, NewIds, Keep, Select;
        var l := logs[i];
        KeepBySeen(existing, logs, i);
        KeptNext(existing, logs, i);
        NewIdsNext(existing, logs, i);
        if l.eventId == "" {
          filtered := filtered + [l];
        } else if l.eventId !in existing && l.eventId !in seenInBatch {
          seenInBatch := seenInBatch + {l.eventId};
          filtered := filtered + [l];
        }
      }
    }

    method FilterNewLogs(logs: seq<LogModel>, queryOk: bool) returns (r: Option<seq<LogModel>>)
      ensures r == if HasIds(logs) && !queryOk then None else Some(NewLogs(Ids(rows), logs))
    {
      var eventIds := DistinctIds(logs);
      var existing: set<string> := {};
      if |eventIds| > 0 {
        assert eventIds[0] in eventIds;
        if !queryOk {
          return None;
        }
        existing := ExistingEventIds(eventIds);
      }
      var filtered := DropKnown(logs, existing);
      OnlyBatchIdsMatter(existing, Ids(rows), logs, |logs|);
      return Some(filtered);
    }

    /** `batch.Send`: the only call that changes the table. */
    method Send(batch: seq<LogRow>, outcome: SendOutcome) returns (ok: bool)
      modifies this
      ensures ok <==> outcome.Sent?
      ensures rows == old(rows) + if ok then batch else Pick(batch, outcome.persisted)
    {
      if outcome.Sent? {
        rows := rows + batch;
        return true;
      }
      rows := rows + Pick(batch, outcome.persisted);
      return false;
    }

    method Save(logs: seq<LogModel>, f: SaveFaults) returns (ok: bool)
      modifies this
      ensures (rows, ok) == SaveRows(old(rows), logs, f)
    {
      hide NewLogs, HasIds, RowOf, RowsOf, Ids, Pick;
      if |logs| == 0 {
        SaveOfNothing(rows, f);
        return true;
      }
      var filtered := FilterNewLogs(logs, f.queryOk);
      if filtered.None? {
        return false;
      }
      var logsToInsert := filtered.value;
      if |logsToInsert| == 0 {
        return true;
      }
      if !f.prepareOk {
        return false;
      }
      var batch: seq<LogRow> := [];
      for i := 0 to |logsToInsert|
        invariant batch == RowsOf(logsToInsert[..i])
        invariant f.appendFailsAt.Some? ==> f.appendFailsAt.value >= i
        invariant rows == old(rows)
      {
        if f.appendFailsAt == Some(i) {
          return false;
        }
        batch := batch + [RowOf(logsToInsert[i])];
        RowsOfNext(logsToInsert, i);
      }
      assert logsToInsert[..|logsToInsert|] == logsToInsert;
      ok := Send(batch, f.send);
      if f.send.SendFailed? {
        PickCommutesWithRows(logsToInsert, f.send.persisted);
      }
    }
  }

  // ------------------------------------------------------------ what saving keeps

  /** No non-empty EventID appears twice. */
  ghost predicate UniqueIds(rows: seq<LogRow>) {
    forall i, j | 0 <= i < j < |rows| :: rows[i].eventId != "" ==> rows[i].eventId != rows[j].eventId
  }

  ghost predicate OccursOnce(rows: seq<LogRow>, id: string) {
    exists i | 0 <= i < |rows| :: rows[i].eventId == id && forall j | 0 <= j < |rows| && j != i :: rows[j].eventId != id
  }

  lemma FreshRowsStayUnique(rows: seq<LogRow>, models: seq<LogModel>)
    requires UniqueIds(rows) && Fresh(Ids(rows), models)
    ensures UniqueIds(rows + RowsOf(models))
  {
    var all := rows + RowsOf(models);
    forall i, j | 0 <= i < j < |all|
      ensures all[i].eventId != "" ==> all[i].eventId != all[j].eventId
    {
      if j >= |rows| {
        assert models[j - |rows|] in models;
        if i < |rows| { assert rows[i] in rows; }
      }
    }
  }

  /** Whatever fails, `Save` only adds rows of its batch, and keeps non-empty ids unique. */
  lemma SaveKeepsUnique(rows: seq<LogRow>, logs: seq<LogModel>, f: SaveFaults)
    requires UniqueIds(rows)
    ensures UniqueIds(SaveRows(rows, logs, f).0)
  {
    var batch := NewLogs(Ids(rows), logs);
    NewLogsAreFresh(Ids(rows), logs);
    FreshRowsStayUnique(rows, batch);
    if f.send.SendFailed? {
      PickKeepsFresh(Ids(rows), batch, f.send.persisted);
      FreshRowsStayUnique(rows, Pick(batch, f.send.persisted));
    }
  }

  lemma SaveAddsOnlyItsBatch(rows: seq<LogRow>, logs: seq<LogModel>, f: SaveFaults)
    ensures rows <= SaveRows(rows, logs, f).0
    ensures forall r | r in SaveRows(rows, logs, f).0 :: r in rows || exists m | m in logs :: r == RowOf(m)
  {
    var batch := NewLogs(Ids(rows), logs);
    NewLogsComeFromBatch(Ids(rows), logs);
    var after := SaveRows(rows, logs, f).0;
    forall r | r in after && r !in rows
      ensures exists m | m in logs :: r == RowOf(m)
    {
      var added := if f.send.Sent? then batch else Pick(batch, f.send.persisted);
      assert r in RowsOf(added);
      var k :| 0 <= k < |added| && r == RowOf(added[k]);
      assert added[k] in batch;
    }
  }

  /** A successful save leaves every id of the batch in the table. */
  lemma SaveStoresBatch(rows: seq<LogRow>, logs: seq<LogModel>, f: SaveFaults, m: LogModel)
    requires SaveRows(rows, logs, f).1 && m in logs
    ensures m.eventId in Ids(SaveRows(rows, logs, f).0)
  {
    var after := SaveRows(rows, logs, f).0;
    SaveAddsOnlyItsBatch(rows, logs, f);
    if m.eventId in Ids(rows) && m.eventId != "" {
      var r :| r in rows && r.eventId == m.eventId;
      assert r in after;
    } else {
      var i :| 0 <= i < |logs| && logs[i] == m;
      UnknownIdSurvives(Ids(rows), logs, i);
      var batch := NewLogs(Ids(rows), logs);
      var n :| n in batch && n.eventId == m.eventId;
      var k :| 0 <= k < |batch| && batch[k] == n;
      assert after[|rows| + k] == RowOf(n);
    }
  }

  /** A successful save leaves each non-empty id of the batch in the table exactly once. */
  lemma SaveStoresEachIdOnce(rows: seq<LogRow>, logs: seq<LogModel>, f: SaveFaults, m: LogModel)
    requires UniqueIds(rows) && SaveRows(rows, logs, f).1 && m in logs && m.eventId != ""
    ensures OccursOnce(SaveRows(rows, logs, f).0, m.eventId)
  {
    SaveKeepsUnique(rows, logs, f);
    SaveStoresBatch(rows, logs, f, m);
    var after := SaveRows(rows, logs, f).0;
    var i :| 0 <= i < |after| && after[i].eventId == m.eventId;
    forall j | 0 <= j < |after| && j != i
      ensures after[j].eventId != m.eventId
    {
      var lo, hi := if i < j then i else j, if i < j then j else i;
      assert after[lo].eventId != "" ==> after[lo].eventId != after[hi].eventId;
    }
  }

  /** The table after a sequence of saves by one writer. */
  function RunSaves(rows: seq<LogRow>, calls: seq<(seq<LogModel>, SaveFaults)>): seq<LogRow> {
    if calls == [] then rows
    else SaveRows(RunSaves(rows, calls[..|calls| - 1]), calls[|calls| - 1].0, calls[|calls| - 1].1).0
  }

  /** Non-empty ids stay unique over any sequence of saves, however each of them fails. */
  lemma {:induction false} SavesKeepUnique(calls: seq<(seq<LogModel>, SaveFaults)>)
    ensures UniqueIds(RunSaves([], calls))
  {
    if calls != [] {
      SavesKeepUnique(calls[..|calls| - 1]);
      SaveKeepsUnique(RunSaves([], calls[..|calls| - 1]), calls[|calls| - 1].0, calls[|calls| - 1].1);
    }
  }

  // ------------------------------------------------------------ exactly what is stored

  /** The logs without an id, in order. */
  function WithoutId(logs: seq<LogModel>): seq<LogModel> {
    if logs == [] then []
    else WithoutId(logs[..|logs| - 1]) + (if logs[|logs| - 1].eventId == "" then [logs[|logs| - 1]] else [])
  }

  lemma WithoutIdNext(logs: seq<LogModel>, m: LogModel)
    ensures WithoutId(logs + [m]) == WithoutId(logs) + (if m.eventId == "" then [m] else [])
  {
    assert (logs + [m])[..|logs|] == logs;
  }

  /** Logs without an id are never taken for duplicates: all of them pass the filter, in order. */
  lemma {:induction false} LogsWithoutIdPass(known: set<string>, logs: seq<LogModel>, n: nat)
    requires n <= |logs|
    ensures WithoutId(Select(logs, KeptBelow(known, logs, n))) == WithoutId(logs[..n])
  {
    hide KeptBelow, Select, WithoutId;
    if n == 0 {
      NothingKept(known, logs);
    } else {
      LogsWithoutIdPass(known, logs, n - 1);
      KeptNext(known, logs, n - 1);
      assert logs[..n] == logs[..n - 1] + [logs[n - 1]];
      WithoutIdNext(logs[..n - 1], logs[n - 1]);
      var kept := Select(logs, KeptBelow(known, logs, n - 1));
      if Keep(known, logs, n - 1) {
        WithoutIdNext(kept, logs[n - 1]);
      } else {
        assert kept + [] == kept;
      }
    }
  }

  lemma NothingKept(known: set<string>, logs: seq<LogModel>)
    ensures Select(logs, KeptBelow(known, logs, 0)) == [] && logs[..0] == []
  {
  }

  /** Of the logs with an id exactly those pass whose id is unknown and that are the first of the batch with it. */
  lemma FirstOccurrencePasses(known: set<string>, logs: seq<LogModel>, i: nat)
    requires i < |logs| && logs[i].eventId != ""
    ensures i in KeptBelow(known, logs, |logs|)
       <==> logs[i].eventId !in known && forall j | 0 <= j < i :: logs[j].eventId != logs[i].eventId
    ensures i in KeptBelow(known, logs, |logs|) ==> logs[i] in NewLogs(known, logs)
  {
    var idx := KeptBelow(known, logs, |logs|);
    if i in idx {
      var k :| 0 <= k < |idx| && idx[k] == i;
      assert NewLogs(known, logs)[k] == logs[i];
    }
  }

  /** A save succeeds exactly when the calls that it needs do, and then appends the rows of the new logs; until
      the batch is sent a failure leaves the table as it was. */
  lemma SaveSucceedsIff(rows: seq<LogRow>, logs: seq<LogModel>, f: SaveFaults)
    ensures var (after, ok) := SaveRows(rows, logs, f);
            var fresh' := NewLogs(Ids(rows), logs);
            var queried := (forall m | m in logs :: m.eventId == "") || f.queryOk;
            var prepared := queried && f.prepareOk && (f.appendFailsAt.Some? ==> f.appendFailsAt.value >= |fresh'|);
            && (ok <==> queried && (fresh' == [] || (prepared && f.send == Sent)))
            && (ok ==> after == rows + RowsOf(fresh'))
            && (!prepared ==> after == rows)
  {
    hide KeptBelow, Keep;
    assert RowsOf([]) == [];
  }

  /** A successful save stores every log without an id, in order, after the rows that were there. */
  lemma SaveStoresLogsWithoutId(rows: seq<LogRow>, logs: seq<LogModel>, f: SaveFaults)
    requires SaveRows(rows, logs, f).1
    ensures var stored := NewLogs(Ids(rows), logs);
            SaveRows(rows, logs, f).0 == rows + RowsOf(stored) && WithoutId(stored) == WithoutId(logs)
  {
    hide SaveRows, WithoutId, KeptBelow;
    SaveSucceedsIff(rows, logs, f);
    LogsWithoutIdPass(Ids(rows), logs, |logs|);
    assert logs[..|logs|] == logs;
  }
}
