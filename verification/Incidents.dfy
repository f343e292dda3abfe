/** Incidents: the upsert of `Record`, status updates, and the state as a fold of an alert history. */
module Incidents {
  import opened Common
  import opened Events
  import opened Text

  datatype Status = Open | Acked | Resolved

  datatype Incident = Incident(applicationName: string, level: string, category: string, title: string,
                               firstSeen: int, lastSeen: int, occurrences: nat, suppressed: nat, status: Status)

  const DEFAULT_CATEGORY := "UNKNOWN_ERROR"
  const MAX_TITLE_LENGTH: nat := 160
  const ZERO_TIME: int := 0

  /** `alert.Timestamp`, or the current time when it is the zero time. */
  function SeenAt(alert: AlertEvent, now: int): int {
    if alert.timestamp == ZERO_TIME then now else alert.timestamp
  }

  function CategoryOf(alert: AlertEvent): string {
    var trimmed := TrimSpace(alert.category);
    if trimmed == "" then DEFAULT_CATEGORY else trimmed
  }

  function FullTitle(alert: AlertEvent, category: string): string {
    var message := Join(Fields(alert.message));
    "[" + alert.level + "] " + alert.applicationName + ": " + (if message == "" then category else message)
  }

  /** The title fits, and is the full title or a prefix of it with an ellipsis. */
  function BuildIncidentTitle(alert: AlertEvent, category: string): (title: string)
    ensures |title| <= MAX_TITLE_LENGTH
    ensures |FullTitle(alert, category)| <= MAX_TITLE_LENGTH <==> title == FullTitle(alert, category)
    ensures title != FullTitle(alert, category) ==>
              |title| == MAX_TITLE_LENGTH && title[..157] <= FullTitle(alert, category) && title[157..] == "..."
  {
    var title := FullTitle(alert, category);
    if |title| <= MAX_TITLE_LENGTH then title else title[..MAX_TITLE_LENGTH - 3] + "..."
  }

  /** The rows of the incidents table; the fingerprint is unique and identifies the incident. */
  type Table = map<string, Incident>

  function Max(a: int, b: int): int { if a >= b then a else b }

  /** `INSERT ... ON CONFLICT (fingerprint) DO UPDATE`. */
  function Upsert(old': Option<Incident>, alert: AlertEvent, dispatched: bool, now: int): Incident {
    var seenAt, category := SeenAt(alert, now), CategoryOf(alert);
    var increment := if dispatched then 0 else 1;
    match old'
    case None =>
      Incident(alert.applicationName, alert.level, category, BuildIncidentTitle(alert, category), seenAt,
            seenAt, 1, increment, Open)
    case Some(i) =>
      Incident(alert.applicationName, alert.level, category, BuildIncidentTitle(alert, category),
               i.firstSeen, Max(i.lastSeen, seenAt), i.occurrences + 1, i.suppressed + increment,
               if i.status == Resolved then Open else i.status)
  }

  function Lookup(t: Table, fingerprint: string): Option<Incident> {
    if fingerprint in t then Some(t[fingerprint]) else None
  }

  datatype Op = Record(alert: AlertEvent, dispatched: bool, now: int) | SetStatus(id: string, status: Status)

  function Apply(t: Table, op: Op): Table {
    match op
    case Record(alert, dispatched, now) => t[alert.fingerprint := Upsert(Lookup(t, alert.fingerprint), alert,
          dispatched, now)]
    case SetStatus(id, status) => if id in t then t[id := t[id].(status := status)] else t
  }

  function Replay(history: seq<Op>): Table {
    if history == [] then map[] else Apply(Replay(history[..|history| - 1]), history[|history| - 1])
  }

  /** A write commits, rolls back with an error, or commits although the client sees an error. */
  datatype WriteOutcome = Recorded | RolledBack | Unacknowledged

  datatype UpdateReply = Updated | NoRows | Failed

  class IncidentStore {
    var table: Table

    constructor ()
      ensures table == map[]
    {
      table := map[];
    }

    /** `Record`: one transaction, so the table holds the upsert or is as it was. */
    method RecordAlert(alert: AlertEvent, dispatched: bool, now: int, outcome: WriteOutcome) returns (ok: bool)
      modifies this
      ensures ok == outcome.Recorded?
      ensures table == if outcome.RolledBack? then old(table) else Apply(old(table), Record(alert, dispatched, now))
    {
      var seenAt := alert.timestamp;
      if seenAt == ZERO_TIME {
        seenAt := now;
      }
      var category := TrimSpace(alert.category);
      if category == "" {
        category := DEFAULT_CATEGORY;
      }
      var suppressedIncrement := 0;
      if !dispatched {
        suppressedIncrement := 1;
      }
      if outcome.RolledBack? {
        return false;
      }
      var title := BuildIncidentTitle(alert, category);
      var row: Incident;
      if alert.fingerprint in table {
        var i := table[alert.fingerprint];
        row := Incident(alert.applicationName, alert.level, category, title, i.firstSeen, Max(i.lastSeen, seenAt),
                        i.occurrences + 1, i.suppressed + suppressedIncrement,
                        if i.status == Resolved then Open else i.status);
      } else {
        row := Incident(alert.applicationName, alert.level, category, title, seenAt, seenAt, 1, suppressedIncrement, Open);
      }
      table := table[alert.fingerprint := row];
      return outcome.Recorded?;
    }

    /** `UpdateIncidentStatus`: an error of the database, no matching row, or done. */
    method UpdateIncidentStatus(id: string, status: Status, outcome: WriteOutcome) returns (reply: UpdateReply)
      modifies this
      ensures reply == if !outcome.Recorded? then Failed else if id in old(table) then Updated else NoRows
      ensures table == if outcome.RolledBack? then old(table) else Apply(old(table), SetStatus(id, status))
    {
      if outcome.RolledBack? {
        return Failed;
      }
      var affected := 0;
      if id in table {
        table := table[id := table[id].(status := status)];
        affected := 1;
      }
      if outcome.Unacknowledged? {
        return Failed;
      }
      return if affected == 0 then NoRows else Updated;
    }
  }

  // ------------------------------------------------------------ what a history determines

  predicate Records(op: Op, f: string) { op.Record? && op.alert.fingerprint == f }

  predicate Touches(op: Op, f: string) { Records(op, f) || (op.SetStatus? && op.id == f) }

  /** The positions of the records of a fingerprint, in order. */
  function RecordsOf(history: seq<Op>, f: string): (ops: seq<Op>)
    ensures forall op | op in ops :: Records(op, f) && op in history
  {
    if history == [] then []
    else
      var last := history[|history| - 1];
      RecordsOf(history[..|history| - 1], f) + (if Records(last, f) then [last] else [])
  }

  function Undispatched(ops: seq<Op>): (n: nat)
    ensures n <= |ops|
  {
    if ops == [] then 0
    else
      var last := ops[|ops| - 1];
      Undispatched(ops[..|ops| - 1]) + (if last.Record? && !last.dispatched then 1 else 0)
  }

  /** When the record saw its alert; status updates see nothing. */
  function TimeOf(op: Op): int { if op.Record? then SeenAt(op.alert, op.now) else 0 }

  /** The counters and timestamps that a non-empty list of records determines. */
  ghost predicate CountsFor(i: Incident, records: seq<Op>) {
    && records != []
    && i.occurrences == |records|
    && i.suppressed == Undispatched(records)
    && i.firstSeen == TimeOf(records[0])
    && (forall op | op in records :: TimeOf(op) <= i.lastSeen)
    && (exists op | op in records :: TimeOf(op) == i.lastSeen)
  }

  /** The descriptive columns come from the last record. */
  predicate DescribedBy(i: Incident, op: Op) {
    && op.Record?
    && i.applicationName == op.alert.applicationName && i.level == op.alert.level
    && i.category == CategoryOf(op.alert) && i.title == BuildIncidentTitle(op.alert, CategoryOf(op.alert))
  }

  lemma UpsertCounts(old': Option<Incident>, records: seq<Op>, op: Op)
    requires op.Record?
    requires if records == [] then old'.None? else old'.Some? && CountsFor(old'.value, records)
    ensures CountsFor(Upsert(old', op.alert, op.dispatched, op.now), records + [op])
    ensures DescribedBy(Upsert(old', op.alert, op.dispatched, op.now), op)
  {
    hide BuildIncidentTitle, CategoryOf;
    var i := Upsert(old', op.alert, op.dispatched, op.now);
    var all := records + [op];
    assert all[..|all| - 1] == records && all[|all| - 1] == op;
    assert op in all;
    if records != [] {
      assert all[0] == records[0];
      var top :| top in records && TimeOf(top) == old'.value.lastSeen;
      assert top in all;
    }
  }

  /** The incident of a fingerprint exists exactly when it was recorded; its counters, timestamps and
      description are those of its records, whatever status updates came in between. */
  lemma {:induction false} StateIsFoldOfHistory(history: seq<Op>, f: string)
    ensures f in Replay(history) <==> RecordsOf(history, f) != []
    ensures f in Replay(history) ==>
              var records := RecordsOf(history, f);
              CountsFor(Replay(history)[f], records) && DescribedBy(Replay(history)[f], records[|records| - 1])
  {
    hide CountsFor, DescribedBy, Upsert, Undispatched;
    if history != [] {
      var front, last := history[..|history| - 1], history[|history| - 1];
      var records := RecordsOf(front, f);
      StateIsFoldOfHistory(front, f);
      if Records(last, f) {
        UpsertCounts(Lookup(Replay(front), f), records, last);
        assert RecordsOf(history, f) == records + [last];
      } else {
        assert RecordsOf(history, f) == records;
        if last.SetStatus? && last.id == f && f in Replay(front) {
          StatusKeepsCounts(Replay(front)[f], last.status, records);
        }
      }
    }
  }

  lemma StatusKeepsCounts(i: Incident, status: Status, records: seq<Op>)
    requires CountsFor(i, records)
    ensures CountsFor(i.(status := status), records)
    ensures DescribedBy(i.(status := status), records[|records| - 1]) == DescribedBy(i, records[|records| - 1])
  {
  }

  /** Suppressed never exceeds occurrences, and last-seen is at least first-seen. */
  lemma CountersAreConsistent(history: seq<Op>, f: string)
    requires f in Replay(history)
    ensures 1 <= Replay(history)[f].occurrences && Replay(history)[f].suppressed <= Replay(history)[f].occurrences
    ensures Replay(history)[f].firstSeen <= Replay(history)[f].lastSeen
  {
    hide BuildIncidentTitle, CategoryOf;
    StateIsFoldOfHistory(history, f);
    var records := RecordsOf(history, f);
    assert records[0] in records;
  }

  // ------------------------------------------------------------ the status

  /** Update `k` set the status of an incident that existed then. */
  ghost predicate SetsStatus(history: seq<Op>, f: string, k: nat, status: Status) {
    k < |history| && history[k] == SetStatus(f, status) && exists j | 0 <= j < k :: Records(history[j], f)
  }

  /** Update `k` set `status`, and no later operation on the incident undid it: any record reopens a
      resolved incident, any other update replaces the status. */
  ghost predicate StillSet(history: seq<Op>, f: string, k: nat, status: Status) {
    && SetsStatus(history, f, k, status)
    && forall j | k < j < |history| && Touches(history[j], f) ::
         if history[j].Record? then status != Resolved else history[j].status == status
  }

  lemma {:induction false} ExistsIffRecorded(history: seq<Op>, f: string)
    ensures f in Replay(history) <==> exists j | 0 <= j < |history| :: Records(history[j], f)
  {
    hide Upsert;
    if history != [] {
      var front, last := history[..|history| - 1], history[|history| - 1];
      ExistsIffRecorded(front, f);
      assert forall j | 0 <= j < |front| :: history[j] == front[j];
      assert Records(last, f) == Records(history[|history| - 1], f);
    }
  }

  lemma StillSetNext(front: seq<Op>, last: Op, f: string, status: Status)
    requires status != Open
    ensures (exists k: nat :: StillSet(front + [last], f, k, status))
       <==> if last == SetStatus(f, status) then exists j | 0 <= j < |front| :: Records(front[j], f)
            else && (exists k: nat :: StillSet(front, f, k, status))
                 && (Touches(last, f) ==> last.Record? && status != Resolved)
  {
    var all := front + [last];
    assert forall j | 0 <= j < |front| :: all[j] == front[j];
    assert all[|front|] == last;
    if last == SetStatus(f, status) {
      assert (exists j | 0 <= j < |front| :: Records(front[j], f)) ==> StillSet(all, f, |front|, status);
    } else {
      forall k: nat
        ensures StillSet(all, f, k, status)
           <==> StillSet(front, f, k, status) && (Touches(last, f) ==> last.Record? && status != Resolved)
      {
      }
    }
  }

  /** An incident is resolved, or acknowledged, exactly when an update said so and nothing undid it since;
      in particular it is resolved only if no record followed the resolving update. */
  lemma {:induction false} StatusIff(history: seq<Op>, f: string, status: Status)
    requires status != Open
    ensures f in Replay(history) && Replay(history)[f].status == status <==> exists k: nat :: StillSet(history,
          f, k, status)
  {
    hide StillSet, CategoryOf, BuildIncidentTitle, Max, SeenAt;
    if history == [] {
      NothingSetAtFirst(f, status);
    } else {
      var front, last := history[..|history| - 1], history[|history| - 1];
      assert history == front + [last];
      StatusIff(front, f, status);
      ExistsIffRecorded(front, f);
      StillSetNext(front, last, f, status);
    }
  }

  lemma NothingSetAtFirst(f: string, status: Status)
    ensures !exists k: nat :: StillSet([], f, k, status)
  {
  }

  /** First-seen is the earliest time of the records if and only if no record is earlier than the first one. */
  lemma FirstSeenIsEarliestIff(history: seq<Op>, f: string)
    requires f in Replay(history)
    ensures RecordsOf(history, f) != []
    ensures (forall op | op in RecordsOf(history, f) :: Replay(history)[f].firstSeen <= TimeOf(op))
       <==> (forall op | op in RecordsOf(history, f) :: TimeOf(RecordsOf(history, f)[0]) <= TimeOf(op))
  {
    hide BuildIncidentTitle, CategoryOf, Apply;
    StateIsFoldOfHistory(history, f);
  }

  /** An out-of-order alert does not move first-seen back: it stays the time of the first record. */
  lemma FirstSeenIsNotTheMinimum(alert: AlertEvent, earlier: AlertEvent, now: int)
    requires alert.fingerprint == earlier.fingerprint && ZERO_TIME < earlier.timestamp < alert.timestamp
    ensures var history := [Record(alert, true, now), Record(earlier, false, now)];
            && Replay(history)[alert.fingerprint].firstSeen == alert.timestamp
            && TimeOf(history[1]) < Replay(history)[alert.fingerprint].firstSeen
  {
    hide BuildIncidentTitle, CategoryOf;
    var history := [Record(alert, true, now), Record(earlier, false, now)];
    assert history[..1] == [history[0]];
    assert Replay([history[0]]) == Apply(map[], history[0]);
  }

  /** The descriptive columns of an incident, spelled out: those of its last record. */
  lemma IncidentDescription(history: seq<Op>, f: string)
    requires f in Replay(history)
    ensures RecordsOf(history, f) != [] && RecordsOf(history, f)[|RecordsOf(history, f)| - 1].Record?
    ensures var records := RecordsOf(history, f);
            var i, alert := Replay(history)[f], records[|records| - 1].alert;
            var trimmed, words := TrimSpace(alert.category), Join(Fields(alert.message));
            var category := if trimmed == "" then "UNKNOWN_ERROR" else trimmed;
            var full := "[" + alert.level + "] " + alert.applicationName + ": " + (if words == "" then category else words);
            && i.applicationName == alert.applicationName && i.level == alert.level && i.category == category
            && i.title == if |full| <= 160 then full else full[..157] + "..."
  {
    hide TrimSpace, Fields, Join, Apply;
    StateIsFoldOfHistory(history, f);
  }

  /** The timestamps of an incident, spelled out: a record without a timestamp counts with the time it was made. */
  lemma IncidentTimes(history: seq<Op>, f: string)
    requires f in Replay(history)
    ensures RecordsOf(history, f) != []
    ensures forall op | op in RecordsOf(history, f) :: op.Record?
    ensures var records, i := RecordsOf(history, f), Replay(history)[f];
            && i.firstSeen == (if records[0].alert.timestamp == 0 then records[0].now else records[0].alert.timestamp)
            && (forall op | op in records :: (if op.alert.timestamp == 0 then op.now else op.alert.timestamp) <= i.lastSeen)
            && (exists op | op in records :: (if op.alert.timestamp == 0 then op.now else op.alert.timestamp) == i.lastSeen)
  {
    hide Apply, DescribedBy;
    StateIsFoldOfHistory(history, f);
    var records, i := RecordsOf(history, f), Replay(history)[f];
    assert records[0] in records;
    var op :| op in records && TimeOf(op) == i.lastSeen;
    assert op.Record?;
  }
}
