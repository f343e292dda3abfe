/** `ProcessingService.ProcessLog`: alerts first, then the table, then the processed-log topic. */
module Processing {
  import opened Common
  import opened Events
  import opened LogTable

  /** What a topic write of several messages did: all of it, or an error after some were written. */
  datatype PublishOutcome = Published | PublishFailed(written: set<nat>)

  /** How the external calls of one `ProcessLog` turn out. The alert of the event at position
      `alertFailsAt` fails, possibly after it was written. */
  datatype ProcessFaults = ProcessFaults(alertFailsAt: Option<nat>, alertWritten: bool, save: SaveFaults,
                                         publish: PublishOutcome)

  const PROCESS_OK := ProcessFaults(None, false, SAVE_OK, Published)

  /** The stores that processing writes to. */
  datatype Stores = Stores(rows: seq<LogRow>, alerts: seq<AlertEvent>, published: seq<ProcessedLogEvent>)

  const EMPTY_STORES := Stores([], [], [])

  /** The models of the valid events among the first `n`, in order. */
  function ModelsBelow(events: seq<RawLogEvent>, n: nat): seq<LogModel>
    requires n <= |events|
  {
    if n == 0 then []
    else
      var r := CreateLogModel(events[n - 1]);
      ModelsBelow(events, n - 1) + (if r.Some? then [r.value] else [])
  }

  function ValidModels(events: seq<RawLogEvent>): seq<LogModel> { ModelsBelow(events, |events|) }

  lemma {:induction false} ModelComesFromEvent(events: seq<RawLogEvent>, n: nat, m: LogModel) returns (e: RawLogEvent)
    requires n <= |events| && m in ModelsBelow(events, n)
    ensures e in events && CreateLogModel(e) == Some(m)
  {
    hide CreateLogModel;
    e := events[n - 1];
    if CreateLogModel(e) != Some(m) {
      e := ModelComesFromEvent(events, n - 1, m);
    }
  }

  lemma {:induction false} EventGivesModel(events: seq<RawLogEvent>, n: nat, i: nat)
    requires i < n <= |events| && CreateLogModel(events[i]).Some?
    ensures CreateLogModel(events[i]).value in ModelsBelow(events, n)
  {
    hide CreateLogModel;
    if i < n - 1 {
      EventGivesModel(events, n - 1, i);
    }
  }

  lemma NoModels(events: seq<RawLogEvent>)
    ensures ModelsBelow(events, 0) == [] && AlertsOf([]) == []
  {
  }

  lemma ModelsNext(events: seq<RawLogEvent>, i: nat)
    requires i < |events|
    ensures var r := CreateLogModel(events[i]);
            ModelsBelow(events, i + 1) == ModelsBelow(events, i) + (if r.Some? then [r.value] else [])
  {
    hide CreateLogModel;
  }

  predicate RaisesAlert(e: RawLogEvent) {
    var r := CreateLogModel(e);
    r.Some? && Serious(r.value.level)
  }

  /** The alerts of the serious models, in order. */
  function AlertsOf(models: seq<LogModel>): seq<AlertEvent> {
    if models == [] then []
    else
      var m := models[|models| - 1];
      AlertsOf(models[..|models| - 1]) + (if Serious(m.level) then [CreateAlertEvent(m)] else [])
  }

  lemma {:induction false} SeriousModelsAlert(models: seq<LogModel>, m: LogModel)
    requires m in models && Serious(m.level)
    ensures CreateAlertEvent(m) in AlertsOf(models)
  {
    if m != models[|models| - 1] {
      SeriousModelsAlert(models[..|models| - 1], m);
    }
  }

  lemma AlertsNext(models: seq<LogModel>, m: LogModel)
    ensures AlertsOf(models + [m]) == AlertsOf(models) + (if Serious(m.level) then [CreateAlertEvent(m)] else [])
  {
    assert (models + [m])[..|models|] == models;
  }

  function ProcessedOf(models: seq<LogModel>): (events: seq<ProcessedLogEvent>)
    ensures |events| == |models|
    ensures forall i | 0 <= i < |models| :: events[i] == CreateProcessedLogEvent(models[i])
  {
    seq(|models|, i requires 0 <= i < |models| => CreateProcessedLogEvent(models[i]))
  }

  predicate AlertFails(events: seq<RawLogEvent>, f: ProcessFaults) {
    f.alertFailsAt.Some? && f.alertFailsAt.value < |events| && RaisesAlert(events[f.alertFailsAt.value])
  }

  /** The alerts on the topic when the loop over the events ends or fails. */
  function AlertsWritten(events: seq<RawLogEvent>, f: ProcessFaults): seq<AlertEvent> {
    if AlertFails(events, f) then
      var k := f.alertFailsAt.value;
      AlertsOf(ModelsBelow(events, k))
      + (if f.alertWritten then [CreateAlertEvent(CreateLogModel(events[k]).value)] else [])
    else AlertsOf(ValidModels(events))
  }

  function AfterPublish(s: Stores, models: seq<LogModel>, outcome: PublishOutcome): (Stores, bool) {
    match outcome
    case Published => (s.(published := s.published + ProcessedOf(models)), true)
    case PublishFailed(written) => (s.(published := s.published + Pick(ProcessedOf(models), written)), false)
  }

  /** The save and publish stages for a batch with at least one valid event. */
  function StoreAndPublish(s: Stores, models: seq<LogModel>, f: ProcessFaults): (Stores, bool) {
    var (rows, saved) := SaveRows(s.rows, models, f.save);
    var s' := s.(rows := rows);
    if saved then AfterPublish(s', models, f.publish) else (s', false)
  }

  /** The stores after `ProcessLog`, and whether it returned nil. */
  function ProcessBatch(s: Stores, events: seq<RawLogEvent>, f: ProcessFaults): (Stores, bool) {
    var s' := s.(alerts := s.alerts + AlertsWritten(events, f));
    if AlertFails(events, f) then (s', false)
    else if ValidModels(events) == [] then (s', true)
    else StoreAndPublish(s', ValidModels(events), f)
  }

  class AlertProducer {
    var topic: seq<AlertEvent>

    constructor ()
      ensures topic == []
    {
      topic := [];
    }

    method ProduceAlert(event: AlertEvent, fails: bool, written: bool) returns (ok: bool)
      modifies this
      ensures ok == !fails
      ensures topic == old(topic) + if !fails || written then [event] else []
    {
      if !fails || written {
        topic := topic + [event];
      }
      return !fails;
    }
  }

  class ProcessedLogProducer {
    var topic: seq<ProcessedLogEvent>

    constructor ()
      ensures topic == []
    {
      topic := [];
    }

    method ProduceProcessedLogs(events: seq<ProcessedLogEvent>, outcome: PublishOutcome) returns (ok: bool)
      modifies this
      ensures ok == (events == [] || outcome.Published?)
      ensures topic == old(topic) + if ok then events else Pick(events, outcome.written)
    {
      if |events| == 0 {
        return true;
      }
      ok := outcome.Published?;
      topic := topic + if ok then events else Pick(events, outcome.written);
    }
  }

  class ProcessingService {
    const repo: ClickHouseLogRepo
    const producer: AlertProducer
    const processedLogProducer: ProcessedLogProducer

    constructor (repo: ClickHouseLogRepo, producer: AlertProducer, processedLogProducer: ProcessedLogProducer)
      ensures this.repo == repo && this.producer == producer && this.processedLogProducer == processedLogProducer
    {
      this.repo, this.producer, this.processedLogProducer := repo, producer, processedLogProducer;
    }

    function View(): Stores
      reads repo, producer, processedLogProducer
    {
      Stores(repo.rows, producer.topic, processedLogProducer.topic)
    }

    method AlertIfSerious(m: LogModel, fails: bool, written: bool) returns (ok: bool)
      modifies producer
      ensures ok == !(Serious(m.level) && fails)
      ensures producer.topic == old(producer.topic)
                                + if Serious(m.level) && (!fails || written) then [CreateAlertEvent(m)] else []
    {
      if Serious(m.level) {
        ok := producer.ProduceAlert(CreateAlertEvent(m), fails, written);
        return;
      }
      return true;
    }

    /** The loop over the events: build models, produce the alerts of the serious ones. */
    method ProduceAlerts(events: seq<RawLogEvent>, f: ProcessFaults) returns (models: seq<LogModel>, ok: bool)
      modifies producer
      ensures ok ==> !AlertFails(events, f) && models == ValidModels(events)
      ensures ok ==> producer.topic == old(producer.topic) + AlertsOf(models)
      ensures !ok ==> AlertFails(events, f) && producer.topic == old(producer.topic) + AlertsWritten(events, f)
    {
      hide CreateLogModel, CreateAlertEvent, ModelsBelow, AlertsOf;
      models := [];
      NoModels(events);
      for i := 0 to |events|
        invariant AlertFails(events, f) ==> i <= f.alertFailsAt.value
        invariant models == ModelsBelow(events, i)
        invariant producer.topic == old(producer.topic) + AlertsOf(models)
      {
        ModelsNext(events, i);
        var model := CreateLogModel(events[i]);
        if model.Some? {
          var m := model.value;
          var failsHere := f.alertFailsAt == Some(i);
          var sent := AlertIfSerious(m, failsHere, f.alertWritten);
          if !sent {
            return models, false;
          }
          AlertsNext(models, m);
          models := models + [m];
        }
      }
      assert events[..|events|] == events;
      return models, true;
    }

    /** The last stage: publish the processed form of every model. */
    method PublishProcessed(models: seq<LogModel>, outcome: PublishOutcome) returns (ok: bool)
      requires |models| > 0
      modifies processedLogProducer
      ensures (View(), ok) == AfterPublish(old(View()), models, outcome)
    {
      var processedEvents: seq<ProcessedLogEvent> := [];
      for i := 0 to |models|
        invariant processedEvents == ProcessedOf(models[..i])
      {
        assert models[..i + 1] == models[..i] + [models[i]];
        processedEvents := processedEvents + [CreateProcessedLogEvent(models[i])];
      }
      assert models[..|models|] == models;
      ok := processedLogProducer.ProduceProcessedLogs(processedEvents, outcome);
    }

    method ProcessLog(events: seq<RawLogEvent>, f: ProcessFaults) returns (ok: bool)
      modifies repo, producer, processedLogProducer
      ensures (View(), ok) == ProcessBatch(old(View()), events, f)
    {
      if |events| == 0 {
        assert producer.topic + [] == producer.topic;
        return true;
      }
      var models, alerted := ProduceAlerts(events, f);
      if !alerted {
        return false;
      }
      if |models| == 0 {
        return true;
      }
      ghost var rowsBefore := repo.rows;
      var saved := repo.Save(models, f.save);
      assert (repo.rows, saved) == SaveRows(rowsBefore, models, f.save);
      if !saved {
        return false;
      }
      ok := PublishProcessed(models, f.publish);
    }
  }

  // ------------------------------------------------------------ what processing keeps

  ghost predicate Extends(s: Stores, t: Stores) {
    s.rows <= t.rows && s.alerts <= t.alerts && s.published <= t.published
  }

  lemma ProcessOnlyAdds(s: Stores, events: seq<RawLogEvent>, f: ProcessFaults)
    ensures Extends(s, ProcessBatch(s, events, f).0)
  {
    SaveAddsOnlyItsBatch(s.rows, ValidModels(events), f.save);
  }

  lemma ProcessKeepsUnique(s: Stores, events: seq<RawLogEvent>, f: ProcessFaults)
    requires UniqueIds(s.rows)
    ensures UniqueIds(ProcessBatch(s, events, f).0.rows)
  {
    SaveKeepsUnique(s.rows, ValidModels(events), f.save);
  }

  ghost predicate RowOfEvent(r: LogRow, e: RawLogEvent) {
    CreateLogModel(e).Some? && r == RowOf(CreateLogModel(e).value)
  }

  /** Every row that appears is the row of a valid event of the batch. */
  lemma ProcessAddsOnlyItsBatch(s: Stores, events: seq<RawLogEvent>, f: ProcessFaults, r: LogRow)
    requires r in ProcessBatch(s, events, f).0.rows && r !in s.rows
    ensures exists e | e in events :: RowOfEvent(r, e)
  {
    var models := ValidModels(events);
    SaveAddsOnlyItsBatch(s.rows, models, f.save);
    var m :| m in models && r == RowOf(m);
    var e := ModelComesFromEvent(events, |events|, m);
    assert RowOfEvent(r, e);
  }

  /** The alert on the topic and the row in the table come from the same log. */
  predicate AlertMatches(a: AlertEvent, r: LogRow) {
    && a.eventId == r.eventId && a.applicationName == r.applicationName && a.level == r.level
    && a.message == r.message && a.fingerprint == r.fingerprint && a.traceId == r.traceId
    && a.timestamp == r.timestamp
  }

  /** Every serious row has its alert on the alert topic. */
  ghost predicate AlertsBeforeRows(s: Stores) {
    forall r | r in s.rows && Serious(r.level) :: exists a | a in s.alerts :: AlertMatches(a, r)
  }

  /** Every published event has a row with its id in the table. */
  ghost predicate RowsBeforePublished(s: Stores) {
    forall p | p in s.published :: p.eventId in Ids(s.rows)
  }

  lemma SaveKeepsAlertsBeforeRows(s: Stores, models: seq<LogModel>, f: SaveFaults)
    requires AlertsBeforeRows(s)
    requires forall m | m in models && Serious(m.level) :: CreateAlertEvent(m) in s.alerts
    ensures AlertsBeforeRows(s.(rows := SaveRows(s.rows, models, f).0))
  {
    SaveAddsOnlyItsBatch(s.rows, models, f);
    forall r | r in SaveRows(s.rows, models, f).0 && Serious(r.level)
      ensures exists a | a in s.alerts :: AlertMatches(a, r)
    {
      if r !in s.rows {
        var m :| m in models && r == RowOf(m);
        assert AlertMatches(CreateAlertEvent(m), r);
      }
    }
  }

  lemma MoreAlertsKeepOrder(s: Stores, more: seq<AlertEvent>)
    requires AlertsBeforeRows(s)
    ensures AlertsBeforeRows(s.(alerts := s.alerts + more))
  {
    forall r | r in s.rows && Serious(r.level)
      ensures exists a | a in s.alerts + more :: AlertMatches(a, r)
    {
      var a :| a in s.alerts && AlertMatches(a, r);
      assert a in s.alerts + more;
    }
  }

  lemma MoreRowsKeepOrder(s: Stores, rows: seq<LogRow>)
    requires RowsBeforePublished(s) && s.rows <= rows
    ensures RowsBeforePublished(s.(rows := rows))
  {
    assert forall r | r in s.rows :: r in rows;
  }

  lemma PublishedAreBatch(models: seq<LogModel>, written: set<nat>, p: ProcessedLogEvent)
    requires p in ProcessedOf(models) || p in Pick(ProcessedOf(models), written)
    ensures exists m | m in models :: p.eventId == m.eventId
  {
    var k :| 0 <= k < |models| && p == ProcessedOf(models)[k];
    assert models[k] in models;
  }

  lemma StoreAndPublishKeepsOrder(s: Stores, models: seq<LogModel>, f: ProcessFaults)
    requires RowsBeforePublished(s)
    ensures RowsBeforePublished(StoreAndPublish(s, models, f).0)
  {
    var (rows, saved) := SaveRows(s.rows, models, f.save);
    SaveAddsOnlyItsBatch(s.rows, models, f.save);
    MoreRowsKeepOrder(s, rows);
    if saved {
      var t := StoreAndPublish(s, models, f).0;
      forall p | p in t.published && p !in s.published
        ensures p.eventId in Ids(rows)
      {
        PublishedAreBatch(models, if f.publish.Published? then {} else f.publish.written, p);
        var m :| m in models && p.eventId == m.eventId;
        SaveStoresBatch(s.rows, models, f.save, m);
      }
    }
  }

  ghost predicate StageOrder(s: Stores) { AlertsBeforeRows(s) && RowsBeforePublished(s) }

  /** Whatever fails, and whatever the ids are, a batch keeps both orders. */
  lemma ProcessKeepsStageOrder(s: Stores, events: seq<RawLogEvent>, f: ProcessFaults)
    requires StageOrder(s)
    ensures StageOrder(ProcessBatch(s, events, f).0)
  {
    var s' := s.(alerts := s.alerts + AlertsWritten(events, f));
    MoreAlertsKeepOrder(s, AlertsWritten(events, f));
    if !AlertFails(events, f) {
      forall m | m in ValidModels(events) && Serious(m.level)
        ensures CreateAlertEvent(m) in s'.alerts
      {
        SeriousModelsAlert(ValidModels(events), m);
      }
      SaveKeepsAlertsBeforeRows(s', ValidModels(events), f.save);
      StoreAndPublishKeepsOrder(s', ValidModels(events), f);
    }
  }

  /** All that processing owes to an event: nothing if it is invalid, otherwise its id in the table, its
      processed event on the topic and, when it is serious, its alert. */
  ghost predicate Handled(s: Stores, e: RawLogEvent) {
    var r := CreateLogModel(e);
    r.Some? ==>
      && e.eventId in Ids(s.rows)
      && CreateProcessedLogEvent(r.value) in s.published
      && (Serious(r.value.level) ==> CreateAlertEvent(r.value) in s.alerts)
  }

  lemma HandledStays(s: Stores, t: Stores, e: RawLogEvent)
    requires Extends(s, t) && Handled(s, e)
    ensures Handled(t, e)
  {
    assert forall r | r in s.rows :: r in t.rows;
  }

  /** When `ProcessLog` returns nil, every event of the batch is handled. */
  lemma ProcessedBatchIsHandled(s: Stores, events: seq<RawLogEvent>, f: ProcessFaults, e: RawLogEvent)
    requires ProcessBatch(s, events, f).1 && e in events
    ensures Handled(ProcessBatch(s, events, f).0, e)
  {
    var models := ValidModels(events);
    var r := CreateLogModel(e);
    if r.Some? {
      var m := r.value;
      var i :| 0 <= i < |events| && events[i] == e;
      EventGivesModel(events, |events|, i);
      if Serious(m.level) { SeriousModelsAlert(models, m); }
      SaveStoresBatch(s.rows, models, f.save, m);
      var k :| 0 <= k < |models| && models[k] == m;
      assert ProcessedOf(models)[k] == CreateProcessedLogEvent(m);
    }
  }
}
