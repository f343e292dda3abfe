/** What a raw event becomes: the values that its row, its alert and its published event carry. */
module Contents {
  import opened Events
  import Fingerprint
  import Normalize
  import opened LogTable
  import opened Processing
  import opened RawLogConsumer
  import opened Pipeline

  /** Both times of the event parse. */
  predicate Parses(e: RawLogEvent) { e.payload.timestamp.Some? && e.receivedAt.Some? }

  /** `ERROR` and `CRITICAL`, the levels that people are woken for. */
  predicate Urgent(e: RawLogEvent) { e.payload.level == "ERROR" || e.payload.level == "CRITICAL" }

  function CategoryOfMessage(message: string): string {
    Fingerprint.CategoryName(Fingerprint.Classify(Normalize.Normalized(message)))
  }

  predicate RowCarries(r: LogRow, e: RawLogEvent) {
    && Parses(e)
    && r.eventId == e.eventId && r.applicationName == e.payload.applicationName && r.level == e.payload.level
    && r.message == e.payload.message && r.normalizedMessage == Normalize.Normalized(e.payload.message)
    && r.timestamp == e.payload.timestamp.value && r.receivedAt == e.receivedAt.value && r.traceId == e.payload.traceId
    && r.fingerprint == Fingerprint.FingerprintOf(e.payload.applicationName, e.payload.level, e.payload.message)
  }

  predicate AlertCarries(a: AlertEvent, e: RawLogEvent) {
    && Parses(e) && Urgent(e)
    && a.eventId == e.eventId && a.applicationName == e.payload.applicationName && a.level == e.payload.level
    && a.category == CategoryOfMessage(e.payload.message) && a.message == e.payload.message
    && a.timestamp == e.payload.timestamp.value && a.traceId == e.payload.traceId
    && a.fingerprint == Fingerprint.FingerprintOf(e.payload.applicationName, e.payload.level, e.payload.message)
  }

  predicate PublishedCarries(p: ProcessedLogEvent, e: RawLogEvent) {
    && Parses(e)
    && p.eventId == e.eventId && p.applicationName == e.payload.applicationName && p.level == e.payload.level
    && p.category == CategoryOfMessage(e.payload.message) && p.message == e.payload.message
    && p.normalizedMessage == Normalize.Normalized(e.payload.message)
    && p.timestamp == e.payload.timestamp.value && p.receivedAt == e.receivedAt.value && p.traceId == e.payload.traceId
    && p.fingerprint == Fingerprint.FingerprintOf(e.payload.applicationName, e.payload.level, e.payload.message)
  }

  /** An event has a model exactly when both times parse, and the model's row, alert and published event carry
      the event's own values, its normal form, its category and its fingerprint. */
  lemma ModelCarriesEvent(e: RawLogEvent)
    ensures CreateLogModel(e).Some? <==> Parses(e)
    ensures Parses(e) ==>
              var m := CreateLogModel(e).value;
              && RowCarries(RowOf(m), e) && PublishedCarries(CreateProcessedLogEvent(m), e)
              && (Serious(m.level) <==> Urgent(e))
              && (Urgent(e) ==> AlertCarries(CreateAlertEvent(m), e))
  {
    hide Normalize.NormalizeMessage, Fingerprint.Classify, Fingerprint.CategoryName, Fingerprint.PreImage;
  }

  // ------------------------------------------------------------ one batch

  /** The events of a batch whose times parse, in order. */
  function ParsingEvents(events: seq<RawLogEvent>): (r: seq<RawLogEvent>)
    ensures forall e | e in r :: e in events && Parses(e)
  {
    if events == [] then []
    else
      var last := events[|events| - 1];
      ParsingEvents(events[..|events| - 1]) + (if Parses(last) then [last] else [])
  }

  /** The urgent ones among them, in order. */
  function UrgentEvents(events: seq<RawLogEvent>): (r: seq<RawLogEvent>)
    ensures forall e | e in r :: e in events && Parses(e) && Urgent(e)
  {
    if events == [] then []
    else
      var last := events[|events| - 1];
      UrgentEvents(events[..|events| - 1]) + (if Parses(last) && Urgent(last) then [last] else [])
  }

  /** Element by element, the published events carry the raw ones. */
  ghost predicate PublishedMatch(published: seq<ProcessedLogEvent>, events: seq<RawLogEvent>) {
    |published| == |events| && forall i | 0 <= i < |events| :: PublishedCarries(published[i], events[i])
  }

  ghost predicate AlertsMatch(alerts: seq<AlertEvent>, events: seq<RawLogEvent>) {
    |alerts| == |events| && forall i | 0 <= i < |events| :: AlertCarries(alerts[i], events[i])
  }

  lemma MatchNext(events: seq<RawLogEvent>, e: RawLogEvent)
    ensures ParsingEvents(events + [e]) == ParsingEvents(events) + (if Parses(e) then [e] else [])
    ensures UrgentEvents(events + [e]) == UrgentEvents(events) + (if Parses(e) && Urgent(e) then [e] else [])
  {
    hide Parses, Urgent;
    assert (events + [e])[..|events|] == events;
  }

  lemma PublishedMatchNext(models: seq<LogModel>, m: LogModel, events: seq<RawLogEvent>, e: RawLogEvent)
    requires PublishedMatch(ProcessedOf(models), events) && PublishedCarries(CreateProcessedLogEvent(m), e)
    ensures PublishedMatch(ProcessedOf(models + [m]), events + [e])
  {
    hide CreateProcessedLogEvent, PublishedCarries;
    assert ProcessedOf(models + [m]) == ProcessedOf(models) + [CreateProcessedLogEvent(m)];
  }

  lemma AlertsMatchNext(models: seq<LogModel>, m: LogModel, events: seq<RawLogEvent>, e: RawLogEvent)
    requires AlertsMatch(AlertsOf(models), events) && Serious(m.level) && AlertCarries(CreateAlertEvent(m), e)
    ensures AlertsMatch(AlertsOf(models + [m]), events + [e])
  {
    hide CreateAlertEvent, AlertCarries, Serious, AlertsOf;
    AlertsNext(models, m);
  }

  lemma {:induction false} ModelsMatch(events: seq<RawLogEvent>, n: nat)
    requires n <= |events|
    ensures PublishedMatch(ProcessedOf(ModelsBelow(events, n)), ParsingEvents(events[..n]))
    ensures AlertsMatch(AlertsOf(ModelsBelow(events, n)), UrgentEvents(events[..n]))
  {
    hide CreateLogModel, CreateAlertEvent, CreateProcessedLogEvent, Parses, Urgent, Serious, PublishedMatch, AlertsMatch,
      ModelsBelow, AlertsOf, ProcessedOf, ParsingEvents, UrgentEvents, RowCarries, AlertCarries, PublishedCarries;
    if n == 0 {
      NothingMatches(events);
    } else {
      var e, models := events[n - 1], ModelsBelow(events, n - 1);
      ModelsMatch(events, n - 1);
      ModelCarriesEvent(e);
      ModelsNext(events, n - 1);
      assert events[..n] == events[..n - 1] + [e];
      MatchNext(events[..n - 1], e);
      if Parses(e) {
        var m := CreateLogModel(e).value;
        PublishedMatchNext(models, m, ParsingEvents(events[..n - 1]), e);
        AlertsNext(models, m);
        if Urgent(e) {
          AlertsMatchNext(models, m, UrgentEvents(events[..n - 1]), e);
        } else {
          assert AlertsOf(models + [m]) == AlertsOf(models);
          assert UrgentEvents(events[..n]) == UrgentEvents(events[..n - 1]);
        }
      } else {
        assert ModelsBelow(events, n) == models;
        assert ParsingEvents(events[..n]) == ParsingEvents(events[..n - 1]);
        assert UrgentEvents(events[..n]) == UrgentEvents(events[..n - 1]);
      }
    }
  }

  lemma NothingMatches(events: seq<RawLogEvent>)
    ensures PublishedMatch(ProcessedOf(ModelsBelow(events, 0)), ParsingEvents(events[..0]))
    ensures AlertsMatch(AlertsOf(ModelsBelow(events, 0)), UrgentEvents(events[..0]))
  {
  }

  /** When `ProcessLog` returns nil, it has published each event whose times parse, and alerted each urgent one
      among them, exactly once and in order, with the event's own values. */
  lemma ProcessedBatchContents(s: Stores, events: seq<RawLogEvent>, f: ProcessFaults)
    requires ProcessBatch(s, events, f).1
    ensures var t := ProcessBatch(s, events, f).0;
            && s.published <= t.published && PublishedMatch(t.published[|s.published|..], ParsingEvents(events))
            && s.alerts <= t.alerts && AlertsMatch(t.alerts[|s.alerts|..], UrgentEvents(events))
  {
    hide PublishedMatch, AlertsMatch, SaveRows, ModelsBelow, ProcessedOf, AlertsOf, RaisesAlert;
    ModelsMatch(events, |events|);
    assert events[..|events|] == events;
    var t := ProcessBatch(s, events, f).0;
    assert t.alerts[|s.alerts|..] == AlertsOf(ValidModels(events));
    if ValidModels(events) == [] {
      NothingProcessed();
      assert t.published[|s.published|..] == [];
    } else {
      assert t.published[|s.published|..] == ProcessedOf(ValidModels(events));
    }
  }

  lemma NothingProcessed()
    ensures ProcessedOf([]) == []
  {
  }

  /** The alert of some urgent event cannot be produced. */
  predicate UrgentAlertFails(events: seq<RawLogEvent>, f: ProcessFaults) {
    && f.alertFailsAt.Some? && f.alertFailsAt.value < |events|
    && Parses(events[f.alertFailsAt.value]) && Urgent(events[f.alertFailsAt.value])
  }

  /** A failed alert stores and publishes nothing, a failed save publishes nothing, and nil is returned exactly
      when no stage that was needed failed. */
  lemma ProcessStages(s: Stores, events: seq<RawLogEvent>, f: ProcessFaults)
    ensures var (t, ok) := ProcessBatch(s, events, f);
            var (rows, saved) := SaveRows(s.rows, ValidModels(events), f.save);
            && (UrgentAlertFails(events, f) ==> !ok && t.rows == s.rows && t.published == s.published)
            && (!UrgentAlertFails(events, f) && ParsingEvents(events) == [] ==> ok && t == s)
            && (!UrgentAlertFails(events, f) && ParsingEvents(events) != [] ==>
                  && t.rows == rows && (!saved ==> t.published == s.published)
                  && (ok <==> saved && f.publish.Published?))
  {
    hide CreateLogModel, SaveRows, ModelsBelow, ProcessedOf, PublishedCarries, AlertCarries, RowCarries, AlertsOf;
    ModelsMatch(events, |events|);
    assert events[..|events|] == events;
    if f.alertFailsAt.Some? && f.alertFailsAt.value < |events| {
      ModelCarriesEvent(events[f.alertFailsAt.value]);
    }
    NothingProcessed();
    NoParsingNoAlerts(events);
  }

  lemma {:induction false} NoParsingNoAlerts(events: seq<RawLogEvent>)
    ensures ParsingEvents(events) == [] ==> UrgentEvents(events) == []
  {
    hide Parses, Urgent;
    if events != [] {
      NoParsingNoAlerts(events[..|events| - 1]);
    }
  }

  // ------------------------------------------------------------ whatever fails

  ghost predicate RowFrom(log: seq<seq<Message>>, r: LogRow) {
    exists e :: EventInLog(log, e) && RowCarries(r, e)
  }

  ghost predicate AlertFrom(log: seq<seq<Message>>, a: AlertEvent) {
    exists e :: EventInLog(log, e) && AlertCarries(a, e)
  }

  ghost predicate PublishedFrom(log: seq<seq<Message>>, p: ProcessedLogEvent) {
    exists e :: EventInLog(log, e) && PublishedCarries(p, e)
  }

  /** Every row, every alert and every published event carries an event of the log. */
  ghost predicate StoresCarry(log: seq<seq<Message>>, s: Stores) {
    && (forall r | r in s.rows :: RowFrom(log, r))
    && (forall a | a in s.alerts :: AlertFrom(log, a))
    && (forall p | p in s.published :: PublishedFrom(log, p))
  }

  lemma {:induction false} AlertComesFromModel(models: seq<LogModel>, a: AlertEvent) returns (m: LogModel)
    requires a in AlertsOf(models)
    ensures m in models && Serious(m.level) && a == CreateAlertEvent(m)
  {
    var last := models[|models| - 1];
    if a in AlertsOf(models[..|models| - 1]) {
      m := AlertComesFromModel(models[..|models| - 1], a);
    } else {
      m := last;
    }
  }

  lemma WrittenAlertsComeFromEvents(events: seq<RawLogEvent>, f: ProcessFaults, a: AlertEvent) returns (e: RawLogEvent)
    requires a in AlertsWritten(events, f)
    ensures e in events && CreateLogModel(e).Some? && Serious(CreateLogModel(e).value.level)
    ensures a == CreateAlertEvent(CreateLogModel(e).value)
  {
    hide CreateLogModel, CreateAlertEvent, AlertsOf, ModelsBelow, Serious;
    var n := if AlertFails(events, f) then f.alertFailsAt.value else |events|;
    if a in AlertsOf(ModelsBelow(events, n)) {
      var m := AlertComesFromModel(ModelsBelow(events, n), a);
      e := ModelComesFromEvent(events, n, m);
    } else {
      e := events[n];
    }
  }

  lemma PublishedComesFromModel(s: Stores, events: seq<RawLogEvent>, f: ProcessFaults, p: ProcessedLogEvent)
      returns (m: LogModel)
    requires p in ProcessBatch(s, events, f).0.published && p !in s.published
    ensures m in ValidModels(events) && p == CreateProcessedLogEvent(m)
  {
    hide CreateLogModel, CreateProcessedLogEvent, SaveRows, AlertsWritten, AlertFails, ModelsBelow;
    var models := ValidModels(events);
    assert p in ProcessedOf(models);
    var k :| 0 <= k < |models| && p == ProcessedOf(models)[k];
    m := models[k];
  }

  lemma AlertsAfterBatch(s: Stores, events: seq<RawLogEvent>, f: ProcessFaults)
    ensures ProcessBatch(s, events, f).0.alerts == s.alerts + AlertsWritten(events, f)
  {
    hide CreateLogModel, SaveRows, AlertsWritten, AlertFails, ModelsBelow;
  }

  lemma BatchKeepsStoresCarry(log: seq<seq<Message>>, s: Stores, events: seq<RawLogEvent>, f: ProcessFaults)
    requires StoresCarry(log, s) && forall e | e in events :: EventInLog(log, e)
    ensures StoresCarry(log, ProcessBatch(s, events, f).0)
  {
    hide ProcessBatch, CreateLogModel, CreateAlertEvent, CreateProcessedLogEvent, RowOf, RowCarries, AlertCarries,
      PublishedCarries, AlertsWritten, Serious, EventInLog, ModelsBelow;
    var t := ProcessBatch(s, events, f).0;
    forall r | r in t.rows ensures RowFrom(log, r) {
      if r !in s.rows {
        ProcessAddsOnlyItsBatch(s, events, f, r);
        var e :| e in events && RowOfEvent(r, e);
        ModelCarriesEvent(e);
      }
    }
    AlertsAfterBatch(s, events, f);
    forall a | a in t.alerts ensures AlertFrom(log, a) {
      if a !in s.alerts {
        var e := WrittenAlertsComeFromEvents(events, f, a);
        ModelCarriesEvent(e);
      }
    }
    forall p | p in t.published ensures PublishedFrom(log, p) {
      if p !in s.published {
        var m := PublishedComesFromModel(s, events, f, p);
        var e := ModelComesFromEvent(events, |events|, m);
        ModelCarriesEvent(e);
      }
    }
  }

  // ------------------------------------------------------------ every run

  /** An action changes the stores only by processing the batch. */
  lemma StepStores(c: Config, s: State, choice: Choice) returns (f: ProcessFaults)
    ensures Step(c, s, choice).stores == s.stores || Step(c, s, choice).stores == ProcessBatch(s.stores, s.batchEvents, f).0
  {
    hide ProcessBatch, Overwrite;
    f := if choice.Loop? then choice.faults.process else PROCESS_OK;
  }

  /** In every run each row, each alert and each published event carries the values of an event of the log. */
  lemma {:induction false} RunStoresCarry(c: Config, script: seq<Choice>)
    requires ValidLog(c.log)
    ensures StoresCarry(c.log, Run(c, script).stores)
  {
    hide Step, ProcessBatch, Inv, StoresCarry;
    if script == [] {
      EmptyStoresCarry(c.log);
    } else {
      var s := Run(c, script[..|script| - 1]);
      RunStoresCarry(c, script[..|script| - 1]);
      RunKeepsInv(c, script[..|script| - 1]);
      BatchEventsInLog(c, s);
      var f := StepStores(c, s, script[|script| - 1]);
      BatchKeepsStoresCarry(c.log, s.stores, s.batchEvents, f);
    }
  }

  lemma EmptyStoresCarry(log: seq<seq<Message>>)
    ensures StoresCarry(log, EMPTY_STORES)
  {
  }

  lemma BatchEventsInLog(c: Config, s: State)
    requires Inv(c, s)
    ensures forall e | e in s.batchEvents :: EventInLog(c.log, e)
  {
    hide StoresOk, HandedOk;
    BatchInLog(c, s);
    forall e | e in s.batchEvents ensures EventInLog(c.log, e) {
      var i :| 0 <= i < |s.batchEvents| && s.batchEvents[i] == e;
      assert s.batchMsgs[i] in s.batchMsgs;
    }
  }

  /** In every run two stored rows with gateway levels share a fingerprint exactly when their application, their
      level and the normal form of their messages agree. */
  lemma RowsShareFingerprintIff(c: Config, script: seq<Choice>, r: LogRow, q: LogRow)
    requires ValidLog(c.log) && r in Run(c, script).stores.rows && q in Run(c, script).stores.rows
    requires r.level in Fingerprint.LEVELS && q.level in Fingerprint.LEVELS
    ensures r.fingerprint == q.fingerprint
       <==> && r.applicationName == q.applicationName && r.level == q.level
            && Normalize.Normalized(r.message) == Normalize.Normalized(q.message)
  {
    hide Run, EventInLog, Normalize.Normalized, Fingerprint.FingerprintOf, Fingerprint.LEVELS;
    RunStoresCarry(c, script);
    var d :| EventInLog(c.log, d) && RowCarries(r, d);
    var e :| EventInLog(c.log, e) && RowCarries(q, e);
    Fingerprint.SameFingerprintIff(r.applicationName, r.level, r.message, q.applicationName, q.level, q.message);
  }
}
