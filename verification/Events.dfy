/** The events that flow through the pipeline and the conversions between them. Parsed times stand for
    the outcome of `time.Parse`: `None` is a parse error. */
module Events {
  import opened Common
  import Fingerprint
  import Normalize

  datatype LogRecord = LogRecord(applicationName: string, level: string, message: string,
                                 timestamp: Option<int>, traceId: string)

  datatype RawLogEvent = RawLogEvent(eventId: string, receivedAt: Option<int>, source: string, payload: LogRecord)

  datatype LogModel = LogModel(eventId: string, applicationName: string, level: string, category: string,
                               message: string, normalizedMessage: string, timestamp: int, receivedAt: int,
                               traceId: string, fingerprint: string)

  datatype AlertEvent = AlertEvent(eventId: string, applicationName: string, level: string, category: string,
                                   message: string, fingerprint: string, traceId: string, timestamp: int)

  datatype ProcessedLogEvent = ProcessedLogEvent(eventId: string, applicationName: string, level: string,
                                                 category: string, message: string, normalizedMessage: string,
                                                 timestamp: int, receivedAt: int, traceId: string,
                                                 fingerprint: string)

  /** A row of `logs_table`: the insert statement leaves the category out. */
  datatype LogRow = LogRow(eventId: string, applicationName: string, level: string, message: string,
                           normalizedMessage: string, timestamp: int, receivedAt: int, traceId: string,
                           fingerprint: string)

  function CreateLogModel(event: RawLogEvent): (r: Option<LogModel>)
    ensures r.Some? <==> event.payload.timestamp.Some? && event.receivedAt.Some?
    ensures r.Some? ==> r.value.eventId == event.eventId && r.value.level == event.payload.level
  {
    var (msg, normalized) := Normalize.NormalizeMessage(event.payload.message);
    if event.payload.timestamp.None? || event.receivedAt.None? then None
    else
      var app, level := event.payload.applicationName, event.payload.level;
      var category := Fingerprint.CategoryName(Fingerprint.Classify(normalized));
      Some(LogModel(event.eventId, app, level, category, msg, normalized,
                    event.payload.timestamp.value, event.receivedAt.value, event.payload.traceId,
                    Fingerprint.PreImage(app, level, category, normalized)))
  }

  function CreateAlertEvent(m: LogModel): AlertEvent {
    AlertEvent(m.eventId, m.applicationName, m.level, m.category, m.message, m.fingerprint, m.traceId, m.timestamp)
  }

  function CreateProcessedLogEvent(m: LogModel): ProcessedLogEvent {
    ProcessedLogEvent(m.eventId, m.applicationName, m.level, m.category, m.message, m.normalizedMessage,
                      m.timestamp, m.receivedAt, m.traceId, m.fingerprint)
  }

  function RowOf(m: LogModel): LogRow {
    LogRow(m.eventId, m.applicationName, m.level, m.message, m.normalizedMessage, m.timestamp, m.receivedAt,
           m.traceId, m.fingerprint)
  }

  /** Levels that raise an alert. */
  predicate Serious(level: string) { level == "ERROR" || level == "CRITICAL" }
}
