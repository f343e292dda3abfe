/** Who may see an event, and who asked for it. */
module Subscription {
  import opened Events

  datatype StreamType = StreamLogs | StreamAlerts

  /** What the hub forwards. */
  datatype StreamEvent = LogItem(log: ProcessedLogEvent) | AlertItem(alert: AlertEvent)

  function App(e: StreamEvent): string {
    match e case LogItem(log) => log.applicationName case AlertItem(alert) => alert.applicationName
  }

  function Level(e: StreamEvent): string {
    match e case LogItem(log) => log.level case AlertItem(alert) => alert.level
  }

  function StreamOf(e: StreamEvent): StreamType { if e.LogItem? then StreamLogs else StreamAlerts }

  /** A lookup in a Go `map[string]bool`: a missing key reads as false. */
  predicate Has(m: map<string, bool>, key: string) { key in m && m[key] }

  datatype Principal = Principal(userId: string, username: string, role: string, apps: map<string, bool>)

  predicate IsAdmin(p: Principal) { p.role == "admin" }

  predicate CanAccessApplication(p: Principal, app: string) { IsAdmin(p) || Has(p.apps, app) }

  datatype Subscription = Subscription(applications: map<string, bool>, levels: map<string, bool>)

  /** `MatchLog` and `MatchAlert`: an empty set of names does not restrict. */
  predicate Matches(s: Subscription, app: string, level: string) {
    && (|s.applications| > 0 ==> Has(s.applications, app))
    && (|s.levels| > 0 ==> Has(s.levels, level))
  }

  datatype Authorizer = AllowAll | Rbac

  predicate Authorizes(a: Authorizer, p: Principal, app: string) {
    a.AllowAll? || CanAccessApplication(p, app)
  }

  /** The hub delivers the event to a client with this principal and subscription. */
  predicate Wants(a: Authorizer, p: Principal, s: Subscription, e: StreamEvent) {
    Matches(s, App(e), Level(e)) && Authorizes(a, p, App(e))
  }

  /** What is delivered, for a log and for an alert alike: an event whose application and level are listed where
      a list was given, to anyone without access rules, and with them only to admins and to principals that
      hold the application. */
  lemma WhatIsWanted(a: Authorizer, p: Principal, s: Subscription, e: StreamEvent, app: string, level: string)
    requires match e
             case LogItem(log) => log.applicationName == app && log.level == level
             case AlertItem(alert) => alert.applicationName == app && alert.level == level
    ensures Wants(a, p, s, e)
       <==> && (s.applications == map[] || (app in s.applications && s.applications[app]))
            && (s.levels == map[] || (level in s.levels && s.levels[level]))
            && (a == AllowAll || p.role == "admin" || (app in p.apps && p.apps[app]))
  {
    assert |s.applications| > 0 <==> s.applications != map[];
    assert |s.levels| > 0 <==> s.levels != map[];
  }
}
