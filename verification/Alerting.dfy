/** `AlertingService.Alert` and the consumer's retry loop around it. */
module Alerting {
  import opened Common
  import opened Events
  import Dedup
  import Incidents

  datatype AlertRule = AlertRule(enabled: bool, dedupWindow: int, telegramEnabled: bool)

  /** The optional parts of the service, and the number of notifiers. */
  datatype Service = Service(dedup: Dedup.Settings, hasRules: bool, hasIncidents: bool, hasPublisher: bool, notifiers: nat)

  /** How the external calls of one `Alert` turn out, and when it runs. `rule` is `None` when resolving fails. */
  datatype Attempt = Attempt(now: int, rule: Option<AlertRule>, setNx: Dedup.Outcome, record: Incidents.WriteOutcome)

  /** The shared stores; `offered` lists the calls of the publisher and `notified` those of the notifiers. */
  datatype World = World(keys: Dedup.Keys, incidents: Incidents.Table, offered: seq<AlertEvent>, notified: seq<AlertEvent>)

  const DEFAULT_RULE := AlertRule(true, 0, true)

  function RuleOf(s: Service, a: Attempt): Option<AlertRule> { if s.hasRules then a.rule else Some(DEFAULT_RULE) }

  /** The `Record` call of an attempt: the table after it, and whether it returned nil. */
  function RecordStage(s: Service, w: World, alert: AlertEvent, dispatched: bool, a: Attempt): (World, bool) {
    if !s.hasIncidents then (w, true)
    else
      var table := Incidents.Apply(w.incidents, Incidents.Record(alert, dispatched, a.now));
      (if a.record.RolledBack? then w else w.(incidents := table), a.record.Recorded?)
  }

  function Copies(alert: AlertEvent, n: nat): (r: seq<AlertEvent>)
    ensures |r| == n && forall x | x in r :: x == alert
  {
    seq(n, _ => alert)
  }

  /** Publisher and notifiers; their errors are only logged. */
  function DispatchStage(s: Service, w: World, alert: AlertEvent, rule: AlertRule): World {
    w.(offered := w.offered + (if s.hasPublisher then [alert] else []),
       notified := w.notified + (if rule.telegramEnabled then Copies(alert, s.notifiers) else []))
  }

  function DedupCall(alert: AlertEvent, rule: AlertRule, a: Attempt): Dedup.Call {
    Dedup.Call(alert.fingerprint, rule.dedupWindow, a.now, a.setNx)
  }

  /** One call of `Alert`: the stores after it, and whether it returned nil. */
  function Alert(s: Service, w: World, alert: AlertEvent, a: Attempt): (World, bool) {
    var rule := RuleOf(s, a);
    if rule.None? then (w, false)
    else if !rule.value.enabled then RecordStage(s, w, alert, false, a)
    else
      var (keys, reply) := Dedup.Decide(s.dedup, w.keys, DedupCall(alert, rule.value, a));
      var w1 := w.(keys := keys);
      if reply.None? then (w1, false)
      else
        var (w2, recorded) := RecordStage(s, w1, alert, reply.value, a);
        if !recorded then (w2, false)
        else if !reply.value then (w2, true)
        else (DispatchStage(s, w2, alert, rule.value), true)
  }

  /** `processWithRetry`: attempts until one returns nil; when the list ends, the context was cancelled. */
  function Retry(s: Service, w: World, alert: AlertEvent, attempts: seq<Attempt>): (World, bool)
    decreases |attempts|
  {
    if attempts == [] then (w, false)
    else
      var (w', ok) := Alert(s, w, alert, attempts[0]);
      if ok then (w', true) else Retry(s, w', alert, attempts[1..])
  }

  /** The position of the attempt that returned nil, if any. */
  function Winner(s: Service, w: World, alert: AlertEvent, attempts: seq<Attempt>): (r: Option<nat>)
    ensures r.Some? ==> r.value < |attempts|
    ensures r.Some? <==> Retry(s, w, alert, attempts).1
    decreases |attempts|
  {
    if attempts == [] then None
    else
      var (w', ok) := Alert(s, w, alert, attempts[0]);
      if ok then Some(0)
      else
        match Winner(s, w', alert, attempts[1..])
        case None => None
        case Some(k) => Some(k + 1)
  }

  /** The stores before attempt `k`, when the earlier ones failed. */
  function Before(s: Service, w: World, alert: AlertEvent, attempts: seq<Attempt>, k: nat): World
    requires k <= |attempts|
    decreases k
  {
    if k == 0 then w else Before(s, Alert(s, w, alert, attempts[0]).0, alert, attempts[1..], k - 1)
  }

  /** The attempt created the deduplication key and was told so. */
  predicate CreatesKey(s: Service, w: World, alert: AlertEvent, a: Attempt) {
    var rule := RuleOf(s, a);
    rule.Some? && rule.value.enabled &&
    Dedup.Decide(s.dedup, w.keys, DedupCall(alert, rule.value, a)).1 == Some(true)
  }

  class AlertingService {
    const settings: Service
    const deduplicator: Dedup.Deduplicator
    const incidents: Incidents.IncidentStore
    var offered: seq<AlertEvent>
    var notified: seq<AlertEvent>

    constructor (settings: Service, deduplicator: Dedup.Deduplicator, incidents: Incidents.IncidentStore)
      requires deduplicator.settings == settings.dedup
      ensures this.settings == settings && this.deduplicator == deduplicator && this.incidents == incidents
      ensures Wired() && View() == World(deduplicator.redis.keys, incidents.table, [], [])
    {
      this.settings, this.deduplicator, this.incidents := settings, deduplicator, incidents;
      offered, notified := [], [];
    }

    predicate Wired() { deduplicator.settings == settings.dedup }

    function View(): World
      reads this, deduplicator.redis, incidents
    {
      World(deduplicator.redis.keys, incidents.table, offered, notified)
    }

    /** `Incidents.Record`, whose outcome is not known in advance to the caller. */
    method RecordIncident(alert: AlertEvent, dispatched: bool, a: Attempt) returns (ok: bool)
      modifies incidents
      ensures (View(), ok) == RecordStage(settings, old(View()), alert, dispatched, a)
    {
      if !settings.hasIncidents {
        return true;
      }
      ok := incidents.RecordAlert(alert, dispatched, a.now, a.record);
    }

    /** Offer the alert to the publisher, then to every notifier in turn. */
    method Dispatch(alert: AlertEvent, rule: AlertRule)
      modifies this
      ensures View() == DispatchStage(settings, old(View()), alert, rule)
    {
      if settings.hasPublisher {
        offered := offered + [alert];
      }
      if !rule.telegramEnabled {
        return;
      }
      for i := 0 to settings.notifiers
        invariant offered == old(offered) + if settings.hasPublisher then [alert] else []
        invariant notified == old(notified) + Copies(alert, i)
      {
        notified := notified + [alert];
      }
    }

    method HandleAlert(alert: AlertEvent, a: Attempt) returns (ok: bool)
      requires Wired()
      modifies this, deduplicator.redis, incidents
      ensures (View(), ok) == Alert(settings, old(View()), alert, a)
    {
      hide RecordStage, DispatchStage, Dedup.Decide;
      var rule := DEFAULT_RULE;
      if settings.hasRules {
        if a.rule.None? {
          return false;
        }
        rule := a.rule.value;
      }
      if !rule.enabled {
        ok := RecordIncident(alert, false, a);
        return;
      }
      var shouldDispatch := deduplicator.ShouldDispatch(DedupCall(alert, rule, a));
      if shouldDispatch.None? {
        return false;
      }
      var recorded := RecordIncident(alert, shouldDispatch.value, a);
      if !recorded {
        return false;
      }
      if shouldDispatch.value {
        Dispatch(alert, rule);
      }
      return true;
    }

    method ProcessWithRetry(alert: AlertEvent, attempts: seq<Attempt>) returns (handled: bool)
      requires Wired()
      modifies this, deduplicator.redis, incidents
      ensures (View(), handled) == Retry(settings, old(View()), alert, attempts)
    {
      hide Alert;
      for i := 0 to |attempts|
        invariant Retry(settings, old(View()), alert, attempts) == Retry(settings, View(), alert, attempts[i..])
      {
        assert attempts[i..][0] == attempts[i] && attempts[i..][1..] == attempts[i + 1..];
        var ok := HandleAlert(alert, attempts[i]);
        if ok {
          return true;
        }
      }
      return false;
    }
  }

  // ------------------------------------------------------------ retry accounting

  function OccurrencesOf(w: World, f: string): nat {
    if f in w.incidents then w.incidents[f].occurrences else 0
  }

  /** The attempt's record took effect although `Alert` reported an error for it. */
  predicate HiddenRecord(s: Service, w: World, alert: AlertEvent, a: Attempt) {
    && s.hasIncidents && a.record.Unacknowledged?
    && Alert(s, w, alert, a).0.incidents != w.incidents
  }

  lemma ApplyCounts(t: Incidents.Table, alert: AlertEvent, dispatched: bool, now: int, f: string)
    ensures var t' := Incidents.Apply(t, Incidents.Record(alert, dispatched, now));
            && alert.fingerprint in t'
            && (f != alert.fingerprint ==> Incidents.Lookup(t', f) == Incidents.Lookup(t, f))
            && t'[alert.fingerprint].occurrences
                 == (if alert.fingerprint in t then t[alert.fingerprint].occurrences else 0) + 1
  {
    hide Incidents.BuildIncidentTitle, Incidents.CategoryOf;
  }

  /** One attempt: nil means one more occurrence; an error means none, unless the record was committed
      without an acknowledgement. Other fingerprints are not touched. */
  lemma AttemptCounts(s: Service, w: World, alert: AlertEvent, a: Attempt, f: string)
    requires s.hasIncidents
    ensures var (w', ok) := Alert(s, w, alert, a);
            OccurrencesOf(w', f) == OccurrencesOf(w, f)
              + (if f == alert.fingerprint && (ok || HiddenRecord(s, w, alert, a)) then 1 else 0)
  {
    hide Incidents.Apply, Dedup.Decide;
    ApplyCounts(w.incidents, alert, true, a.now, f);
    ApplyCounts(w.incidents, alert, false, a.now, f);
  }

  /** The attempts before the winner, or all of them, whose record took effect unnoticed. */
  function HiddenRecords(s: Service, w: World, alert: AlertEvent, attempts: seq<Attempt>): nat
    decreases |attempts|
  {
    if attempts == [] then 0
    else
      var (w', ok) := Alert(s, w, alert, attempts[0]);
      if ok then 0
      else (if HiddenRecord(s, w, alert, attempts[0]) then 1 else 0) + HiddenRecords(s, w', alert, attempts[1..])
  }

  ghost predicate AtomicRecords(attempts: seq<Attempt>) { forall a | a in attempts :: !a.record.Unacknowledged? }

  lemma {:induction false} AtomicRecordsHideNothing(s: Service, w: World, alert: AlertEvent, attempts: seq<Attempt>)
    requires AtomicRecords(attempts)
    ensures HiddenRecords(s, w, alert, attempts) == 0
    decreases |attempts|
  {
    hide Alert;
    if attempts != [] {
      assert attempts[0] in attempts;
      assert forall a | a in attempts[1..] :: a in attempts;
      AtomicRecordsHideNothing(s, Alert(s, w, alert, attempts[0]).0, alert, attempts[1..]);
    }
  }

  /** However many attempts fail, a handled alert adds exactly one occurrence plus the records that were
      committed without an acknowledgement, and an abandoned one adds only the latter. */
  lemma {:induction false} RetryCounts(s: Service, w: World, alert: AlertEvent, attempts: seq<Attempt>, f: string)
    requires s.hasIncidents
    ensures var (w', handled) := Retry(s, w, alert, attempts);
            OccurrencesOf(w', f) == OccurrencesOf(w, f)
              + (if f == alert.fingerprint then (if handled then 1 else 0) + HiddenRecords(s, w, alert, attempts) else 0)
    decreases |attempts|
  {
    hide Alert, HiddenRecord, OccurrencesOf;
    if attempts != [] {
      AttemptCounts(s, w, alert, attempts[0], f);
      RetryCounts(s, Alert(s, w, alert, attempts[0]).0, alert, attempts[1..], f);
    }
  }

  lemma AttemptOffers(s: Service, w: World, alert: AlertEvent, a: Attempt)
    requires s.hasPublisher
    ensures var (w', ok) := Alert(s, w, alert, a);
            w'.offered == w.offered + (if ok && CreatesKey(s, w, alert, a) then [alert] else [])
  {
    hide Incidents.Apply, Dedup.Decide;
  }

  /** A handled alert reaches the publisher, once, exactly when the attempt that returned nil was the one
      that created the deduplication key; an abandoned one never does. */
  lemma {:induction false} RetryOffersIff(s: Service, w: World, alert: AlertEvent, attempts: seq<Attempt>)
    requires s.hasPublisher
    ensures var winner := Winner(s, w, alert, attempts);
            Retry(s, w, alert, attempts).0.offered
              == w.offered + (if winner.Some? && CreatesKey(s, Before(s, w, alert, attempts, winner.value),
                    alert, attempts[winner.value])
                              then [alert] else [])
    decreases |attempts|
  {
    hide Alert, CreatesKey;
    if attempts != [] {
      AttemptOffers(s, w, alert, attempts[0]);
      RetryOffersIff(s, Alert(s, w, alert, attempts[0]).0, alert, attempts[1..]);
    }
  }

  // ------------------------------------------------------------ what one call does

  /** The rule in force is enabled; without a resolver it always is. */
  predicate EnabledFor(s: Service, a: Attempt)
    requires s.hasRules ==> a.rule.Some?
  {
    s.hasRules ==> a.rule.value.enabled
  }

  /** `Alert` returns nil exactly when every call that it makes and does not only log succeeds. */
  lemma AlertSucceedsIff(s: Service, w: World, alert: AlertEvent, a: Attempt)
    ensures Alert(s, w, alert, a).1
       <==> && (s.hasRules ==> a.rule.Some?)
            && (EnabledFor(s, a) ==> a.setNx == Dedup.Replied)
            && (s.hasIncidents ==> a.record == Incidents.Recorded)
  {
    hide Incidents.Apply, Incidents.Upsert;
  }

  /** When nil is returned, the incident was recorded as dispatched exactly when this call created the key; an
      error leaves the table as it was unless the record was committed without an acknowledgement. */
  lemma AlertRecords(s: Service, w: World, alert: AlertEvent, a: Attempt)
    requires s.hasIncidents
    ensures var (w', ok) := Alert(s, w, alert, a);
            && (ok ==> w'.incidents
                       == Incidents.Apply(w.incidents, Incidents.Record(alert, CreatesKey(s, w, alert, a), a.now)))
            && (!ok && a.record != Incidents.Unacknowledged ==> w'.incidents == w.incidents)
  {
    hide Incidents.Apply;
  }

  /** The notifiers are called, each once, exactly when nil is returned, this call created the key and the rule
      has them enabled, which it has when there is no resolver. */
  lemma AlertNotifies(s: Service, w: World, alert: AlertEvent, a: Attempt)
    ensures var (w', ok) := Alert(s, w, alert, a);
            var told := ok && CreatesKey(s, w, alert, a) && (s.hasRules ==> a.rule.value.telegramEnabled);
            && |w'.notified| == |w.notified| + (if told then s.notifiers else 0)
            && w.notified <= w'.notified && forall i | |w.notified| <= i < |w'.notified| :: w'.notified[i] == alert
  {
    hide Incidents.Apply;
  }

  /** The notifiers of a handled alert are called by the winning attempt alone. */
  lemma {:induction false} RetryNotifies(s: Service, w: World, alert: AlertEvent, attempts: seq<Attempt>)
    ensures var winner := Winner(s, w, alert, attempts);
            |Retry(s, w, alert, attempts).0.notified|
              == |w.notified|
               + (if winner.Some? && NotifiedBy(s, Before(s, w, alert, attempts, winner.value), alert,
                                                attempts[winner.value])
                  then s.notifiers else 0)
    decreases |attempts|
  {
    hide Alert, CreatesKey;
    if attempts != [] {
      AlertNotifies(s, w, alert, attempts[0]);
      RetryNotifies(s, Alert(s, w, alert, attempts[0]).0, alert, attempts[1..]);
    }
  }

  predicate NotifiedBy(s: Service, w: World, alert: AlertEvent, a: Attempt) {
    CreatesKey(s, w, alert, a) && (s.hasRules ==> a.rule.value.telegramEnabled)
  }

  /** With atomic records a handled alert leaves one record, that of the winning attempt, which says dispatched
      exactly when that attempt created the key; an abandoned one leaves none. */
  lemma {:induction false} RetryRecords(s: Service, w: World, alert: AlertEvent, attempts: seq<Attempt>)
    requires s.hasIncidents && AtomicRecords(attempts)
    ensures var winner := Winner(s, w, alert, attempts);
            Retry(s, w, alert, attempts).0.incidents
              == if winner.None? then w.incidents
                 else var (k, a) := (winner.value, attempts[winner.value]);
                      var createdKey := CreatesKey(s, Before(s, w, alert, attempts, k), alert, a);
                      Incidents.Apply(w.incidents, Incidents.Record(alert, createdKey, a.now))
    decreases |attempts|
  {
    hide Alert, CreatesKey, Incidents.Apply;
    if attempts != [] {
      assert attempts[0] in attempts && forall a | a in attempts[1..] :: a in attempts;
      AlertRecords(s, w, alert, attempts[0]);
      RetryRecords(s, Alert(s, w, alert, attempts[0]).0, alert, attempts[1..]);
    }
  }

  // ------------------------------------------------------------ when a retry is suppressed

  predicate RuleOn(s: Service, a: Attempt) { RuleOf(s, a).Some? && RuleOf(s, a).value.enabled }

  /** When the key of an attempt that creates one expires. */
  function ExpiryOf(s: Service, a: Attempt): int
    requires RuleOn(s, a)
  {
    a.now + Dedup.EffectivePeriod(s.dedup, RuleOf(s, a).value.dedupWindow)
  }

  /** An expiry that the clock has not reached. */
  predicate InForce(expiry: Option<int>, now: int) { expiry.Some? && now < expiry.value }

  /** The attempt's SETNX reaches Redis and meets no living key, whether or not the client hears of it. */
  predicate TakesEffect(s: Service, expiry: Option<int>, a: Attempt) {
    RuleOn(s, a) && !a.setNx.LostBefore? && !InForce(expiry, a.now)
  }

  /** The expiry of the alert's key after `n` attempts, from the attempts alone. */
  function ExpiryAfter(s: Service, start: Option<int>, attempts: seq<Attempt>, n: nat): Option<int>
    requires n <= |attempts|
  {
    if n == 0 then start
    else
      var e, a := ExpiryAfter(s, start, attempts, n - 1), attempts[n - 1];
      if TakesEffect(s, e, a) then Some(ExpiryOf(s, a)) else e
  }

  /** Attempt `j` set the key. */
  predicate SetsKey(s: Service, start: Option<int>, attempts: seq<Attempt>, j: nat)
    requires j < |attempts|
  {
    TakesEffect(s, ExpiryAfter(s, start, attempts, j), attempts[j])
  }

  function KeyExpiry(s: Service, w: World, alert: AlertEvent): Option<int> {
    var key := s.dedup.prefix + alert.fingerprint;
    if key in w.keys then Some(w.keys[key]) else None
  }

  lemma AlertMovesExpiry(s: Service, w: World, alert: AlertEvent, a: Attempt)
    ensures var e := KeyExpiry(s, w, alert);
            KeyExpiry(s, Alert(s, w, alert, a).0, alert) == if TakesEffect(s, e, a) then Some(ExpiryOf(s, a)) else e
  {
    hide Incidents.Apply;
  }

  lemma {:induction false} BeforeNext(s: Service, w: World, alert: AlertEvent, attempts: seq<Attempt>, n: nat)
    requires n < |attempts|
    ensures Before(s, w, alert, attempts, n + 1) == Alert(s, Before(s, w, alert, attempts, n), alert, attempts[n]).0
    decreases n
  {
    hide Alert;
    if n > 0 {
      BeforeNext(s, Alert(s, w, alert, attempts[0]).0, alert, attempts[1..], n - 1);
    }
  }

  lemma {:induction false} ExpiryIsInTheStore(s: Service, w: World, alert: AlertEvent, attempts: seq<Attempt>, n: nat)
    requires n <= |attempts|
    ensures KeyExpiry(s, Before(s, w, alert, attempts, n), alert)
         == ExpiryAfter(s, KeyExpiry(s, w, alert), attempts, n)
  {
    hide Alert, KeyExpiry, TakesEffect, Before;
    if n > 0 {
      ExpiryIsInTheStore(s, w, alert, attempts, n - 1);
      BeforeNext(s, w, alert, attempts, n - 1);
      AlertMovesExpiry(s, Before(s, w, alert, attempts, n - 1), alert, attempts[n - 1]);
    } else {
      NothingBefore(s, w, alert, attempts);
    }
  }

  lemma NothingBefore(s: Service, w: World, alert: AlertEvent, attempts: seq<Attempt>)
    ensures Before(s, w, alert, attempts, 0) == w
  {
  }

  /** The key's expiry is that of the last attempt that set it, and of all that did it is the latest. */
  lemma {:induction false} LastSetterCounts(s: Service, start: Option<int>, attempts: seq<Attempt>, n: nat)
    requires s.dedup.period > 0 && n <= |attempts|
    ensures var e := ExpiryAfter(s, start, attempts, n);
            && (e == start || exists j: nat | j < n :: SetsKey(s, start, attempts, j) && e == Some(ExpiryOf(s,
                  attempts[j])))
            && (forall j: nat | j < n && SetsKey(s, start, attempts, j) :: e.Some? && ExpiryOf(s, attempts[j]) <= e.value)
  {
    if n > 0 {
      LastSetterCounts(s, start, attempts, n - 1);
      assert SetsKey(s, start, attempts, n - 1) == TakesEffect(s, ExpiryAfter(s, start, attempts, n - 1), attempts[n - 1]);
    }
  }

  /** An earlier attempt set the key, and attempt `k` runs before that key expires. */
  ghost predicate Suppressed(s: Service, start: Option<int>, attempts: seq<Attempt>, k: nat)
    requires k < |attempts|
  {
    exists j: nat | j < k :: SetsKey(s, start, attempts, j) && attempts[k].now < ExpiryOf(s, attempts[j])
  }

  ghost predicate InOrder(attempts: seq<Attempt>) {
    forall i, j | 0 <= i < j < |attempts| :: attempts[i].now <= attempts[j].now
  }

  lemma WinnerCreatesKeyIff(s: Service, w: World, alert: AlertEvent, a: Attempt)
    requires Alert(s, w, alert, a).1
    ensures CreatesKey(s, w, alert, a) <==> RuleOn(s, a) && !InForce(KeyExpiry(s, w, alert), a.now)
  {
    hide Incidents.Apply;
  }

  lemma {:induction false} WinnerSucceeds(s: Service, w: World, alert: AlertEvent, attempts: seq<Attempt>)
    requires Winner(s, w, alert, attempts).Some?
    ensures var k := Winner(s, w, alert, attempts).value;
            Alert(s, Before(s, w, alert, attempts, k), alert, attempts[k]).1
    decreases |attempts|
  {
    hide Alert;
    if !Alert(s, w, alert, attempts[0]).1 {
      WinnerSucceeds(s, Alert(s, w, alert, attempts[0]).0, alert, attempts[1..]);
    }
  }

  /** In the caller's terms: when no key lives at the first attempt and the clock moves forward, a handled
      alert whose rule is enabled at the winning attempt misses the publisher if and only if an earlier
      attempt set the key and the winner ran before that key expired. */
  lemma {:induction false} HandledAlertIsLostIff(s: Service, w: World, alert: AlertEvent, attempts: seq<Attempt>)
    requires s.hasPublisher && s.dedup.period > 0 && InOrder(attempts)
    requires Winner(s, w, alert, attempts).Some?
    requires !InForce(KeyExpiry(s, w, alert), attempts[0].now)
    ensures var k := Winner(s, w, alert, attempts).value;
            Retry(s, w, alert, attempts).0.offered
              == w.offered + (if RuleOn(s, attempts[k]) && !Suppressed(s, KeyExpiry(s, w, alert), attempts,
                    k) then [alert] else [])
  {
    hide Alert, Retry, Winner, Before, CreatesKey, KeyExpiry, ExpiryAfter, RuleOf;
    var k, start := Winner(s, w, alert, attempts).value, KeyExpiry(s, w, alert);
    RetryOffersIff(s, w, alert, attempts);
    WinnerSucceeds(s, w, alert, attempts);
    WinnerCreatesKeyIff(s, Before(s, w, alert, attempts, k), alert, attempts[k]);
    ExpiryIsInTheStore(s, w, alert, attempts, k);
    LastSetterCounts(s, start, attempts, k);
    assert attempts[0].now <= attempts[k].now;
  }

  // ------------------------------------------------------------ whole streams of alerts

  datatype Job = Job(alert: AlertEvent, attempts: seq<Attempt>)

  function RunJobs(s: Service, w: World, jobs: seq<Job>): World {
    if jobs == [] then w
    else Retry(s, RunJobs(s, w, jobs[..|jobs| - 1]), jobs[|jobs| - 1].alert, jobs[|jobs| - 1].attempts).0
  }

  /** The alerts of fingerprint `f` that were handled, that is, whose `Alert` call once returned nil. */
  function HandledCount(s: Service, w: World, jobs: seq<Job>, f: string): nat {
    if jobs == [] then 0
    else
      var front, last := jobs[..|jobs| - 1], jobs[|jobs| - 1];
      HandledCount(s, w, front, f)
      + (if last.alert.fingerprint == f && Retry(s, RunJobs(s, w, front), last.alert, last.attempts).1 then 1 else 0)
  }

  /** With atomic records, the occurrences of an incident equal the successful `Alert` calls for its
      fingerprint, over any stream of alerts and any failures. */
  lemma {:induction false} OccurrencesEqualSuccesses(s: Service, w: World, jobs: seq<Job>, f: string)
    requires s.hasIncidents && forall j | j in jobs :: AtomicRecords(j.attempts)
    ensures OccurrencesOf(RunJobs(s, w, jobs), f) == OccurrencesOf(w, f) + HandledCount(s, w, jobs, f)
  {
    hide Alert, OccurrencesOf, AtomicRecords, HiddenRecords;
    if jobs != [] {
      var front, last := jobs[..|jobs| - 1], jobs[|jobs| - 1];
      assert last in jobs && forall j | j in front :: j in jobs;
      OccurrencesEqualSuccesses(s, w, front, f);
      RetryCounts(s, RunJobs(s, w, front), last.alert, last.attempts, f);
      AtomicRecordsHideNothing(s, RunJobs(s, w, front), last.alert, last.attempts);
    }
  }

  /** A failed record after the key was created loses the dispatch: the retry finds the key alive, records
      the alert as suppressed and never offers it, although nothing was dispatched before. */
  lemma RetryCanLoseTheDispatch(s: Service, w: World, alert: AlertEvent, rule: AlertRule, t: int, t': int)
    requires s.hasIncidents && s.hasPublisher && s.hasRules && rule.enabled
    requires !Dedup.Live(w.keys, s.dedup.prefix + alert.fingerprint, t)
    requires t' < t + Dedup.EffectivePeriod(s.dedup, rule.dedupWindow)
    ensures var attempts := [Attempt(t, Some(rule), Dedup.Replied, Incidents.RolledBack), Attempt(t', Some(rule),
          Dedup.Replied, Incidents.Recorded)];
            var (w', handled) := Retry(s, w, alert, attempts);
            && handled && w'.offered == w.offered
            && OccurrencesOf(w', alert.fingerprint) == OccurrencesOf(w, alert.fingerprint) + 1
            && w'.incidents == Incidents.Apply(w.incidents, Incidents.Record(alert, false, t'))
  {
    hide Incidents.Apply;
    var a, b := Attempt(t, Some(rule), Dedup.Replied, Incidents.RolledBack), Attempt(t', Some(rule),
          Dedup.Replied, Incidents.Recorded);
    var w1 := Alert(s, w, alert, a).0;
    assert w1.incidents == w.incidents && w1.offered == w.offered;
    assert Dedup.Live(w1.keys, s.dedup.prefix + alert.fingerprint, t');
    assert Alert(s, w1, alert, b).1;
    assert [a, b][1..] == [b];
    assert Retry(s, w1, alert, [b]) == Alert(s, w1, alert, b);
    ApplyCounts(w.incidents, alert, false, t', alert.fingerprint);
  }

  // ------------------------------------------------------------ suppression over streams

  function SuppressedOf(w: World, f: string): nat { if f in w.incidents then w.incidents[f].suppressed else 0 }

  lemma ApplySuppresses(t: Incidents.Table, alert: AlertEvent, dispatched: bool, now: int, f: string)
    ensures var t' := Incidents.Apply(t, Incidents.Record(alert, dispatched, now));
            && alert.fingerprint in t'
            && (f != alert.fingerprint ==> Incidents.Lookup(t', f) == Incidents.Lookup(t, f))
            && t'[alert.fingerprint].suppressed
                 == (if alert.fingerprint in t then t[alert.fingerprint].suppressed else 0) + (if dispatched then 0 else 1)
  {
    hide Incidents.BuildIncidentTitle, Incidents.CategoryOf;
  }

  /** The job was handled, and the publisher was not offered its alert. */
  predicate HandledUnoffered(s: Service, w: World, job: Job) {
    Retry(s, w, job.alert, job.attempts).1 && Retry(s, w, job.alert, job.attempts).0.offered == w.offered
  }

  function UnofferedCount(s: Service, w: World, jobs: seq<Job>, f: string): nat {
    if jobs == [] then 0
    else
      var front, last := jobs[..|jobs| - 1], jobs[|jobs| - 1];
      UnofferedCount(s, w, front, f)
      + (if last.alert.fingerprint == f && HandledUnoffered(s, RunJobs(s, w, front), last) then 1 else 0)
  }

  lemma JobSuppresses(s: Service, w: World, job: Job, f: string)
    requires s.hasIncidents && s.hasPublisher && AtomicRecords(job.attempts)
    ensures SuppressedOf(Retry(s, w, job.alert, job.attempts).0, f)
         == SuppressedOf(w, f) + (if job.alert.fingerprint == f && HandledUnoffered(s, w, job) then 1 else 0)
  {
    hide Alert, CreatesKey, Retry, Winner, Before, Incidents.Apply, AtomicRecords;
    RetryRecords(s, w, job.alert, job.attempts);
    RetryOffersIff(s, w, job.alert, job.attempts);
    var winner := Winner(s, w, job.alert, job.attempts);
    if winner.Some? {
      var a := job.attempts[winner.value];
      ApplySuppresses(w.incidents, job.alert, true, a.now, f);
      ApplySuppresses(w.incidents, job.alert, false, a.now, f);
    }
  }

  /** With atomic records, the suppressed count of an incident equals the handled alerts of its fingerprint that
      the publisher was not offered, over any stream of alerts and any failures. */
  lemma {:induction false} SuppressedEqualsUnoffered(s: Service, w: World, jobs: seq<Job>, f: string)
    requires s.hasIncidents && s.hasPublisher && forall j | j in jobs :: AtomicRecords(j.attempts)
    ensures SuppressedOf(RunJobs(s, w, jobs), f) == SuppressedOf(w, f) + UnofferedCount(s, w, jobs, f)
  {
    hide Alert, SuppressedOf, AtomicRecords, HandledUnoffered, Retry;
    if jobs != [] {
      var front, last := jobs[..|jobs| - 1], jobs[|jobs| - 1];
      assert last in jobs && forall j | j in front :: j in jobs;
      SuppressedEqualsUnoffered(s, w, front, f);
      JobSuppresses(s, RunJobs(s, w, front), last, f);
    }
  }
}
