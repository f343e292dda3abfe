/** The alert consumer's fetch and commit loop around `processWithRetry`, with crashes and redelivery. */
module AlertConsumer {
  import opened Alerting
  import opened Common
  import opened Events

  /** The alert topic: per partition its payloads; `None` does not decode. */
  type Topic = seq<seq<Option<AlertEvent>>>

  /** What happens next: a fetch fails; the next message of a partition arrives, with the attempts at
      handling it (ending early when the context is cancelled) and the fate of the commit; or the process
      crashes and a new one starts from the committed offsets. */
  datatype Event =
    | FetchFails(cancelled: bool)
    | Message(partition: nat, attempts: seq<Attempt>, commitOk: bool)
    | Restart

  /** A handled message: its place and its alert. */
  datatype Handled = Handled(partition: nat, offset: nat, alert: AlertEvent)

  datatype State = State(world: World, running: bool, position: seq<nat>, committed: seq<nat>, handled: seq<Handled>)

  /** The partition has a message that was not fetched yet. */
  predicate Waiting(topic: Topic, s: State, p: nat) {
    p < |topic| && p < |s.position| && p < |s.committed| && s.position[p] < |topic[p]|
  }

  /** Commit everything of partition `p` up to the message at `offset`. */
  function Commit(s: State, p: nat, offset: nat, ok: bool): State
    requires p < |s.committed|
  {
    if ok then s.(committed := s.committed[p := offset + 1]) else s
  }

  function Step(svc: Service, topic: Topic, s: State, e: Event): State {
    match e
    case Restart => s.(running := true, position := s.committed)
    case FetchFails(cancelled) => if s.running && cancelled then s.(running := false) else s
    case Message(p, attempts, commitOk) =>
      if !s.running || !Waiting(topic, s, p) then s
      else
        var offset := s.position[p];
        var fetched := s.(position := s.position[p := offset + 1]);
        match topic[p][offset]
        case None => Commit(fetched, p, offset, commitOk)
        case Some(alert) =>
          var (world, ok) := Retry(svc, s.world, alert, attempts);
          if !ok then fetched.(world := world, running := false)
          else Commit(fetched.(world := world, handled := s.handled + [Handled(p, offset, alert)]), p, offset, commitOk)
  }

  function Initial(world: World, partitions: nat): State {
    State(world, true, seq(partitions, _ => 0), seq(partitions, _ => 0), [])
  }

  function Run(svc: Service, topic: Topic, world: World, events: seq<Event>): State {
    if events == [] then Initial(world, |topic|)
    else Step(svc, topic, Run(svc, topic, world, events[..|events| - 1]), events[|events| - 1])
  }

  class Consumer {
    const service: AlertingService
    const topic: Topic
    var running: bool
    var position: seq<nat>
    var committed: seq<nat>
    ghost var handled: seq<Handled>

    constructor (service: AlertingService, topic: Topic)
      ensures this.service == service && this.topic == topic
      ensures View() == Initial(service.View(), |topic|)
    {
      this.service, this.topic, running := service, topic, true;
      position, committed := seq(|topic|, _ => 0), seq(|topic|, _ => 0);
      handled := [];
    }

    ghost function View(): State
      reads this, service, service.deduplicator.redis, service.incidents
    {
      State(service.View(), running, position, committed, handled)
    }

    method CommitMessages(p: nat, offset: nat, ok: bool)
      requires p < |committed|
      modifies this`committed
      ensures View() == Commit(old(View()), p, offset, ok)
    {
      if ok {
        committed := committed[p := offset + 1];
      }
    }

    /** `Start` over a script of events; crashes and restarts are part of the script. */
    method Start(events: seq<Event>)
      requires service.Wired() && View() == Initial(service.View(), |topic|)
      modifies this, service, service.deduplicator.redis, service.incidents
      ensures View() == Run(service.settings, topic, old(service.View()), events)
    {
      hide Retry;
      for i := 0 to |events|
        invariant View() == Run(service.settings, topic, old(service.View()), events[..i])
      {
        assert events[..i + 1][..i] == events[..i];
        match events[i] {
          case Restart => running, position := true, committed;
          case FetchFails(cancelled) =>
            if cancelled {
              running := false;
            }
          case Message(p, attempts, commitOk) =>
            if running && p < |topic| && p < |position| && p < |committed| && position[p] < |topic[p]| {
              HandleMessage(p, attempts, commitOk);
            }
        }
      }
      assert events[..|events|] == events;
    }

    method HandleMessage(p: nat, attempts: seq<Attempt>, commitOk: bool)
      requires service.Wired() && running && Waiting(topic, View(), p)
      modifies this, service, service.deduplicator.redis, service.incidents
      ensures View() == Step(service.settings, topic, old(View()), Message(p, attempts, commitOk))
    {
      hide Retry;
      var offset := position[p];
      position := position[p := offset + 1];
      if topic[p][offset].None? {
        CommitMessages(p, offset, commitOk);
        return;
      }
      var alert := topic[p][offset].value;
      var ok := service.ProcessWithRetry(alert, attempts);
      if !ok {
        running := false;
        return;
      }
      handled := handled + [Handled(p, offset, alert)];
      CommitMessages(p, offset, commitOk);
    }
  }

  // ------------------------------------------------------------ at least once

  /** A message that needs no more work: it does not decode, or it was handled. */
  predicate Settled(topic: Topic, s: State, p: nat, offset: nat)
    requires p < |topic| && offset < |topic[p]|
  {
    topic[p][offset].None? || Handled(p, offset, topic[p][offset].value) in s.handled
  }

  /** While the process runs, every message below the read position is settled; below the committed offset
      always. */
  ghost predicate Inv(topic: Topic, s: State) {
    && |s.position| == |s.committed| == |topic|
    && (forall p | 0 <= p < |topic| :: s.committed[p] <= s.position[p] <= |topic[p]|)
    && (forall p, o | 0 <= p < |topic| && 0 <= o < s.committed[p] :: Settled(topic, s, p, o))
    && (s.running ==> forall p, o | 0 <= p < |topic| && 0 <= o < s.position[p] :: Settled(topic, s, p, o))
  }

  lemma StepKeepsInv(svc: Service, topic: Topic, s: State, e: Event)
    requires Inv(topic, s)
    ensures Inv(topic, Step(svc, topic, s, e))
  {
    hide Retry, Settled;
    var s' := Step(svc, topic, s, e);
    forall p, o | 0 <= p < |topic| && 0 <= o < |topic[p]|
      ensures Settled(topic, s, p, o) ==> Settled(topic, s', p, o)
    {
      SettledStays(svc, topic, s, e, p, o);
    }
    if e.Message? && s.running && Waiting(topic, s, e.partition) {
      FetchedIsSettled(svc, topic, s, e);
    }
  }

  lemma SettledStays(svc: Service, topic: Topic, s: State, e: Event, p: nat, o: nat)
    requires p < |topic| && o < |topic[p]|
    ensures Settled(topic, s, p, o) ==> Settled(topic, Step(svc, topic, s, e), p, o)
  {
    hide Retry;
  }

  lemma FetchedIsSettled(svc: Service, topic: Topic, s: State, e: Event)
    requires e.Message? && s.running && Waiting(topic, s, e.partition)
    ensures var s' := Step(svc, topic, s, e); s'.running ==> Settled(topic, s', e.partition, s.position[e.partition])
  {
    hide Retry;
  }

  /** In every run, whatever fails and however often the process crashes, every alert below a committed
      offset was handled: its `Alert` call returned nil at least once. */
  lemma {:induction false} CommittedAlertsWereHandled(svc: Service, topic: Topic, world: World,
        events: seq<Event>, p: nat, o: nat)
    requires p < |topic|
    ensures Inv(topic, Run(svc, topic, world, events))
    ensures o < Run(svc, topic, world, events).committed[p] ==> Settled(topic, Run(svc, topic, world, events), p, o)
  {
    hide Step;
    if events != [] {
      CommittedAlertsWereHandled(svc, topic, world, events[..|events| - 1], p, o);
      StepKeepsInv(svc, topic, Run(svc, topic, world, events[..|events| - 1]), events[|events| - 1]);
    }
  }

  /** An acknowledged commit moves the offset just past the message, for an alert that was handled and for a
      payload that cannot be decoded; a lost one leaves it, and no other partition is touched either way. */
  lemma CommitMovesOffset(svc: Service, topic: Topic, s: State, p: nat, attempts: seq<Attempt>, commitOk: bool)
    requires s.running && p < |topic| && p < |s.position| && p < |s.committed| && s.position[p] < |topic[p]|
    ensures var t := Step(svc, topic, s, Message(p, attempts, commitOk));
            && t.position == s.position[p := s.position[p] + 1]
            && t.committed == (if t.running && commitOk then s.committed[p := s.position[p] + 1] else s.committed)
            && (topic[p][s.position[p]].None? ==> t.running && t.world == s.world && t.handled == s.handled)
            && (topic[p][s.position[p]].Some? ==>
                  var (world, ok) := Retry(svc, s.world, topic[p][s.position[p]].value, attempts);
                  && t.running == ok && t.world == world
                  && t.handled == s.handled
                                + (if ok then [Handled(p, s.position[p], topic[p][s.position[p]].value)] else []))
  {
    hide Retry;
  }

  /** A consumer that was stopped, or crashed, resumes from the committed offsets, and a cancelled fetch stops it. */
  lemma RestartResumes(svc: Service, topic: Topic, s: State)
    ensures var t := Step(svc, topic, s, Restart);
            t.running && t.position == s.committed && t.committed == s.committed && t.world == s.world
    ensures s.running ==> !Step(svc, topic, s, FetchFails(true)).running && Step(svc, topic, s, FetchFails(false)) == s
    ensures forall p, attempts, commitOk | !s.running :: Step(svc, topic, s, Message(p, attempts, commitOk)) == s
  {
    hide Retry;
  }

  function CountHandled(handled: seq<Handled>, f: string): nat {
    if handled == [] then 0
    else CountHandled(handled[..|handled| - 1], f) + (if handled[|handled| - 1].alert.fingerprint == f then 1 else 0)
  }

  ghost predicate AtomicEvents(events: seq<Event>) {
    forall e | e in events :: e.Message? ==> AtomicRecords(e.attempts)
  }

  lemma CountNext(handled: seq<Handled>, h: Handled, f: string)
    ensures CountHandled(handled + [h], f) == CountHandled(handled, f) + (if h.alert.fingerprint == f then 1 else 0)
  {
    assert (handled + [h])[..|handled|] == handled;
  }

  lemma StepCounts(svc: Service, topic: Topic, s: State, e: Event, f: string)
    requires svc.hasIncidents
    ensures var s' := Step(svc, topic, s, e);
            var grown := OccurrencesOf(s'.world, f) - OccurrencesOf(s.world, f);
            var handled := CountHandled(s'.handled, f) - CountHandled(s.handled, f);
            && grown >= handled
            && (e.Message? && AtomicRecords(e.attempts) ==> grown == handled)
            && (!e.Message? ==> grown == handled)
  {
    hide Retry, OccurrencesOf, AtomicRecords;
    if e.Message? && s.running && Waiting(topic, s, e.partition) && topic[e.partition][s.position[e.partition]].Some? {
      var alert := topic[e.partition][s.position[e.partition]].value;
      RetryCounts(svc, s.world, alert, e.attempts, f);
      CountNext(s.handled, Handled(e.partition, s.position[e.partition], alert), f);
      if AtomicRecords(e.attempts) {
        AtomicRecordsHideNothing(svc, s.world, alert, e.attempts);
      }
    }
  }

  /** The occurrences of an incident are at least the handled deliveries of its fingerprint, and exactly
      those when every record is atomic, over any failures, crashes and redeliveries. */
  lemma {:induction false} OccurrencesCountDeliveries(svc: Service, topic: Topic, world: World,
        events: seq<Event>, f: string)
    requires svc.hasIncidents
    ensures var s := Run(svc, topic, world, events);
            && OccurrencesOf(s.world, f) >= OccurrencesOf(world, f) + CountHandled(s.handled, f)
            && (AtomicEvents(events) ==> OccurrencesOf(s.world, f) == OccurrencesOf(world, f) + CountHandled(s.handled, f))
  {
    hide Step, OccurrencesOf;
    if events != [] {
      var front, last := events[..|events| - 1], events[|events| - 1];
      OccurrencesCountDeliveries(svc, topic, world, front, f);
      StepCounts(svc, topic, Run(svc, topic, world, front), last, f);
      assert last in events && forall e | e in front :: e in events;
    }
  }
}
