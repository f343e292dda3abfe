/** What the hub guarantees over whole runs: every accepted client gets a gap-free part of the broadcasts, and
    the broadcasts are what was published. */
module HubRuns {
  import opened Common
  import opened Hub
  import opened Subscription

  /** The state after any interleaving, from an empty hub. */
  function Run(a: Authorizer, script: seq<HubAction>): HubState { RunFrom(a, INITIAL, script) }

  /** The state before action `k`. */
  function At(a: Authorizer, script: seq<HubAction>, k: nat): HubState
    requires k <= |script|
  {
    Run(a, script[..k])
  }

  lemma RunNext(a: Authorizer, script: seq<HubAction>)
    requires script != []
    ensures Run(a, script) == Step(a, Run(a, script[..|script| - 1]), script[|script| - 1])
  {
  }

  /** A client that no action registers is never accepted. */
  lemma {:induction false} OnlyRegisteredAreAccepted(a: Authorizer, script: seq<HubAction>, c: Client)
    requires forall i | 0 <= i < |script| :: script[i] != Register(c)
    ensures c !in Run(a, script).clients
  {
    hide Step;
    if script != [] {
      var front, last := script[..|script| - 1], script[|script| - 1];
      MembersGrow(a, Run(a, front), last);
      assert last == script[|script| - 1];
      forall i | 0 <= i < |front| ensures front[i] != Register(c) { assert front[i] == script[i]; }
      OnlyRegisteredAreAccepted(a, front, c);
    }
  }

  /** In every run in which each client registers once, every reachable state keeps the invariant. */
  lemma {:induction false} RunKeepsInv(a: Authorizer, script: seq<HubAction>)
    requires RegistersOnce(script)
    ensures Inv(a, Run(a, script))
  {
    hide Inv, Step;
    if script == [] {
      InitialInv(a);
    } else {
      var front, last := script[..|script| - 1], script[|script| - 1];
      RunKeepsInv(a, front);
      if last.Register? {
        forall i | 0 <= i < |front| ensures front[i] != Register(last.client) { assert front[i] == script[i]; }
        OnlyRegisteredAreAccepted(a, front, last.client);
      }
      StepKeepsInv(a, Run(a, front), last);
    }
  }

  lemma InitialInv(a: Authorizer)
    ensures Inv(a, INITIAL)
  {
  }

  // ------------------------------------------------------------ one step

  /** The action removes client `c`, in a state in which it is registered: it is unregistered, the hub ends, or
      an event that it wants is broadcast while its buffer is full. */
  predicate Removes(a: Authorizer, s: HubState, action: HubAction, c: Client)
    requires c in s.clients
  {
    match action
    case Unregister(d) => d == c
    case Cancel => true
    case Take(stream, encodes) =>
      && encodes && stream == c.stream && Queue(s, stream) != []
      && WantedBy(a, c.Id(), Queue(s, stream)[0]) && |s.clients[c].send| >= SEND_BUFFER_SIZE
    case _ => false
  }

  /** An event that the action broadcasts on the client's stream, if any. */
  function BroadcastTo(s: HubState, action: HubAction, c: Client): Option<StreamEvent> {
    if action.Take? && !s.done && action.encodes && action.stream == c.stream && Queue(s, c.stream) != []
    then Some(Queue(s, c.stream)[0]) else None
  }

  /** What the action does to an accepted client. */
  function NextState(a: Authorizer, s: HubState, action: HubAction, c: Client): ClientState
    requires c in s.clients
  {
    var v, registered := s.clients[c], c in Registered(s, c.stream);
    match action
    case Unregister(d) => if d == c && registered then Removed(v, History(s, c.stream)) else v
    case Cancel => if registered then Removed(v, History(s, c.stream)) else v
    case Write(d) => if d == c then AfterReceive(v) else v
    case _ =>
      var e := BroadcastTo(s, action, c);
      if e.Some? && registered then AfterBroadcast(a, c.Id(), v, History(s, c.stream), e.value) else v
  }

  lemma TakeReaches(a: Authorizer, s: HubState, stream: StreamType, encodes: bool, c: Client)
    requires Inv(a, s) && c in s.clients
    ensures c in TakeStep(a, s, stream, encodes).clients
    ensures !s.done ==> TakeStep(a, s, stream, encodes).clients[c] == NextState(a, s, Take(stream, encodes), c)
    ensures c in Registered(TakeStep(a, s, stream, encodes), c.stream)
       <==> && c in Registered(s, c.stream)
            && (encodes && stream == c.stream && Queue(s, stream) != [] ==>
                  KeepsUp(a, c.Id(), s.clients[c], Queue(s, stream)[0]))
  {
    hide AcceptedOk, AfterBroadcast, KeepsUp, Removed;
    if Queue(s, stream) != [] {
      QueueFacts(s, stream);
    }
  }

  /** The client's state and place after an action that does not register it. */
  lemma StepReaches(a: Authorizer, s: HubState, action: HubAction, c: Client)
    requires Inv(a, s) && c in s.clients && !(action.Register? && action.client == c)
    ensures c in Step(a, s, action).clients && Step(a, s, action).clients[c] == NextState(a, s, action, c)
    ensures c in Registered(Step(a, s, action), c.stream)
       <==> c in Registered(s, c.stream) && !Removes(a, s, action, c)
  {
    hide AcceptedOk, AfterBroadcast, Removed, AfterReceive, TakeStep, WantedBy;
    if action.Take? {
      TakeReaches(a, s, action.stream, action.encodes, c);
    }
  }

  /** A registered client stays registered unless the action removes it; its window does not move, and on
      removal it ends where the history ends. */
  lemma StepOfRegistered(a: Authorizer, s: HubState, action: HubAction, c: Client)
    requires Inv(a, s) && c in Registered(s, c.stream) && !(action.Register? && action.client == c)
    ensures c in s.clients && c in Step(a, s, action).clients
    ensures var t := Step(a, s, action);
            && (c in Registered(t, c.stream) <==> !Removes(a, s, action, c))
            && t.clients[c].joined == s.clients[c].joined
            && (Removes(a, s, action, c) ==> t.clients[c].left == |History(s, c.stream)|)
  {
    hide AcceptedOk, Step, WantedBy;
    StepReaches(a, s, action, c);
  }

  /** A client in no map is never put back, its window stays as it is, and nothing more enters its channel. */
  lemma StepOfLeft(a: Authorizer, s: HubState, action: HubAction, c: Client)
    requires Inv(a, s) && c in s.clients && c !in Registered(s, c.stream) && !(action.Register? && action.client == c)
    ensures c in Step(a, s, action).clients
    ensures var v, t := s.clients[c], Step(a, s, action);
            && c !in Registered(t, c.stream) && t.clients[c].joined == v.joined && t.clients[c].left == v.left
            && t.clients[c].enqueued == v.enqueued
  {
    hide AcceptedOk, Step, WantedBy;
    StepReaches(a, s, action, c);
  }

  /** What entered a channel and what was taken out of it only grow. */
  lemma StepOnlyAdds(a: Authorizer, s: HubState, action: HubAction, c: Client)
    requires Inv(a, s) && c in s.clients && !(action.Register? && action.client == c)
    ensures c in Step(a, s, action).clients
    ensures var v, u := s.clients[c], Step(a, s, action).clients[c];
            v.enqueued <= u.enqueued && v.received <= u.received
  {
    hide AcceptedOk, Step, WantedBy;
    StepReaches(a, s, action, c);
  }

  lemma HistoryStep(a: Authorizer, s: HubState, action: HubAction, stream: StreamType)
    requires QueuesOk(s)
    ensures History(Step(a, s, action), stream)
         == History(s, stream)
            + (if action.Take? && !s.done && action.stream == stream && action.encodes && Queue(s, stream) != []
               then [Queue(s, stream)[0]] else [])
  {
    hide ServedClients, Remaining, ClosedClients;
    if action.Take? && Queue(s, action.stream) != [] {
      QueueFacts(s, action.stream);
    }
  }

  // ------------------------------------------------------------ the window of a client over a run

  /** Action `i` registers the client and the hub accepts it. */
  predicate JoinsAt(a: Authorizer, script: seq<HubAction>, c: Client, i: nat) {
    i < |script| && script[i] == Register(c) && !At(a, script, i).done
  }

  /** Action `k` takes the client out of its map. */
  predicate LeavesAt(a: Authorizer, script: seq<HubAction>, c: Client, k: nat) {
    && k < |script| && c in Registered(At(a, script, k), c.stream) && c in At(a, script, k).clients
    && Removes(a, At(a, script, k), script[k], c)
  }

  /** The history of the client's stream when action `k` happens. */
  function HistoryAt(a: Authorizer, script: seq<HubAction>, c: Client, k: nat): seq<StreamEvent>
    requires k <= |script|
  {
    History(At(a, script, k), c.stream)
  }

  lemma {:induction false} HistoriesGrow(a: Authorizer, script: seq<HubAction>, c: Client, k: nat)
    requires RegistersOnce(script) && k <= |script|
    ensures HistoryAt(a, script, c, k) <= HistoryAt(a, script, c, |script|)
  {
    hide Step, Inv;
    if k < |script| {
      var front, last := script[..|script| - 1], script[|script| - 1];
      HistoriesGrow(a, front, c, k);
      assert front[..k] == script[..k] && front[..|front|] == front && script[..|script|] == script;
      RunKeepsInv(a, front);
      InvGivesQueues(a, Run(a, front));
      HistoryStep(a, Run(a, front), last, c.stream);
    }
  }

  lemma InvGivesQueues(a: Authorizer, s: HubState)
    requires Inv(a, s)
    ensures QueuesOk(s)
  {
  }

  /** What the run says about a client that joined at action `i`: its window starts where the history stood
      then, and it is still registered, or it left at one action `k` and its window ends where the history
      stood then. */
  ghost predicate WindowIs(a: Authorizer, script: seq<HubAction>, c: Client, i: nat)
    requires i <= |script|
  {
    var s := Run(a, script);
    && c in s.clients && s.clients[c].joined == |HistoryAt(a, script, c, i)|
    && (c !in Registered(s, c.stream) ==>
          exists k: nat :: i < k && LeavesAt(a, script, c, k) && s.clients[c].left == |HistoryAt(a, script, c, k)|)
  }

  lemma LeavesInFront(a: Authorizer, script: seq<HubAction>, c: Client, k: nat)
    requires script != [] && LeavesAt(a, script[..|script| - 1], c, k)
    ensures LeavesAt(a, script, c, k) && HistoryAt(a, script, c, k) == HistoryAt(a, script[..|script| - 1], c, k)
  {
    hide Removes, Registered, RunFrom;
    assert script[..|script| - 1][..k] == script[..k];
  }

  lemma {:induction false} WindowOfClient(a: Authorizer, script: seq<HubAction>, c: Client, i: nat)
    requires RegistersOnce(script) && JoinsAt(a, script, c, i)
    ensures WindowIs(a, script, c, i)
  {
    hide Step, Inv, Removes, RunFrom;
    var front, last := script[..|script| - 1], script[|script| - 1];
    var s := Run(a, front);
    RunNext(a, script);
    RunKeepsInv(a, front);
    assert script[..i] == if i < |front| then front[..i] else front;
    if i == |front| {
      JoinedNow(s, c);
      assert Step(a, s, Register(c)) == RegisterStep(s, c) by { RegisterIs(a, s, c); }
    } else {
      WindowOfClient(a, front, c, i);
      assert last.Register? ==> script[i].client != script[|script| - 1].client;
      if c in Registered(s, c.stream) {
        StepOfRegistered(a, s, last, c);
        assert script[..|front|] == front;
        if Removes(a, s, last, c) {
          assert LeavesAt(a, script, c, |front|);
        }
      } else {
        StepOfLeft(a, s, last, c);
        var k: nat :| i < k && LeavesAt(a, front, c, k) && s.clients[c].left == |HistoryAt(a, front, c, k)|;
        LeavesInFront(a, script, c, k);
      }
    }
  }

  /** A running hub accepts a new client: it is in the map of its stream alone, with an open and empty channel; all
      others are as they were. */
  lemma RegistrationAccepts(a: Authorizer, s: HubState, c: Client)
    requires !s.done && c !in s.clients
    ensures var t := Step(a, s, Register(c));
            && c in t.clients && !t.clients[c].closed && t.clients[c].send == []
            && t.logClients == s.logClients + (if c.stream.StreamLogs? then {c} else {})
            && t.alertClients == s.alertClients + (if c.stream.StreamLogs? then {} else {c})
            && forall d | d in s.clients :: d in t.clients && t.clients[d] == s.clients[d]
  {
  }

  lemma RegisterIs(a: Authorizer, s: HubState, c: Client)
    requires !s.done
    ensures Step(a, s, Register(c)) == RegisterStep(s, c)
  {
  }

  lemma JoinedNow(s: HubState, c: Client)
    ensures var t := RegisterStep(s, c);
            c in t.clients && c in Registered(t, c.stream) && t.clients[c].joined == |History(s, c.stream)|
  {
  }

  // ------------------------------------------------------------ gap-free delivery

  /** The part of the final history that concerns a client that joined at action `i`, until action `k`. */
  function Window(a: Authorizer, script: seq<HubAction>, c: Client, i: nat, k: nat): seq<StreamEvent>
    requires i <= |script| && k <= |script|
  {
    var h, n, m := HistoryAt(a, script, c, |script|), |HistoryAt(a, script, c, i)|, |HistoryAt(a, script, c, k)|;
    if n <= m <= |h| then h[n..m] else []
  }

  /** Gap-free delivery in every run: a client that joined at action `i` and is still registered was sent exactly
      the events that it wants and may see among everything broadcast since, in order, and its channel is open. */
  lemma {:induction false} RegisteredClientMissesNothing(a: Authorizer, script: seq<HubAction>, c: Client, i: nat)
    requires RegistersOnce(script) && JoinsAt(a, script, c, i) && c in Registered(Run(a, script), c.stream)
    ensures c in Run(a, script).clients
    ensures var v := Run(a, script).clients[c];
            && !v.closed && v.enqueued == v.received + v.send
            && v.enqueued == Wanted(a, c.Id(), Window(a, script, c, i, |script|))
  {
    hide Wanted, Step, RunFrom;
    var s := Run(a, script);
    WindowOfClient(a, script, c, i);
    RunKeepsInv(a, script);
    HistoriesGrow(a, script, c, i);
    assert AcceptedOk(a, s, c);
    assert script[..|script|] == script;
  }

  /** A client that left was removed by one action `k`, and was sent exactly what it wants of the broadcasts
      from its registration to that action; its channel is closed. */
  lemma {:induction false} FormerClientMissedNothing(a: Authorizer, script: seq<HubAction>, c: Client, i: nat)
      returns (k: nat)
    requires RegistersOnce(script) && JoinsAt(a, script, c, i) && c !in Registered(Run(a, script), c.stream)
    ensures i < k < |script| && LeavesAt(a, script, c, k) && c in Run(a, script).clients
    ensures var v := Run(a, script).clients[c];
            && v.closed && v.enqueued == v.received + v.send
            && v.enqueued == Wanted(a, c.Id(), Window(a, script, c, i, k))
  {
    hide Wanted, Step, RunFrom, Removes;
    var s := Run(a, script);
    WindowOfClient(a, script, c, i);
    RunKeepsInv(a, script);
    k :| i < k && LeavesAt(a, script, c, k) && s.clients[c].left == |HistoryAt(a, script, c, k)|;
    HistoriesGrow(a, script, c, k);
    assert AcceptedOk(a, s, c);
    assert script[..|script|] == script;
  }

  /** Position `n` of the history lies between the registration of an accepted client and its removal, or now. */
  predicate InWindow(s: HubState, c: Client, n: nat) {
    c in s.clients && s.clients[c].joined <= n < WindowEnd(History(s, c.stream), c in Registered(s, c.stream), s.clients[c])
  }

  /** In every run no client misses an event that it wants and later receives another: an event of its window
      that it wants entered its channel right after all the wanted events before it. */
  lemma {:induction false} NoGapInRun(a: Authorizer, script: seq<HubAction>, c: Client, n: nat)
    requires RegistersOnce(script) && InWindow(Run(a, script), c, n)
    ensures n < |History(Run(a, script), c.stream)|
    ensures var s := Run(a, script);
            var h, v := History(s, c.stream), s.clients[c];
            WantedBy(a, c.Id(), h[n]) ==> Wanted(a, c.Id(), h[v.joined..n]) + [h[n]] <= v.enqueued
  {
    hide Wanted, WantedBy, Step, RunFrom;
    var s := Run(a, script);
    RunKeepsInv(a, script);
    assert AcceptedOk(a, s, c);
    if WantedBy(a, c.Id(), History(s, c.stream)[n]) {
      NoGap(a, c.Id(), History(s, c.stream), c in Registered(s, c.stream), s.clients[c], n);
    }
  }

  /** After the end every accepted client's channel is closed, in every run. */
  lemma ClosedAfterTheEnd(a: Authorizer, script: seq<HubAction>, c: Client)
    requires RegistersOnce(script) && Run(a, script).done && c in Run(a, script).clients
    ensures Run(a, script).clients[c].closed
  {
    hide RunFrom;
    RunKeepsInv(a, script);
    assert AcceptedOk(a, Run(a, script), c);
  }

  // ------------------------------------------------------------ the broadcasts are what was published

  /** The events of a stream that publishers got into its queue, in order. */
  function Published(a: Authorizer, script: seq<HubAction>, stream: StreamType): seq<StreamEvent> {
    if script == [] then []
    else
      var front, last := script[..|script| - 1], script[|script| - 1];
      Published(a, front, stream)
      + (if last.PublishEvent? && StreamOf(last.event) == stream
            && Accepts(Run(a, front), last.event, last.checked, last.gaveUp)
         then [last.event] else [])
  }

  /** The events that the loop took out of the queue, each with whether it could be encoded. */
  function Taken(a: Authorizer, script: seq<HubAction>, stream: StreamType): seq<(StreamEvent, bool)> {
    if script == [] then []
    else
      var front, last := script[..|script| - 1], script[|script| - 1];
      var queue := Queue(Run(a, front), stream);
      Taken(a, front, stream)
      + (if last.Take? && last.stream == stream && !Run(a, front).done && queue != [] then [(queue[0],
            last.encodes)] else [])
  }

  function EventsOf(taken: seq<(StreamEvent, bool)>): seq<StreamEvent> {
    if taken == [] then [] else EventsOf(taken[..|taken| - 1]) + [taken[|taken| - 1].0]
  }

  function Encoded(taken: seq<(StreamEvent, bool)>): seq<StreamEvent> {
    if taken == [] then []
    else
      var last := taken[|taken| - 1];
      Encoded(taken[..|taken| - 1]) + (if last.1 then [last.0] else [])
  }

  lemma TakenNext(taken: seq<(StreamEvent, bool)>, e: StreamEvent, encodes: bool)
    ensures EventsOf(taken + [(e, encodes)]) == EventsOf(taken) + [e]
    ensures Encoded(taken + [(e, encodes)]) == Encoded(taken) + (if encodes then [e] else [])
  {
    assert (taken + [(e, encodes)])[..|taken|] == taken;
  }

  lemma QueueStep(a: Authorizer, s: HubState, action: HubAction, stream: StreamType)
    requires QueuesOk(s)
    ensures var queue, after := Queue(s, stream), Queue(Step(a, s, action), stream);
            if action.PublishEvent? && StreamOf(action.event) == stream
               && Accepts(s, action.event, action.checked, action.gaveUp) then after == queue + [action.event]
            else if action.Take? && action.stream == stream && !s.done && queue != [] then after == queue[1..]
            else after == queue
  {
    hide ServedClients, Remaining, ClosedClients;
  }

  /** First in, first out, with nothing lost: what was published is what was taken followed by what is still
      queued, and the history of a stream is what was taken of it and could be encoded. */
  lemma {:induction false} BroadcastsArePublications(a: Authorizer, script: seq<HubAction>, stream: StreamType)
    requires RegistersOnce(script)
    ensures Published(a, script, stream) == EventsOf(Taken(a, script, stream)) + Queue(Run(a, script), stream)
    ensures History(Run(a, script), stream) == Encoded(Taken(a, script, stream))
  {
    hide Step, Inv, Accepts, EventsOf, Encoded;
    if script == [] {
      NothingTaken();
    } else {
      var front, last := script[..|script| - 1], script[|script| - 1];
      var s := Run(a, front);
      BroadcastsArePublications(a, front, stream);
      RunKeepsInv(a, front);
      InvGivesQueues(a, s);
      QueueStep(a, s, last, stream);
      HistoryStep(a, s, last, stream);
      var taken, queue := Taken(a, front, stream), Queue(s, stream);
      if last.Take? && last.stream == stream && !s.done && queue != [] {
        TakenNext(taken, queue[0], last.encodes);
        assert EventsOf(taken) + queue == EventsOf(taken) + [queue[0]] + queue[1..];
      } else if last.PublishEvent? && StreamOf(last.event) == stream && Accepts(s, last.event, last.checked, last.gaveUp) {
        assert EventsOf(taken) + (queue + [last.event]) == EventsOf(taken) + queue + [last.event];
        assert Taken(a, script, stream) == taken;
      } else {
        assert Taken(a, script, stream) == taken;
      }
    }
  }

  lemma NothingTaken()
    ensures EventsOf([]) == [] && Encoded([]) == []
  {
  }

  // ------------------------------------------------------------ publications arrive

  /** The hub refuses no publication that there is room for: at most 1024 logs and 256 alerts wait. */
  lemma RoomMeansQueued(a: Authorizer, s: HubState, e: StreamEvent)
    requires !s.done && if e.LogItem? then |s.logQueue| < 1024 else |s.alertQueue| < 256
    ensures var t := Step(a, s, PublishEvent(e, false, false));
            && t.logQueue == s.logQueue + (if e.LogItem? then [e] else [])
            && t.alertQueue == s.alertQueue + (if e.AlertItem? then [e] else [])
            && t == s.(logQueue := t.logQueue, alertQueue := t.alertQueue)
  {
  }

  /** A registered client with room for an event that it wants gets the event when it is taken, behind what is
      already in its channel, and stays; an event that it does not want leaves its channel as it is. */
  lemma TakeServes(a: Authorizer, s: HubState, c: Client, stream: StreamType)
    requires Inv(a, s) && !s.done && c in Registered(s, c.stream) && stream == c.stream && Queue(s, stream) != []
    requires c in s.clients && |s.clients[c].send| < 256
    ensures var e, t := Queue(s, stream)[0], Step(a, s, Take(stream, true));
            && !t.done && Queue(t, stream) == Queue(s, stream)[1..]
            && c in t.clients && c in Registered(t, c.stream)
            && t.clients[c].send == s.clients[c].send + (if WantedBy(a, c.Id(), e) then [e] else [])
  {
    hide AcceptedOk, WantedBy, Step, ServedClients, Remaining;
    StepReaches(a, s, Take(stream, true), c);
    QueueStep(a, s, Take(stream, true), stream);
    TakeKeepsDone(a, s, stream);
  }

  lemma TakeKeepsDone(a: Authorizer, s: HubState, stream: StreamType)
    ensures Step(a, s, Take(stream, true)).done == s.done
  {
    hide ServedClients, Remaining;
  }

  function Takes(stream: StreamType, n: nat): seq<HubAction> { seq(n, _ => Take(stream, true)) }

  /** Taking `n` queued events gives a registered client with room for them exactly those that it wants, in order. */
  lemma {:induction false} TakesServe(a: Authorizer, s: HubState, c: Client, n: nat)
    requires Inv(a, s) && !s.done && c in Registered(s, c.stream) && c in s.clients
    requires n <= |Queue(s, c.stream)| && |s.clients[c].send| + n <= 256
    ensures var t := RunFrom(a, s, Takes(c.stream, n));
            && Inv(a, t) && !t.done && c in t.clients && c in Registered(t, c.stream)
            && Queue(t, c.stream) == Queue(s, c.stream)[n..]
            && t.clients[c].send == s.clients[c].send + Wanted(a, c.Id(), Queue(s, c.stream)[..n])
  {
    hide Inv, Step, WantedBy, Wanted;
    var queue := Queue(s, c.stream);
    if n == 0 {
      WantsNothing(a, c.Id());
      assert queue[..0] == [] && queue[0..] == queue;
    } else {
      var t := RunFrom(a, s, Takes(c.stream, n - 1));
      TakesServe(a, s, c, n - 1);
      assert Takes(c.stream, n)[..n - 1] == Takes(c.stream, n - 1);
      assert queue[n - 1..][0] == queue[n - 1] && queue[n - 1..][1..] == queue[n..];
      assert queue[..n] == queue[..n - 1] + [queue[n - 1]];
      WantedNext(a, c.Id(), queue[..n - 1], queue[n - 1]);
      WantedIsShort(a, c.Id(), queue[..n - 1]);
      TakeServes(a, t, c, c.stream);
      StepKeepsInv(a, t, Take(c.stream, true));
    }
  }

  lemma WantsNothing(a: Authorizer, id: Identity)
    ensures Wanted(a, id, []) == []
  {
  }

  lemma {:induction false} WantedIsShort(a: Authorizer, id: Identity, history: seq<StreamEvent>)
    ensures |Wanted(a, id, history)| <= |history|
  {
    hide WantedBy;
    if history != [] {
      WantedIsShort(a, id, history[..|history| - 1]);
    }
  }

  /** A publication reaches a registered client that wants it: there is room in the queue, and the client has
      room for what is queued ahead of it and for the event itself. */
  lemma PublicationArrives(a: Authorizer, s: HubState, c: Client, e: StreamEvent)
    requires Inv(a, s) && !s.done && c in Registered(s, c.stream) && c in s.clients && c.stream == StreamOf(e)
    requires |Queue(s, c.stream)| < (if e.LogItem? then 1024 else 256) && WantedBy(a, c.Id(), e)
    requires |s.clients[c].send| + |Queue(s, c.stream)| + 1 <= 256
    ensures var t := RunFrom(a, Step(a, s, PublishEvent(e, false, false)), Takes(c.stream, |Queue(s, c.stream)| + 1));
            && c in t.clients && c in Registered(t, c.stream)
            && t.clients[c].send == s.clients[c].send + Wanted(a, c.Id(), Queue(s, c.stream)) + [e]
  {
    hide Inv, Step, WantedBy, Wanted, RunFrom;
    var queue, u := Queue(s, c.stream), Step(a, s, PublishEvent(e, false, false));
    RoomMeansQueued(a, s, e);
    StepKeepsInv(a, s, PublishEvent(e, false, false));
    TakesServe(a, u, c, |queue| + 1);
    assert Queue(u, c.stream)[..|queue| + 1] == queue + [e];
    WantedNext(a, c.Id(), queue, e);
    assert s.clients[c].send + (Wanted(a, c.Id(), queue) + [e]) == s.clients[c].send + Wanted(a, c.Id(), queue) + [e];
  }

  lemma {:induction false} TakenGrows(a: Authorizer, script: seq<HubAction>, stream: StreamType, k: nat)
    requires k <= |script|
    ensures Taken(a, script[..k], stream) <= Taken(a, script, stream)
    ensures Published(a, script[..k], stream) <= Published(a, script, stream)
  {
    hide RunFrom, Accepts;
    if k < |script| {
      TakenGrows(a, script[..|script| - 1], stream, k);
      assert script[..|script| - 1][..k] == script[..k];
    } else {
      assert script[..k] == script;
    }
  }

  lemma {:induction false} EventsAt(taken: seq<(StreamEvent, bool)>, k: nat)
    requires k < |taken|
    ensures |EventsOf(taken)| == |taken| && EventsOf(taken)[k] == taken[k].0
  {
    if k < |taken| - 1 {
      EventsAt(taken[..|taken| - 1], k);
    } else if |taken| > 1 {
      EventsAt(taken[..|taken| - 1], 0);
    }
  }

  lemma {:induction false} EncodedPrefix(taken: seq<(StreamEvent, bool)>, k: nat)
    requires k <= |taken|
    ensures Encoded(taken[..k]) <= Encoded(taken)
  {
    if k < |taken| {
      EncodedPrefix(taken[..|taken| - 1], k);
      assert taken[..|taken| - 1][..k] == taken[..k];
    } else {
      assert taken[..k] == taken;
    }
  }

  lemma EncodedAt(taken: seq<(StreamEvent, bool)>, k: nat)
    requires k < |taken| && taken[k].1
    ensures |Encoded(taken[..k])| < |Encoded(taken)| && Encoded(taken)[|Encoded(taken[..k])|] == taken[k].0
  {
    EncodedPrefix(taken, k + 1);
    assert taken[..k + 1][..k] == taken[..k];
  }

  lemma PublishedAtStep(a: Authorizer, script: seq<HubAction>, j: nat)
    requires j < |script| && script[j].PublishEvent?
    requires Accepts(At(a, script, j), script[j].event, script[j].checked, script[j].gaveUp)
    ensures var stream := StreamOf(script[j].event);
            var k := |Published(a, script[..j], stream)|;
            k < |Published(a, script, stream)| && Published(a, script, stream)[k] == script[j].event
  {
    hide RunFrom, Accepts;
    assert script[..j + 1][..j] == script[..j];
    TakenGrows(a, script, StreamOf(script[j].event), j + 1);
  }

  /** What was taken before action `j` is a beginning of what was taken before publication number `k`. */
  lemma TakenBefore(a: Authorizer, script: seq<HubAction>, stream: StreamType, j: nat, k: nat)
    requires RegistersOnce(script) && j <= |script| && k == |Published(a, script[..j], stream)|
    requires k <= |Taken(a, script, stream)|
    ensures Encoded(Taken(a, script[..j], stream)) <= Encoded(Taken(a, script, stream)[..k])
  {
    hide RunFrom, Accepts, Encoded;
    var before, taken := Taken(a, script[..j], stream), Taken(a, script, stream);
    FrontRegistersOnce(script, j);
    BroadcastsArePublications(a, script[..j], stream);
    TakenGrows(a, script, stream, j);
    if before != [] { EventsAt(before, 0); }
    assert |before| <= k;
    assert taken[..k][..|before|] == before;
    EncodedPrefix(taken[..k], |before|);
  }

  lemma FrontRegistersOnce(script: seq<HubAction>, k: nat)
    requires RegistersOnce(script) && k <= |script|
    ensures RegistersOnce(script[..k])
  {
  }

  /** From publisher to channel, in every run: an event that was accepted after the client joined, that the client
      wants, and that the loop has taken and could encode, entered the channel of the client if it is still
      registered. */
  lemma {:induction false} PublishedEventIsDelivered(a: Authorizer, script: seq<HubAction>, c: Client, i: nat, j: nat)
    requires RegistersOnce(script) && JoinsAt(a, script, c, i) && i < j < |script| && script[j].PublishEvent?
    requires StreamOf(script[j].event) == c.stream && WantedBy(a, c.Id(), script[j].event)
    requires Accepts(At(a, script, j), script[j].event, script[j].checked, script[j].gaveUp)
    requires var k := |Published(a, script[..j], c.stream)|;
             k < |Taken(a, script, c.stream)| && Taken(a, script, c.stream)[k].1
    requires c in Registered(Run(a, script), c.stream)
    ensures c in Run(a, script).clients && script[j].event in Run(a, script).clients[c].enqueued
  {
    hide RunFrom, Accepts, WantedBy, Wanted, Step, Encoded, ClientOk;
    var s, e := Run(a, script), script[j].event;
    var k, taken := |Published(a, script[..j], c.stream)|, Taken(a, script, c.stream);
    PublishedAtStep(a, script, j);
    BroadcastsArePublications(a, script, c.stream);
    EventsAt(taken, k);
    EncodedAt(taken, k);
    var n := |Encoded(taken[..k])|;
    assert History(s, c.stream)[n] == e;
    TakenBefore(a, script, c.stream, j, k);
    FrontRegistersOnce(script, j);
    BroadcastsArePublications(a, script[..j], c.stream);
    HistoriesGrow(a, script[..j], c, i);
    assert script[..j][..i] == script[..i] && script[..j][..j] == script[..j];
    WindowOfClient(a, script, c, i);
    NoGapInRun(a, script, c, n);
    var v := s.clients[c];
    assert v.enqueued[|Wanted(a, c.Id(), History(s, c.stream)[v.joined..n])|] == e;
  }

  /** The write loop hands over what is buffered, oldest first. */
  lemma WriteTakesTheOldest(a: Authorizer, s: HubState, c: Client)
    requires c in s.clients && s.clients[c].send != []
    ensures var v, t := s.clients[c], Step(a, s, Write(c));
            && c in t.clients && t.clients[c].received == v.received + [v.send[0]] && t.clients[c].send == v.send[1..]
            && forall d | d in s.clients && d != c :: d in t.clients && t.clients[d] == s.clients[d]
  {
  }

  /** When the context ends both maps are emptied and each of their clients is closed, with its buffer kept. */
  lemma CancelEnds(a: Authorizer, s: HubState)
    requires !s.done
    ensures var t := Step(a, s, Cancel);
            && t.done && t.logClients == {} && t.alertClients == {}
            && forall c | c in s.clients && c in s.logClients + s.alertClients ::
                 c in t.clients && t.clients[c].closed && t.clients[c].send == s.clients[c].send
  {
  }

  lemma NothingAfterTheEnd(a: Authorizer, s: HubState, action: HubAction)
    requires s.done
    ensures var t := Step(a, s, action);
            && t.done && t.clients.Keys == s.clients.Keys
            && t.logClients == s.logClients && t.alertClients == s.alertClients
            && t.logHistory == s.logHistory && t.alertHistory == s.alertHistory
  {
  }

  /** The end of the hub is final: nobody is accepted and nothing is broadcast any more. */
  lemma {:induction false} EndIsFinal(a: Authorizer, s: HubState, script: seq<HubAction>)
    requires s.done
    ensures var t := RunFrom(a, s, script);
            && t.done && t.clients.Keys == s.clients.Keys
            && t.logClients == s.logClients && t.alertClients == s.alertClients
            && t.logHistory == s.logHistory && t.alertHistory == s.alertHistory
  {
    hide Step;
    if script != [] {
      EndIsFinal(a, s, script[..|script| - 1]);
      NothingAfterTheEnd(a, RunFrom(a, s, script[..|script| - 1]), script[|script| - 1]);
    }
  }
}
