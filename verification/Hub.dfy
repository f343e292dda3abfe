/** The realtime hub: one loop that owns two client maps, two bounded queues and the clients' send channels. */
module Hub {
  import opened Common
  import opened Subscription

  const SEND_BUFFER_SIZE: nat := 256
  const LOG_QUEUE_SIZE: nat := 1024
  const ALERT_QUEUE_SIZE: nat := 256

  function Other(stream: StreamType): StreamType { if stream.StreamLogs? then StreamAlerts else StreamLogs }

  /** Who a client is and what it asked for. */
  datatype Identity = Identity(stream: StreamType, principal: Principal, subscription: Subscription)

  predicate WantedBy(a: Authorizer, id: Identity, e: StreamEvent) {
    Wants(a, id.principal, id.subscription, e)
  }

  /** The part of a history that a client is meant to receive. */
  function Wanted(a: Authorizer, id: Identity, history: seq<StreamEvent>): seq<StreamEvent> {
    if history == [] then []
    else
      var e := history[|history| - 1];
      Wanted(a, id, history[..|history| - 1]) + (if WantedBy(a, id, e) then [e] else [])
  }

  /** The state of a client and its send channel. `enqueued` is everything that ever entered the channel,
      `received` what the write loop took out of it; `joined` and `left` are positions in the history of
      its stream. */
  datatype ClientState = ClientState(send: seq<StreamEvent>, closed: bool, enqueued: seq<StreamEvent>,
                                     received: seq<StreamEvent>, joined: nat, left: nat)

  const PRISTINE := ClientState([], false, [], [], 0, 0)

  function WindowEnd(history: seq<StreamEvent>, registered: bool, v: ClientState): nat {
    if registered then |history| else v.left
  }

  /** Gap-free delivery and channel safety of one accepted client: the channel is closed exactly when the
      client is in no map, and what entered the channel is exactly what the client is meant to receive of
      the history from its registration to its removal, or to now, in order. */
  predicate ClientOk(a: Authorizer, id: Identity, history: seq<StreamEvent>, registered: bool, v: ClientState) {
    && (v.closed <==> !registered)
    && v.joined <= WindowEnd(history, registered, v) <= |history|
    && v.enqueued == Wanted(a, id, history[v.joined..WindowEnd(history, registered, v)])
    && v.enqueued == v.received + v.send
    && |v.send| <= SEND_BUFFER_SIZE
  }

  function Joined(v: ClientState, history: seq<StreamEvent>): ClientState { v.(joined := |history|) }

  function Removed(v: ClientState, history: seq<StreamEvent>): ClientState {
    v.(closed := true, left := |history|)
  }

  predicate KeepsUp(a: Authorizer, id: Identity, v: ClientState, e: StreamEvent) {
    !WantedBy(a, id, e) || |v.send| < SEND_BUFFER_SIZE
  }

  /** The client after the broadcast of `e`: unconcerned, served, or evicted. */
  function AfterBroadcast(a: Authorizer, id: Identity, v: ClientState, history: seq<StreamEvent>,
        e: StreamEvent): ClientState {
    if !WantedBy(a, id, e) then v
    else if |v.send| < SEND_BUFFER_SIZE then v.(send := v.send + [e], enqueued := v.enqueued + [e])
    else Removed(v, history)
  }

  function AfterReceive(v: ClientState): ClientState {
    if v.send == [] then v else v.(send := v.send[1..], received := v.received + [v.send[0]])
  }

  lemma JoinKeepsOk(a: Authorizer, id: Identity, history: seq<StreamEvent>)
    ensures ClientOk(a, id, history, true, Joined(PRISTINE, history))
  {
  }

  lemma RemovalKeepsOk(a: Authorizer, id: Identity, history: seq<StreamEvent>, v: ClientState)
    requires ClientOk(a, id, history, true, v)
    ensures ClientOk(a, id, history, false, Removed(v, history))
  {
  }

  lemma ReceiveKeepsOk(a: Authorizer, id: Identity, history: seq<StreamEvent>, registered: bool, v: ClientState)
    requires ClientOk(a, id, history, registered, v)
    ensures ClientOk(a, id, history, registered, AfterReceive(v))
  {
    hide Wanted;
    if v.send != [] {
      assert v.received + v.send == v.received + [v.send[0]] + v.send[1..];
    }
  }

  /** A broadcast extends the window of a client that keeps up and ends the window of one that does not. */
  lemma BroadcastKeepsOk(a: Authorizer, id: Identity, history: seq<StreamEvent>, v: ClientState, e: StreamEvent)
    requires ClientOk(a, id, history, true, v)
    ensures ClientOk(a, id, history + [e], KeepsUp(a, id, v, e), AfterBroadcast(a, id, v, history, e))
  {
    hide WantedBy;
    var window, longer := history[v.joined..], (history + [e])[v.joined..];
    assert history[v.joined..|history|] == window && (history + [e])[v.joined..|history + [e]|] == longer;
    assert longer == window + [e];
    WantedNext(a, id, window, e);
    assert (history + [e])[v.joined..|history|] == window;
    assert v.received + v.send + [e] == v.received + (v.send + [e]);
  }

  /** A broadcast does not concern a client that has left. */
  lemma BroadcastAfterLeaving(a: Authorizer, id: Identity, history: seq<StreamEvent>, v: ClientState, e: StreamEvent)
    requires ClientOk(a, id, history, false, v)
    ensures ClientOk(a, id, history + [e], false, v)
  {
    hide Wanted;
    assert (history + [e])[v.joined..v.left] == history[v.joined..v.left];
  }

  /** No client misses an event that it wants and later receives another: in its window, the wanted event
      at position `k` is in the channel right after all the wanted events before it. */
  lemma NoGap(a: Authorizer, id: Identity, history: seq<StreamEvent>, registered: bool, v: ClientState, k: nat)
    requires ClientOk(a, id, history, registered, v)
    requires v.joined <= k < WindowEnd(history, registered, v) && WantedBy(a, id, history[k])
    ensures var before := Wanted(a, id, history[v.joined..k]);
            before + [history[k]] <= v.enqueued
  {
    hide WantedBy;
    var window := history[v.joined..WindowEnd(history, registered, v)];
    var n := k - v.joined;
    assert window[..n] == history[v.joined..k];
    assert window[..n + 1] == window[..n] + [history[k]];
    WantedNext(a, id, window[..n], history[k]);
    WantedOfPrefix(a, id, window, n + 1);
  }

  lemma WantedNext(a: Authorizer, id: Identity, history: seq<StreamEvent>, e: StreamEvent)
    ensures Wanted(a, id, history + [e]) == Wanted(a, id, history) + (if WantedBy(a, id, e) then [e] else [])
  {
    hide WantedBy;
    assert (history + [e])[..|history|] == history;
  }

  lemma {:induction false} WantedOfPrefix(a: Authorizer, id: Identity, history: seq<StreamEvent>, n: nat)
    requires n <= |history|
    ensures Wanted(a, id, history[..n]) <= Wanted(a, id, history)
  {
    hide WantedBy;
    if n < |history| {
      WantedOfPrefix(a, id, history[..|history| - 1], n);
      assert history[..|history| - 1][..n] == history[..n];
    } else {
      assert history[..n] == history;
    }
  }

  // ------------------------------------------------------------ clients

  class Client {
    const stream: StreamType
    const principal: Principal
    const subscription: Subscription
    var send: seq<StreamEvent>
    var closed: bool
    ghost var enqueued: seq<StreamEvent>
    ghost var received: seq<StreamEvent>
    ghost var joined: nat
    ghost var left: nat

    constructor (stream: StreamType, principal: Principal, subscription: Subscription)
      ensures Id() == Identity(stream, principal, subscription) && State() == PRISTINE
    {
      this.stream, this.principal, this.subscription := stream, principal, subscription;
      send, closed, enqueued, received, joined, left := [], false, [], [], 0, 0;
    }

    function Id(): Identity { Identity(stream, principal, subscription) }

    ghost function State(): ClientState
      reads this
    {
      ClientState(send, closed, enqueued, received, joined, left)
    }

    /** `select { case client.send <- e: default: }`. Sending on a closed channel would panic. */
    method TrySend(e: StreamEvent) returns (sent: bool)
      requires !closed
      modifies this
      ensures sent <==> |old(send)| < SEND_BUFFER_SIZE
      ensures State() == if sent then old(State()).(send := old(send) + [e], enqueued := old(enqueued) + [e])
                         else old(State())
    {
      sent := |send| < SEND_BUFFER_SIZE;
      if sent {
        send := send + [e];
        enqueued := enqueued + [e];
      }
    }

    /** `close(client.send)`. Closing twice would panic. */
    method CloseSend(ghost at: nat)
      requires !closed
      modifies this
      ensures State() == old(State()).(closed := true, left := at)
    {
      closed := true;
      left := at;
    }

    /** The write loop takes the next message; a closed channel still yields what is buffered. */
    method Receive()
      modifies this
      ensures State() == AfterReceive(old(State()))
    {
      if |send| > 0 {
        received := received + [send[0]];
        send := send[1..];
      }
    }
  }

  // ------------------------------------------------------------ the hub as a state machine

  datatype HubAction = Register(client: Client) | Unregister(client: Client)
                     | PublishEvent(event: StreamEvent, checked: bool, gaveUp: bool)
                     | Take(stream: StreamType, encodes: bool) | Write(client: Client) | Cancel

  /** The hub, and every client that it ever accepted into a map. The histories list everything broadcast. */
  datatype HubState = HubState(done: bool, logClients: set<Client>, alertClients: set<Client>,
                               clients: map<Client, ClientState>,
                               logQueue: seq<StreamEvent>, alertQueue: seq<StreamEvent>,
                               logHistory: seq<StreamEvent>, alertHistory: seq<StreamEvent>)

  const INITIAL := HubState(false, {}, {}, map[], [], [], [], [])

  function Registered(s: HubState, stream: StreamType): set<Client> {
    if stream.StreamLogs? then s.logClients else s.alertClients
  }

  function History(s: HubState, stream: StreamType): seq<StreamEvent> {
    if stream.StreamLogs? then s.logHistory else s.alertHistory
  }

  function Queue(s: HubState, stream: StreamType): seq<StreamEvent> {
    if stream.StreamLogs? then s.logQueue else s.alertQueue
  }

  function WithRegistered(s: HubState, stream: StreamType, clients: set<Client>): HubState {
    if stream.StreamLogs? then s.(logClients := clients) else s.(alertClients := clients)
  }

  function WithHistory(s: HubState, stream: StreamType, history: seq<StreamEvent>): HubState {
    if stream.StreamLogs? then s.(logHistory := history) else s.(alertHistory := history)
  }

  function WithQueue(s: HubState, stream: StreamType, queue: seq<StreamEvent>): HubState {
    if stream.StreamLogs? then s.(logQueue := queue) else s.(alertQueue := queue)
  }

  function Capacity(stream: StreamType): nat { if stream.StreamLogs? then LOG_QUEUE_SIZE else ALERT_QUEUE_SIZE }

  /** A new client joins the map of its stream; what is broadcast from now on concerns it. */
  function RegisterStep(s: HubState, c: Client): HubState {
    WithRegistered(s, c.stream, Registered(s, c.stream) + {c})
      .(clients := s.clients[c := Joined(PRISTINE, History(s, c.stream))])
  }

  function CloseClient(s: HubState, c: Client): HubState {
    if c in s.clients then s.(clients := s.clients[c := Removed(s.clients[c], History(s, c.stream))]) else s
  }

  /** `removeClient`. */
  function RemoveStep(s: HubState, c: Client): HubState {
    if c in s.logClients then CloseClient(s.(logClients := s.logClients - {c}), c)
    else if c in s.alertClients then CloseClient(s.(alertClients := s.alertClients - {c}), c)
    else s
  }

  /** The clients after a broadcast: the registered ones are unconcerned, served or evicted. */
  function ServedClients(a: Authorizer, s: HubState, e: StreamEvent): map<Client, ClientState> {
    map c | c in s.clients ::
      if c in Registered(s, StreamOf(e)) then AfterBroadcast(a, c.Id(), s.clients[c], History(s, StreamOf(e)), e)
      else s.clients[c]
  }

  /** The registered clients that keep up with a broadcast. */
  function Remaining(a: Authorizer, s: HubState, e: StreamEvent): set<Client> {
    set c | c in Registered(s, StreamOf(e)) && c in s.clients && KeepsUp(a, c.Id(), s.clients[c], e)
  }

  /** `broadcastLog` and `broadcastAlert`: whatever the order in which the map is walked. */
  function BroadcastStep(a: Authorizer, s: HubState, e: StreamEvent): HubState {
    var stream := StreamOf(e);
    WithHistory(WithRegistered(s.(clients := ServedClients(a, s, e)), stream, Remaining(a, s, e)),
                stream, History(s, stream) + [e])
  }

  function TakeStep(a: Authorizer, s: HubState, stream: StreamType, encodes: bool): HubState {
    var queue := Queue(s, stream);
    if queue == [] then s
    else
      var t := WithQueue(s, stream, queue[1..]);
      if encodes then BroadcastStep(a, t, queue[0]) else t
  }

  predicate Accepts(s: HubState, e: StreamEvent, checked: bool, gaveUp: bool) {
    (!s.done || checked) && !gaveUp && |Queue(s, StreamOf(e))| < Capacity(StreamOf(e))
  }

  function PublishStep(s: HubState, e: StreamEvent, checked: bool, gaveUp: bool): HubState {
    if Accepts(s, e, checked, gaveUp) then WithQueue(s, StreamOf(e), Queue(s, StreamOf(e)) + [e]) else s
  }

  function ClosedClients(s: HubState): map<Client, ClientState> {
    map c | c in s.clients ::
      if c in s.logClients + s.alertClients then Removed(s.clients[c], History(s, c.stream)) else s.clients[c]
  }

  /** The end of the context: `closeAllClients`. */
  function ShutdownStep(s: HubState): HubState {
    s.(done := true, logClients := {}, alertClients := {}, clients := ClosedClients(s))
  }

  function WriteStep(s: HubState, c: Client): HubState {
    if c in s.clients then s.(clients := s.clients[c := AfterReceive(s.clients[c])]) else s
  }

  /** One turn of `Run`, of a publisher or of a write loop. After the end nothing is registered, removed or taken. */
  function Step(a: Authorizer, s: HubState, action: HubAction): HubState {
    match action
    case Register(c) => if s.done then s else RegisterStep(s, c)
    case Unregister(c) => if s.done then s else RemoveStep(s, c)
    case PublishEvent(e, checked, gaveUp) => PublishStep(s, e, checked, gaveUp)
    case Take(stream, encodes) => if s.done then s else TakeStep(a, s, stream, encodes)
    case Write(c) => WriteStep(s, c)
    case Cancel => if s.done then s else ShutdownStep(s)
  }

  function RunFrom(a: Authorizer, s: HubState, script: seq<HubAction>): HubState {
    if script == [] then s else Step(a, RunFrom(a, s, script[..|script| - 1]), script[|script| - 1])
  }

  // ------------------------------------------------------------ what every action keeps

  ghost predicate MapsOk(s: HubState) {
    && s.logClients + s.alertClients <= s.clients.Keys
    && (forall c | c in s.logClients :: c.stream.StreamLogs?)
    && (forall c | c in s.alertClients :: c.stream.StreamAlerts?)
    && (s.done ==> s.logClients == {} && s.alertClients == {})
  }

  predicate QueuesOk(s: HubState) {
    && |s.logQueue| <= LOG_QUEUE_SIZE && |s.alertQueue| <= ALERT_QUEUE_SIZE
    && (forall e | e in s.logQueue :: e.LogItem?)
    && (forall e | e in s.alertQueue :: e.AlertItem?)
  }

  ghost predicate AcceptedOk(a: Authorizer, s: HubState, c: Client)
    requires c in s.clients
  {
    ClientOk(a, c.Id(), History(s, c.stream), c in Registered(s, c.stream), s.clients[c])
  }

  /** Every client that was ever accepted is gap-free, and its channel is closed exactly when it is in no map. */
  ghost predicate Inv(a: Authorizer, s: HubState) {
    MapsOk(s) && QueuesOk(s) && forall c | c in s.clients :: AcceptedOk(a, s, c)
  }

  lemma MapsAreApart(a: Authorizer, s: HubState)
    requires Inv(a, s)
    ensures s.logClients !! s.alertClients && s.logClients + s.alertClients <= s.clients.Keys
  {
  }

  lemma RegisterKeepsInv(a: Authorizer, s: HubState, c: Client)
    requires Inv(a, s) && !s.done && c !in s.clients
    ensures Inv(a, RegisterStep(s, c))
  {
    hide ClientOk;
    JoinKeepsOk(a, c.Id(), History(s, c.stream));
    forall d | d in s.clients ensures AcceptedOk(a, RegisterStep(s, c), d) { assert AcceptedOk(a, s, d); }
  }

  lemma RemoveKeepsInv(a: Authorizer, s: HubState, c: Client)
    requires Inv(a, s)
    ensures Inv(a, RemoveStep(s, c))
  {
    hide ClientOk;
    var t := RemoveStep(s, c);
    if c in s.logClients + s.alertClients {
      assert AcceptedOk(a, s, c);
      RemovalKeepsOk(a, c.Id(), History(s, c.stream), s.clients[c]);
    }
    forall d | d in t.clients ensures AcceptedOk(a, t, d) { assert AcceptedOk(a, s, d); }
  }

  lemma BroadcastKeepsInv(a: Authorizer, s: HubState, e: StreamEvent)
    requires Inv(a, s) && !s.done
    ensures Inv(a, BroadcastStep(a, s, e))
  {
    hide ClientOk, AfterBroadcast, KeepsUp;
    var t := BroadcastStep(a, s, e);
    forall c | c in t.clients
      ensures AcceptedOk(a, t, c)
    {
      assert AcceptedOk(a, s, c);
      if c.stream == StreamOf(e) {
        if c in Registered(s, c.stream) {
          BroadcastKeepsOk(a, c.Id(), History(s, c.stream), s.clients[c], e);
        } else {
          BroadcastAfterLeaving(a, c.Id(), History(s, c.stream), s.clients[c], e);
        }
      }
    }
  }

  lemma QueueKeepsInv(a: Authorizer, s: HubState, stream: StreamType, queue: seq<StreamEvent>)
    requires Inv(a, s) && |queue| <= Capacity(stream) && forall e | e in queue :: StreamOf(e) == stream
    ensures Inv(a, WithQueue(s, stream, queue))
  {
    hide ClientOk;
    var t := WithQueue(s, stream, queue);
    forall c | c in t.clients ensures AcceptedOk(a, t, c) { assert AcceptedOk(a, s, c); }
  }

  lemma ShutdownKeepsInv(a: Authorizer, s: HubState)
    requires Inv(a, s)
    ensures Inv(a, ShutdownStep(s))
  {
    hide ClientOk;
    var t := ShutdownStep(s);
    forall c | c in t.clients
      ensures AcceptedOk(a, t, c)
    {
      assert AcceptedOk(a, s, c);
      if c in s.logClients + s.alertClients {
        RemovalKeepsOk(a, c.Id(), History(s, c.stream), s.clients[c]);
      }
    }
  }

  lemma WriteKeepsInv(a: Authorizer, s: HubState, c: Client)
    requires Inv(a, s)
    ensures Inv(a, WriteStep(s, c))
  {
    hide ClientOk;
    var t := WriteStep(s, c);
    forall d | d in t.clients
      ensures AcceptedOk(a, t, d)
    {
      assert AcceptedOk(a, s, d);
      ReceiveKeepsOk(a, d.Id(), History(s, d.stream), d in Registered(s, d.stream), s.clients[d]);
    }
  }

  lemma QueueFacts(s: HubState, stream: StreamType)
    requires QueuesOk(s) && Queue(s, stream) != []
    ensures |Queue(s, stream)[1..]| <= Capacity(stream) && StreamOf(Queue(s, stream)[0]) == stream
    ensures forall e | e in Queue(s, stream)[1..] :: StreamOf(e) == stream
  {
    assert Queue(s, stream)[0] in Queue(s, stream);
    assert forall e | e in Queue(s, stream)[1..] :: e in Queue(s, stream);
  }

  /** Every action keeps the invariant, as long as no client registers again. */
  lemma StepKeepsInv(a: Authorizer, s: HubState, action: HubAction)
    requires Inv(a, s) && (action.Register? ==> action.client !in s.clients)
    ensures Inv(a, Step(a, s, action))
  {
    hide AcceptedOk, BroadcastStep, RegisterStep, RemoveStep, ShutdownStep, WriteStep;
    match action
    case Register(c) => if !s.done { RegisterKeepsInv(a, s, c); }
    case Unregister(c) => RemoveKeepsInv(a, s, c);
    case PublishEvent(e, checked, gaveUp) =>
      if Accepts(s, e, checked, gaveUp) {
        QueueKeepsInv(a, s, StreamOf(e), Queue(s, StreamOf(e)) + [e]);
      }
    case Take(stream, encodes) =>
      if !s.done && Queue(s, stream) != [] {
        QueueFacts(s, stream);
        var t := WithQueue(s, stream, Queue(s, stream)[1..]);
        QueueKeepsInv(a, s, stream, Queue(s, stream)[1..]);
        BroadcastKeepsInv(a, t, Queue(s, stream)[0]);
      }
    case Write(c) => WriteKeepsInv(a, s, c);
    case Cancel => ShutdownKeepsInv(a, s);
  }

  // ------------------------------------------------------------ the broadcast loop

  ghost function StatesOf(clients: set<Client>): map<Client, ClientState>
    reads clients
  {
    map c | c in clients :: c.State()
  }

  lemma StateIn(clients: set<Client>, c: Client)
    requires c in clients
    ensures StatesOf(clients)[c] == c.State()
  {
  }

  /** When only one of the clients has moved, the states differ only there. */
  lemma OneMoved(clients: set<Client>, before: map<Client, ClientState>, c: Client)
    requires before.Keys == clients && c in clients && forall d | d in clients && d != c :: d.State() == before[d]
    ensures StatesOf(clients) == before[c := c.State()]
  {
  }

  /** The clients of the broadcast's map are accepted, open and of its stream. */
  ghost predicate TargetsOk(s: HubState, e: StreamEvent) {
    && s.logClients + s.alertClients <= s.clients.Keys
    && forall c | c in Registered(s, StreamOf(e)) ::
         c.stream == StreamOf(e) && c !in Registered(s, Other(StreamOf(e))) && !s.clients[c].closed
  }

  /** Progress of the broadcast loop from state `s`: of the clients of the map, those in `todo` are as before,
      the others have been served or evicted. */
  ghost predicate Served(a: Authorizer, e: StreamEvent, s: HubState, todo: set<Client>, now: map<Client, ClientState>,
                         registered: set<Client>) {
    var all := Registered(s, StreamOf(e));
    && now.Keys == all && all <= s.clients.Keys && registered <= all
    && forall c | c in all ::
         if c in todo then c in registered && now[c] == s.clients[c]
         else && now[c] == AfterBroadcast(a, c.Id(), s.clients[c], History(s, StreamOf(e)), e)
              && (c in registered <==> KeepsUp(a, c.Id(), s.clients[c], e))
  }

  lemma ServedAtFirst(a: Authorizer, e: StreamEvent, s: HubState)
    requires TargetsOk(s, e)
    ensures var all := Registered(s, StreamOf(e));
            all <= s.clients.Keys
            && Served(a, e, s, all, map c | c in all :: s.clients[c], all)
  {
  }

  lemma ServedMeans(a: Authorizer, e: StreamEvent, s: HubState, todo: set<Client>, now: map<Client, ClientState>,
                    registered: set<Client>, c: Client)
    requires TargetsOk(s, e) && Served(a, e, s, todo, now, registered) && c in todo && todo <= Registered(s, StreamOf(e))
    ensures registered <= s.clients.Keys && s.logClients + s.alertClients <= s.clients.Keys
    ensures c in registered && c in now && now[c] == s.clients[c] && !now[c].closed
    ensures c.stream == StreamOf(e) && c !in Registered(s, Other(StreamOf(e)))
  {
  }

  lemma ServedNext(a: Authorizer, e: StreamEvent, s: HubState, todo: set<Client>, now: map<Client, ClientState>,
                   registered: set<Client>, c: Client)
    requires Served(a, e, s, todo, now, registered) && c in todo && todo <= Registered(s, StreamOf(e))
    requires c in s.clients
    ensures Served(a, e, s, todo - {c}, now[c := AfterBroadcast(a, c.Id(), s.clients[c], History(s, StreamOf(e)), e)],
                   registered - (if KeepsUp(a, c.Id(), s.clients[c], e) then {} else {c}))
  {
    hide AfterBroadcast, KeepsUp;
  }

  lemma ServedAtLast(a: Authorizer, e: StreamEvent, s: HubState, now: map<Client, ClientState>, registered: set<Client>)
    requires Served(a, e, s, {}, now, registered)
    ensures registered == Remaining(a, s, e) && ServedClients(a, s, e).Keys == s.clients.Keys
    ensures forall c | c in s.clients ::
              ServedClients(a, s, e)[c] == if c in Registered(s, StreamOf(e)) then now[c] else s.clients[c]
  {
    hide AfterBroadcast, KeepsUp;
  }

  // ------------------------------------------------------------ the imperative hub

  class Hub {
    const authorizer: Authorizer
    var done: bool
    var logClients: set<Client>
    var alertClients: set<Client>
    var logQueue: seq<StreamEvent>
    var alertQueue: seq<StreamEvent>
    ghost var members: set<Client>
    ghost var logHistory: seq<StreamEvent>
    ghost var alertHistory: seq<StreamEvent>

    /** Without an authorizer everything is allowed. */
    constructor (authorizer: Option<Authorizer>)
      ensures this.authorizer == if authorizer.None? then AllowAll else authorizer.value
      ensures View() == INITIAL
    {
      this.authorizer := if authorizer.None? then AllowAll else authorizer.value;
      done := false;
      logClients, alertClients, members := {}, {}, {};
      logQueue, alertQueue, logHistory, alertHistory := [], [], [], [];
    }

    ghost function View(): HubState
      reads this, members
    {
      HubState(done, logClients, alertClients, map c | c in members :: c.State(), logQueue, alertQueue, logHistory,
               alertHistory)
    }

    /** The view is known by its fields and the state of each member. */
    lemma ViewIs(s: HubState)
      requires done == s.done && logClients == s.logClients && alertClients == s.alertClients
      requires logQueue == s.logQueue && alertQueue == s.alertQueue
      requires logHistory == s.logHistory && alertHistory == s.alertHistory
      requires members == s.clients.Keys && forall c | c in members :: c.State() == s.clients[c]
      ensures View() == s
    {
      assert View().clients == s.clients;
    }

    ghost predicate Valid()
      reads this, members
    {
      Inv(authorizer, View())
    }

    function Clients(stream: StreamType): set<Client>
      reads this
    {
      if stream.StreamLogs? then logClients else alertClients
    }

    ghost function Broadcasts(stream: StreamType): seq<StreamEvent>
      reads this
    {
      if stream.StreamLogs? then logHistory else alertHistory
    }

    /** `case client := <-h.register`. A connection registers its own new client once. */
    method HandleRegister(client: Client)
      requires !done && client !in members && client.State() == PRISTINE
      modifies this`logClients, this`alertClients, this`members, client
      ensures View() == RegisterStep(old(View()), client) && members == old(members) + {client}
    {
      hide PRISTINE;
      ghost var s := RegisterStep(View(), client);
      if client.stream == StreamLogs {
        logClients := logClients + {client};
      } else if client.stream == StreamAlerts {
        alertClients := alertClients + {client};
      }
      members := members + {client};
      client.joined := |Broadcasts(client.stream)|;
      ViewIs(s);
    }

    /** `removeClient`: a client in no map is left alone. */
    method RemoveClient(client: Client)
      requires logClients + alertClients <= members
      requires client in logClients + alertClients ==> !client.closed
      modifies this`logClients, this`alertClients, client
      ensures View() == RemoveStep(old(View()), client)
      ensures client !in old(logClients) + old(alertClients) ==> client.State() == old(client.State())
    {
      ghost var s := RemoveStep(View(), client);
      if client in logClients {
        logClients := logClients - {client};
        client.CloseSend(|Broadcasts(client.stream)|);
      } else if client in alertClients {
        alertClients := alertClients - {client};
        client.CloseSend(|Broadcasts(client.stream)|);
      }
      ViewIs(s);
    }

    /** The body of the broadcast loop for one client. */
    method SendTo(client: Client, e: StreamEvent)
      requires logClients + alertClients <= members && client !in Clients(Other(StreamOf(e)))
      requires client in Clients(StreamOf(e)) && client.stream == StreamOf(e) && !client.closed
      modifies this`logClients, this`alertClients, client
      ensures client.State() == AfterBroadcast(authorizer, client.Id(), old(client.State()), Broadcasts(StreamOf(e)), e)
      ensures Clients(StreamOf(e)) == old(Clients(StreamOf(e)))
                - (if KeepsUp(authorizer, client.Id(), old(client.State()), e) then {} else {client})
      ensures Clients(Other(StreamOf(e))) == old(Clients(Other(StreamOf(e))))
    {
      if Wants(authorizer, client.principal, client.subscription, e) {
        var sent := client.TrySend(e);
        if !sent {
          label full:
          RemoveClient(client);
          RemovedIs(old@full(View()), client);
        }
      }
    }

    lemma RemovedIs(before: HubState, client: Client)
      requires client in members && client in before.clients && client in before.logClients + before.alertClients
      requires View() == RemoveStep(before, client)
      ensures client.State() == Removed(before.clients[client], History(before, client.stream))
    {
      assert View().clients[client] == client.State();
    }

    /** The loop of `broadcastLog` and `broadcastAlert`: the clients of the map in any order; those that do
        not keep up are removed on the way. */
    method ServeInTurn(e: StreamEvent, all: set<Client>, ghost s: HubState)
      requires all == Registered(s, StreamOf(e)) && TargetsOk(s, e)
      requires s.clients.Keys == members && Broadcasts(StreamOf(e)) == History(s, StreamOf(e))
      requires Clients(Other(StreamOf(e))) == Registered(s, Other(StreamOf(e)))
      requires Served(authorizer, e, s, all, StatesOf(all), Clients(StreamOf(e)))
      modifies this`logClients, this`alertClients, all
      ensures Served(authorizer, e, s, {}, StatesOf(all), Clients(StreamOf(e)))
      ensures Clients(Other(StreamOf(e))) == old(Clients(Other(StreamOf(e))))
    {
      hide Served, TargetsOk, StatesOf;
      var todo := all;
      while todo != {}
        invariant todo <= all && Served(authorizer, e, s, todo, StatesOf(all), Clients(StreamOf(e)))
        invariant Clients(Other(StreamOf(e))) == old(Clients(Other(StreamOf(e))))
        decreases todo
      {
        todo := SendToNext(e, todo, all, s);
      }
    }

    /** Serve every client of the event's map. */
    method SendToAll(e: StreamEvent)
      requires Valid()
      modifies this`logClients, this`alertClients, Clients(StreamOf(e))
      ensures Clients(StreamOf(e)) == Remaining(authorizer, old(View()), e)
      ensures Clients(Other(StreamOf(e))) == old(Clients(Other(StreamOf(e))))
      ensures members == ServedClients(authorizer, old(View()), e).Keys
      ensures forall c | c in members :: c.State() == ServedClients(authorizer, old(View()), e)[c]
    {
      hide Served, Inv, ServedClients, Remaining, TargetsOk;
      ghost var all, s := Clients(StreamOf(e)), View();
      TargetsAreOpen(e);
      ServedAtFirst(authorizer, e, s);
      StatesAtFirst(all, s);
      ServeInTurn(e, Clients(StreamOf(e)), s);
      ServedAtLast(authorizer, e, s, StatesOf(all), Clients(StreamOf(e)));
      forall c | c in members ensures c.State() == ServedClients(authorizer, s, e)[c] {
        if c in all { StateIn(all, c); } else { assert c.State() == old(c.State()) == s.clients[c]; }
      }
    }

    /** One round of the broadcast loop, for an arbitrary remaining client. */
    method SendToNext(e: StreamEvent, todo: set<Client>, ghost all: set<Client>, ghost s: HubState)
        returns (rest: set<Client>)
      requires todo != {} && todo <= all == Registered(s, StreamOf(e)) && TargetsOk(s, e)
      requires s.clients.Keys == members && Broadcasts(StreamOf(e)) == History(s, StreamOf(e))
      requires Clients(Other(StreamOf(e))) == Registered(s, Other(StreamOf(e)))
      requires Served(authorizer, e, s, todo, StatesOf(all), Clients(StreamOf(e)))
      modifies this`logClients, this`alertClients, todo
      ensures rest < todo && Served(authorizer, e, s, rest, StatesOf(all), Clients(StreamOf(e)))
      ensures Clients(Other(StreamOf(e))) == old(Clients(Other(StreamOf(e))))
    {
      hide AfterBroadcast, KeepsUp, Served, TargetsOk;
      var client :| client in todo;
      rest := todo - {client};
      ghost var now, registered := StatesOf(all), Clients(StreamOf(e));
      ServedMeans(authorizer, e, s, todo, now, registered, client);
      StateIn(all, client);
      SendTo(client, e);
      assert forall c | c in all && c != client :: c.State() == old(c.State()) == now[c];
      OneMoved(all, now, client);
      ServedNext(authorizer, e, s, todo, now, registered, client);
    }

    lemma StatesAtFirst(all: set<Client>, s: HubState)
      requires s == View() && all <= members
      ensures StatesOf(all) == map c | c in all :: s.clients[c]
    {
    }

    lemma TargetsAreOpen(e: StreamEvent)
      requires Valid()
      ensures TargetsOk(View(), e)
    {
      forall c | c in Clients(StreamOf(e)) ensures c in members && !c.closed && View().clients[c] == c.State() {
        OpenWhileRegistered(c);
      }
    }

    ghost method Remember(e: StreamEvent)
      modifies this`logHistory, this`alertHistory
      ensures Broadcasts(StreamOf(e)) == old(Broadcasts(StreamOf(e))) + [e]
      ensures Broadcasts(Other(StreamOf(e))) == old(Broadcasts(Other(StreamOf(e))))
    {
      if StreamOf(e).StreamLogs? {
        logHistory := logHistory + [e];
      } else {
        alertHistory := alertHistory + [e];
      }
    }

    /** `broadcastLog` and `broadcastAlert`; an event that cannot be encoded is dropped. */
    method Broadcast(e: StreamEvent, encodes: bool)
      requires Valid()
      modifies this`logClients, this`alertClients, this`logHistory, this`alertHistory, Clients(StreamOf(e))
      ensures View() == if encodes then BroadcastStep(authorizer, old(View()), e) else old(View())
    {
      hide ServedClients, Remaining, Inv;
      if !encodes {
        return;
      }
      ghost var s := View();
      SendToAll(e);
      Remember(e);
      ViewIs(BroadcastStep(authorizer, s, e));
    }

    /** `case <-ctx.Done()`: announce the end, then `closeAllClients`. */
    method Shutdown()
      requires Valid() && !done
      modifies this`done, this`logClients, this`alertClients, logClients, alertClients
      ensures View() == ShutdownStep(old(View()))
    {
      hide Inv, ClosingAll;
      ghost var s := View();
      forall c | c in logClients + alertClients ensures !c.closed { OpenWhileRegistered(c); }
      MapsAreApart(authorizer, s);
      done := true;
      NothingClosedYet(s);
      while logClients != {}
        invariant logClients <= s.logClients && alertClients == s.alertClients && ClosingAll(s)
        decreases logClients
      {
        var client :| client in logClients;
        CloseNext(client, StreamLogs, s);
      }
      while alertClients != {}
        invariant logClients == {} && alertClients <= s.alertClients && ClosingAll(s)
        decreases alertClients
      {
        var client :| client in alertClients;
        CloseNext(client, StreamAlerts, s);
      }
      ClosingEnds(s);
    }

    /** One round of a shutdown loop: delete the client from the map and close its channel. */
    method CloseNext(client: Client, stream: StreamType, ghost s: HubState)
      requires ClosingAll(s) && client in Clients(stream) && Clients(stream) <= Registered(s, stream)
      modifies this`logClients, this`alertClients, client
      ensures ClosingAll(s) && Clients(stream) == old(Clients(stream)) - {client}
      ensures Clients(Other(stream)) == old(Clients(Other(stream)))
    {
      hide Removed;
      if stream.StreamLogs? {
        logClients := logClients - {client};
      } else {
        alertClients := alertClients - {client};
      }
      client.CloseSend(|Broadcasts(client.stream)|);
      assert client.State() == Removed(s.clients[client], History(s, client.stream)) by { ClosedIsRemoved(s, client); }
      assert forall c | c in members && c != client :: c.State() == old(c.State());
    }

    lemma ClosedIsRemoved(s: HubState, client: Client)
      requires client in s.clients
      ensures Removed(s.clients[client], History(s, client.stream))
           == s.clients[client].(closed := true, left := |History(s, client.stream)|)
    {
    }

    /** Progress of the shutdown loops: who has left its map is closed, everyone else is as before. */
    ghost predicate ClosingAll(s: HubState)
      reads this, members
    {
      && s.clients.Keys == members && logClients + alertClients <= members && s.logClients !! s.alertClients
      && logClients <= s.logClients && alertClients <= s.alertClients
      && done && logHistory == s.logHistory && alertHistory == s.alertHistory
      && logQueue == s.logQueue && alertQueue == s.alertQueue
      && forall c | c in members ::
           if c in s.logClients + s.alertClients && c !in logClients + alertClients
           then c.State() == Removed(s.clients[c], History(s, c.stream))
           else c.State() == s.clients[c] && (c in logClients + alertClients ==> !c.closed)
    }

    lemma NothingClosedYet(s: HubState)
      requires View() == s.(done := true) && s.logClients + s.alertClients <= members && s.logClients !! s.alertClients
      requires forall c | c in logClients + alertClients :: !c.closed
      ensures ClosingAll(s)
    {
      forall c | c in members ensures c.State() == s.clients[c] { assert View().clients[c] == c.State(); }
    }

    lemma ClosingEnds(s: HubState)
      requires ClosingAll(s) && logClients == {} && alertClients == {}
      ensures View() == ShutdownStep(s)
    {
      hide Removed;
      assert View().clients == ClosedClients(s);
    }

    lemma OpenWhileRegistered(c: Client)
      requires Valid() && c in logClients + alertClients
      ensures !c.closed && c in members
    {
      assert AcceptedOk(authorizer, View(), c) && View().clients[c] == c.State();
    }

    /** After shutdown the channel of every accepted client is closed. */
    lemma ShutdownClosesAll()
      requires Valid() && done
      ensures forall c | c in members :: c.closed
    {
      forall c | c in members ensures c.closed {
        assert AcceptedOk(authorizer, View(), c) && View().clients[c] == c.State();
      }
    }

    /** `PublishLog` and `PublishAlert`. The first `select` refuses when the hub is done; a publisher that
        passed it earlier (`checked`) can win the second one, which is random, even after that. `gaveUp` is
        the choice of the second `select` for the end of the hub or of the caller's context. */
    method Publish(e: StreamEvent, checked: bool, gaveUp: bool) returns (accepted: bool)
      modifies this`logQueue, this`alertQueue
      ensures var room := if e.LogItem? then |old(logQueue)| < 1024 else |old(alertQueue)| < 256;
              accepted == ((!old(done) || checked) && !gaveUp && room)
      ensures logQueue == old(logQueue) + (if accepted && e.LogItem? then [e] else [])
      ensures alertQueue == old(alertQueue) + (if accepted && e.AlertItem? then [e] else [])
      ensures View() == PublishStep(old(View()), e, checked, gaveUp)
    {
      if (done && !checked) || gaveUp {
        return false;
      }
      match e
      case LogItem(_) =>
        accepted := |logQueue| < LOG_QUEUE_SIZE;
        if accepted { logQueue := logQueue + [e]; }
      case AlertItem(_) =>
        accepted := |alertQueue| < ALERT_QUEUE_SIZE;
        if accepted { alertQueue := alertQueue + [e]; }
    }

    /** `case event := <-h.logQueue` and `case event := <-h.alertQueue`. */
    method TakeNext(stream: StreamType, encodes: bool)
      requires Valid()
      modifies this`logQueue, this`alertQueue, this`logClients, this`alertClients, this`logHistory, this`alertHistory
      modifies members
      ensures View() == TakeStep(authorizer, old(View()), stream, encodes)
    {
      hide BroadcastStep, AcceptedOk;
      ghost var s := View();
      if stream == StreamLogs && |logQueue| > 0 {
        var e := logQueue[0];
        QueueFacts(s, stream);
        logQueue := logQueue[1..];
        QueueKeepsInv(authorizer, s, stream, logQueue);
        assert View() == WithQueue(s, stream, logQueue);
        Broadcast(e, encodes);
      } else if stream == StreamAlerts && |alertQueue| > 0 {
        var e := alertQueue[0];
        QueueFacts(s, stream);
        alertQueue := alertQueue[1..];
        QueueKeepsInv(authorizer, s, stream, alertQueue);
        assert View() == WithQueue(s, stream, alertQueue);
        Broadcast(e, encodes);
      }
    }

    /** The write loop of a client takes one message. */
    method WriteLoopTakes(client: Client)
      modifies client
      ensures View() == WriteStep(old(View()), client)
      ensures client.State() == AfterReceive(old(client.State()))
    {
      client.Receive();
      assert forall c | c in members && c != client :: c.State() == old(c.State());
    }

    /** One turn of `Run`, of a publisher or of a write loop. */
    method Act(action: HubAction)
      requires Valid()
      requires action.Register? ==> action.client !in members && action.client.State() == PRISTINE
      modifies this, members, ClientOf(action)
      ensures Valid() && View() == Step(authorizer, old(View()), action)
      ensures forall c | c in ClientOf(action) && c !in members && old(c.State()) == PRISTINE :: c.State() == PRISTINE
    {
      hide AcceptedOk, QueuesOk, RegisterStep, RemoveStep, TakeStep, ShutdownStep, WriteStep, PublishStep;
      StepKeepsInv(authorizer, View(), action);
      match action
      case Register(client) =>
        if !done { HandleRegister(client); }
      case Unregister(client) =>
        if !done {
          if client in logClients + alertClients { OpenWhileRegistered(client); }
          RemoveClient(client);
        }
      case PublishEvent(e, checked, gaveUp) => var accepted := Publish(e, checked, gaveUp);
      case Take(stream, encodes) => if !done { TakeNext(stream, encodes); }
      case Write(client) => WriteLoopTakes(client);
      case Cancel => if !done { Shutdown(); }
    }

    /** The clients that the rest of a script registers are new and untouched. */
    ghost predicate Awaiting(script: seq<HubAction>, from: nat)
      reads this, set i | 0 <= i < |script| && script[i].Register? :: script[i].client
      requires from <= |script|
    {
      forall i | from <= i < |script| && script[i].Register? ::
        script[i].client !in members && script[i].client.State() == PRISTINE
    }

    /** Any interleaving of registrations, removals, publications, broadcasts, write loops and shutdown in
        which each client registers at most once leads to the state of the machine. */
    method Run(script: seq<HubAction>)
      requires Valid() && Awaiting(script, 0) && RegistersOnce(script)
      modifies this, members, AllClients(script)
      ensures Valid() && View() == RunFrom(authorizer, old(View()), script)
    {
      hide Inv, PRISTINE, Step, RunFrom;
      ghost var first := View();
      RunFromStart(authorizer, first, script);
      for i := 0 to |script|
        invariant Valid() && members <= old(members) + AllClients(script)
        invariant Awaiting(script, i) && View() == RunFrom(authorizer, first, script[..i])
      {
        RunFromNext(authorizer, first, script, i);
        assert ClientOf(script[i]) <= AllClients(script);
        label before:
        ghost var s := View();
        Act(script[i]);
        MembersGrow(authorizer, s, script[i]);
        assert members == View().clients.Keys && s.clients.Keys == old@before(members);
        forall j | i < j < |script| && script[j].Register?
          ensures script[j].client !in members && script[j].client.State() == PRISTINE
        {
          var c := script[j].client;
          assert c !in old@before(members) && old@before(c.State()) == PRISTINE;
          if c !in ClientOf(script[i]) { assert c.State() == old@before(c.State()); }
        }
      }
      assert script[..|script|] == script;
    }
  }

  lemma RunFromStart(a: Authorizer, s: HubState, script: seq<HubAction>)
    ensures RunFrom(a, s, script[..0]) == s
  {
  }

  lemma RunFromNext(a: Authorizer, s: HubState, script: seq<HubAction>, i: nat)
    requires i < |script|
    ensures RunFrom(a, s, script[..i + 1]) == Step(a, RunFrom(a, s, script[..i]), script[i])
  {
    hide Step;
    assert script[..i + 1][..i] == script[..i];
  }

  /** An action accepts at most the client that it registers. */
  lemma MembersGrow(a: Authorizer, s: HubState, action: HubAction)
    ensures s.clients.Keys <= Step(a, s, action).clients.Keys
    ensures Step(a, s, action).clients.Keys <= s.clients.Keys + (if action.Register? then {action.client} else {})
  {
    hide AfterBroadcast, KeepsUp;
  }

  /** No client is registered twice. */
  ghost predicate RegistersOnce(script: seq<HubAction>) {
    forall i, j | 0 <= i < j < |script| && script[i].Register? && script[j].Register? ::
      script[i].client != script[j].client
  }

  ghost function AllClients(script: seq<HubAction>): set<Client> {
    set i, c | 0 <= i < |script| && c in ClientOf(script[i]) :: c
  }

  function ClientOf(a: HubAction): set<Client> {
    match a
    case Register(client) => {client}
    case Unregister(client) => {client}
    case Write(client) => {client}
    case _ => {}
  }
}
