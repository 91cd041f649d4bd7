/**
  The WebSocket command server: an event-driven state machine with one current
  connection, one timer, a message buffer, a deferred reconnect and a shutdown flag.

  `World` holds the server's own fields next to the part of the WebSocket library that
  the server can observe. Every library callback, timer expiry and posted task is an
  `Event`; `Enabled` writes down what the library and the message handler promise, and
  `Step` is what the server does with the event.
 */
module CommandServerModel {
  import opened Basics

  datatype State =
    | Uninitialized
    | NotConnected
    | Connecting
    | WaitingForRequest
    | Replying
    | Closing
    | ShutDown

  /** A connection is named by the order in which the endpoint created it. */
  type Conn = nat

  datatype Message = Message(origin: Conn, payload: seq<char>)

  /** A created connection is Fresh until it is handed to `endpoint.connect`. */
  datatype Phase = Fresh | Opening | Open | Leaving | Gone

  /** `pinging` says that a ping was sent and neither a pong nor a pong timeout came;
      `muted` that the last keepalive event was a pong timeout the server ignored.
      `received` and `handled` are histories, and `finished` is the number of replies that were
      reported done while the connection was live. */
  datatype Link = Link(phase: Phase, pinging: bool, muted: bool, received: seq<Message>, handled: seq<Message>,
                       finished: nat)

  /** What one call of the message handler does: reply at once or later, and possibly
      start closing the connection. */
  datatype Reply = Reply(atOnce: bool, hangsUp: bool)

  /** The n-th call of the message handler behaves as `handler(n)` says. */
  type Handler = nat -> Reply

  datatype World = World(
    state: State,
    conn: Option<Conn>,
    timer: bool,
    buffer: seq<Message>,
    reconnectAfterReply: bool,
    shuttingDown: bool,
    aborted: bool,      // a P_BUG or P_ASSERT_EQ was hit
    links: seq<Link>,
    owed: set<Conn>,    // connections whose handler still has to call doneReplying
    calls: nat)         // number of message handler calls so far

  /** How far `startConnect` gets. */
  datatype Attempt = NoSocket | BadConfig | BadAuth | Started

  datatype Event =
    | Opened(c: Conn)
    | Failed(c: Conn)
    | Dropped(c: Conn)    // the library notices the end of the connection, no callback yet
    | Closed(c: Conn)
    | Timeout(attempt: Attempt, pingOk: bool)
    | Pong(c: Conn)
    | PongTimeout(c: Conn)
    | Incoming(c: Conn, payload: seq<char>)
    | ReplyDone(c: Conn)
    | ConfigCommit(reconnect: bool)
    | Shutdown

  // ----- the server's operations, as functions of the world

  predicate IsCurrent(w: World, c: Conn) {
    w.conn == Some(c)
  }

  predicate IsConnected(w: World, c: Conn) {
    IsCurrent(w, c) && c < |w.links| && w.links[c].phase in {Fresh, Opening, Open}
  }

  function SetPhase(w: World, c: Conn, p: Phase): World {
    if c < |w.links| then w.(links := w.links[c := w.links[c].(phase := p)]) else w
  }

  /** `restartTimer`: arming the timer also ends the muted condition of the current connection. */
  function RestartTimer(w: World): World {
    var w := w.(timer := true);
    if w.conn.Some? && w.conn.value < |w.links| then
      w.(links := w.links[w.conn.value := w.links[w.conn.value].(muted := false)])
    else w
  }

  function StartConnect(w: World, attempt: Attempt): World {
    match attempt
    case NoSocket => RestartTimer(w.(conn := None, state := NotConnected))
    case Started =>
      w.(conn := Some(|w.links|), state := Connecting, links := w.links + [Link(Opening, false, false, [], [], 0)])
    case _ =>
      RestartTimer(
        w.(conn := Some(|w.links|), state := NotConnected, links := w.links + [Link(Fresh, false, false, [], [], 0)]))
  }

  function CloseConnection(w: World): World {
    var w := w.(reconnectAfterReply := false, timer := false);
    var w :=
      if w.conn.Some? then
        var c := w.conn.value;
        (if c < |w.links| && w.links[c].phase == Open then SetPhase(w, c, Leaving) else w).(conn := None)
      else w;
    var w := w.(state := NotConnected);
    if w.shuttingDown then w else RestartTimer(w)
  }

  function InternalReconnect(w: World): World {
    match w.state
    case NotConnected => w
    case Connecting => CloseConnection(w)
    case WaitingForRequest => CloseConnection(w)
    case Replying => w.(reconnectAfterReply := true)
    case _ => w.(aborted := true)
  }

  /** The message handler is called for `m` on connection `c`. */
  function CallHandler(w: World, c: Conn, m: Message, h: Handler): World
    requires c < |w.links|
  {
    var l := w.links[c];
    var r := h(w.calls);
    w.(links := w.links[c := l.(handled := l.handled + [m],
                                phase := if r.hangsUp && l.phase == Open then Leaving else l.phase)],
       owed := if r.atOnce then w.owed else w.owed + {c},
       calls := w.calls + 1)
  }

  function DoneReplying(w: World, c: Conn, h: Handler): World
    decreases |w.buffer|
  {
    if !IsConnected(w, c) then w
    else if w.state != Replying then w.(aborted := true)
    else
      var w := LogFinished(w, c).(state := WaitingForRequest);
      if w.reconnectAfterReply then InternalReconnect(w.(reconnectAfterReply := false))
      else if w.buffer == [] then w
      else
        var n := w.calls;
        var w := CallHandler(w.(buffer := w.buffer[1..], state := Replying), c, w.buffer[0], h);
        if h(n).atOnce then DoneReplying(w, c, h) else w
  }

  function OnConnected(w: World, c: Conn): World {
    if !IsConnected(w, c) then w
    else RestartTimer(w.(state := WaitingForRequest, buffer := []))
  }

  function OnConnectFailed(w: World, c: Conn): World {
    if !IsCurrent(w, c) then w else RestartTimer(w.(state := NotConnected))
  }

  function OnConnectionClosed(w: World, c: Conn): World {
    if !IsCurrent(w, c) then w
    else
      var w := w.(state := NotConnected, reconnectAfterReply := false);
      if w.shuttingDown then w.(timer := false) else RestartTimer(w)
  }

  function OnTimeout(w: World, attempt: Attempt, pingOk: bool): World {
    match w.state
    case NotConnected => StartConnect(w, attempt)
    case WaitingForRequest => SendPing(w, pingOk)
    case Replying => SendPing(w, pingOk)
    case _ => w.(aborted := true)
  }

  function SendPing(w: World, pingOk: bool): World {
    if !pingOk then CloseConnection(w)
    else if w.conn.Some? && w.conn.value < |w.links| then
      w.(links := w.links[w.conn.value := w.links[w.conn.value].(pinging := true)])
    else w
  }

  function OnPong(w: World, c: Conn): World {
    if !IsConnected(w, c) then w else RestartTimer(w)
  }

  function OnPongTimeout(w: World, c: Conn): World {
    if !IsCurrent(w, c) then w
    else if w.state == Replying then
      if c < |w.links| then w.(links := w.links[c := w.links[c].(muted := true)]) else w
    else CloseConnection(w)
  }

  function OnMessage(w: World, c: Conn, m: Message, h: Handler): World {
    if !IsConnected(w, c) then w
    else
      match w.state
      case WaitingForRequest =>
        var n := w.calls;
        var w := CallHandler(LogReceived(w, c, m).(state := Replying), c, m, h);
        if h(n).atOnce then DoneReplying(w, c, h) else w
      case Closing => w
      case Replying => LogReceived(w, c, m).(buffer := w.buffer + [m])
      case _ => w.(aborted := true)
  }

  function LogReceived(w: World, c: Conn, m: Message): World
    requires c < |w.links|
  {
    w.(links := w.links[c := w.links[c].(received := w.links[c].received + [m])])
  }

  function LogFinished(w: World, c: Conn): World
    requires c < |w.links|
  {
    w.(links := w.links[c := w.links[c].(finished := w.links[c].finished + 1)])
  }

  function InternalShutdown(w: World): World {
    CloseConnection(w.(shuttingDown := true))
  }

  // ----- runs

  predicate HasOpened(w: World, c: Conn) {
    c < |w.links| && w.links[c].phase in {Open, Leaving, Gone}
  }

  /** What the library, the timer and the message handler promise:
      an open comes once and before any message or pong; a failure only for a connection that
      never opened; a pong timeout only after a ping; a timer fires only while it is armed;
      a handler that did not reply at once reports later, once. */
  predicate Enabled(w: World, e: Event) {
    match e
    case Opened(c) => c < |w.links| && w.links[c].phase == Opening
    case Failed(c) => c < |w.links| && w.links[c].phase == Opening
    case Dropped(c) => c < |w.links| && w.links[c].phase == Open
    case Closed(c) => c < |w.links| && w.links[c].phase in {Open, Leaving}
    case Timeout(_, _) => w.timer
    case Pong(c) => HasOpened(w, c)
    case PongTimeout(c) => HasOpened(w, c) && w.links[c].pinging
    case Incoming(c, _) => HasOpened(w, c)
    case ReplyDone(c) => c in w.owed
    case ConfigCommit(_) => true
    case Shutdown => true
  }

  function SetPinging(w: World, c: Conn, p: bool): World {
    if c < |w.links| then w.(links := w.links[c := w.links[c].(pinging := p)]) else w
  }

  /** The library's own change of state, then the server's callback. */
  function Step(w: World, e: Event, h: Handler): World {
    match e
    case Opened(c) => OnConnected(SetPhase(w, c, Open), c)
    case Failed(c) => OnConnectFailed(SetPhase(w, c, Gone), c)
    case Dropped(c) => SetPhase(w, c, Leaving)
    case Closed(c) => OnConnectionClosed(SetPhase(w, c, Gone), c)
    case Timeout(attempt, pingOk) => OnTimeout(w.(timer := false), attempt, pingOk)
    case Pong(c) => OnPong(SetPinging(w, c, false), c)
    case PongTimeout(c) => OnPongTimeout(SetPinging(w, c, false), c)
    case Incoming(c, payload) => OnMessage(w, c, Message(c, payload), h)
    case ReplyDone(c) => DoneReplying(w.(owed := w.owed - {c}), c, h)
    case ConfigCommit(reconnect) => if reconnect then InternalReconnect(w) else w
    case Shutdown => InternalShutdown(w)
  }

  function Initial(attempt: Attempt): World {
    StartConnect(World(NotConnected, None, false, [], false, false, false, [], {}, 0), attempt)
  }

  predicate Legal(w: World, es: seq<Event>, h: Handler)
    decreases |es|
  {
    es == [] || (Enabled(w, es[0]) && Legal(Step(w, es[0], h), es[1..], h))
  }

  function Run(w: World, es: seq<Event>, h: Handler): World
    decreases |es|
  {
    if es == [] then w else Run(Step(w, es[0], h), es[1..], h)
  }

  // ----- what holds between events

  /** States, current connection, timer and flags agree. */
  predicate Coherent(w: World) {
    && !w.aborted
    && w.state in {NotConnected, Connecting, WaitingForRequest, Replying}
    && (w.conn.Some? ==> w.conn.value < |w.links|)
    && (w.state == NotConnected ==> w.conn.Some? ==> w.links[w.conn.value].phase in {Fresh, Gone})
    && (w.state == Connecting ==> w.conn.Some? && w.links[w.conn.value].phase == Opening && !w.timer)
    && (w.state in {WaitingForRequest, Replying} ==> w.conn.Some? && w.links[w.conn.value].phase in {Open, Leaving})
    && (w.state == NotConnected && !w.shuttingDown ==> w.timer)
    && (w.shuttingDown ==> w.state == NotConnected && w.conn == None && !w.timer)
    && (w.reconnectAfterReply ==> w.state == Replying)
  }

  /** Who still owes a call of doneReplying. */
  predicate Accounted(w: World)
    requires Coherent(w)
  {
    && (forall c <- w.owed :: HasOpened(w, c))
    && (w.state == WaitingForRequest ==> w.conn.value !in w.owed)
    && (w.state == Replying && w.links[w.conn.value].phase == Open ==> w.conn.value in w.owed)
  }

  /** Messages are handed over in order, each once, and only on the connection they came from; every
      reply but the one under way is finished. */
  predicate Delivering(w: World)
    requires Coherent(w)
  {
    && (w.state == WaitingForRequest ==> w.buffer == [])
    && (w.state in {WaitingForRequest, Replying} ==>
          && w.links[w.conn.value].handled + w.buffer == w.links[w.conn.value].received
          && |w.links[w.conn.value].handled| ==
               w.links[w.conn.value].finished + if w.state == Replying then 1 else 0)
    && (forall c | 0 <= c < |w.links| :: LinkSound(w.links[c], c))
  }

  predicate LinkSound(l: Link, c: Conn) {
    && l.handled <= l.received
    && l.finished <= |l.handled|
    && (l.phase in {Fresh, Opening} ==> l.received == [] && !l.pinging)
    && forall m <- l.received :: m.origin == c
  }

  /** On a connected link the keepalive chain is idle exactly when a pong timeout was ignored. */
  predicate KeepaliveTracked(w: World)
    requires Coherent(w)
  {
    w.state in {WaitingForRequest, Replying} && w.links[w.conn.value].phase == Open ==>
      var l := w.links[w.conn.value];
      && (l.muted <==> !w.timer && !l.pinging)
      && !(w.timer && l.pinging)
  }

  predicate Inv(w: World) {
    Coherent(w) && Accounted(w) && Delivering(w) && KeepaliveTracked(w)
  }

  lemma CloseKeepsInv(w: World)
    requires !w.aborted && (w.conn.Some? ==> w.conn.value < |w.links|)
    requires forall c | 0 <= c < |w.links| :: LinkSound(w.links[c], c)
    requires forall c <- w.owed :: HasOpened(w, c)
    ensures Inv(CloseConnection(w))
  {
  }

  /** What doneReplying needs: a live current connection is Replying, and its handler reported. */
  predicate Reported(w: World, c: Conn) {
    && Coherent(w)
    && (forall d <- w.owed :: HasOpened(w, d))
    && Delivering(w)
    && KeepaliveTracked(w)
    && HasOpened(w, c)
    && c !in w.owed
    && (IsCurrent(w, c) && w.links[c].phase == Open ==> w.state == Replying)
    && (!IsConnected(w, c) ==> Accounted(w))
  }

  /** `doneReplying` never finds a state other than Replying on a live connection, and its loop
      over the buffer keeps every message in order. */
  lemma {:induction false} DoneReplyingKeepsInv(w: World, c: Conn, h: Handler)
    requires Reported(w, c)
    ensures Inv(DoneReplying(w, c, h))
    decreases |w.buffer|
  {
    if IsConnected(w, c) {
      assert LinkSound(w.links[c], c);
      var u := LogFinished(w, c);
      FinishedKeepsLinks(w, c);
      if w.reconnectAfterReply {
        CloseKeepsInv(u.(state := WaitingForRequest, reconnectAfterReply := false));
      } else if w.buffer != [] {
        var v := CallHandler(u.(buffer := w.buffer[1..], state := Replying), c, w.buffer[0], h);
        HandlerKeepsDelivery(u.(buffer := w.buffer[1..], state := Replying), c, w.buffer[0], h);
        if h(w.calls).atOnce {
          DoneReplyingKeepsInv(v, c, h);
        }
      }
    }
  }

  /** Handing the next undelivered message to the handler keeps the delivery invariant. */
  lemma HandlerKeepsDelivery(w: World, c: Conn, m: Message, h: Handler)
    requires c < |w.links| && IsConnected(w, c) && w.links[c].phase == Open
    requires w.links[c].handled + [m] + w.buffer == w.links[c].received
    requires forall d | 0 <= d < |w.links| :: LinkSound(w.links[d], d)
    ensures
      var v := CallHandler(w, c, m, h);
      && v.links[c].handled + v.buffer == v.links[c].received
      && |v.links[c].handled| == |w.links[c].handled| + 1 && v.links[c].finished == w.links[c].finished
      && forall d | 0 <= d < |v.links| :: LinkSound(v.links[d], d)
  {
  }

  /** Recording the end of a reply keeps every history sound. */
  lemma FinishedKeepsLinks(w: World, c: Conn)
    requires c < |w.links| && w.links[c].finished < |w.links[c].handled|
    requires forall d | 0 <= d < |w.links| :: LinkSound(w.links[d], d)
    ensures forall d | 0 <= d < |w.links| :: LinkSound(LogFinished(w, c).links[d], d)
  {
  }

  /** Recording a received message keeps every history sound. */
  lemma ReceivedKeepsLinks(w: World, c: Conn, m: Message)
    requires c < |w.links| && w.links[c].phase == Open && m.origin == c
    requires forall d | 0 <= d < |w.links| :: LinkSound(w.links[d], d)
    ensures forall d | 0 <= d < |w.links| :: LinkSound(LogReceived(w, c, m).links[d], d)
  {
  }

  lemma IncomingKeepsInv(w: World, c: Conn, m: Message, h: Handler)
    requires Inv(w) && HasOpened(w, c) && m.origin == c
    ensures Inv(OnMessage(w, c, m, h))
  {
    hide DoneReplying, LinkSound;
    if IsConnected(w, c) {
      ReceivedKeepsLinks(w, c, m);
      if w.state == WaitingForRequest {
        var v := LogReceived(w, c, m).(state := Replying);
        HandlerKeepsDelivery(v, c, m, h);
        if h(w.calls).atOnce {
          DoneReplyingKeepsInv(CallHandler(v, c, m, h), c, h);
        }
      }
    }
  }

  lemma TimeoutKeepsInv(w: World, attempt: Attempt, pingOk: bool)
    requires Inv(w) && w.timer
    ensures Inv(OnTimeout(w.(timer := false), attempt, pingOk))
  {
    var u := w.(timer := false);
    var v := OnTimeout(u, attempt, pingOk);
    if w.state != NotConnected && !pingOk {
      CloseKeepsInv(u);
    } else {
      forall d | 0 <= d < |v.links| ensures LinkSound(v.links[d], d) {
        if d < |w.links| { assert LinkSound(w.links[d], d); }
      }
    }
  }

  /** Changes of the library's own bookkeeping do not touch the message histories. */
  lemma BookkeepingKeepsLinks(w: World, c: Conn, p: Phase)
    requires forall d | 0 <= d < |w.links| :: LinkSound(w.links[d], d)
    requires p in {Open, Leaving, Gone}
    ensures forall d | 0 <= d < |w.links| :: LinkSound(SetPhase(w, c, p).links[d], d)
    ensures forall d | 0 <= d < |w.links| :: LinkSound(SetPinging(w, c, false).links[d], d)
  {
  }

  lemma ArmingKeepsLinks(w: World)
    requires forall d | 0 <= d < |w.links| :: LinkSound(w.links[d], d)
    ensures
      var v := RestartTimer(w);
      |v.links| == |w.links| && forall d | 0 <= d < |v.links| :: LinkSound(v.links[d], d)
  {
  }

  lemma OpenedKeepsInv(w: World, c: Conn)
    requires Inv(w) && c < |w.links| && w.links[c].phase == Opening
    ensures Inv(OnConnected(SetPhase(w, c, Open), c))
  {
    BookkeepingKeepsLinks(w, c, Open);
    ArmingKeepsLinks(SetPhase(w, c, Open).(state := WaitingForRequest, buffer := []));
    assert LinkSound(w.links[c], c);
    assert w.links[c].handled == [] && w.links[c].received == [] && w.links[c].finished == 0;
    hide LinkSound;
  }

  lemma FailedKeepsInv(w: World, c: Conn)
    requires Inv(w) && c < |w.links| && w.links[c].phase == Opening
    ensures Inv(OnConnectFailed(SetPhase(w, c, Gone), c))
  {
    BookkeepingKeepsLinks(w, c, Gone);
    ArmingKeepsLinks(SetPhase(w, c, Gone).(state := NotConnected));
    hide LinkSound;
  }

  lemma ClosedKeepsInv(w: World, c: Conn)
    requires Inv(w) && c < |w.links| && w.links[c].phase in {Open, Leaving}
    ensures Inv(OnConnectionClosed(SetPhase(w, c, Gone), c))
  {
    BookkeepingKeepsLinks(w, c, Gone);
    ArmingKeepsLinks(SetPhase(w, c, Gone).(state := NotConnected, reconnectAfterReply := false));
    hide LinkSound;
  }

  lemma DroppedKeepsInv(w: World, c: Conn)
    requires Inv(w) && c < |w.links| && w.links[c].phase == Open
    ensures Inv(SetPhase(w, c, Leaving))
  {
  }

  lemma PongKeepsInv(w: World, c: Conn)
    requires Inv(w) && HasOpened(w, c)
    ensures Inv(OnPong(SetPinging(w, c, false), c))
  {
    BookkeepingKeepsLinks(w, c, Open);
    ArmingKeepsLinks(SetPinging(w, c, false));
    hide LinkSound;
  }

  lemma PongTimeoutKeepsInv(w: World, c: Conn)
    requires Inv(w) && HasOpened(w, c) && w.links[c].pinging
    ensures Inv(OnPongTimeout(SetPinging(w, c, false), c))
  {
    BookkeepingKeepsLinks(w, c, Open);
    var u := SetPinging(w, c, false);
    if IsCurrent(u, c) && w.state == Replying {
      var v := OnPongTimeout(u, c);
      forall d | 0 <= d < |v.links| ensures LinkSound(v.links[d], d) {
        assert LinkSound(u.links[d], d);
      }
    } else {
      CloseKeepsInv(u);
    }
  }

  /** No step of the environment breaks the invariant; in particular none aborts the server. */
  lemma StepKeepsInv(w: World, e: Event, h: Handler)
    requires Inv(w) && Enabled(w, e)
    ensures Inv(Step(w, e, h))
  {
    hide CloseConnection, OnConnected, OnConnectFailed, OnConnectionClosed, OnTimeout, OnPong, OnPongTimeout,
      OnMessage, DoneReplying;
    match e
    case Opened(c) => OpenedKeepsInv(w, c);
    case Failed(c) => FailedKeepsInv(w, c);
    case Dropped(c) => DroppedKeepsInv(w, c);
    case Closed(c) => ClosedKeepsInv(w, c);
    case Timeout(attempt, pingOk) => TimeoutKeepsInv(w, attempt, pingOk);
    case Pong(c) => PongKeepsInv(w, c);
    case PongTimeout(c) => PongTimeoutKeepsInv(w, c);
    case Incoming(c, payload) => IncomingKeepsInv(w, c, Message(c, payload), h);
    case ReplyDone(c) => DoneReplyingKeepsInv(w.(owed := w.owed - {c}), c, h);
    case ConfigCommit(_) => CloseKeepsInv(w);
    case Shutdown => CloseKeepsInv(w.(shuttingDown := true));
  }

  /** After every run the invariant holds. */
  lemma {:induction false} RunKeepsInv(w: World, es: seq<Event>, h: Handler)
    requires Inv(w) && Legal(w, es, h)
    ensures Inv(Run(w, es, h))
    decreases |es|
  {
    if es != [] {
      StepKeepsInv(w, es[0], h);
      RunKeepsInv(Step(w, es[0], h), es[1..], h);
    }
  }

  /** Whatever the library, the timer, the handler and the administrator do, no unsupported state
      is ever met and the invariant holds between events. */
  lemma EveryRunIsSound(attempt: Attempt, es: seq<Event>, h: Handler)
    requires Legal(Initial(attempt), es, h)
    ensures Inv(Run(Initial(attempt), es, h))
  {
    var w := Initial(attempt);
    assert forall c | 0 <= c < |w.links| :: LinkSound(w.links[c], c);
    RunKeepsInv(w, es, h);
  }

  // ----- connections of the past

  predicate Past(w: World, c: Conn) {
    c < |w.links| && !IsCurrent(w, c)
  }

  /** `c` is still past in `v`, and its histories are those it had in `w`. */
  predicate Spared(w: World, v: World, c: Conn) {
    && Past(w, c) && Past(v, c)
    && v.links[c].handled == w.links[c].handled
    && v.links[c].received == w.links[c].received
    && v.links[c].finished == w.links[c].finished
  }

  lemma ClosingSparesPast(w: World, c: Conn)
    requires Past(w, c)
    ensures Spared(w, CloseConnection(w), c)
    ensures Spared(w, RestartTimer(w), c)
  {
  }

  /** Ending a reply and calling the handler concern the connection at hand only. */
  lemma HandlingSparesPast(w: World, d: Conn, m: Message, h: Handler, c: Conn)
    requires Past(w, c) && IsConnected(w, d)
    ensures Spared(w, LogFinished(w, d), c)
    ensures Spared(w, CallHandler(w, d, m, h), c)
  {
  }

  lemma {:induction false} DoneReplyingSparesPast(w: World, d: Conn, h: Handler, c: Conn)
    requires Past(w, c)
    ensures Spared(w, DoneReplying(w, d, h), c)
    decreases |w.buffer|
  {
    if IsConnected(w, d) && w.state == Replying {
      var u := LogFinished(w, d).(state := WaitingForRequest);
      HandlingSparesPast(w, d, Message(d, ""), h, c);
      if w.reconnectAfterReply {
        hide CloseConnection, LogFinished;
        ClosingSparesPast(u.(reconnectAfterReply := false), c);
      } else if w.buffer != [] {
        var x := u.(buffer := w.buffer[1..], state := Replying);
        var y := CallHandler(x, d, w.buffer[0], h);
        assert IsConnected(x, d) && |y.buffer| < |w.buffer|;
        HandlingSparesPast(x, d, w.buffer[0], h, c);
        hide CloseConnection, LogFinished, CallHandler;
        if h(w.calls).atOnce {
          DoneReplyingSparesPast(y, d, h, c);
        }
      }
    }
  }

  lemma IncomingSparesPast(w: World, d: Conn, m: Message, h: Handler, c: Conn)
    requires Past(w, c)
    ensures Spared(w, OnMessage(w, d, m, h), c)
  {
    if IsConnected(w, d) && w.state == WaitingForRequest {
      DoneReplyingSparesPast(CallHandler(LogReceived(w, d, m).(state := Replying), d, m, h), d, h, c);
    }
  }

  lemma TimerSparesPast(w: World, attempt: Attempt, pingOk: bool, c: Conn)
    requires Past(w, c)
    ensures Spared(w, StartConnect(w, attempt), c)
    ensures Spared(w, SendPing(w, pingOk), c)
  {
    ClosingSparesPast(w, c);
  }

  /** The library's bookkeeping and the callbacks of other connections. */
  lemma CallbackSparesPast(w: World, d: Conn, p: Phase, c: Conn)
    requires Past(w, c)
    ensures Spared(w, SetPhase(w, d, p), c)
    ensures Spared(w, SetPinging(w, d, false), c)
    ensures Spared(w, OnConnected(w, d), c)
  {
    hide RestartTimer;
    ClosingSparesPast(w.(state := WaitingForRequest, buffer := []), c);
  }

  lemma EndSparesPast(w: World, d: Conn, c: Conn)
    requires Past(w, c)
    ensures Spared(w, OnConnectFailed(w, d), c)
    ensures Spared(w, OnConnectionClosed(w, d), c)
    ensures Spared(w, OnPong(w, d), c)
    ensures Spared(w, OnPongTimeout(w, d), c)
  {
    hide CloseConnection, RestartTimer;
    ClosingSparesPast(w, c);
    ClosingSparesPast(w.(state := NotConnected), c);
    ClosingSparesPast(w.(state := NotConnected, reconnectAfterReply := false), c);
  }

  lemma LinkEventSparesPast(w: World, e: Event, h: Handler, c: Conn)
    requires Past(w, c) && (e.Opened? || e.Failed? || e.Closed? || e.Dropped?)
    ensures Spared(w, Step(w, e, h), c)
  {
    hide OnConnected, OnConnectFailed, OnConnectionClosed, SetPhase, SetPinging;
    var p := if e.Opened? then Open else if e.Dropped? then Leaving else Gone;
    CallbackSparesPast(w, e.c, p, c);
    CallbackSparesPast(SetPhase(w, e.c, p), e.c, p, c);
    EndSparesPast(SetPhase(w, e.c, p), e.c, c);
  }

  lemma PingSparesPast(w: World, e: Event, h: Handler, c: Conn)
    requires Past(w, c) && (e.Pong? || e.PongTimeout?)
    ensures Spared(w, Step(w, e, h), c)
  {
    hide OnPong, OnPongTimeout, SetPhase, SetPinging;
    CallbackSparesPast(w, e.c, Open, c);
    EndSparesPast(SetPinging(w, e.c, false), e.c, c);
  }

  lemma TimeoutSparesPast(w: World, e: Event, h: Handler, c: Conn)
    requires Past(w, c) && (e.Timeout? || e.ConfigCommit? || e.Shutdown?)
    ensures Spared(w, Step(w, e, h), c)
  {
    hide CloseConnection, RestartTimer, StartConnect, SendPing;
    ClosingSparesPast(w, c);
    ClosingSparesPast(w.(shuttingDown := true), c);
    if e.Timeout? {
      TimerSparesPast(w.(timer := false), e.attempt, e.pingOk, c);
    }
  }

  lemma StepSparesPast(w: World, e: Event, h: Handler, c: Conn)
    requires Past(w, c)
    ensures Spared(w, Step(w, e, h), c)
  {
    if e.Incoming? {
      hide OnMessage;
      IncomingSparesPast(w, e.c, Message(e.c, e.payload), h, c);
    } else if e.ReplyDone? {
      hide DoneReplying;
      DoneReplyingSparesPast(w.(owed := w.owed - {e.c}), e.c, h, c);
    } else {
      hide Step, Past, Spared;
      if e.Pong? || e.PongTimeout? {
        PingSparesPast(w, e, h, c);
      } else if e.Timeout? || e.ConfigCommit? || e.Shutdown? {
        TimeoutSparesPast(w, e, h, c);
      } else {
        LinkEventSparesPast(w, e, h, c);
      }
    }
  }

  /** A connection that stopped being current never becomes current again, and neither its
      received nor its handled messages change any more. */
  lemma {:induction false} RunSparesPast(w: World, es: seq<Event>, h: Handler, c: Conn)
    requires Past(w, c)
    ensures Spared(w, Run(w, es, h), c)
    decreases |es|
  {
    if es != [] {
      StepSparesPast(w, es[0], h, c);
      RunSparesPast(Step(w, es[0], h), es[1..], h, c);
    }
  }

  // ----- connections that are closed, and reconnecting

  /** The connection is closed or being closed. */
  predicate Severed(w: World, c: Conn) {
    c < |w.links| && w.links[c].phase in {Leaving, Gone}
  }

  lemma HelpersKeepSevered(w: World, c: Conn)
    requires Severed(w, c)
    ensures Severed(CloseConnection(w), c) && Severed(RestartTimer(w), c)
  {
  }

  lemma {:induction false} DoneReplyingKeepsSevered(w: World, d: Conn, h: Handler, c: Conn)
    requires Severed(w, c)
    ensures Severed(DoneReplying(w, d, h), c)
    decreases |w.buffer|
  {
    if IsConnected(w, d) && w.state == Replying {
      var u := LogFinished(w, d).(state := WaitingForRequest);
      assert Severed(u, c);
      if w.reconnectAfterReply {
        hide CloseConnection, LogFinished;
        HelpersKeepSevered(u.(reconnectAfterReply := false), c);
      } else if w.buffer != [] {
        var y := CallHandler(u.(buffer := w.buffer[1..], state := Replying), d, w.buffer[0], h);
        assert Severed(y, c) && |y.buffer| < |w.buffer|;
        hide LogFinished, CallHandler;
        if h(w.calls).atOnce {
          DoneReplyingKeepsSevered(y, d, h, c);
        }
      }
    }
  }

  lemma MessagesKeepSevered(w: World, e: Event, h: Handler, c: Conn)
    requires Severed(w, c) && (e.Incoming? || e.ReplyDone?)
    ensures Severed(Step(w, e, h), c)
  {
    if e.ReplyDone? {
      hide DoneReplying;
      DoneReplyingKeepsSevered(w.(owed := w.owed - {e.c}), e.c, h, c);
    } else if IsConnected(w, e.c) && w.state == WaitingForRequest {
      var m := Message(e.c, e.payload);
      var u := CallHandler(LogReceived(w, e.c, m).(state := Replying), e.c, m, h);
      assert Severed(u, c);
      hide DoneReplying;
      DoneReplyingKeepsSevered(u, e.c, h, c);
    }
  }

  lemma StartConnectKeepsSevered(w: World, attempt: Attempt, c: Conn)
    requires Severed(w, c)
    ensures Severed(StartConnect(w, attempt), c)
  {
    hide CloseConnection, RestartTimer;
    HelpersKeepSevered(w.(conn := None, state := NotConnected), c);
    var l := w.links + [Link(Fresh, false, false, [], [], 0)];
    assert l[c] == w.links[c];
    HelpersKeepSevered(w.(conn := Some(|w.links|), state := NotConnected, links := l), c);
  }

  lemma SendPingKeepsSevered(w: World, pingOk: bool, c: Conn)
    requires Severed(w, c)
    ensures Severed(SendPing(w, pingOk), c)
  {
    hide CloseConnection, RestartTimer;
    HelpersKeepSevered(w, c);
  }

  lemma OpeningKeepsSevered(w: World, e: Event, h: Handler, c: Conn)
    requires Severed(w, c) && Enabled(w, e) && (e.Opened? || e.Failed? || e.Closed? || e.Dropped?)
    ensures Severed(Step(w, e, h), c)
  {
    var p := if e.Opened? then Open else if e.Dropped? then Leaving else Gone;
    var u := SetPhase(w, e.c, p);
    assert Severed(u, c);
    HelpersKeepSevered(u.(state := WaitingForRequest, buffer := []), c);
    HelpersKeepSevered(u.(state := NotConnected), c);
    HelpersKeepSevered(u.(state := NotConnected, reconnectAfterReply := false), c);
    hide RestartTimer, SetPhase;
  }

  lemma PingKeepsSevered(w: World, e: Event, h: Handler, c: Conn)
    requires Severed(w, c) && (e.Pong? || e.PongTimeout?)
    ensures Severed(Step(w, e, h), c)
  {
    var u := SetPinging(w, e.c, false);
    assert Severed(u, c);
    HelpersKeepSevered(u, c);
    hide RestartTimer, CloseConnection, SetPinging;
  }

  lemma OtherEventKeepsSevered(w: World, e: Event, h: Handler, c: Conn)
    requires Severed(w, c) && (e.Timeout? || e.ConfigCommit? || e.Shutdown?)
    ensures Severed(Step(w, e, h), c)
  {
    hide CloseConnection, StartConnect, SendPing;
    HelpersKeepSevered(w, c);
    HelpersKeepSevered(w.(shuttingDown := true), c);
    if e.Timeout? {
      StartConnectKeepsSevered(w.(timer := false), e.attempt, c);
      SendPingKeepsSevered(w.(timer := false), e.pingOk, c);
    }
  }

  lemma StepKeepsSevered(w: World, e: Event, h: Handler, c: Conn)
    requires Severed(w, c) && Enabled(w, e)
    ensures Severed(Step(w, e, h), c)
  {
    hide Step, Severed;
    if e.Incoming? || e.ReplyDone? {
      MessagesKeepSevered(w, e, h, c);
    } else if e.Timeout? || e.ConfigCommit? || e.Shutdown? {
      OtherEventKeepsSevered(w, e, h, c);
    } else if e.Pong? || e.PongTimeout? {
      PingKeepsSevered(w, e, h, c);
    } else {
      OpeningKeepsSevered(w, e, h, c);
    }
  }

  /** A connection that is being closed stays so. */
  lemma {:induction false} RunKeepsSevered(w: World, es: seq<Event>, h: Handler, c: Conn)
    requires Severed(w, c) && Legal(w, es, h)
    ensures Severed(Run(w, es, h), c)
    decreases |es|
  {
    if es != [] {
      StepKeepsSevered(w, es[0], h, c);
      RunKeepsSevered(Step(w, es[0], h), es[1..], h, c);
    }
  }

  /** A reply is under way on the open connection, and a reconnect waits for its end. */
  predicate Deferred(w: World, c: Conn) {
    w.conn == Some(c) && c < |w.links| && w.links[c].phase == Open && w.state == Replying && w.reconnectAfterReply
  }

  lemma MessagesKeepDeferred(w: World, e: Event, h: Handler, c: Conn)
    requires Deferred(w, c) && (e.Incoming? || e.ReplyDone?)
    ensures e != ReplyDone(c) ==> Deferred(Step(w, e, h), c)
    ensures e == ReplyDone(c) ==> Severed(Step(w, e, h), c) && Past(Step(w, e, h), c)
  {
  }

  lemma LinkEventKeepsDeferred(w: World, e: Event, h: Handler, c: Conn)
    requires Deferred(w, c) && Enabled(w, e) && (e.Opened? || e.Failed? || e.Closed? || e.Dropped?)
    ensures Severed(Step(w, e, h), c) || Deferred(Step(w, e, h), c)
  {
  }

  lemma OtherEventKeepsDeferred(w: World, e: Event, h: Handler, c: Conn)
    requires Deferred(w, c) && Enabled(w, e)
    requires e.Timeout? || e.Pong? || e.PongTimeout? || e.ConfigCommit? || e.Shutdown?
    ensures Severed(Step(w, e, h), c) || Deferred(Step(w, e, h), c)
  {
  }

  /** A deferred reconnect is not forgotten: it stays until the reply ends or the connection does. */
  lemma StepKeepsDeferred(w: World, e: Event, h: Handler, c: Conn)
    requires Deferred(w, c) && Enabled(w, e)
    ensures Severed(Step(w, e, h), c) || (e != ReplyDone(c) && Deferred(Step(w, e, h), c))
  {
    hide Step, Enabled, Deferred, Severed;
    if e.Incoming? || e.ReplyDone? {
      MessagesKeepDeferred(w, e, h, c);
    } else if e.Opened? || e.Failed? || e.Closed? || e.Dropped? {
      LinkEventKeepsDeferred(w, e, h, c);
    } else {
      OtherEventKeepsDeferred(w, e, h, c);
    }
  }

  lemma {:induction false} DeferredReconnects(w: World, es: seq<Event>, h: Handler, c: Conn)
    requires Deferred(w, c) && Legal(w, es, h) && ReplyDone(c) in es
    ensures Severed(Run(w, es, h), c)
    decreases |es|
  {
    hide Step, Enabled, Deferred, Severed;
    var v := Step(w, es[0], h);
    StepKeepsDeferred(w, es[0], h, c);
    if Severed(v, c) {
      RunKeepsSevered(v, es[1..], h, c);
    } else {
      assert es == [es[0]] + es[1..];
      DeferredReconnects(v, es[1..], h, c);
    }
  }

  lemma CommitAsksReconnect(w: World, h: Handler)
    requires Inv(w) && w.state in {Connecting, WaitingForRequest, Replying}
    ensures
      var u, c := Step(w, ConfigCommit(true), h), w.conn.value;
      && (w.state == Connecting ==> Past(u, c))
      && (w.state != Connecting ==> Severed(u, c) || (w.state == Replying && Deferred(u, c)))
  {
  }

  /** A reconnect that is asked for is made. A waiting server closes its connection at once, one that
      is still connecting drops it; one that is replying closes it when the reply is done, whatever
      happens in between. */
  lemma ReconnectIsMade(w: World, es: seq<Event>, h: Handler)
    requires Inv(w) && w.state in {Connecting, WaitingForRequest, Replying}
    requires w.state == Replying ==> ReplyDone(w.conn.value) in es
    requires Legal(w, [ConfigCommit(true)] + es, h)
    ensures
      var v, c := Run(w, [ConfigCommit(true)] + es, h), w.conn.value;
      && (w.state == Connecting ==> Past(v, c))
      && (w.state != Connecting ==> Severed(v, c))
      && !(w.state != Connecting && IsConnected(v, c))
  {
    var c := w.conn.value;
    var u := Step(w, ConfigCommit(true), h);
    RunUnfolds(w, ConfigCommit(true), es, h);
    CommitAsksReconnect(w, h);
    hide Step, Run, Legal, Enabled, Deferred;
    if w.state == Connecting {
      RunSparesPast(u, es, h, c);
    } else if Severed(u, c) {
      RunKeepsSevered(u, es, h, c);
    } else {
      DeferredReconnects(u, es, h, c);
    }
  }

  /** And at that moment the next attempt is scheduled. */
  lemma ReconnectIsScheduled(w: World, h: Handler)
    requires Inv(w) && w.state in {Connecting, WaitingForRequest, Replying}
    requires w.state == Replying ==> w.links[w.conn.value].phase == Open
    ensures
      var u := Step(w, ConfigCommit(true), h);
      var v := if w.state == Replying then Step(u, ReplyDone(w.conn.value), h) else u;
      Past(v, w.conn.value) && v.state == NotConnected && v.timer && !v.reconnectAfterReply
  {
  }

  /** A reply under way is not cut by the wish to reconnect. */
  lemma ReconnectWaitsForReply(w: World, h: Handler)
    requires w.state == Replying
    ensures Step(w, ConfigCommit(true), h) == w.(reconnectAfterReply := true)
  {
  }

  /** Without a wish to reconnect, or without a connection, a change of the configuration changes
      nothing: the next attempt is scheduled already. */
  lemma PlainCommitChangesNothing(w: World, h: Handler)
    ensures Step(w, ConfigCommit(false), h) == w
    ensures w.state == NotConnected ==> Step(w, ConfigCommit(true), h) == w
  {
  }

  // ----- the timer

  /** When the timer fires on a connection in use, the connection is probed; if no ping can be sent it
      is closed and the next attempt scheduled. */
  lemma TimeoutProbes(w: World, attempt: Attempt, pingOk: bool, h: Handler)
    requires Inv(w) && w.timer && w.state in {WaitingForRequest, Replying}
    ensures
      var v, c := Step(w, Timeout(attempt, pingOk), h), w.conn.value;
      && c < |v.links|
      && (pingOk ==> v.links[c].pinging && v.conn == w.conn && v.state == w.state)
      && (!pingOk ==> Severed(v, c) && Past(v, c) && v.state == NotConnected && v.timer)
  {
  }

  /** When it fires without a connection, a new one is tried; it becomes the current one, and if it
      could not even be started the next attempt is scheduled. */
  lemma TimeoutConnects(w: World, attempt: Attempt, pingOk: bool, h: Handler)
    requires Inv(w) && w.timer && w.state == NotConnected
    ensures
      var v := Step(w, Timeout(attempt, pingOk), h);
      && (attempt == Started ==>
            && v.state == Connecting && v.conn == Some(|w.links|)
            && |v.links| == |w.links| + 1 && v.links[|w.links|].phase == Opening)
      && (attempt != Started ==> v.state == NotConnected && v.timer)
      && (attempt == NoSocket ==> v.conn == None && v.links == w.links)
      && (attempt in {BadConfig, BadAuth} ==>
            v.conn == Some(|w.links|) && |v.links| == |w.links| + 1 && v.links[|w.links|].phase == Fresh)
  {
  }

  /** A pong timeout closes a connection on which no reply is under way. */
  lemma PongTimeoutCloses(w: World, c: Conn, h: Handler)
    requires Inv(w) && Enabled(w, PongTimeout(c)) && w.conn == Some(c) && w.state == WaitingForRequest
    ensures
      var v := Step(w, PongTimeout(c), h);
      Severed(v, c) && Past(v, c) && v.state == NotConnected && v.timer
  {
  }

  /** A connection that opens is served: it waits for requests, with its first probe scheduled. */
  lemma OpenedIsServed(w: World, h: Handler)
    requires Inv(w) && w.state == Connecting
    ensures
      var v := Step(w, Opened(w.conn.value), h);
      v.state == WaitingForRequest && v.conn == w.conn && v.timer && v.buffer == []
  {
  }

  // ----- messages

  /** A message on the current open connection is received, and handled at once if no reply is under
      way; otherwise it waits behind the others. */
  lemma MessageIsTaken(w: World, c: Conn, payload: seq<char>, h: Handler)
    requires Inv(w) && w.conn == Some(c) && w.links[c].phase == Open
    ensures
      var v, m := Step(w, Incoming(c, payload), h), Message(c, payload);
      && c < |v.links| && v.links[c].received == w.links[c].received + [m]
      && (w.state == WaitingForRequest ==> v.links[c].handled == w.links[c].handled + [m])
      && (w.state == Replying ==> v.links[c].handled == w.links[c].handled && v.buffer == w.buffer + [m])
  {
    assert w.state in {WaitingForRequest, Replying};
    if w.state == WaitingForRequest {
      assert w.buffer == [];
    }
  }

  /** When a reply ends with no reconnect pending, the next buffered message is handled. */
  lemma NextMessageIsHandled(w: World, c: Conn, h: Handler)
    requires Inv(w) && w.conn == Some(c) && w.links[c].phase == Open && w.state == Replying
    requires !w.reconnectAfterReply && w.buffer != []
    ensures
      var l := Step(w, ReplyDone(c), h).links;
      c < |l| && w.links[c].handled + [w.buffer[0]] <= l[c].handled
  {
    var u := LogFinished(w.(owed := w.owed - {c}), c);
    var y := CallHandler(u.(buffer := w.buffer[1..], state := Replying), c, w.buffer[0], h);
    DoneReplyingExtends(y, c, h);
  }

  lemma {:induction false} DoneReplyingExtends(w: World, c: Conn, h: Handler)
    requires c < |w.links|
    ensures c < |DoneReplying(w, c, h).links| && w.links[c].handled <= DoneReplying(w, c, h).links[c].handled
    decreases |w.buffer|
  {
    if IsConnected(w, c) && w.state == Replying && !w.reconnectAfterReply && w.buffer != [] {
      var y := CallHandler(LogFinished(w, c).(buffer := w.buffer[1..], state := Replying), c, w.buffer[0], h);
      assert |y.links| == |w.links| && w.links[c].handled <= y.links[c].handled && |y.buffer| < |w.buffer|;
      hide LogFinished, CallHandler;
      if h(w.calls).atOnce {
        DoneReplyingExtends(y, c, h);
      }
    }
  }

  // ----- shutdown

  lemma StepAfterShutdown(w: World, e: Event, h: Handler)
    requires Inv(w) && w.shuttingDown && Enabled(w, e)
    ensures
      var v := Step(w, e, h);
      && v.shuttingDown
      && |v.links| == |w.links|
      && v.calls == w.calls
  {
  }

  /** Once shutdown is requested no connection is created and no message is handled, ever. */
  lemma {:induction false} ShutdownIsFinal(w: World, es: seq<Event>, h: Handler)
    requires Inv(w) && w.shuttingDown && Legal(w, es, h)
    ensures
      var v := Run(w, es, h);
      && v.shuttingDown
      && |v.links| == |w.links|
      && v.calls == w.calls
    decreases |es|
  {
    if es != [] {
      StepAfterShutdown(w, es[0], h);
      StepKeepsInv(w, es[0], h);
      ShutdownIsFinal(Step(w, es[0], h), es[1..], h);
    }
  }

  /** The header comment promises that shutdown finishes the replies in flight. On a connection that
      serves requests the code keeps that promise exactly when no reply is under way: whatever happens
      afterwards, a reply under way is never finished, and neither is one to a buffered message. */
  lemma ShutdownFinishesRepliesIff(w: World, es: seq<Event>, h: Handler)
    requires Inv(w) && w.state in {WaitingForRequest, Replying}
    requires Legal(w, [Shutdown] + es, h)
    ensures
      var l := Run(w, [Shutdown] + es, h).links;
      var c := w.conn.value;
      && c < |l|
      && (l[c].finished == |l[c].handled| <==> w.state == WaitingForRequest)
      && (l[c].finished == |l[c].received| <==> w.state == WaitingForRequest)
  {
    ShutdownFreezes(w, es, h);
  }

  /** Shutdown closes the connection. */
  lemma ShutdownClosesConnection(w: World, es: seq<Event>, h: Handler)
    requires Inv(w) && w.state in {WaitingForRequest, Replying} && Legal(w, [Shutdown] + es, h)
    ensures Severed(Run(w, [Shutdown] + es, h), w.conn.value)
  {
    RunUnfolds(w, Shutdown, es, h);
    var v := Step(w, Shutdown, h);
    assert Severed(v, w.conn.value);
    RunKeepsSevered(v, es, h, w.conn.value);
  }

  /** What was handled and finished on the connection stays as it was when shutdown came. */
  lemma ShutdownFreezes(w: World, es: seq<Event>, h: Handler)
    requires Inv(w) && w.state in {WaitingForRequest, Replying}
    requires Legal(w, [Shutdown] + es, h)
    ensures
      var l := Run(w, [Shutdown] + es, h).links;
      var c := w.conn.value;
      && c < |l|
      && l[c].handled == w.links[c].handled && l[c].received == w.links[c].received
      && l[c].finished == w.links[c].finished
  {
    var v := Step(w, Shutdown, h);
    assert ([Shutdown] + es)[1..] == es;
    RunSparesPast(v, es, h, w.conn.value);
  }

  /** Of the received messages, shutdown keeps exactly the buffered ones from the handler: all were
      handed to it if and only if nothing is buffered. */
  lemma ShutdownHandlesAllIffNothingBuffered(w: World, es: seq<Event>, h: Handler)
    requires Inv(w) && w.state in {WaitingForRequest, Replying}
    requires Legal(w, [Shutdown] + es, h)
    ensures
      var l := Run(w, [Shutdown] + es, h).links;
      var c := w.conn.value;
      && c < |l| && l[c].handled + w.buffer == l[c].received
      && (l[c].handled == l[c].received <==> w.buffer == [])
  {
    ShutdownFreezes(w, es, h);
    if w.buffer != [] {
      assert |w.links[w.conn.value].handled| < |w.links[w.conn.value].received|;
    }
  }

  lemma RunUnfolds(w: World, e: Event, es: seq<Event>, h: Handler)
    ensures Run(w, [e] + es, h) == Run(Step(w, e, h), es, h)
    ensures Legal(w, [e] + es, h) <==> Enabled(w, e) && Legal(Step(w, e, h), es, h)
  {
  }

  // ----- recovery

  /** From every state that a run can reach, unless shutdown was requested, the server can get
      back to waiting for requests on a connection. */
  lemma CanAlwaysServeAgain(w: World, h: Handler) returns (es: seq<Event>)
    requires Inv(w) && !w.shuttingDown
    ensures Legal(w, es, h)
    ensures Run(w, es, h).state == WaitingForRequest && !Run(w, es, h).aborted
  {
    if w.state == Connecting {
      RunUnfolds(w, Opened(w.conn.value), [], h);
      es := [Opened(w.conn.value)] + [];
    } else {
      var v := if w.state == NotConnected then w else Step(w, Closed(w.conn.value), h);
      var n := |v.links|;
      var v1 := Step(v, Timeout(Started, true), h);
      RunUnfolds(v1, Opened(n), [], h);
      RunUnfolds(v, Timeout(Started, true), [Opened(n)] + [], h);
      es := [Timeout(Started, true)] + ([Opened(n)] + []);
      if w.state != NotConnected {
        RunUnfolds(w, Closed(w.conn.value), es, h);
        es := [Closed(w.conn.value)] + es;
      }
    }
  }

  // ----- keepalive

  /** The keepalive chain of the current open connection has ended: no ping is scheduled and none
      is under way. */
  predicate KeepaliveDead(w: World) {
    && w.state in {WaitingForRequest, Replying}
    && w.conn.Some? && w.conn.value < |w.links|
    && w.links[w.conn.value].phase == Open
    && !w.timer && !w.links[w.conn.value].pinging
  }

  /** Ending a reply neither schedules nor loses a ping, unless it closes the connection. */
  lemma {:induction false} DoneReplyingKeepsKeepalive(w: World, c: Conn, h: Handler)
    ensures
      var v := DoneReplying(w, c, h);
      || v.conn == None
      || (v.conn == w.conn && v.timer == w.timer && |v.links| == |w.links|
          && forall d | 0 <= d < |v.links| :: v.links[d].muted == w.links[d].muted)
    decreases |w.buffer|
  {
    if IsConnected(w, c) && w.state == Replying && !w.reconnectAfterReply && w.buffer != [] && h(w.calls).atOnce {
      DoneReplyingKeepsKeepalive(
        CallHandler(LogFinished(w, c).(buffer := w.buffer[1..], state := Replying), c, w.buffer[0], h), c, h);
    }
  }

  lemma MessagesKeepKeepalive(w: World, e: Event, h: Handler)
    requires Inv(w) && Enabled(w, e) && !KeepaliveDead(w) && (e.Incoming? || e.ReplyDone?)
    ensures !KeepaliveDead(Step(w, e, h))
  {
    StepKeepsInv(w, e, h);
    if e.ReplyDone? {
      DoneReplyingKeepsKeepalive(w.(owed := w.owed - {e.c}), e.c, h);
    } else if IsConnected(w, e.c) && w.state == WaitingForRequest {
      var m := Message(e.c, e.payload);
      DoneReplyingKeepsKeepalive(CallHandler(LogReceived(w, e.c, m).(state := Replying), e.c, m, h), e.c, h);
    }
  }

  lemma EndsKeepKeepalive(w: World, e: Event, h: Handler)
    requires Inv(w) && Enabled(w, e) && !KeepaliveDead(w) && (e.Opened? || e.Failed? || e.Closed? || e.Dropped?)
    ensures !KeepaliveDead(Step(w, e, h))
  {
    hide LinkSound, Accounted;
  }

  lemma TimerKeepsKeepalive(w: World, e: Event, h: Handler)
    requires Inv(w) && Enabled(w, e) && !KeepaliveDead(w) && (e.Timeout? || e.Pong?)
    ensures !KeepaliveDead(Step(w, e, h))
  {
    hide LinkSound, Accounted;
  }

  lemma ClosingKeepsKeepalive(w: World, e: Event, h: Handler)
    requires Inv(w) && Enabled(w, e) && !KeepaliveDead(w) && (e.ConfigCommit? || e.Shutdown?)
    ensures !KeepaliveDead(Step(w, e, h))
  {
    hide LinkSound, Accounted;
  }

  lemma PongTimeoutKillsIff(w: World, e: Event, h: Handler)
    requires Inv(w) && Enabled(w, e) && !KeepaliveDead(w) && e.PongTimeout?
    ensures KeepaliveDead(Step(w, e, h)) <==> TimeoutIgnored(w, e)
  {
    hide LinkSound, Accounted;
  }

  /** In a reachable state the chain ends exactly at an ignored pong timeout: the event that ends
      it is a pong timeout of the current open connection during a reply. */
  lemma KeepaliveDiesOnlyWhenTimeoutIgnored(w: World, e: Event, h: Handler)
    requires Inv(w) && Enabled(w, e) && !KeepaliveDead(w)
    ensures KeepaliveDead(Step(w, e, h)) <==> TimeoutIgnored(w, e)
  {
    hide Inv, Enabled, Step, KeepaliveDead;
    match e
    case Incoming(_, _) => MessagesKeepKeepalive(w, e, h);
    case ReplyDone(_) => MessagesKeepKeepalive(w, e, h);
    case Timeout(_, _) => TimerKeepsKeepalive(w, e, h);
    case Pong(_) => TimerKeepsKeepalive(w, e, h);
    case PongTimeout(_) => PongTimeoutKillsIff(w, e, h);
    case ConfigCommit(_) => ClosingKeepsKeepalive(w, e, h);
    case Shutdown => ClosingKeepsKeepalive(w, e, h);
    case _ => EndsKeepKeepalive(w, e, h);
  }

  predicate TimeoutIgnored(w: World, e: Event) {
    && e.PongTimeout? && IsCurrent(w, e.c) && w.state == Replying
    && e.c < |w.links| && w.links[e.c].phase == Open
  }

  // ----- runs that end badly

  /** A handler that replies later. */
  function Slow(n: nat): Reply {
    Reply(false, false)
  }

  const A := Message(0, "a")
  const B := Message(0, "b")

  /** A server on its first connection. */
  function OnFirst(state: State, timer: bool, buffer: seq<Message>, owed: set<Conn>, link: Link): World {
    World(state, Some(0), timer, buffer, false, false, false, [link], owed, |link.handled|)
  }

  function Idle(timer: bool, pinging: bool): World {
    OnFirst(WaitingForRequest, timer, [], {}, Link(Open, pinging, false, [], [], 0))
  }

  function Busy(timer: bool, pinging: bool, muted: bool, buffer: seq<Message>): World {
    OnFirst(Replying, timer, buffer, {0}, Link(Open, pinging, muted, [A] + buffer, [A], 0))
  }

  lemma OpenedMakesIdle()
    ensures Step(Initial(Started), Opened(0), Slow) == Idle(true, false)
  {
  }

  lemma TimeoutMakesPing()
    ensures Step(Idle(true, false), Timeout(Started, true), Slow) == Idle(false, true)
  {
  }

  lemma RequestMakesBusy(timer: bool, pinging: bool)
    ensures Step(Idle(timer, pinging), Incoming(0, "a"), Slow) == Busy(timer, pinging, false, [])
  {
    assert [] + [A] == [A] && [A] + [] == [A];
    var v := Step(Idle(timer, pinging), Incoming(0, "a"), Slow);
    assert v.links == [Link(Open, pinging, false, [A], [A], 0)];
    assert v.owed == {0};
  }

  lemma RequestIsBuffered()
    ensures Step(Busy(true, false, false, []), Incoming(0, "b"), Slow) == Busy(true, false, false, [B])
  {
    assert [A] + [] + [B] == [A] + [B] && [] + [B] == [B];
  }

  predicate Reaches(es: seq<Event>, v: World) {
    Legal(Initial(Started), es, Slow) && Run(Initial(Started), es, Slow) == v
  }

  lemma ReachesMore(es: seq<Event>, w: World, e: Event)
    requires Reaches(es, w) && Enabled(w, e)
    ensures Reaches(es + [e], Step(w, e, Slow))
  {
    RunSnoc(Initial(Started), es, e, Slow);
  }

  lemma {:induction false} RunSnoc(w: World, es: seq<Event>, e: Event, h: Handler)
    requires Legal(w, es, h) && Enabled(Run(w, es, h), e)
    ensures Legal(w, es + [e], h) && Run(w, es + [e], h) == Step(Run(w, es, h), e, h)
    decreases |es|
  {
    if es == [] {
      assert es + [e] == [e] + [];
      RunUnfolds(w, e, [], h);
    } else {
      assert es + [e] == [es[0]] + (es[1..] + [e]);
      RunUnfolds(w, es[0], es[1..] + [e], h);
      RunSnoc(Step(w, es[0], h), es[1..], e, h);
    }
  }

  lemma ReachesIdle() returns (es: seq<Event>)
    ensures Reaches(es, Idle(true, false))
  {
    es := [];
    ReachesMore(es, Initial(Started), Opened(0));
    OpenedMakesIdle();
    es := es + [Opened(0)];
  }

  lemma ReachesBusy() returns (es: seq<Event>)
    ensures Reaches(es, Busy(true, false, false, []))
  {
    es := ReachesIdle();
    hide Reaches, Step;
    ReachesMore(es, Idle(true, false), Incoming(0, "a"));
    RequestMakesBusy(true, false);
    es := es + [Incoming(0, "a")];
  }

  /** A run in which shutdown cuts off the reply in flight, with nothing buffered. */
  lemma ShutdownCutsReply() returns (es: seq<Event>)
    ensures Legal(Initial(Started), es, Slow)
    ensures
      var v := Run(Initial(Started), es, Slow);
      && |v.links| == 1 && v.conn == None && v.buffer == [] && 0 in v.owed
      && v.links[0].handled == v.links[0].received == [A]
      && v.links[0].finished == 0
  {
    es := ReachesBusy();
    ReachesMore(es, Busy(true, false, false, []), Shutdown);
    es := es + [Shutdown];
  }

  /** A run in which shutdown cuts off a buffered request. */
  lemma ShutdownDropsRequest() returns (es: seq<Event>)
    ensures Legal(Initial(Started), es, Slow)
    ensures
      var v := Run(Initial(Started), es, Slow);
      |v.links| == 1 && v.links[0].handled == [A] && v.links[0].received == [A, B]
  {
    es := ReachesBusy();
    ReachesMore(es, Busy(true, false, false, []), Incoming(0, "b"));
    RequestIsBuffered();
    es := es + [Incoming(0, "b")];
    ReachesMore(es, Busy(true, false, false, [B]), Shutdown);
    es := es + [Shutdown];
  }

  /** A ping whose timeout is ignored during a reply is the last one: the reply ends, the server
      waits, and nothing is scheduled. */
  lemma KeepaliveCanDie() returns (es: seq<Event>)
    ensures Legal(Initial(Started), es, Slow)
    ensures
      var v := Run(Initial(Started), es, Slow);
      KeepaliveDead(v) && v.state == WaitingForRequest
  {
    es := ReachesIdle();
    ReachesMore(es, Idle(true, false), Timeout(Started, true));
    TimeoutMakesPing();
    es := es + [Timeout(Started, true)];
    ReachesMore(es, Idle(false, true), Incoming(0, "a"));
    RequestMakesBusy(false, true);
    es := es + [Incoming(0, "a")];
    es := DeadFromPinging(es);
  }

  lemma DeadFromPinging(es: seq<Event>) returns (more: seq<Event>)
    requires Reaches(es, Busy(false, true, false, []))
    ensures Legal(Initial(Started), more, Slow)
    ensures
      var v := Run(Initial(Started), more, Slow);
      KeepaliveDead(v) && v.state == WaitingForRequest
  {
    more := es;
    ReachesMore(more, Busy(false, true, false, []), PongTimeout(0));
    assert Step(Busy(false, true, false, []), PongTimeout(0), Slow) == Busy(false, false, true, []);
    more := more + [PongTimeout(0)];
    ReachesMore(more, Busy(false, false, true, []), ReplyDone(0));
    more := more + [ReplyDone(0)];
  }
}

/** The server object itself. Each method is proved to do what the model's function says. */
module CommandServer {
  import opened Basics
  import opened CommandServerModel

  class Server {
    const handler: Handler

    var state: State
    var conn: Option<Conn>
    var timer: bool
    var buffer: seq<Message>
    var reconnectAfterReply: bool
    var shuttingDown: bool
    var aborted: bool

    // what the WebSocket library and the message handler keep
    var links: seq<Link>
    var owed: set<Conn>
    var calls: nat

    ghost function View(): World
      reads this
    {
      World(state, conn, timer, buffer, reconnectAfterReply, shuttingDown, aborted, links, owed, calls)
    }

    constructor (handler: Handler, attempt: Attempt)
      ensures this.handler == handler
      ensures View() == Initial(attempt)
    {
      this.handler := handler;
      state, conn, timer, buffer := NotConnected, None, false, [];
      reconnectAfterReply, shuttingDown, aborted := false, false, false;
      links, owed, calls := [], {}, 0;
      new;
      DoStartConnect(attempt);
    }

    method Connected(c: Conn) returns (live: bool)
      ensures live == IsConnected(View(), c)
    {
      live := conn == Some(c) && c < |links| && links[c].phase in {Fresh, Opening, Open};
    }

    method ArmTimer()
      modifies this
      ensures View() == RestartTimer(old(View()))
    {
      timer := true;
      if conn.Some? && conn.value < |links| {
        links := links[conn.value := links[conn.value].(muted := false)];
      }
    }

    method DoStartConnect(attempt: Attempt)
      modifies this
      ensures View() == StartConnect(old(View()), attempt)
    {
      state := Connecting;
      if attempt == NoSocket {
        conn := None;
        state := NotConnected;
        ArmTimer();
        return;
      }
      conn := Some(|links|);
      if attempt == BadConfig || attempt == BadAuth {
        links := links + [Link(Fresh, false, false, [], [], 0)];
        state := NotConnected;
        ArmTimer();
        return;
      }
      links := links + [Link(Opening, false, false, [], [], 0)];
    }

    method DoCloseConnection()
      modifies this
      ensures View() == CloseConnection(old(View()))
    {
      state := Closing;
      reconnectAfterReply := false;
      timer := false;
      if conn.Some? {
        if conn.value < |links| && links[conn.value].phase == Open {
          links := links[conn.value := links[conn.value].(phase := Leaving)];
        }
        conn := None;
      }
      state := NotConnected;
      if !shuttingDown {
        ArmTimer();
      }
    }

    method Reconnect()
      modifies this
      ensures View() == InternalReconnect(old(View()))
    {
      match state
      case NotConnected =>
      case Connecting => DoCloseConnection();
      case WaitingForRequest => DoCloseConnection();
      case Replying => reconnectAfterReply := true;
      case _ => aborted := true;
    }

    /** The call of the message handler; the result says whether it replied at once. */
    method Handle(c: Conn, m: Message) returns (atOnce: bool)
      requires c < |links|
      modifies this`links, this`owed, this`calls
      ensures View() == CallHandler(old(View()), c, m, handler)
      ensures atOnce == handler(old(calls)).atOnce
    {
      var r := handler(calls);
      atOnce := r.atOnce;
      var l := links[c];
      links := links[c := l.(handled := l.handled + [m],
                             phase := if r.hangsUp && l.phase == Open then Leaving else l.phase)];
      if !atOnce {
        owed := owed + {c};
      }
      calls := calls + 1;
    }

    method NoteFinished(c: Conn)
      requires c < |links|
      modifies this`links
      ensures View() == LogFinished(old(View()), c)
      ensures |links| == |old(links)|
    {
      links := links[c := links[c].(finished := links[c].finished + 1)];
    }

    /** The `goto begin` loop of doneReplying: it empties the buffer as long as the handler replies
        at once, and ends because the buffer shrinks. */
    method FinishReply(c: Conn)
      modifies this
      ensures View() == DoneReplying(old(View()), c, handler)
    {
      hide LogFinished, CallHandler, InternalReconnect;
      var again := true;
      while again
        invariant again ==> DoneReplying(View(), c, handler) == DoneReplying(old(View()), c, handler)
        invariant !again ==> View() == DoneReplying(old(View()), c, handler)
        decreases again, |buffer|
      {
        var live := Connected(c);
        if !live {
          return;
        }
        if state != Replying {
          aborted := true;
          return;
        }
        NoteFinished(c);
        state := WaitingForRequest;
        if reconnectAfterReply {
          reconnectAfterReply := false;
          Reconnect();
          return;
        }
        if buffer == [] {
          again := false;
        } else {
          var m := buffer[0];
          buffer := buffer[1..];
          state := Replying;
          again := Handle(c, m);
        }
      }
    }

    method OpenCallback(c: Conn)
      modifies this
      ensures View() == OnConnected(old(View()), c)
    {
      var live := Connected(c);
      if live {
        state := WaitingForRequest;
        buffer := [];
        ArmTimer();
      }
    }

    method FailCallback(c: Conn)
      modifies this
      ensures View() == OnConnectFailed(old(View()), c)
    {
      if conn == Some(c) {
        state := NotConnected;
        ArmTimer();
      }
    }

    method CloseCallback(c: Conn)
      modifies this
      ensures View() == OnConnectionClosed(old(View()), c)
    {
      if conn == Some(c) {
        state := NotConnected;
        reconnectAfterReply := false;
        if shuttingDown {
          timer := false;
        } else {
          ArmTimer();
        }
      }
    }

    method TimerCallback(attempt: Attempt, pingOk: bool)
      modifies this
      ensures View() == OnTimeout(old(View()), attempt, pingOk)
    {
      match state
      case NotConnected => DoStartConnect(attempt);
      case WaitingForRequest => Ping(pingOk);
      case Replying => Ping(pingOk);
      case _ => aborted := true;
    }

    method Ping(pingOk: bool)
      modifies this
      ensures View() == SendPing(old(View()), pingOk)
    {
      if !pingOk {
        DoCloseConnection();
      } else if conn.Some? && conn.value < |links| {
        links := links[conn.value := links[conn.value].(pinging := true)];
      }
    }

    method PongCallback(c: Conn)
      modifies this
      ensures View() == OnPong(old(View()), c)
    {
      var live := Connected(c);
      if live {
        ArmTimer();
      }
    }

    method PongTimeoutCallback(c: Conn)
      modifies this
      ensures View() == OnPongTimeout(old(View()), c)
    {
      if conn == Some(c) {
        if state == Replying {
          if c < |links| {
            links := links[c := links[c].(muted := true)];
          }
        } else {
          DoCloseConnection();
        }
      }
    }

    method MessageCallback(c: Conn, m: Message)
      modifies this
      ensures View() == OnMessage(old(View()), c, m, handler)
    {
      var live := Connected(c);
      if !live {
        return;
      }
      match state
      case WaitingForRequest =>
        links := links[c := links[c].(received := links[c].received + [m])];
        state := Replying;
        var atOnce := Handle(c, m);
        if atOnce {
          FinishReply(c);
        }
      case Closing =>
      case Replying =>
        links := links[c := links[c].(received := links[c].received + [m])];
        buffer := buffer + [m];
      case _ => aborted := true;
    }

    method BeginShutdown()
      modifies this
      ensures View() == InternalShutdown(old(View()))
    {
      shuttingDown := true;
      DoCloseConnection();
    }

    method NotePhase(c: Conn, p: Phase)
      modifies this
      ensures View() == SetPhase(old(View()), c, p)
    {
      if c < |links| {
        links := links[c := links[c].(phase := p)];
      }
    }

    method NotePingOver(c: Conn)
      modifies this
      ensures View() == SetPinging(old(View()), c, false)
    {
      if c < |links| {
        links := links[c := links[c].(pinging := false)];
      }
    }

    /** One event of the environment, with the callback it leads to. */
    method Deliver(e: Event)
      modifies this
      ensures View() == Step(old(View()), e, handler)
    {
      hide StartConnect, CloseConnection, InternalReconnect, DoneReplying, OnConnected, OnConnectFailed,
        OnConnectionClosed, OnTimeout, OnPong, OnPongTimeout, OnMessage, InternalShutdown, SetPhase, SetPinging;
      match e
      case Opened(c) => NotePhase(c, Open); OpenCallback(c);
      case Failed(c) => NotePhase(c, Gone); FailCallback(c);
      case Dropped(c) => NotePhase(c, Leaving);
      case Closed(c) => NotePhase(c, Gone); CloseCallback(c);
      case Timeout(attempt, pingOk) => timer := false; TimerCallback(attempt, pingOk);
      case Pong(c) => NotePingOver(c); PongCallback(c);
      case PongTimeout(c) => NotePingOver(c); PongTimeoutCallback(c);
      case Incoming(c, payload) => MessageCallback(c, Message(c, payload));
      case ReplyDone(c) => owed := owed - {c}; FinishReply(c);
      case ConfigCommit(reconnect) => if reconnect { Reconnect(); }
      case Shutdown => BeginShutdown();
    }

    /** A run of the server: no assertion of its code fails, and the invariant holds throughout. */
    method Serve(es: seq<Event>)
      requires Inv(View()) && Legal(View(), es, handler)
      modifies this
      ensures View() == Run(old(View()), es, handler)
      ensures Inv(View()) && !aborted
    {
      hide Step, Enabled, Inv;
      var i := 0;
      assert es[0..] == es;
      while i < |es|
        invariant 0 <= i <= |es|
        invariant Inv(View()) && Legal(View(), es[i..], handler)
        invariant Run(View(), es[i..], handler) == Run(old(View()), es, handler)
      {
        assert es[i..][0] == es[i] && es[i..][1..] == es[i + 1..];
        StepKeepsInv(View(), es[i], handler);
        Deliver(es[i]);
        i := i + 1;
      }
      NeverAborted(View());
    }
  }

  lemma NeverAborted(w: World)
    requires Inv(w)
    ensures !w.aborted
  {
  }
}
