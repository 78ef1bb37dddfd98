/**
 * The Home Assistant websocket protocol client as a sequential transition
 * system. A `ClientState` is everything a `HomeAssistantWebSocket` object
 * holds; every public call, and every inbound frame the receive loop handles,
 * is one atomic step from one `ClientState` to the next.
 *
 * Futures are slots: a request's future sits `Unresolved` in the correlation
 * table (`pending`) until the receive loop, a timeout or `close` takes it out,
 * and its final value is then kept in `settled`. Callbacks are not run: an
 * event routed to a subscription is recorded as a `Delivery`. Outbound frames
 * are appended to `sent`.
 */
module ClientModel {
  import opened Wrappers
  import opened Json

  datatype ConnectionState = Disconnected | Connecting | Authenticating | Connected | Reconnecting

  /** An asyncio future. */
  datatype Slot = Unresolved | Resolved(result: Value) | Failed(error: Value) | Cancelled

  /** A registered event callback, known only by name. */
  datatype Callback = Callback(name: string)

  /** One scheduled `_safe_callback(callback, event)` task. */
  datatype Delivery = Delivery(subscription: int, callback: Callback, payload: Value)

  /** The `_websocket` handle: never opened, open, or closed (by either side). */
  datatype Transport = NoSocket | Open | Closed

  /** What one read from the socket yields. */
  datatype Frame =
    | Text(data: Value)   // a text frame holding well-formed JSON
    | Malformed           // a text frame `json.loads` rejects
    | ClosedOk            // the peer closed normally: `async for` stops quietly, `recv` raises
    | ClosedError         // the connection broke: both `async for` and `recv` raise

  datatype CommandError = NotConnected | SendFailed

  datatype ClientState = ClientState(
    url: string,
    token: string,
    state: ConnectionState,
    transport: Transport,
    receiving: bool,                 // the receive-loop task is running
    messageId: nat,                  // `_message_id`
    pending: map<int, Slot>,         // `_pending_requests`
    callbacks: map<int, Callback>,   // `_event_callbacks`
    settled: map<int, Slot>,         // futures that have left the table, with their final value
    deliveries: seq<Delivery>,       // callback invocations scheduled so far
    sent: seq<Value>)                // frames written to the socket so far

  /** The object invariant: ids come from the counter, and the table holds only unresolved futures. */
  ghost predicate Valid(c: ClientState)
  {
    && (forall k :: k in c.pending ==> 1 <= k <= c.messageId && c.pending[k] == Unresolved)
    && (forall k :: k in c.settled ==> 1 <= k <= c.messageId && c.settled[k] != Unresolved)
    && (forall k :: k in c.callbacks ==> 1 <= k <= c.messageId)
    && c.pending.Keys !! c.settled.Keys
    && (c.state == Connected ==> c.transport != NoSocket)
    && (c.receiving ==> c.transport != NoSocket)
  }

  /**
   * What every step guarantees about the history: the counter never goes
   * back, a settled future never changes again, a pending future is never
   * dropped without being settled, and nothing sent or delivered is undone.
   */
  ghost predicate Extends(c: ClientState, c': ClientState)
  {
    && c'.url == c.url && c'.token == c.token
    && c.messageId <= c'.messageId
    && (forall k :: k in c.settled ==> k in c'.settled && c'.settled[k] == c.settled[k])
    && (forall k :: k in c.pending ==> k in c'.pending || k in c'.settled)
    && c.deliveries <= c'.deliveries
    && c.sent <= c'.sent
  }

  /** `HomeAssistantWebSocket(url, token)` */
  function Init(url: string, token: string): (c: ClientState)
    ensures Valid(c) && c.state == Disconnected
    ensures c.pending == map[] && c.callbacks == map[] && c.messageId == 0
  {
    ClientState(url, token, Disconnected, NoSocket, false, 0, map[], map[], map[], [], [])
  }

  // ---------------------------------------------------------------- frames

  function AuthFrame(token: string): Value
  {
    Dict(map["type" := Str("auth"), "access_token" := Str(token)])
  }

  /** `{"id": msg_id, "type": command_type, **kwargs}`: keyword arguments win on a clash. */
  function CommandFrame(id: int, command: string, params: map<string, Value>): (v: Value)
    ensures v.Dict? && v.fields.Keys == params.Keys + {"id", "type"}
    ensures "id" !in params ==> v.fields["id"] == Int(id)
    ensures "type" !in params ==> v.fields["type"] == Str(command)
    ensures forall key :: key in params ==> v.fields[key] == params[key]
  {
    Dict(map["id" := Int(id), "type" := Str(command)] + params)
  }

  function PingFrame(id: int): Value
  {
    Dict(map["id" := Int(id), "type" := Str("ping")])
  }

  /** `frame` decodes to an object whose `type` is `t`. */
  predicate HasType(frame: Frame, t: string)
  {
    frame.Text? && frame.data.Dict? && Get(frame.data.fields, "type") == Str(t)
  }

  // ------------------------------------------------------------- handshake

  /** `recv()` on this frame raises `ConnectionClosed`: the server closed the socket. */
  predicate ClosesSocket(frame: Frame)
  {
    frame.ClosedOk? || frame.ClosedError?
  }

  /**
   * `connect()`: open the socket (`reached` says whether the server accepted the upgrade),
   * expect `auth_required`, send the token, expect `auth_ok`. Any failure is
   * caught and ends in DISCONNECTED with `False`. A frame that closes the
   * connection leaves the socket closed; any other failure leaves it open.
   */
  function Connect(c: ClientState, reached: bool, first: Frame, second: Frame): (out: (ClientState, bool))
    ensures out.1 <==> reached && HasType(first, "auth_required") && HasType(second, "auth_ok")
    ensures out.1 ==> out.0.state == Connected && out.0.receiving && out.0.transport == Open
    ensures !out.1 ==> out.0.state == Disconnected && out.0.receiving == c.receiving
    ensures !reached ==> out.0.transport == c.transport
    ensures reached ==> out.0.transport == (if ClosesSocket(first) || (HasType(first, "auth_required") && ClosesSocket(second))
                                            then Closed else Open)
    ensures out.0.pending == c.pending && out.0.callbacks == c.callbacks && out.0.settled == c.settled
    ensures out.0.messageId == c.messageId && out.0.deliveries == c.deliveries
    ensures out.0.sent == if reached && HasType(first, "auth_required") then c.sent + [AuthFrame(c.token)] else c.sent
  {
    if !reached then (c.(state := Disconnected), false)
    else
      var socketOpen := c.(transport := Open);
      if !HasType(first, "auth_required") then
        (socketOpen.(state := Disconnected, transport := if ClosesSocket(first) then Closed else Open), false)
      else
        var authSent := socketOpen.(sent := socketOpen.sent + [AuthFrame(c.token)]);
        if !HasType(second, "auth_ok") then
          (authSent.(state := Disconnected, transport := if ClosesSocket(second) then Closed else Open), false)
        else (authSent.(state := Connected, receiving := true), true)
  }

  /** The lifecycle edges `connect()` may take after it has set CONNECTING. */
  predicate HandshakeEdge(a: ConnectionState, b: ConnectionState)
  {
    || (a == Connecting && b == Authenticating)
    || (a == Authenticating && b == Connected)
    || (a in {Connecting, Authenticating} && b == Disconnected)
  }

  /** The successive values `connect()` assigns to `state`. */
  function HandshakeTrace(reached: bool, first: Frame, second: Frame): (trace: seq<ConnectionState>)
    ensures |trace| >= 2 && trace[0] == Connecting
    ensures forall i :: 0 <= i < |trace| - 1 ==> HandshakeEdge(trace[i], trace[i + 1])
    ensures forall c: ClientState :: trace[|trace| - 1] == Connect(c, reached, first, second).0.state
    ensures Connected in trace ==> trace[|trace| - 1] == Connected
  {
    if !reached || !HasType(first, "auth_required") then [Connecting, Disconnected]
    else if !HasType(second, "auth_ok") then [Connecting, Authenticating, Disconnected]
    else [Connecting, Authenticating, Connected]
  }

  // ------------------------------------------------------- command dispatch

  /**
   * The synchronous part of `send_command`: the state gate, `_next_id`, the
   * table insert and the socket write. The caller then awaits the slot.
   * When the write raises (socket already closed) the entry stays behind.
   */
  function SendCommand(c: ClientState, command: string, params: map<string, Value>): (out: (ClientState, Result<int, CommandError>))
    ensures c.state != Connected ==> out == (c, Err(NotConnected))
    ensures c.state == Connected ==>
      out.0 == c.(messageId := c.messageId + 1, pending := c.pending[c.messageId + 1 := Unresolved], sent := out.0.sent)
    ensures c.state == Connected ==>
      out.1 == (if c.transport == Open then Ok(c.messageId + 1) else Err(SendFailed))
    ensures out.0.sent == if out.1.Ok? then c.sent + [CommandFrame(out.1.value, command, params)] else c.sent
  {
    if c.state != Connected then (c, Err(NotConnected))
    else
      var id := c.messageId + 1;
      var registered := c.(messageId := id, pending := c.pending[id := Unresolved]);
      if c.transport != Open then (registered, Err(SendFailed))
      else (registered.(sent := registered.sent + [CommandFrame(id, command, params)]), Ok(id))
  }

  /**
   * `asyncio.wait_for` gave up on request `id`: it cancels the future, and
   * `pop(msg_id, None)` removes the entry if it is still there.
   */
  function Timeout(c: ClientState, id: int): (c': ClientState)
    ensures c' == c.(pending := c'.pending, settled := c'.settled)
    ensures c'.pending == c.pending - {id}
    ensures id in c.pending ==> c'.settled == c.settled[id := Cancelled]
    ensures id !in c.pending ==> c' == c
  {
    if id in c.pending then c.(pending := c.pending - {id}, settled := c.settled[id := Cancelled])
    else c
  }

  // ------------------------------------------------------------ receive loop

  /** The loop's `except Exception` handler: DISCONNECTED, loop over, futures left as they are. */
  function LoopFails(c: ClientState): ClientState
  {
    c.(receiving := false, state := Disconnected)
  }

  /** The value a `result` message gives its future. */
  function Outcome(msg: map<string, Value>): (s: Slot)
    ensures s != Unresolved
  {
    if Truthy(Get(msg, "success")) then Resolved(Get(msg, "result")) else Failed(Get(msg, "error"))
  }

  /** Routing of one decoded JSON object by its `type`. */
  function Route(c: ClientState, msg: map<string, Value>): ClientState
  {
    var msgType := Get(msg, "type");
    var msgId := Get(msg, "id");
    if msgType == Str("result") then
      match AsIntKey(msgId)
      case Unhashable => LoopFails(c)
      case NoMatch => c
      case Key(k) =>
        if k in c.pending then c.(pending := c.pending - {k}, settled := c.settled[k := Outcome(msg)])
        else c
    else if msgType == Str("event") then
      match AsIntKey(msgId)
      case Unhashable => LoopFails(c)
      case NoMatch => c
      case Key(k) =>
        if k in c.callbacks then c.(deliveries := c.deliveries + [Delivery(k, c.callbacks[k], Get(msg, "event"))])
        else c
    else
      c   // "pong", and any unrecognised type, is only logged
  }

  /** One iteration of `_receive_loop`. Frames arriving when no loop runs are not read. */
  function Receive(c: ClientState, frame: Frame): (c': ClientState)
    ensures !c.receiving ==> c' == c
    ensures c.receiving && frame.Text? && frame.data.Dict? ==> c' == Route(c, frame.data.fields)
    ensures c.receiving && (frame.Malformed? || frame.ClosedError? || (frame.Text? && !frame.data.Dict?)) ==>
      !c'.receiving && c'.state == Disconnected && c'.pending == c.pending
    ensures c.receiving && frame.ClosedOk? ==> !c'.receiving && c'.state == c.state && c'.pending == c.pending
  {
    if !c.receiving then c
    else match frame
      case ClosedOk => c.(receiving := false, transport := Closed)
      case ClosedError => LoopFails(c).(transport := Closed)
      case Malformed => LoopFails(c)
      case Text(data) => if data.Dict? then Route(c, data.fields) else LoopFails(c)
  }

  /** The loop run over a sequence of frames, in arrival order. */
  function RunFrames(c: ClientState, frames: seq<Frame>): ClientState
  {
    if frames == [] then c else Receive(RunFrames(c, frames[..|frames| - 1]), frames[|frames| - 1])
  }

  // ----------------------------------------------------------- subscriptions

  /** The keyword arguments of `subscribe_events`' command: `event_type` only when truthy. */
  function SubscribeParams(eventType: Option<string>): (params: map<string, Value>)
    ensures "event_type" in params <==> eventType.Some? && eventType.value != ""
    ensures "event_type" in params ==> params["event_type"] == Str(eventType.value)
    ensures params.Keys <= {"event_type"}
  {
    if eventType.Some? && eventType.value != "" then map["event_type" := Str(eventType.value)] else map[]
  }

  /**
   * The part of `subscribe_events` after its command has returned: mint a
   * fresh local id and register `callback` (when given) under it. The id of
   * the subscribe command itself, which the server puts on its events, is
   * not used.
   */
  function RegisterSubscription(c: ClientState, callback: Option<Callback>): (out: (ClientState, int))
    ensures out.1 == c.messageId + 1 && out.0.messageId == out.1
    ensures out.0.callbacks == if callback.Some? then c.callbacks[out.1 := callback.value] else c.callbacks
    ensures out.0 == c.(messageId := out.1, callbacks := out.0.callbacks)
  {
    var id := c.messageId + 1;
    (c.(messageId := id, callbacks := if callback.Some? then c.callbacks[id := callback.value] else c.callbacks), id)
  }

  /** The evidently intended registration: under the id of the subscribe command, which events carry. */
  function RegisterSubscriptionByCommandId(c: ClientState, commandId: int, callback: Callback): (c': ClientState)
    ensures c'.callbacks == c.callbacks[commandId := callback]
    ensures commandId in c'.callbacks && c'.callbacks[commandId] == callback
    ensures forall k :: k in c.callbacks && k != commandId ==> k in c'.callbacks && c'.callbacks[k] == c.callbacks[k]
    ensures c'.messageId == c.messageId
    ensures c' == c.(callbacks := c'.callbacks)
  {
    c.(callbacks := c.callbacks[commandId := callback])
  }

  // ------------------------------------------------------------ ping, close

  /** `ping()`: no state check; the id is consumed even when the write raises. */
  function Ping(c: ClientState): (out: (ClientState, Result<int, CommandError>))
    ensures out.0.messageId == c.messageId + 1
    ensures out.1.Ok? <==> c.transport == Open
    ensures out.1.Ok? ==> out.1.value == out.0.messageId
    ensures out.0 == c.(messageId := c.messageId + 1, sent := out.0.sent)
    ensures out.0.sent == if out.1.Ok? then c.sent + [PingFrame(out.1.value)] else c.sent
  {
    var id := c.messageId + 1;
    if c.transport == Open then (c.(messageId := id, sent := c.sent + [PingFrame(id)]), Ok(id))
    else (c.(messageId := id), Err(SendFailed))
  }

  /** `future.cancel()` when `not future.done()`. */
  function CancelIfPending(s: Slot): Slot
  {
    if s == Unresolved then Cancelled else s
  }

  /** `close()`: stop the loop, close the socket, cancel every pending future, clear both maps. */
  function Close(c: ClientState): (c': ClientState)
    ensures c'.state == Disconnected && !c'.receiving
    ensures c'.pending == map[] && c'.callbacks == map[]
    ensures forall k :: k in c.pending ==> k in c'.settled && c'.settled[k] == CancelIfPending(c.pending[k])
    ensures forall k :: k in c.settled && k !in c.pending ==> k in c'.settled && c'.settled[k] == c.settled[k]
    ensures c'.settled.Keys == c.settled.Keys + c.pending.Keys
    ensures c'.messageId == c.messageId && c'.sent == c.sent && c'.deliveries == c.deliveries
  {
    c.(receiving := false,
       transport := if c.transport == NoSocket then NoSocket else Closed,
       settled := c.settled + map k | k in c.pending :: CancelIfPending(c.pending[k]),
       pending := map[],
       callbacks := map[],
       state := Disconnected)
  }

  // ------------------------------------------------------ the whole protocol

  /** Every step a client can take. */
  datatype Step =
    | ConnectStep(reached: bool, first: Frame, second: Frame)
    | SendStep(command: string, params: map<string, Value>)
    | TimeoutStep(id: int)
    | ReceiveStep(frame: Frame)
    | SubscribedStep(callback: Option<Callback>)
    | PingStep
    | CloseStep

  function Apply(c: ClientState, step: Step): ClientState
  {
    match step
    case ConnectStep(reached, first, second) => Connect(c, reached, first, second).0
    case SendStep(command, params) => SendCommand(c, command, params).0
    case TimeoutStep(id) => Timeout(c, id)
    case ReceiveStep(frame) => Receive(c, frame)
    case SubscribedStep(callback) => RegisterSubscription(c, callback).0
    case PingStep => Ping(c).0
    case CloseStep => Close(c)
  }

  function Run(c: ClientState, steps: seq<Step>): ClientState
  {
    if steps == [] then c else Apply(Run(c, steps[..|steps| - 1]), steps[|steps| - 1])
  }
}
