/**
 * `HomeAssistantWebSocket` as a class whose fields are the Python object's
 * fields. Each method performs the same assignments, in the same order, as
 * the Python method, and promises that the object afterwards is the
 * `ClientModel` step applied to the object before; `Valid()` is kept.
 *
 * Socket reads are parameters (the frames the server sends), socket writes
 * are appended to `sent`, and an awaited future is looked up in `settled`.
 */
module WebSocketClient {
  import opened Wrappers
  import opened Json
  import opened ClientModel
  import ClientProperties

  /**
   * The loop of `close()` over `_pending_requests.values()`: each future not
   * yet done is cancelled, a done one keeps its value. Ids enter the table in
   * increasing order, so walking the ids upwards is the dict's iteration order.
   */
  method CancelPending(table: map<int, Slot>, lastId: nat) returns (cancelled: map<int, Slot>)
    requires forall id :: id in table ==> 1 <= id <= lastId
    ensures cancelled.Keys == table.Keys
    ensures forall id :: id in table ==> cancelled[id] != Unresolved
    ensures forall id :: id in table && table[id] != Unresolved ==> cancelled[id] == table[id]
    ensures cancelled == map id | id in table :: CancelIfPending(table[id])
  {
    cancelled := map[];
    var next := 1;
    while next <= lastId
      invariant 1 <= next <= lastId + 1
      invariant forall id :: id in cancelled <==> id in table && id < next
      invariant forall id :: id in cancelled ==> cancelled[id] == CancelIfPending(table[id])
    {
      if next in table {
        cancelled := cancelled[next := CancelIfPending(table[next])];
      }
      next := next + 1;
    }
    assert forall id :: id in cancelled <==> id in table;
  }

  class HomeAssistantWebSocket {
    const url: string
    const token: string
    var state: ConnectionState
    var transport: Transport
    var receiving: bool
    var messageId: nat
    var pending: map<int, Slot>
    var callbacks: map<int, Callback>
    var settled: map<int, Slot>
    var deliveries: seq<Delivery>
    var sent: seq<Value>

    /** The object as a `ClientModel` value. */
    function Abs(): ClientState
      reads this
    {
      ClientState(url, token, state, transport, receiving, messageId, pending, callbacks, settled, deliveries, sent)
    }

    ghost predicate Valid()
      reads this
    {
      ClientModel.Valid(Abs())
    }

    constructor (url: string, token: string)
      ensures Valid() && Abs() == Init(url, token)
    {
      this.url := url;
      this.token := token;
      state := Disconnected;
      transport := NoSocket;
      receiving := false;
      messageId := 0;
      pending := map[];
      callbacks := map[];
      settled := map[];
      deliveries := [];
      sent := [];
    }

    /** `connect()`: `reached` is whether the upgrade succeeded; `first` and `second` are the two frames read. */
    method Connect(reached: bool, first: Frame, second: Frame) returns (ok: bool)
      requires Valid()
      modifies this
      ensures Valid()
      ensures (Abs(), ok) == ClientModel.Connect(old(Abs()), reached, first, second)
    {
      state := Connecting;
      if !reached {
        state := Disconnected;
        return false;
      }
      transport := Open;
      if !HasType(first, "auth_required") {
        // on a close frame `recv()` raised `ConnectionClosed`
        transport := if ClosesSocket(first) then Closed else Open;
        state := Disconnected;
        return false;
      }
      state := Authenticating;
      sent := sent + [AuthFrame(token)];
      if !HasType(second, "auth_ok") {
        transport := if ClosesSocket(second) then Closed else Open;
        state := Disconnected;
        return false;
      }
      state := Connected;
      receiving := true;
      ok := true;
    }

    /** `_next_id()` */
    method NextId() returns (id: nat)
      modifies this`messageId
      ensures id == old(messageId) + 1 && messageId == id
    {
      messageId := messageId + 1;
      id := messageId;
    }

    /** `send_command(command_type, **params)` up to the await: gate, allocate, register, write. */
    method SendCommand(command: string, params: map<string, Value>) returns (r: Result<int, CommandError>)
      requires Valid()
      modifies this
      ensures Valid()
      ensures (Abs(), r) == ClientModel.SendCommand(old(Abs()), command, params)
    {
      ClientProperties.SendCommandPreservesValid(Abs(), command, params);
      if state != Connected {
        return Err(NotConnected);
      }
      var msgId := NextId();
      pending := pending[msgId := Unresolved];
      if transport != Open {
        return Err(SendFailed);
      }
      sent := sent + [CommandFrame(msgId, command, params)];
      r := Ok(msgId);
    }

    /** The await's timeout branch: `pop(msg_id, None)` after `wait_for` cancelled the future. */
    method OnTimeout(msgId: int)
      requires Valid()
      modifies this
      ensures Valid()
      ensures Abs() == ClientModel.Timeout(old(Abs()), msgId)
    {
      ClientProperties.TimeoutPreservesValid(Abs(), msgId);
      if msgId in pending {
        pending := pending - {msgId};
        settled := settled[msgId := Cancelled];
      }
    }

    /** What the caller of `send_command` gets once its await returns: `None` while it is still waiting. */
    method Awaited(msgId: int) returns (r: Option<Slot>)
      requires Valid()
      ensures r.Some? <==> msgId in settled
      ensures r.Some? ==> r.value == settled[msgId] && r.value != Unresolved
    {
      r := if msgId in settled then Some(settled[msgId]) else None;
    }

    /** One pass through the body of `_receive_loop`, or its exception handler. */
    method HandleFrame(frame: Frame)
      requires Valid()
      modifies this
      ensures Valid()
      ensures Abs() == ClientModel.Receive(old(Abs()), frame)
    {
      ClientProperties.ReceivePreservesValid(Abs(), frame);
      if !receiving {
        return;
      }
      match frame {
        case ClosedOk =>
          receiving := false;
          transport := Closed;
        case ClosedError =>
          transport := Closed;
          receiving := false;
          state := Disconnected;
        case Malformed =>
          receiving := false;
          state := Disconnected;
        case Text(data) =>
          if !data.Dict? {
            receiving := false;
            state := Disconnected;
            return;
          }
          var msgType := Get(data.fields, "type");
          var msgId := AsIntKey(Get(data.fields, "id"));
          if msgType == Str("result") {
            if msgId.Unhashable? {
              receiving := false;
              state := Disconnected;
            } else if msgId.Key? && msgId.k in pending {
              pending := pending - {msgId.k};
              if Truthy(Get(data.fields, "success")) {
                settled := settled[msgId.k := Resolved(Get(data.fields, "result"))];
              } else {
                settled := settled[msgId.k := Failed(Get(data.fields, "error"))];
              }
            }
          } else if msgType == Str("event") {
            if msgId.Unhashable? {
              receiving := false;
              state := Disconnected;
            } else if msgId.Key? && msgId.k in callbacks {
              deliveries := deliveries + [Delivery(msgId.k, callbacks[msgId.k], Get(data.fields, "event"))];
            }
          }
      }
    }

    /** `_receive_loop()`: read frames in order until the loop ends or the frames run out. */
    method ReceiveLoop(frames: seq<Frame>)
      requires Valid()
      modifies this
      ensures Valid()
      ensures Abs() == RunFrames(old(Abs()), frames)
    {
      var i := 0;
      while i < |frames| && receiving
        invariant 0 <= i <= |frames|
        invariant Valid()
        invariant Abs() == RunFrames(old(Abs()), frames[..i])
      {
        assert frames[..i + 1][..i] == frames[..i];
        HandleFrame(frames[i]);
        i := i + 1;
      }
      if i < |frames| {
        ClientProperties.RunFramesStopsAt(old(Abs()), frames, i);
      } else {
        assert frames[..i] == frames;
      }
    }

    /**
     * `subscribe_events(event_type, callback)`: the subscribe command goes out
     * through `SendCommand`; `FinishSubscribe` is what runs after it returned.
     */
    method BeginSubscribe(eventType: Option<string>) returns (r: Result<int, CommandError>)
      requires Valid()
      modifies this
      ensures Valid()
      ensures (Abs(), r) == ClientModel.SendCommand(old(Abs()), "subscribe_events", SubscribeParams(eventType))
    {
      r := SendCommand("subscribe_events", SubscribeParams(eventType));
    }

    /** The rest of `subscribe_events` once its command succeeded: mint an id, register the callback under it. */
    method FinishSubscribe(commandId: int, callback: Option<Callback>) returns (subscriptionId: nat)
      requires Valid()
      requires commandId in settled && settled[commandId].Resolved?
      modifies this
      ensures Valid()
      ensures (Abs(), subscriptionId as int) == RegisterSubscription(old(Abs()), callback)
    {
      ClientProperties.RegisterSubscriptionPreservesValid(Abs(), callback);
      subscriptionId := NextId();
      if callback.Some? {
        callbacks := callbacks[subscriptionId := callback.value];
      }
    }

    /** `ping()` */
    method Ping() returns (r: Result<int, CommandError>)
      requires Valid()
      modifies this
      ensures Valid()
      ensures (Abs(), r) == ClientModel.Ping(old(Abs()))
    {
      ClientProperties.PingPreservesValid(Abs());
      var msgId := NextId();
      if transport != Open {
        return Err(SendFailed);
      }
      sent := sent + [PingFrame(msgId)];
      r := Ok(msgId);
    }

    /** `close()` */
    method Close()
      requires Valid()
      modifies this
      ensures Valid()
      ensures Abs() == ClientModel.Close(old(Abs()))
    {
      ClientProperties.ClosePreservesValid(Abs());
      receiving := false;
      if transport != NoSocket {
        transport := Closed;
      }
      var cancelled := CancelPending(pending, messageId);
      settled := settled + cancelled;
      pending := map[];
      callbacks := map[];
      state := Disconnected;
    }
  }
}
