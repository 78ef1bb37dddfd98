/**
 * What the websocket client promises, proved of the transition system in
 * `ClientModel`: the object invariant and the history guarantees hold after
 * any sequence of steps, ids are handed out in strictly increasing order,
 * inbound messages are routed to exactly the entry they name, and teardown
 * leaves nothing behind.
 */
module ClientProperties {
  import opened Wrappers
  import opened Json
  import opened ClientModel
  import HassApi

  // ------------------------------------------------------------- invariants

  lemma ExtendsTransitive(a: ClientState, b: ClientState, c: ClientState)
    requires Extends(a, b) && Extends(b, c)
    ensures Extends(a, c)
  {
  }

  lemma ConnectPreservesValid(c: ClientState, reached: bool, first: Frame, second: Frame)
    requires Valid(c)
    ensures var c' := Connect(c, reached, first, second).0; Valid(c') && Extends(c, c')
  {
  }

  lemma SendCommandPreservesValid(c: ClientState, command: string, params: map<string, Value>)
    requires Valid(c)
    ensures var c' := SendCommand(c, command, params).0; Valid(c') && Extends(c, c')
  {
  }

  lemma TimeoutPreservesValid(c: ClientState, id: int)
    requires Valid(c)
    ensures var c' := Timeout(c, id); Valid(c') && Extends(c, c')
  {
  }

  lemma ReceivePreservesValid(c: ClientState, frame: Frame)
    requires Valid(c)
    ensures var c' := Receive(c, frame); Valid(c') && Extends(c, c')
  {
    if c.receiving && frame.Text? && frame.data.Dict? {
      RoutePreservesValid(c, frame.data.fields);
    }
  }

  /** Routing one decoded message keeps the invariant: a settled future leaves the table for `settled`. */
  lemma RoutePreservesValid(c: ClientState, msg: map<string, Value>)
    requires Valid(c)
    ensures var c' := Route(c, msg); Valid(c') && Extends(c, c')
  {
    var key := AsIntKey(Get(msg, "id"));
    if Get(msg, "type") == Str("result") && key.Key? && key.k in c.pending {
      SettlePreservesValid(c, key.k, Outcome(msg));
    }
  }

  /** Moving a pending id to `settled` with a final outcome keeps the invariant. */
  lemma SettlePreservesValid(c: ClientState, k: int, outcome: Slot)
    requires Valid(c) && k in c.pending && outcome != Unresolved
    ensures var c' := c.(pending := c.pending - {k}, settled := c.settled[k := outcome]); Valid(c') && Extends(c, c')
  {
  }

  lemma RegisterSubscriptionPreservesValid(c: ClientState, callback: Option<Callback>)
    requires Valid(c)
    ensures var c' := RegisterSubscription(c, callback).0; Valid(c') && Extends(c, c')
  {
  }

  lemma PingPreservesValid(c: ClientState)
    requires Valid(c)
    ensures var c' := Ping(c).0; Valid(c') && Extends(c, c')
  {
  }

  lemma ClosePreservesValid(c: ClientState)
    requires Valid(c)
    ensures var c' := Close(c); Valid(c') && Extends(c, c')
  {
    var c' := Close(c);
    forall k | k in c'.settled ensures 1 <= k <= c'.messageId && c'.settled[k] != Unresolved {
      if k in c.pending {
        assert c'.settled[k] == CancelIfPending(c.pending[k]);
      }
    }
  }

  /** Every single step keeps the object invariant and only extends the history. */
  lemma StepPreservesValid(c: ClientState, step: Step)
    requires Valid(c)
    ensures Valid(Apply(c, step)) && Extends(c, Apply(c, step))
  {
    match step
    case ConnectStep(reached, first, second) => ConnectPreservesValid(c, reached, first, second);
    case SendStep(command, params) => SendCommandPreservesValid(c, command, params);
    case TimeoutStep(id) => TimeoutPreservesValid(c, id);
    case ReceiveStep(frame) => ReceivePreservesValid(c, frame);
    case SubscribedStep(callback) => RegisterSubscriptionPreservesValid(c, callback);
    case PingStep => PingPreservesValid(c);
    case CloseStep => ClosePreservesValid(c);
  }

  /** Any run of steps from a valid state keeps the invariant and only extends the history. */
  lemma {:induction false} RunPreservesValid(c: ClientState, steps: seq<Step>)
    requires Valid(c)
    ensures Valid(Run(c, steps)) && Extends(c, Run(c, steps))
  {
    if steps != [] {
      var before := Run(c, steps[..|steps| - 1]);
      RunPreservesValid(c, steps[..|steps| - 1]);
      StepPreservesValid(before, steps[|steps| - 1]);
      ExtendsTransitive(c, before, Run(c, steps));
    }
  }

  /** A freshly constructed client, driven by any steps, stays valid. */
  lemma {:induction false} ReachableStatesAreValid(url: string, token: string, steps: seq<Step>)
    ensures Valid(Run(Init(url, token), steps))
    ensures Run(Init(url, token), steps).url == url && Run(Init(url, token), steps).token == token
  {
    RunPreservesValid(Init(url, token), steps);
  }

  // ------------------------------------------------------------ identifiers

  /** The ids a step takes from `_next_id`, in order. */
  function IdsTaken(c: ClientState, step: Step): seq<int>
  {
    match step
    case SendStep(_, _) => if c.state == Connected then [c.messageId + 1] else []
    case SubscribedStep(_) => [c.messageId + 1]
    case PingStep => [c.messageId + 1]
    case _ => []
  }

  /** A step takes at most one id, the one after the counter, and moves the counter past it. */
  lemma StepTakesIds(c: ClientState, step: Step)
    ensures IdsTaken(c, step) == [] || IdsTaken(c, step) == [c.messageId + 1]
    ensures Apply(c, step).messageId == c.messageId + |IdsTaken(c, step)|
  {
  }

  /** The ids a run takes from `_next_id`, in order. */
  function IdsIssued(c: ClientState, steps: seq<Step>): seq<int>
  {
    if steps == [] then []
    else IdsIssued(c, steps[..|steps| - 1]) + IdsTaken(Run(c, steps[..|steps| - 1]), steps[|steps| - 1])
  }

  ghost predicate StrictlyIncreasing(ids: seq<int>)
  {
    forall i, j :: 0 <= i < j < |ids| ==> ids[i] < ids[j]
  }

  /**
   * `_next_id` raises the counter by exactly one per call: the ids one client
   * hands out are strictly increasing, hence never repeat, lie above the
   * counter the run started from, and end exactly at the final counter.
   */
  lemma {:induction false} IdsNeverRepeat(c: ClientState, steps: seq<Step>)
    ensures StrictlyIncreasing(IdsIssued(c, steps))
    ensures forall i :: 0 <= i < |IdsIssued(c, steps)| ==> c.messageId < IdsIssued(c, steps)[i] <= Run(c, steps).messageId
    ensures Run(c, steps).messageId == c.messageId + |IdsIssued(c, steps)|
  {
    if steps != [] {
      var prefix := steps[..|steps| - 1];
      var before := Run(c, prefix);
      IdsNeverRepeat(c, prefix);
      var taken := IdsTaken(before, steps[|steps| - 1]);
      StepTakesIds(before, steps[|steps| - 1]);
      assert Run(c, steps) == Apply(before, steps[|steps| - 1]);
      assert IdsIssued(c, steps) == IdsIssued(c, prefix) + taken;
    }
  }

  /** The id `send_command` registers is new: absent from the table, the settled futures and the callbacks. */
  lemma SendCommandIdIsFresh(c: ClientState, command: string, params: map<string, Value>)
    requires Valid(c) && c.state == Connected
    ensures var id := SendCommand(c, command, params).0.messageId;
      && id !in c.pending && id !in c.settled && id !in c.callbacks
      && id in SendCommand(c, command, params).0.pending
      && forall k :: k in c.pending ==> k < id
  {
  }

  /** After `close()`, `send_command` fails with "Not connected" and changes nothing. */
  lemma SendAfterCloseFails(c: ClientState, command: string, params: map<string, Value>)
    ensures SendCommand(Close(c), command, params) == (Close(c), Err(NotConnected))
  {
  }

  // ------------------------------------------------------------ routing

  function ResultFrame(id: int, success: bool, payload: Value): Frame
  {
    Text(Dict(map["id" := Int(id), "type" := Str("result"), "success" := Bool(success),
                  (if success then "result" else "error") := payload]))
  }

  function EventFrame(id: int, payload: Value): Frame
  {
    Text(Dict(map["id" := Int(id), "type" := Str("event"), "event" := payload]))
  }

  /**
   * A `result` naming a pending id removes exactly that entry and settles its
   * future with `result` on success, with `error` otherwise; nothing else changes.
   */
  lemma ResultResolvesExactlyItsRequest(c: ClientState, msg: map<string, Value>, k: int)
    requires c.receiving && Get(msg, "type") == Str("result") && AsIntKey(Get(msg, "id")) == Key(k)
    requires k in c.pending
    ensures var c' := Receive(c, Text(Dict(msg)));
      && c'.pending == c.pending - {k}
      && c'.settled == c.settled[k := if Truthy(Get(msg, "success")) then Resolved(Get(msg, "result"))
                                      else Failed(Get(msg, "error"))]
      && c' == c.(pending := c'.pending, settled := c'.settled)
  {
  }

  /**
   * A `result` or `event` for an id nobody waits on, a `pong`, or a message of
   * any other type leaves the client exactly as it was.
   */
  lemma UnmatchedMessagesAreHarmless(c: ClientState, msg: map<string, Value>)
    requires c.receiving
    requires || (Get(msg, "type") == Str("result") && !AsIntKey(Get(msg, "id")).Unhashable?
                 && !(AsIntKey(Get(msg, "id")).Key? && AsIntKey(Get(msg, "id")).k in c.pending))
             || (Get(msg, "type") == Str("event") && !AsIntKey(Get(msg, "id")).Unhashable?
                 && !(AsIntKey(Get(msg, "id")).Key? && AsIntKey(Get(msg, "id")).k in c.callbacks))
             || (Get(msg, "type") != Str("result") && Get(msg, "type") != Str("event"))
    ensures Receive(c, Text(Dict(msg))) == c
  {
  }

  /** An event for a registered subscription schedules its callback once, with the `event` payload. */
  lemma EventSchedulesItsCallback(c: ClientState, k: int, payload: Value)
    requires c.receiving && k in c.callbacks
    ensures Receive(c, EventFrame(k, payload)) == c.(deliveries := c.deliveries + [Delivery(k, c.callbacks[k], payload)])
  {
  }

  /** A `result` frame for a pending id settles it with its payload. */
  lemma ResultFrameSettles(c: ClientState, k: int, success: bool, payload: Value)
    requires c.receiving && k in c.pending
    ensures Receive(c, ResultFrame(k, success, payload))
      == c.(pending := c.pending - {k}, settled := c.settled[k := if success then Resolved(payload) else Failed(payload)])
  {
  }

  /** An `event` frame for an id without a callback changes nothing. */
  lemma EventFrameUnmatched(c: ClientState, k: int, payload: Value)
    requires c.receiving && k !in c.callbacks
    ensures Receive(c, EventFrame(k, payload)) == c
  {
  }

  /** A result arriving after its request timed out finds no entry and changes nothing. */
  lemma LateResultAfterTimeoutIsHarmless(c: ClientState, k: int, success: bool, payload: Value)
    ensures Receive(Timeout(c, k), ResultFrame(k, success, payload)) == Timeout(c, k)
  {
  }

  /** `pop(msg_id, None)` may run any number of times. */
  lemma TimeoutIsIdempotent(c: ClientState, k: int)
    ensures Timeout(Timeout(c, k), k) == Timeout(c, k)
  {
  }

  /** The loop's error path ends the loop in DISCONNECTED but leaves every pending future waiting. */
  lemma DecodeFailureLeavesRequestsPending(c: ClientState)
    requires c.receiving
    ensures var c' := Receive(c, Malformed);
      c'.state == Disconnected && !c'.receiving && c'.pending == c.pending && c'.settled == c.settled
  {
  }

  // ------------------------------------------------------------ the loop

  /** Once the loop has ended, later frames are never read. */
  lemma {:induction false} StoppedLoopReadsNothing(c: ClientState, frames: seq<Frame>)
    requires !c.receiving
    ensures RunFrames(c, frames) == c
  {
    if frames != [] {
      StoppedLoopReadsNothing(c, frames[..|frames| - 1]);
    }
  }

  /** Reading frames in two batches is reading them in one. */
  lemma {:induction false} RunFramesAppend(c: ClientState, first: seq<Frame>, second: seq<Frame>)
    ensures RunFrames(c, first + second) == RunFrames(RunFrames(c, first), second)
  {
    if second == [] {
      assert first + second == first;
    } else {
      var all := first + second;
      assert all[..|all| - 1] == first + second[..|second| - 1];
      assert all[|all| - 1] == second[|second| - 1];
      RunFramesAppend(c, first, second[..|second| - 1]);
    }
  }

  /** After the loop has stopped at frame `i`, the rest of the frames make no difference. */
  lemma RunFramesStopsAt(c: ClientState, frames: seq<Frame>, i: nat)
    requires i <= |frames| && !RunFrames(c, frames[..i]).receiving
    ensures RunFrames(c, frames) == RunFrames(c, frames[..i])
  {
    assert frames == frames[..i] + frames[i..];
    RunFramesAppend(c, frames[..i], frames[i..]);
    StoppedLoopReadsNothing(RunFrames(c, frames[..i]), frames[i..]);
  }

  /** Deliveries are only ever appended, in frame order: the loop never reorders or retracts one. */
  lemma {:induction false} DeliveriesFollowFrameOrder(c: ClientState, first: seq<Frame>, second: seq<Frame>)
    requires Valid(c)
    ensures RunFrames(c, first).deliveries <= RunFrames(c, first + second).deliveries
  {
    RunFramesAppend(c, first, second);
    FramesAsSteps(c, first);
    FramesAsSteps(RunFrames(c, first), second);
  }

  function ReceiveSteps(frames: seq<Frame>): (steps: seq<Step>)
    ensures |steps| == |frames|
  {
    if frames == [] then [] else ReceiveSteps(frames[..|frames| - 1]) + [ReceiveStep(frames[|frames| - 1])]
  }

  /** A run of the loop is a run of receive steps, so it keeps the invariant too. */
  lemma {:induction false} FramesAsSteps(c: ClientState, frames: seq<Frame>)
    requires Valid(c)
    ensures RunFrames(c, frames) == Run(c, ReceiveSteps(frames))
    ensures Valid(RunFrames(c, frames)) && Extends(c, RunFrames(c, frames))
  {
    if frames != [] {
      FramesAsSteps(c, frames[..|frames| - 1]);
      var steps := ReceiveSteps(frames);
      assert steps[..|steps| - 1] == ReceiveSteps(frames[..|frames| - 1]);
    }
    RunPreservesValid(c, ReceiveSteps(frames));
  }

  // ------------------------------------------------------------ teardown

  /**
   * `close()` empties the table and the registry, cancels every pending
   * future, keeps every future already settled, and ends in DISCONNECTED.
   */
  lemma CloseCancelsEverything(c: ClientState)
    requires Valid(c)
    ensures var c' := Close(c);
      && c'.pending == map[] && c'.callbacks == map[] && c'.state == Disconnected
      && (forall k :: k in c.pending ==> c'.settled[k] == Cancelled)
      && (forall k :: k in c.settled ==> c'.settled[k] == c.settled[k])
  {
  }

  // ------------------------------------------------------------ scenarios

  function ConnectedClient(url: string, token: string): (c: ClientState)
    ensures c == ClientState(url, token, Connected, Open, true, 0, map[], map[], map[], [], [AuthFrame(token)])
  {
    Connect(Init(url, token), true, Text(Dict(map["type" := Str("auth_required")])),
            Text(Dict(map["type" := Str("auth_ok")]))).0
  }

  /** `get_states` is sent as id 1; the matching successful result settles its future with the list. */
  lemma GetStatesRoundTrip(url: string, token: string, states: seq<Value>)
    ensures var get := HassApi.GetStatesCommand();
      var (c1, r) := SendCommand(ConnectedClient(url, token), get.kind, get.params);
      && r == Ok(1)
      && c1.sent == [AuthFrame(token), Dict(map["id" := Int(1), "type" := Str("get_states")])]
      && var c2 := Receive(c1, ResultFrame(1, true, List(states)));
         c2.settled == map[1 := Resolved(List(states))] && c2.pending == map[]
  {
  }

  /** `auth_invalid` after the token was sent: `connect()` returns false and the state is DISCONNECTED. */
  lemma AuthInvalidIsRejected(url: string, token: string)
    ensures var (c, ok) := Connect(Init(url, token), true, Text(Dict(map["type" := Str("auth_required")])),
                                   Text(Dict(map["type" := Str("auth_invalid")])));
      !ok && c.state == Disconnected && c.sent == [AuthFrame(token)]
  {
  }

  /**
   * The server closes the connection while `connect()` waits for a frame:
   * `recv()` raises, the socket stays closed, and a later `ping()` fails.
   */
  lemma ClosedDuringHandshake(c: ClientState, first: Frame, second: Frame)
    requires ClosesSocket(first) || (HasType(first, "auth_required") && ClosesSocket(second))
    ensures var (c', ok) := Connect(c, true, first, second);
      && !ok && c'.state == Disconnected && c'.transport == Closed
      && Ping(c').1 == Err(SendFailed)
  {
  }

  /**
   * As written, `subscribe_events` sends its command as id 1 and then
   * registers the callback under the freshly minted id 2. The server tags
   * the subscription's events with the command's id 1, so the callback is
   * never scheduled.
   */
  lemma SubscriptionEventsAreDropped(url: string, token: string, cb: Callback, payload: Value)
    ensures var (c1, r) := SendCommand(ConnectedClient(url, token), "subscribe_events", SubscribeParams(Some("state_changed")));
      && r == Ok(1)
      && var c2 := Receive(c1, ResultFrame(1, true, Null));
      && var (c3, subscriptionId) := RegisterSubscription(c2, Some(cb));
      && subscriptionId == 2
      && Receive(c3, EventFrame(1, payload)).deliveries == []
  {
    var (c1, r) := SendCommand(ConnectedClient(url, token), "subscribe_events", SubscribeParams(Some("state_changed")));
    ResultFrameSettles(c1, 1, true, Null);
    var c2 := Receive(c1, ResultFrame(1, true, Null));
    var (c3, subscriptionId) := RegisterSubscription(c2, Some(cb));
    EventFrameUnmatched(c3, 1, payload);
  }

  /** In general: the locally minted id is never the id of a command already sent. */
  lemma RegisteredIdDiffersFromCommandIds(c: ClientState, cb: Callback, commandId: int)
    requires Valid(c) && 1 <= commandId <= c.messageId && commandId !in c.callbacks && c.receiving
    ensures var (c', _) := RegisterSubscription(c, Some(cb));
      Receive(c', EventFrame(commandId, Null)).deliveries == c.deliveries
  {
  }

  /** Registered under the command's id, the same event reaches the callback. */
  lemma SubscriptionByCommandIdDelivers(url: string, token: string, cb: Callback, payload: Value)
    ensures var (c1, r) := SendCommand(ConnectedClient(url, token), "subscribe_events", SubscribeParams(Some("state_changed")));
      && r == Ok(1)
      && var c2 := Receive(c1, ResultFrame(1, true, Null));
      && var c3 := RegisterSubscriptionByCommandId(c2, r.value, cb);
      && Receive(c3, EventFrame(1, payload)).deliveries == [Delivery(1, cb, payload)]
  {
  }

  /** Registered under the command's id, every event the server tags with that id reaches the callback. */
  lemma ByCommandIdDeliversEveryEvent(c: ClientState, commandId: int, cb: Callback, payload: Value)
    requires c.receiving
    ensures Receive(RegisterSubscriptionByCommandId(c, commandId, cb), EventFrame(commandId, payload)).deliveries
      == c.deliveries + [Delivery(commandId, cb, payload)]
  {
  }

  /** The corrected registration keeps the object invariant for the id of a command already sent. */
  lemma ByCommandIdPreservesValid(c: ClientState, commandId: int, cb: Callback)
    requires Valid(c) && 1 <= commandId <= c.messageId
    ensures var c' := RegisterSubscriptionByCommandId(c, commandId, cb); Valid(c') && Extends(c, c')
  {
  }
}
