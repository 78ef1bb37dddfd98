# hass-tui core, modelled in Dafny

hass-tui is a terminal client for Home Assistant. This project models its core
and proves properties of the model:

- **The WebSocket protocol client** (`HomeAssistantWebSocket`). It covers the
  connection lifecycle, the `auth_required`/`auth`/`auth_ok` handshake, the
  message id counter, the correlation table of pending requests, the
  subscription registry, the routing done by the receive loop, and teardown.
  - `ClientModel` is a sequential transition system. Every public call and
    every inbound frame is one atomic step on a `ClientState` value.
  - `WebSocketClient.HomeAssistantWebSocket` is a class with the Python
    object's fields. Each method makes the same assignments as the Python
    method. Each method promises that the object afterwards equals the
    `ClientModel` step applied to the object before.
  - `ClientProperties` proves what the client promises about those steps.
  - Futures are slots (`Unresolved`, `Resolved`, `Failed`, `Cancelled`).
    A future sits in `pending` until it settles, and its final value is then
    kept in `settled`.
  - Scheduling a callback is recorded as a `Delivery`. Written frames are
    appended to `sent`. Socket reads are a parameter: the frames the server
    sends.
- **The Home Assistant API layer** (`HassApi`). Each operation is the command
  it hands to `send_command`. `get_state` is a first-match search over the
  list `get_states` returned.
- **Configuration** (`Config`). `convert_to_ws` is the URL validator.
  `deep_merge` is the recursive dictionary merge of the settings.
- **The view-model of the TUI** (`AppView`, plus the class
  `App.HomeAssistantTui`). It covers:
  - the entity cache, an insertion-ordered dict kept as a key order and a map;
  - the domain filter applied on refresh;
  - live state updates;
  - filtering by mode and search;
  - table ordering by group mode;
  - the filter-bar counts;
  - favourite toggling;
  - the command line.

Decoded JSON is `Json.Value`. The Python semantics the code relies on are
written out explicitly:

- `dict.get`, and truthiness.
- Hashing of a message id against an int-keyed dict: `True` matches 1 and
  `2.0` matches 2. A list or dict id raises `TypeError`, which the receive
  loop's handler catches.

Four behaviours of the client code are worth knowing, and the model keeps them:

- **Failures of the receive loop.** In `websocket_client.py:188-242`, any
  exception ends the loop in DISCONNECTED. This includes a malformed frame and
  a dropped connection. Every pending future is left unresolved
  (`ClientProperties.DecodeFailureLeavesRequestsPending`).
- **A normal close by the server.** This ends the `async for` quietly, so the
  state stays CONNECTED.
- **`send_command` on a closed socket.** The id has already been consumed
  before the write fails, and the table entry is left behind.
- **`ping`.** It skips the state check and consumes an id even when the write
  fails.

## Model

| member | source | states |
|---|---|---|
| Json.AsIntKey | src/hass_tui/websocket_client.py:203-222 | An int id matches the dict key equal to it. The `in` test raises exactly for list and dict ids. |
| ClientModel.Init | src/hass_tui/websocket_client.py:69-101 | A new client is DISCONNECTED, with counter 0 and both maps empty. The object invariant holds. |
| ClientModel.CommandFrame | src/hass_tui/websocket_client.py:300-305 | The frame's keys are the keyword arguments' keys plus `id` and `type`. Every keyword argument is kept with its value and wins over `id`/`type` on a clash. |
| ClientModel.Connect | src/hass_tui/websocket_client.py:117-173 | `connect()` returns true iff the upgrade succeeded, the first frame is `auth_required` and the second is `auth_ok`. Then the state is CONNECTED with the loop running and the socket open; otherwise it is DISCONNECTED. The socket ends up closed when a `recv()` of the handshake met the server's close, and open otherwise. The auth frame is sent exactly when the challenge arrived. Maps, counter and deliveries are untouched. |
| ClientModel.HandshakeTrace | src/hass_tui/websocket_client.py:118-172 | The states `connect()` assigns start at CONNECTING. They follow only CONNECTING to AUTHENTICATING to CONNECTED, or fall to DISCONNECTED. The last one is the state `Connect` ends in, and CONNECTED, once reached, is final. |
| ClientModel.SendCommand | src/hass_tui/websocket_client.py:296-317 | Outside CONNECTED it fails with NotConnected and changes nothing. In CONNECTED the counter goes up by one and that id enters the table unresolved; nothing else changes but `sent`. The command frame is written and the id returned iff the socket is open; otherwise it fails with the entry left behind. |
| ClientModel.Timeout | src/hass_tui/websocket_client.py:323-329 | `pop(msg_id, None)` removes the id from the table and records its future as cancelled. For an id no longer there it changes nothing. No other field changes. |
| ClientModel.Receive | src/hass_tui/websocket_client.py:188-242 | Frames are read only while the loop runs, and a decoded dict is routed by its type. A malformed frame, a broken connection or a non-dict payload ends the loop in DISCONNECTED with the table untouched. A normal close ends the loop and keeps the state. |
| ClientModel.SubscribeParams | src/hass_tui/websocket_client.py:358-358 | `event_type` is sent iff it is truthy, with its value, and nothing else is sent. |
| ClientModel.RegisterSubscriptionByCommandId | src/hass_tui/websocket_client.py:358-369 | The corrected registration puts the callback under the subscribe command's own id and takes no new id. Every other registered callback stays, and nothing else changes. |
| ClientModel.RegisterSubscription | src/hass_tui/websocket_client.py:363-369 | The subscription id is the next counter value. The callback is registered under it only when one is given. Nothing else changes. |
| ClientModel.Ping | src/hass_tui/websocket_client.py:381-385 | In every state, `ping` consumes exactly one id. It writes a ping frame with that id iff the socket is open, and fails otherwise. |
| ClientModel.Close | src/hass_tui/websocket_client.py:399-416 | The result is DISCONNECTED, with the loop stopped and both maps empty. Every pending future is cancelled, and every earlier outcome is kept. Counter, sent frames and deliveries are unchanged. |
| ClientProperties.ConnectPreservesValid | src/hass_tui/websocket_client.py:117-173 | `connect` keeps the object invariant. The invariant: every id lies between 1 and the counter, the table holds only unresolved futures, and no id is both pending and settled. `connect` also only extends the history: the counter never decreases, settled outcomes never change, pending futures are never dropped unsettled, and sent frames and deliveries are only appended. |
| ClientProperties.SendCommandPreservesValid | src/hass_tui/websocket_client.py:296-317 | `send_command` keeps the object invariant and only extends the history. |
| ClientProperties.TimeoutPreservesValid | src/hass_tui/websocket_client.py:326-329 | Timeout cleanup keeps the object invariant and only extends the history. |
| ClientProperties.ReceivePreservesValid | src/hass_tui/websocket_client.py:188-242 | Handling any inbound frame keeps the object invariant and only extends the history. |
| ClientProperties.RoutePreservesValid | src/hass_tui/websocket_client.py:202-235 | Routing any decoded message by its `type` keeps the object invariant and only extends the history. |
| ClientProperties.SettlePreservesValid | src/hass_tui/websocket_client.py:210-215 | Popping a pending id and settling its future with a final outcome keeps the invariant and only extends the history. |
| ClientProperties.RegisterSubscriptionPreservesValid | src/hass_tui/websocket_client.py:363-366 | Registering a subscription keeps the object invariant and only extends the history. |
| ClientProperties.PingPreservesValid | src/hass_tui/websocket_client.py:381-385 | `ping` keeps the object invariant and only extends the history. |
| ClientProperties.ClosePreservesValid | src/hass_tui/websocket_client.py:409-416 | `close` keeps the object invariant and only extends the history. |
| ClientProperties.StepPreservesValid | src/hass_tui/websocket_client.py:69-416 | Every step a client can take keeps the invariant and only extends the history. |
| ClientProperties.RunPreservesValid | src/hass_tui/websocket_client.py:69-416 | Any sequence of steps keeps the invariant and only extends the history. |
| ClientProperties.ReachableStatesAreValid | src/hass_tui/websocket_client.py:77-96 | Every state reachable from a freshly constructed client satisfies the invariant and keeps its url and token. |
| ClientProperties.ExtendsTransitive | src/hass_tui/websocket_client.py:89-96 | The history guarantee composes across consecutive steps. |
| ClientProperties.StepTakesIds | src/hass_tui/websocket_client.py:271-272 | A step takes at most one id, the one after the counter, and raises the counter by exactly the number of ids taken. |
| ClientProperties.IdsNeverRepeat | src/hass_tui/websocket_client.py:261-272 | Over any run, the ids handed out are strictly increasing, so none repeats. Each lies above the starting counter and at or below the final counter, which equals the start plus the number of ids. |
| ClientProperties.SendCommandIdIsFresh | src/hass_tui/websocket_client.py:300-312 | The id `send_command` registers was absent from the table, the settled futures and the registry. It exceeds every pending id and is pending afterwards. |
| ClientProperties.SendAfterCloseFails | src/hass_tui/websocket_client.py:296-297 | After `close()`, `send_command` fails with NotConnected and changes nothing. |
| ClientProperties.ResultResolvesExactlyItsRequest | src/hass_tui/websocket_client.py:205-215 | A `result` for a pending id removes exactly that entry. Its future settles with `result` when `success` is truthy, with `error` otherwise. Nothing else changes. |
| ClientProperties.UnmatchedMessagesAreHarmless | src/hass_tui/websocket_client.py:205-235 | Messages that match nothing leave the client exactly as it was. These are a `result` for an id not in the table, an `event` for an unregistered id, a `pong`, and any other type. |
| ClientProperties.EventSchedulesItsCallback | src/hass_tui/websocket_client.py:217-226 | An event for a registered id schedules that id's callback exactly once, with the `event` payload, and changes nothing else. |
| ClientProperties.ResultFrameSettles | src/hass_tui/websocket_client.py:205-215 | A `result` frame for a pending id moves it from the table to `settled`, resolved with the payload on success and failed with it otherwise. Nothing else changes. |
| ClientProperties.EventFrameUnmatched | src/hass_tui/websocket_client.py:217-222 | An `event` frame whose id has no callback changes nothing. |
| ClientProperties.LateResultAfterTimeoutIsHarmless | src/hass_tui/websocket_client.py:205-215 | A result arriving after its request timed out changes nothing. |
| ClientProperties.TimeoutIsIdempotent | src/hass_tui/websocket_client.py:326-329 | The timeout cleanup applied twice equals applying it once. |
| ClientProperties.DecodeFailureLeavesRequestsPending | src/hass_tui/websocket_client.py:240-242 | An undecodable frame ends the loop in DISCONNECTED, and every pending future stays pending. |
| ClientProperties.StoppedLoopReadsNothing | src/hass_tui/websocket_client.py:188-242 | Once the loop has ended, later frames change nothing. |
| ClientProperties.RunFramesAppend | src/hass_tui/websocket_client.py:189-189 | Reading frames in two batches equals reading them in one, in arrival order. |
| ClientProperties.RunFramesStopsAt | src/hass_tui/websocket_client.py:188-242 | After the loop stopped at some frame, the rest of the frames make no difference. |
| ClientProperties.DeliveriesFollowFrameOrder | src/hass_tui/websocket_client.py:217-226 | Later frames only append deliveries: no callback invocation is reordered or retracted. |
| ClientProperties.FramesAsSteps | src/hass_tui/websocket_client.py:188-242 | A run of the receive loop is a run of receive steps, so it keeps the invariant and only extends the history. |
| ClientProperties.CloseCancelsEverything | src/hass_tui/websocket_client.py:409-416 | After `close()` both maps are empty and the state is DISCONNECTED. Every previously pending future is cancelled, and every previously settled outcome is unchanged. |
| ClientProperties.GetStatesRoundTrip | src/hass_tui/websocket_client.py:296-329 | After the handshake, `get_states` goes out as id 1 right after the auth frame. The matching successful result settles id 1 with the state list and empties the table. |
| ClientProperties.ClosedDuringHandshake | src/hass_tui/websocket_client.py:135-173 | When the server closes the socket during the handshake, `connect()` returns false in DISCONNECTED with the socket closed. A later `ping` then fails to send. |
| ClientProperties.AuthInvalidIsRejected | src/hass_tui/websocket_client.py:153-173 | `auth_invalid` after the token was sent makes `connect()` return false in DISCONNECTED. |
| ClientProperties.SubscriptionEventsAreDropped | src/hass_tui/websocket_client.py:358-369 | As written, the subscribe command is id 1 but the callback is registered as id 2. An event tagged with id 1 reaches no callback. |
| ClientProperties.RegisteredIdDiffersFromCommandIds | src/hass_tui/websocket_client.py:363-366 | In general, an event tagged with an already-issued command id finds no callback registered by `subscribe_events`. |
| ClientProperties.SubscriptionByCommandIdDelivers | src/hass_tui/websocket_client.py:358-369 | Registered under the subscribe command's id, the same event reaches the callback. |
| ClientProperties.ByCommandIdDeliversEveryEvent | src/hass_tui/websocket_client.py:217-226 | With the corrected registration, every event tagged with the subscribe command's id appends exactly one delivery of that callback with the event's payload. |
| ClientProperties.ByCommandIdPreservesValid | src/hass_tui/websocket_client.py:358-369 | The corrected registration keeps the object invariant and only extends the history. |
| WebSocketClient.CancelPending | src/hass_tui/websocket_client.py:410-412 | The loop over the table cancels every future not yet done and keeps every done one's value. The table's keys are unchanged. |
| WebSocketClient.HomeAssistantWebSocket.constructor | src/hass_tui/websocket_client.py:69-101 | The new object is the initial client state and satisfies the invariant. |
| WebSocketClient.HomeAssistantWebSocket.Connect | src/hass_tui/websocket_client.py:103-173 | The object after `connect()`, and its return value, are those of `ClientModel.Connect`, including a socket closed by the server during the handshake. The invariant is kept. |
| WebSocketClient.HomeAssistantWebSocket.NextId | src/hass_tui/websocket_client.py:261-272 | Returns the old counter plus one, which is the new counter. |
| WebSocketClient.HomeAssistantWebSocket.SendCommand | src/hass_tui/websocket_client.py:274-317 | The object and result are those of `ClientModel.SendCommand`. The invariant is kept. |
| WebSocketClient.HomeAssistantWebSocket.OnTimeout | src/hass_tui/websocket_client.py:326-329 | The object becomes `ClientModel.Timeout` of the old one. |
| WebSocketClient.HomeAssistantWebSocket.Awaited | src/hass_tui/websocket_client.py:323-325 | An awaited command has an outcome exactly when its future has settled, and that outcome is never unresolved. |
| WebSocketClient.HomeAssistantWebSocket.HandleFrame | src/hass_tui/websocket_client.py:189-242 | One pass of the loop body or its handler turns the object into `ClientModel.Receive` of the old one. |
| WebSocketClient.HomeAssistantWebSocket.ReceiveLoop | src/hass_tui/websocket_client.py:175-242 | The loop over the frames, stopping when the loop ends, yields `ClientModel.RunFrames` of the old object. |
| WebSocketClient.HomeAssistantWebSocket.BeginSubscribe | src/hass_tui/websocket_client.py:358-359 | The subscribe command goes out through `send_command` with the truthy event type only. |
| WebSocketClient.HomeAssistantWebSocket.FinishSubscribe | src/hass_tui/websocket_client.py:363-369 | The object and the returned subscription id are those of `ClientModel.RegisterSubscription`. |
| WebSocketClient.HomeAssistantWebSocket.Ping | src/hass_tui/websocket_client.py:371-385 | The object and result are those of `ClientModel.Ping`. |
| WebSocketClient.HomeAssistantWebSocket.Close | src/hass_tui/websocket_client.py:387-416 | The object becomes `ClientModel.Close` of the old one. |
| HassApi.GetStatesCommand | src/hass_tui/hass_api.py:35-49 | `get_states()` sends a frame holding only its id and `type` = `get_states`. |
| HassApi.CallService | src/hass_tui/hass_api.py:97-113 | The command is always `call_service` with the given domain and service. `service_data` is present iff `entity_id` is truthy or extra data was given. It holds exactly the extra keys plus `entity_id` when truthy, with every extra value kept. `entity_id` holds the id whenever the extra data has no `entity_id` key, which is always the case in Python because `entity_id` is a named parameter. |
| HassApi.TurnOnLight | src/hass_tui/hass_api.py:119-139 | `light.turn_on`. `brightness` is sent iff it is not None, 0 included. `rgb_color` is sent iff it is not None, as a list with the same components. `entity_id` is sent iff it is non-empty, and no other key is sent. |
| HassApi.TurnOffLight | src/hass_tui/hass_api.py:141-143 | `light.turn_off`, with only the entity in its service data. |
| HassApi.ToggleLight | src/hass_tui/hass_api.py:145-147 | `light.toggle`, with only the entity in its service data. |
| HassApi.SetTemperature | src/hass_tui/hass_api.py:153-166 | `climate.set_temperature`, carrying `temperature` and the entity and nothing else. |
| HassApi.SetHvacMode | src/hass_tui/hass_api.py:168-181 | `climate.set_hvac_mode`, carrying `hvac_mode` and the entity and nothing else. |
| HassApi.SubscribeStateChanges | src/hass_tui/hass_api.py:187-212 | Always `subscribe_events` with exactly `event_type` = `state_changed`. |
| HassApi.FindState | src/hass_tui/hass_api.py:62-66 | A found state is in the list and carries the requested `entity_id`. A raised lookup names a state of the list without an `entity_id`. |
| HassApi.FindStateStopsAtFirst | src/hass_tui/hass_api.py:63-65 | The first state that is not skipped decides. If it matches, it is returned. If its lookup raises, the search fails there. |
| HassApi.FindStateNone | src/hass_tui/hass_api.py:62-66 | `get_state` returns None iff every state has an `entity_id` and none of them matches. |
| HassApi.GetState | src/hass_tui/hass_api.py:62-66 | The `for` loop returns exactly the first-match outcome `FindState`. |
| Config.RewriteScheme | src/hass_tui/config.py:66-70 | `http://` becomes `ws://` and `https://` becomes `wss://`, once and at the front. Any other input is unchanged. |
| Config.ConvertToWs | src/hass_tui/config.py:64-76 | The result always ends with `/api/websocket`. An http(s) URL with a host becomes a ws(s) URL. A URL already ending with the path is only re-schemed. Otherwise the suffix follows the re-schemed URL with exactly its trailing slashes removed. |
| Config.RStripKeepsPrefix | src/hass_tui/config.py:74-74 | Stripping trailing `/` never reaches into the scheme when a host follows it. |
| Config.BareSchemeLosesItsSlashes | src/hass_tui/config.py:73-74 | `http://` alone becomes `ws:/api/websocket`, because `rstrip("/")` also eats the scheme's slashes. |
| Config.ConvertedIsNotHttp | src/hass_tui/config.py:64-76 | No output starts with `http://` or `https://`. |
| Config.ConvertToWsIdempotent | src/hass_tui/config.py:64-76 | Converting a converted URL returns it unchanged. |
| Config.DeepMerge | src/hass_tui/config.py:79-94 | The result's keys are the union of both sides. A base key absent from the override keeps its base value. The override wins unless both sides hold dicts, and then the result is a dict. |
| Config.MergeRecurses | src/hass_tui/config.py:89-90 | Where both sides hold a dict, the result holds their recursive merge. |
| Config.MergeEmptyOverride | src/hass_tui/config.py:86-94 | `deep_merge(base, {})` equals `base`. |
| Config.MergeEmptyBase | src/hass_tui/config.py:86-94 | `deep_merge({}, override)` equals `override`. |
| Config.MergeSelf | src/hass_tui/config.py:79-94 | Merging a dict with itself gives it back, at every depth. |
| Config.MergeIdempotent | src/hass_tui/config.py:79-94 | Merging the same override a second time changes nothing. |
| AppView.Put | src/hass_tui/app.py:1453-1453 | A dict write keeps the key order a list of distinct keys matching the map. A new key is appended. An existing key keeps its place and gets the new value. |
| AppView.FilterToDomains | src/hass_tui/app.py:963-969 | The comprehension succeeds iff every state has a string `entity_id`. Then the key order lists each cached key once, and every cached key carries an allowed `domain.` prefix and maps to a state with that id. |
| AppView.FilterToDomainsInsertionOrder | src/hass_tui/app.py:963-969 | The cache keys come in insertion order: every key occurs among the fetched states, and a key listed earlier first occurs earlier in the list. |
| AppView.FilterToDomainsKeepsAllowed | src/hass_tui/app.py:965-969 | Every fetched state with an allowed id has that id cached. |
| AppView.FilterToDomainsKeepsLast | src/hass_tui/app.py:965-969 | Every state with an allowed id is cached, and for a repeated id the last state wins. |
| AppView.FilterToDomainsDropsOthers | src/hass_tui/app.py:968-968 | An id without an allowed prefix is never cached. |
| AppView.CacheUpdate | src/hass_tui/app.py:1440-1453 | A state-change event writes iff its `data` is a dict whose `entity_id` is a non-empty string with an allowed prefix and whose `new_state` is truthy. It then writes that state under that id. |
| AppView.StateChangedEventIsCached | src/hass_tui/app.py:1440-1453 | A `state_changed` event for an allowed entity with a truthy new state writes that state under that id. |
| AppView.SelectionAfter | src/hass_tui/app.py:1455-1466 | The selection becomes the new state iff control reaches the check and the selected state is that entity; otherwise it is unchanged. Control reaches the check iff the new state is a dict and, when it has a `state`, `update_cell` returned or raised `KeyError`. |
| AppView.MakeRow | src/hass_tui/app.py:1020-1024 | `domain` is the text before the first `.`. `is_favorite` is membership in the favourites. The marker is the star iff the entity is a favourite. |
| AppView.FilteredRows | src/hass_tui/app.py:997-1026 | Every row is an admitted entity of the cache: it passes the filter mode and the case-insensitive search, and shows its state. A failure names an admitted entity whose state lookup raises. |
| AppView.FilteredRowsComplete | src/hass_tui/app.py:999-1026 | The walk succeeds iff every admitted entity has a state. Then every admitted entity has a row, and there are no more rows than entities. |
| AppView.FilteredRowsDistinct | src/hass_tui/app.py:999-1026 | Over a cache whose key order lists each key once, no entity appears twice in the table. |
| AppView.KeyLeTotal | src/hass_tui/app.py:1028-1044 | Any two rows compare under every group key. |
| AppView.KeyLeTransitive | src/hass_tui/app.py:1028-1044 | Every group key order is transitive. |
| AppView.KeyLeAntisymmetric | src/hass_tui/app.py:1028-1044 | Rows equal under a group key have the same entity id. |
| AppView.SortEntities | src/hass_tui/app.py:1028-1044 | The result is a permutation of the rows, sorted by the group key. The keys: favourites first then id, domain then id, state then id, or id alone. |
| AppView.FavoritesComeFirst | src/hass_tui/app.py:1030-1032 | Under FAVORITES_FIRST, every favourite precedes every other row, each part ascending by id. |
| AppView.SortedIsUnique | src/hass_tui/app.py:1028-1044 | With distinct ids there is one sorted arrangement, so the stable sort's output is determined. |
| AppView.CountKeys | src/hass_tui/app.py:987-991 | A `sum(1 for e in ...)` count is at most the number of keys, and it is 0 iff no key passes the test. |
| AppView.FilterCounts | src/hass_tui/app.py:985-991 | `all` is the length of the key order, and every other count is at most `all`. |
| AppView.CountKeysIsCardinality | src/hass_tui/app.py:987-991 | Over keys listed once each, a generator count equals the number of distinct keys that pass its test. |
| AppView.FilterCountsAreCardinalities | src/hass_tui/app.py:983-991 | Over the cache, `all` is the number of cached entities, and `favorites` the number of cached favourites. Each domain count is the number of cached ids with that prefix. |
| AppView.AtMostOneDomain | src/hass_tui/app.py:988-990 | No id starts with two of `light.`, `climate.` and `switch.`. |
| AppView.CountsBounded | src/hass_tui/app.py:985-991 | lights + climate + switches is at most `all`: no entity is counted under two domains. |
| AppView.LightsRowCount | src/hass_tui/app.py:983-1026 | Under the LIGHTS filter with no search, the table has exactly as many rows as the `lights` count. |
| AppView.Toggle | src/hass_tui/app.py:1281-1285 | Toggling flips membership of that id and of no other. |
| AppView.ToggleTwice | src/hass_tui/app.py:1281-1285 | Toggling the same id twice restores the favourites. |
| AppView.Dispatch | src/hass_tui/app.py:1207-1269 | Each command word maps to its action, in both directions. `all` shows ALL and clears the search. `search` with an argument sets it. `group` takes the four modes and rejects anything else. Every other word is unknown. |
| AppView.Interpret | src/hass_tui/app.py:1186-1205 | An empty stripped line is ignored. In search mode the whole stripped line becomes the search. Otherwise the lowercased first word and the rest are dispatched. |
| AppView.Perform | src/hass_tui/app.py:1207-1269 | Only a filter command or `all` changes the filter, and only a valid `group` changes the grouping. Only a search or `all` changes the search, and only `q`/`quit` requests quitting. |
| AppView.RejectedCommandsChangeNothing | src/hass_tui/app.py:1264-1269 | An unknown command, an unknown group mode or an empty line changes no setting. |
| AppView.CommandWordIgnoresCase | src/hass_tui/app.py:1203-1205 | Command words differing only in case do the same thing. |
| AppView.BareSearchIsUnknown | src/hass_tui/app.py:1242-1269 | `search` with no argument is an unknown command, not an empty search. |
| App.SelectedEntityId | src/hass_tui/app.py:1275-1279 | A selected id exists only for a truthy selection whose `entity_id` is a string. |
| App.HomeAssistantTui.constructor | src/hass_tui/app.py:869-887 | Starts with an empty cache, the configured favourites, no selection, filter ALL, grouping FAVORITES_FIRST and an empty search. |
| App.HomeAssistantTui.Refresh | src/hass_tui/app.py:954-969 | The cache becomes the domain-filtered dict of the fetched states. It is unchanged when there is no API or the comprehension raises. |
| App.HomeAssistantTui.GetFilteredEntities | src/hass_tui/app.py:997-1026 | The appending loop returns exactly `FilteredRows` of the cache and settings. |
| App.HomeAssistantTui.TableRows | src/hass_tui/app.py:1046-1052 | The table shows a permutation of the filtered rows, sorted by the current group. It fails exactly when filtering does. |
| App.HomeAssistantTui.SubmitCommand | src/hass_tui/app.py:1186-1205 | The settings become `Perform` of the old settings and the interpreted line. |
| App.HomeAssistantTui.RunCommand | src/hass_tui/app.py:1207-1269 | The settings become `Perform` of the old settings and the dispatched command. |
| App.HomeAssistantTui.Select | src/hass_tui/app.py:1087-1095 | The selection is the cached state of the chosen entity, or None when it is not cached. |
| App.HomeAssistantTui.ToggleFavorite | src/hass_tui/app.py:1273-1285 | With a selected entity, its membership in the favourites flips. Otherwise the favourites are unchanged. |
| App.HomeAssistantTui.OnStateChanged | src/hass_tui/app.py:1431-1466 | An event writes iff `CacheUpdate` finds a relevant entity and state: the state goes into the cache with dict key order, and the selection becomes `SelectionAfter` given the outcome of `update_cell`. Any other event leaves the object unchanged. |
| App.FilterToDomainsFails | src/hass_tui/app.py:963-969 | One state without a string `entity_id` makes the whole comprehension raise. |
| App.FilteredRowsStep | src/hass_tui/app.py:999-1024 | One more cache entry appends its row, is skipped, or makes the walk raise there. |
| App.FilteredRowsStopsAt | src/hass_tui/app.py:1024-1024 | Once a prefix of the cache raised, the whole walk raises the same way. |

## Left out

- Real I/O is replaced by parameters and logs. Socket connect, send, recv and
  close are not performed. Inbound frames are a parameter, and outbound frames
  are appended to `sent`.
- Asyncio is not modelled: tasks, cancellation of the receive task, and
  `wait_for` with its 30-second wall clock. A timeout is a step that may happen
  at any point. `close()` stops the loop by clearing `receiving`.
- `_safe_callback` is not modelled. A callback is recorded as a delivery
  instead of being called, so a coroutine test or a raising callback plays no
  part.
- JSON encoding and decoding are not modelled. An inbound frame is already
  decoded, or is `Malformed`.
- Floats in decoded JSON are reals, so NaN and the infinities, which
  `json.loads` accepts, are not represented.
- Concurrent callers are not modelled. Each call and each frame is one atomic
  step, and interleavings are sequences of steps.
- `__aenter__` and `__aexit__` only call `connect` and `close`, so they have no
  members of their own.
- `get_config` and `get_services` are not modelled beyond
  `HassApi.GetStatesCommand`. They are one-line `send_command` calls.
- The `await` of `get_states` is not modelled. A failed fetch leaves the cache
  as it was, which is the `Refresh` case without an API.
- Lowercasing and whitespace are not full Unicode. `Lower` folds ASCII letters
  only. `Strip` and `split()` treat the ASCII and Latin-1 whitespace
  characters as spaces.
- Textual widgets are not modelled: the table, the filter bar, the details
  panel, the cursor-driven selection in `_update_details_from_cursor`,
  `notify`, the live search handler, context menus, the key bindings, and
  saving favourites to disk.
- `App.HomeAssistantTui.OnStateChanged` takes what `update_cell` did as a
  parameter, because the table widget lies outside the model. Columns are
  added with generated keys (`app.py:378`), and a missing row or column may
  raise an exception other than `KeyError`. That exception would escape
  before the selection check.
- `App.HomeAssistantTui.RunCommand` records `q`/`quit` as a quit request
  instead of closing the client and exiting.
- `App.HomeAssistantTui.ToggleFavorite` keeps favourites as strings. A
  selected state whose `entity_id` is not a string changes nothing, where
  Python would add that value.
- `AppView.FilteredRows` treats a `state` that is not a string like a missing
  one: a row's state text is a string.
- `Config.ConvertToWs` promises the `ws://`/`wss://` prefix only when a host
  follows the scheme. For `http://` alone the code yields
  `ws:/api/websocket`, as `Config.BareSchemeLosesItsSlashes` shows.
- `Config.DeepMerge` leaves its arguments unmodified trivially, because
  Dafny maps are values. The copy made by `base.copy()` therefore has no
  counterpart.
- YAML and dotenv loading, saving, and pydantic validation are not modelled.
  Neither are float rendering, `time.time()` for `gg`, nor the helper
  scripts.

## Findings

| source | as written | input that shows it | evidently intended | confidence | as-written member | corrected member |
|---|---|---|---|---|---|---|
| src/hass_tui/websocket_client.py:363-366 | `subscribe_events` registers the callback under a fresh id from `_next_id`, after the subscribe command was sent under another id (`ClientModel.RegisterSubscription`). | After the handshake, `subscribe_events("state_changed", cb)` sends id 1 and registers `cb` as 2. The server's `{"type":"event","id":1,...}` finds no callback. | Register the callback under the subscribe command's id, which the server puts on its events (`ClientModel.RegisterSubscriptionByCommandId`). | not executed | ClientProperties.SubscriptionEventsAreDropped | ClientProperties.SubscriptionByCommandIdDelivers |
