/**
 * `HomeAssistantAPI`: each operation becomes the command it hands to
 * `send_command` (its type and keyword arguments), and `get_state` becomes a
 * search over the list `get_states` returned.
 */
module HassApi {
  import opened Wrappers
  import opened Json
  import ClientModel

  /** `send_command(kind, **params)` */
  datatype Command = Command(kind: string, params: map<string, Value>)

  /** `entity_id` used in an `if entity_id:` test. */
  predicate HasEntity(entityId: Option<string>)
  {
    entityId.Some? && entityId.value != ""
  }

  /** `get_states()`: the frame on the wire is `{"id": ..., "type": "get_states"}` and nothing more. */
  function GetStatesCommand(): (cmd: Command)
    ensures forall id :: ClientModel.CommandFrame(id, cmd.kind, cmd.params) == Dict(map["id" := Int(id), "type" := Str("get_states")])
  {
    Command("get_states", map[])
  }

  /**
   * `call_service(domain, service, entity_id, **service_data)`: `service_data`
   * is sent only when it is non-empty; a truthy `entity_id` goes into it first,
   * and the extra service data is merged over it.
   */
  function CallService(domain: string, service: string, entityId: Option<string>, serviceData: map<string, Value>): (cmd: Command)
    ensures cmd.kind == "call_service"
    ensures "domain" in cmd.params && cmd.params["domain"] == Str(domain)
    ensures "service" in cmd.params && cmd.params["service"] == Str(service)
    ensures cmd.params.Keys <= {"domain", "service", "service_data"}
    ensures "service_data" in cmd.params <==> HasEntity(entityId) || serviceData != map[]
    ensures "service_data" in cmd.params ==>
      && cmd.params["service_data"].Dict?
      && cmd.params["service_data"].fields.Keys == serviceData.Keys + (if HasEntity(entityId) then {"entity_id"} else {})
      && (forall key :: key in serviceData ==> cmd.params["service_data"].fields[key] == serviceData[key])
      && (HasEntity(entityId) && "entity_id" !in serviceData ==>
            cmd.params["service_data"].fields["entity_id"] == Str(entityId.value))
  {
    var data := (if HasEntity(entityId) then map["entity_id" := Str(entityId.value)] else map[]) + serviceData;
    var call := map["domain" := Str(domain), "service" := Str(service)];
    if data != map[] then
      assert "entity_id" in data || exists key :: key in serviceData;
      Command("call_service", call["service_data" := Dict(data)])
    else
      assert serviceData.Keys <= data.Keys;
      Command("call_service", call)
  }

  /** The `service_data` a command carries: empty when it has none. */
  function ServiceDataOf(cmd: Command): map<string, Value>
  {
    if "service_data" in cmd.params && cmd.params["service_data"].Dict? then cmd.params["service_data"].fields else map[]
  }

  /** The domain and service a command calls. */
  predicate Calls(cmd: Command, domain: string, service: string)
  {
    && cmd.kind == "call_service"
    && "domain" in cmd.params && cmd.params["domain"] == Str(domain)
    && "service" in cmd.params && cmd.params["service"] == Str(service)
  }

  /**
   * `turn_on_light(entity_id, brightness, rgb_color)`: `brightness` and
   * `rgb_color` are sent only when they are not None (0 is sent), the colour
   * as a list.
   */
  function TurnOnLight(entityId: string, brightness: Option<int>, rgbColor: Option<seq<int>>): (cmd: Command)
    ensures Calls(cmd, "light", "turn_on")
    ensures "brightness" in ServiceDataOf(cmd) <==> brightness.Some?
    ensures brightness.Some? ==> ServiceDataOf(cmd)["brightness"] == Int(brightness.value)
    ensures "rgb_color" in ServiceDataOf(cmd) <==> rgbColor.Some?
    ensures rgbColor.Some? ==>
      && ServiceDataOf(cmd)["rgb_color"].List?
      && |ServiceDataOf(cmd)["rgb_color"].items| == |rgbColor.value|
      && forall i :: 0 <= i < |rgbColor.value| ==> ServiceDataOf(cmd)["rgb_color"].items[i] == Int(rgbColor.value[i])
    ensures entityId != "" ==> "entity_id" in ServiceDataOf(cmd) && ServiceDataOf(cmd)["entity_id"] == Str(entityId)
    ensures ServiceDataOf(cmd).Keys
      == (if brightness.Some? then {"brightness"} else {})
       + (if rgbColor.Some? then {"rgb_color"} else {})
       + (if entityId != "" then {"entity_id"} else {})
  {
    var withBrightness := if brightness.Some? then map["brightness" := Int(brightness.value)] else map[];
    var serviceData := if rgbColor.Some? then withBrightness["rgb_color" := List(seq(|rgbColor.value|, i requires 0 <= i < |rgbColor.value| => Int(rgbColor.value[i])))]
                       else withBrightness;
    CallService("light", "turn_on", Some(entityId), serviceData)
  }

  /** `turn_off_light(entity_id)` */
  function TurnOffLight(entityId: string): (cmd: Command)
    ensures Calls(cmd, "light", "turn_off")
    ensures ServiceDataOf(cmd) == if entityId != "" then map["entity_id" := Str(entityId)] else map[]
  {
    CallService("light", "turn_off", Some(entityId), map[])
  }

  /** `toggle_light(entity_id)` */
  function ToggleLight(entityId: string): (cmd: Command)
    ensures Calls(cmd, "light", "toggle")
    ensures ServiceDataOf(cmd) == if entityId != "" then map["entity_id" := Str(entityId)] else map[]
  {
    CallService("light", "toggle", Some(entityId), map[])
  }

  /** `set_temperature(entity_id, temperature)` */
  function SetTemperature(entityId: string, temperature: real): (cmd: Command)
    ensures Calls(cmd, "climate", "set_temperature")
    ensures "temperature" in ServiceDataOf(cmd) && ServiceDataOf(cmd)["temperature"] == Float(temperature)
    ensures ServiceDataOf(cmd).Keys == {"temperature"} + (if entityId != "" then {"entity_id"} else {})
  {
    CallService("climate", "set_temperature", Some(entityId), map["temperature" := Float(temperature)])
  }

  /** `set_hvac_mode(entity_id, hvac_mode)` */
  function SetHvacMode(entityId: string, hvacMode: string): (cmd: Command)
    ensures Calls(cmd, "climate", "set_hvac_mode")
    ensures "hvac_mode" in ServiceDataOf(cmd) && ServiceDataOf(cmd)["hvac_mode"] == Str(hvacMode)
    ensures ServiceDataOf(cmd).Keys == {"hvac_mode"} + (if entityId != "" then {"entity_id"} else {})
  {
    CallService("climate", "set_hvac_mode", Some(entityId), map["hvac_mode" := Str(hvacMode)])
  }

  /** `subscribe_state_changes(callback)`: always `subscribe_events` with event type `state_changed`. */
  function SubscribeStateChanges(): (cmd: Command)
    ensures cmd.kind == "subscribe_events"
    ensures cmd.params == map["event_type" := Str("state_changed")]
  {
    Command("subscribe_events", ClientModel.SubscribeParams(Some("state_changed")))
  }

  // ------------------------------------------------------------ get_state

  /** `state["entity_id"]`: None where the lookup raises (not a dict, or no such key). */
  function EntityIdOf(state: Value): Option<Value>
  {
    if state.Dict? && "entity_id" in state.fields then Some(state.fields["entity_id"]) else None
  }

  predicate IsEntity(state: Value, entityId: string)
  {
    EntityIdOf(state) == Some(Str(entityId))
  }

  /** `state["entity_id"]` raised (TypeError or KeyError) on this state. */
  datatype LookupError = BadState(state: Value)

  /** The states before index `i` all have an `entity_id`, and none of them is `entityId`. */
  predicate Skipped(states: seq<Value>, entityId: string, i: int)
    requires 0 <= i <= |states|
  {
    forall j :: 0 <= j < i ==> EntityIdOf(states[j]).Some? && !IsEntity(states[j], entityId)
  }

  /** The outcome of the `for` loop of `get_state` over `states`. */
  function FindState(states: seq<Value>, entityId: string): (r: Result<Option<Value>, LookupError>)
    ensures r.Ok? && r.value.Some? ==> r.value.value in states && IsEntity(r.value.value, entityId)
    ensures r.Err? ==> r.error.state in states && EntityIdOf(r.error.state).None?
  {
    if states == [] then Ok(None)
    else if EntityIdOf(states[0]).None? then Err(BadState(states[0]))
    else if IsEntity(states[0], entityId) then Ok(Some(states[0]))
    else
      var rest := FindState(states[1..], entityId);
      assert rest.Ok? && rest.value.Some? ==> rest.value.value in states[1..];
      assert rest.Err? ==> rest.error.state in states[1..];
      rest
  }

  /** The first state that is not skipped decides: it is returned, or its lookup raised. */
  lemma {:induction false} FindStateStopsAtFirst(states: seq<Value>, entityId: string, i: int)
    requires 0 <= i < |states| && Skipped(states, entityId, i)
    ensures IsEntity(states[i], entityId) ==> FindState(states, entityId) == Ok(Some(states[i]))
    ensures EntityIdOf(states[i]).None? ==> FindState(states, entityId) == Err(BadState(states[i]))
  {
    if i > 0 {
      assert Skipped(states[1..], entityId, i - 1) by {
        forall j | 0 <= j < i - 1 ensures EntityIdOf(states[1..][j]).Some? && !IsEntity(states[1..][j], entityId) {
          assert states[1..][j] == states[j + 1];
        }
      }
      FindStateStopsAtFirst(states[1..], entityId, i - 1);
      assert states[1..][i - 1] == states[i];
      assert EntityIdOf(states[0]).Some? && !IsEntity(states[0], entityId);
    }
  }

  /** `get_state` returns None exactly when every state has an `entity_id` and none of them matches. */
  lemma {:induction false} FindStateNone(states: seq<Value>, entityId: string)
    ensures FindState(states, entityId) == Ok(None) <==> Skipped(states, entityId, |states|)
  {
    if states != [] {
      FindStateNone(states[1..], entityId);
      if Skipped(states, entityId, |states|) {
        assert Skipped(states[1..], entityId, |states| - 1) by {
          forall j | 0 <= j < |states| - 1 ensures EntityIdOf(states[1..][j]).Some? && !IsEntity(states[1..][j], entityId) {
            assert states[1..][j] == states[j + 1];
          }
        }
      } else if EntityIdOf(states[0]).Some? && !IsEntity(states[0], entityId) {
        var j :| 0 <= j < |states| && !(EntityIdOf(states[j]).Some? && !IsEntity(states[j], entityId));
        assert states[1..][j - 1] == states[j];
      }
    }
  }

  /** `get_state(entity_id)` over the list `get_states()` returned: the first state with that id, or None. */
  method GetState(states: seq<Value>, entityId: string) returns (r: Result<Option<Value>, LookupError>)
    ensures r == FindState(states, entityId)
  {
    var i := 0;
    while i < |states|
      invariant 0 <= i <= |states|
      invariant FindState(states[i..], entityId) == FindState(states, entityId)
    {
      var state := states[i];
      assert states[i..][1..] == states[i + 1..];
      match EntityIdOf(state) {
        case None => return Err(BadState(state));
        case Some(id) =>
          if id == Str(entityId) {
            return Ok(Some(state));
          }
      }
      i := i + 1;
    }
    assert states[i..] == [];
    r := Ok(None);
  }
}
