/**
 * The intent handlers of lib/HttpActions.js: SYNC (`_sync`), QUERY
 * (`_query`), EXECUTE (`_exec` and `_execDevice`), IDENTIFY and
 * REACHABLE_DEVICES (`_reachable_devices`), each producing the one response
 * it emits. The handlers that loop in the source (`_sync`, `_exec`) are
 * methods proved against the functions that specify them.
 */
module Intents {
  import opened Js
  import opened Protocol

  /** The `agentUserId` every payload carries. */
  const AgentUserId: string := "0"

  /** A registry call that returned a falsy value. */
  const Failed: Response := Response(500, ErrorBody("failed"))

  /** What SYNC reports when the registry has no device, so that account linking never sees zero devices. */
  const DummySceneDevice: map<string, Value> := map[
    "type" := Str("action.devices.types.SCENE"),
    "traits" := Arr([Str("action.devices.traits.Scene")]),
    "name" := Obj(map["defaultNames" := Arr([Str("Node-RED Scene")]), "name" := Str("Dummy")]),
    "willReportState" := Bool(true),
    "attributes" := Obj(map["sceneReversible" := Bool(false)]),
    "deviceInfo" := Obj(map["manufacturer" := Str("Node-RED"), "model" := Str("nr-device-scene-v1"),
                            "swVersion" := Str("1.0"), "hwVersion" := Str("1.0")]),
    "id" := Str("dummy.node")]

  /** What `_execDevice` answers for a missing or offline device. */
  const OfflineResult: ExecResult :=
    ExecResult(Some(Str("ERROR")), Some(Str("deviceOffline")), None, None, None, None, None)

  /*************************************************************************
   * SYNC
   *************************************************************************/

  /** A device description with `id` set to its key, as `device.id = key` leaves it. */
  function WithId(device: map<string, Value>, key: string): map<string, Value>
  {
    device["id" := Str(key)]
  }

  /** The devices `_sync` collects: every truthy property, in key order, with its id set. */
  function SyncDeviceList(entries: seq<PropertyEntry>): (list: seq<map<string, Value>>)
    ensures |list| <= |entries|
    ensures forall i :: 0 <= i < |list| ==> "id" in list[i]
    decreases |entries|
  {
    if entries == [] then []
    else
      var last := entries[|entries| - 1];
      SyncDeviceList(entries[..|entries| - 1])
      + (if last.device.Some? then [WithId(last.device.value, last.key)] else [])
  }

  /** The keys of the truthy properties, in order. */
  function TruthyKeys(entries: seq<PropertyEntry>): seq<string>
    decreases |entries|
  {
    if entries == [] then []
    else
      var last := entries[|entries| - 1];
      TruthyKeys(entries[..|entries| - 1]) + (if last.device.Some? then [last.key] else [])
  }

  predicate KeysDistinct(entries: seq<PropertyEntry>)
  {
    forall i, j :: 0 <= i < j < |entries| ==> entries[i].key != entries[j].key
  }

  /** The SYNC response: 500 for a falsy device map; otherwise the device list, or the placeholder scene alone. */
  function SyncResponse(reg: DeviceRegistry, requestId: Value): (resp: Response)
    ensures reg.properties.None? ==> resp == Failed
    ensures reg.properties.Some? ==>
              && resp.status == 200 && resp.body.SyncBody?
              && resp.body.requestId == requestId && resp.body.agentUserId == AgentUserId
              && resp.body.devices != []
              && (SyncDeviceList(reg.properties.value) != [] ==> resp.body.devices == SyncDeviceList(reg.properties.value))
              && (SyncDeviceList(reg.properties.value) == [] ==> resp.body.devices == [DummySceneDevice])
  {
    if reg.properties.None? then Failed
    else
      var list := SyncDeviceList(reg.properties.value);
      Response(200, SyncBody(requestId, AgentUserId, if list == [] then [DummySceneDevice] else list))
  }

  /** `_sync`: walks the registry's properties and pushes every truthy one, annotated with its id. */
  method Sync(reg: DeviceRegistry, requestId: Value) returns (resp: Response)
    ensures resp == SyncResponse(reg, requestId)
  {
    if reg.properties.None? {
      resp := Failed;
      return;
    }
    var entries := reg.properties.value;
    var deviceList: seq<map<string, Value>> := [];
    var i := 0;
    while i < |entries|
      invariant 0 <= i <= |entries|
      invariant deviceList == SyncDeviceList(entries[..i])
    {
      var entry := entries[i];
      if entry.device.Some? {
        var device := entry.device.value["id" := Str(entry.key)];
        deviceList := deviceList + [device];
      }
      assert entries[..i + 1][..i] == entries[..i];
      i := i + 1;
    }
    assert entries[..i] == entries;
    if deviceList == [] {
      deviceList := deviceList + [DummySceneDevice];
    }
    resp := Response(200, SyncBody(requestId, AgentUserId, deviceList));
    assert resp.body.devices == (if SyncDeviceList(reg.properties.value) == [] then [DummySceneDevice] else SyncDeviceList(reg.properties.value));
  }

  /** Every truthy property is listed, carrying its key as `id`. */
  lemma {:induction false} SyncListComplete(entries: seq<PropertyEntry>, j: int)
    requires 0 <= j < |entries| && entries[j].device.Some?
    ensures WithId(entries[j].device.value, entries[j].key) in SyncDeviceList(entries)
    decreases |entries|
  {
    if j < |entries| - 1 {
      var init := entries[..|entries| - 1];
      assert init[j] == entries[j];
      SyncListComplete(init, j);
    }
  }

  /** Nothing but truthy properties is listed: every listed device is one of them, with its key as `id`. */
  lemma {:induction false} SyncListSound(entries: seq<PropertyEntry>, d: map<string, Value>)
    requires d in SyncDeviceList(entries)
    ensures exists j :: 0 <= j < |entries| && entries[j].device.Some? && d == WithId(entries[j].device.value, entries[j].key)
    decreases |entries|
  {
    var init := entries[..|entries| - 1];
    var last := entries[|entries| - 1];
    if d in SyncDeviceList(init) {
      SyncListSound(init, d);
      var j :| 0 <= j < |init| && init[j].device.Some? && d == WithId(init[j].device.value, init[j].key);
      assert entries[j] == init[j];
    } else {
      assert last.device.Some? && d == WithId(last.device.value, last.key);
    }
  }

  /** The listed ids are the truthy keys, in order. */
  lemma {:induction false} SyncListIds(entries: seq<PropertyEntry>)
    ensures |SyncDeviceList(entries)| == |TruthyKeys(entries)|
    ensures forall i :: 0 <= i < |SyncDeviceList(entries)| ==>
              "id" in SyncDeviceList(entries)[i] && SyncDeviceList(entries)[i]["id"] == Str(TruthyKeys(entries)[i])
    decreases |entries|
  {
    if entries != [] {
      SyncListIds(entries[..|entries| - 1]);
    }
  }

  /** The truthy keys come from the property keys. */
  lemma {:induction false} TruthyKeysFromEntries(entries: seq<PropertyEntry>, i: int)
    requires 0 <= i < |TruthyKeys(entries)|
    ensures exists j :: 0 <= j < |entries| && entries[j].key == TruthyKeys(entries)[i]
    decreases |entries|
  {
    var init := entries[..|entries| - 1];
    if i < |TruthyKeys(init)| {
      TruthyKeysFromEntries(init, i);
      var j :| 0 <= j < |init| && init[j].key == TruthyKeys(init)[i];
      assert entries[j] == init[j];
    } else {
      assert TruthyKeys(entries)[i] == entries[|entries| - 1].key;
    }
  }

  /** Distinct property keys give distinct truthy keys. */
  lemma {:induction false} TruthyKeysDistinct(entries: seq<PropertyEntry>)
    requires KeysDistinct(entries)
    ensures forall i, k :: 0 <= i < k < |TruthyKeys(entries)| ==> TruthyKeys(entries)[i] != TruthyKeys(entries)[k]
    decreases |entries|
  {
    if entries != [] {
      var init := entries[..|entries| - 1];
      var last := entries[|entries| - 1];
      assert KeysDistinct(init) by {
        forall i, j | 0 <= i < j < |init| ensures init[i].key != init[j].key {
          assert init[i] == entries[i] && init[j] == entries[j];
        }
      }
      TruthyKeysDistinct(init);
      forall i | 0 <= i < |TruthyKeys(init)|
        ensures TruthyKeys(init)[i] != last.key
      {
        TruthyKeysFromEntries(init, i);
        var j :| 0 <= j < |init| && init[j].key == TruthyKeys(init)[i];
        assert init[j] == entries[j];
      }
    }
  }

  /**
   * Each device appears once: with distinct property keys (as an object's
   * keys are), no two listed devices share an id.
   */
  lemma SyncListIdsDistinct(entries: seq<PropertyEntry>)
    requires KeysDistinct(entries)
    ensures forall i, k :: 0 <= i < k < |SyncDeviceList(entries)| ==>
              && "id" in SyncDeviceList(entries)[i] && "id" in SyncDeviceList(entries)[k]
              && SyncDeviceList(entries)[i]["id"] != SyncDeviceList(entries)[k]["id"]
  {
    SyncListIds(entries);
    TruthyKeysDistinct(entries);
  }

  /** The list is empty exactly when every property is falsy; SYNC then answers with the placeholder scene alone. */
  lemma {:induction false} SyncListEmpty(entries: seq<PropertyEntry>)
    ensures SyncDeviceList(entries) == [] <==> forall j :: 0 <= j < |entries| ==> entries[j].device.None?
    decreases |entries|
  {
    if entries != [] {
      var init := entries[..|entries| - 1];
      SyncListEmpty(init);
      assert forall j :: 0 <= j < |init| ==> init[j] == entries[j];
    }
  }

  /*************************************************************************
   * QUERY, IDENTIFY, REACHABLE_DEVICES
   *************************************************************************/

  /**
   * `_query`: the states of the requested devices, or a 500 when the
   * registry returns a falsy value.
   */
  function Query(reg: DeviceRegistry, requestId: Value, devices: seq<DeviceRef>): (resp: Response)
    ensures !Truthy(reg.states(reg.deviceIds(devices))) ==> resp == Failed
    ensures Truthy(reg.states(reg.deviceIds(devices))) ==>
              resp.status == 200 && resp.body.QueryBody? && resp.body.requestId == requestId
              && resp.body.states == reg.states(reg.deviceIds(devices))
  {
    var states := reg.states(reg.deviceIds(devices));
    if !Truthy(states) then Failed
    else Response(200, QueryBody(requestId, states))
  }

  /** `_reachable_devices`: the registry's reachable devices, or a 500 for a falsy answer. */
  function ReachableDevices(reg: DeviceRegistry, requestId: Value): (resp: Response)
    ensures !Truthy(reg.reachable) ==> resp == Failed
    ensures Truthy(reg.reachable) ==>
              resp.status == 200 && resp.body.ReachableBody? && resp.body.requestId == requestId
              && resp.body.reachable == reg.reachable
  {
    if !Truthy(reg.reachable) then Failed
    else Response(200, ReachableBody(requestId, reg.reachable))
  }

  /** The IDENTIFY answer: the bridge itself, a local-only proxy device named by the node id. */
  function IdentifyResponse(requestId: Value, nodeId: string): (resp: Response)
    ensures resp.status == 200 && resp.body.IdentifyBody? && resp.body.requestId == requestId
    ensures resp.body.device.Obj? && "id" in resp.body.device.fields && resp.body.device.fields["id"] == Str(nodeId)
    ensures "isLocalOnly" in resp.body.device.fields && resp.body.device.fields["isLocalOnly"] == Bool(true)
    ensures "isProxy" in resp.body.device.fields && resp.body.device.fields["isProxy"] == Bool(true)
  {
    Response(200, IdentifyBody(requestId, Obj(map[
      "id" := Str(nodeId),
      "isLocalOnly" := Bool(true),
      "isProxy" := Bool(true),
      "deviceInfo" := Obj(map["manufacturer" := Str("Node-RED"), "model" := Str("Node-Red"),
                              "swVersion" := Str("1.0"), "hwVersion" := Str("1.0")])])))
  }

  /*************************************************************************
   * EXECUTE
   *************************************************************************/

  /** The device exists and its `states.online` is truthy. */
  predicate Online(reg: DeviceRegistry, id: string)
  {
    reg.device(id).Some? && "online" in reg.device(id).value.states && Truthy(reg.device(id).value.states["online"])
  }

  /** A handler's `params` that overwrite the command's: present and with at least one key. */
  predicate HasNewParams(result: ExecResult)
  {
    result.params.Some? && |result.params.value| > 0
  }

  /**
   * What `_execDevice` leaves behind: its answer to `_exec`, the execution
   * as later devices see it (its `params` possibly overwritten), and whether
   * a state report was scheduled for the device.
   */
  datatype DeviceOutcome = DeviceOutcome(response: ExecResult, execution: Execution, reportScheduled: bool)

  /**
   * `_execDevice(command, device, is_local)`. A missing or offline device
   * is answered with ERROR/deviceOffline and its handler is never called. A
   * handler answer carrying `status` is passed through, without a report.
   * Otherwise the answer is SUCCESS with the handler's non-empty `states`
   * (or else the device's own), a report is scheduled unless the handler
   * returned a falsy `reportState`, and non-empty handler `params` replace
   * the command's for the devices that follow.
   */
  function ExecDevice(reg: DeviceRegistry, execution: Execution, device: DeviceRef, isLocal: bool): (o: DeviceOutcome)
    ensures !Online(reg, device.id) ==> o == DeviceOutcome(OfflineResult, execution, false)
    ensures Online(reg, device.id) && reg.execCommand(device.id, execution).status.Some? ==>
              o == DeviceOutcome(reg.execCommand(device.id, execution), execution, false)
    ensures Online(reg, device.id) && reg.execCommand(device.id, execution).status.None? ==>
              var result := reg.execCommand(device.id, execution);
              && o.response.status == Some(Str("SUCCESS"))
              && o.response.errorCode.None? && o.response.challengeNeeded.None?
              && o.response.executionStates == result.executionStates
              && o.response.states == Some(if result.states.Some? && |result.states.value| > 0 then result.states.value
                                           else reg.statesAfter(device.id, execution, result, isLocal))
              && (o.reportScheduled <==> result.reportState.None? || Truthy(result.reportState.value))
              && (HasNewParams(result) ==> o.execution == execution.(params := result.params))
              && (!HasNewParams(result) ==> o.execution == execution)
  {
    if !Online(reg, device.id) then DeviceOutcome(OfflineResult, execution, false)
    else
      var result := reg.execCommand(device.id, execution);
      if result.status.Some? then DeviceOutcome(result, execution, false)
      else
        var report := result.reportState.None? || Truthy(result.reportState.value);
        var next := if HasNewParams(result) then execution.(params := result.params) else execution;
        var states := if result.states.Some? && |result.states.value| > 0 then result.states.value
                      else reg.statesAfter(device.id, execution, result, isLocal);
        DeviceOutcome(ExecResult(Some(Str("SUCCESS")), None, None, Some(states), result.executionStates, None, None),
                      next, report)
  }

  /** The `states` of a response entry: only the keys `executionStates` lists, and only those the answer has. */
  function ExecutionStates(r: ExecResult): (m: map<string, Value>)
    ensures forall k :: k in m ==>
              r.executionStates.Some? && k in r.executionStates.value
              && r.states.Some? && k in r.states.value && m[k] == r.states.value[k]
    ensures r.executionStates.Some? && r.states.Some? ==>
              forall k :: k in r.executionStates.value && k in r.states.value ==> k in m
  {
    if r.executionStates.None? then map[]
    else
      var states := if r.states.Some? then r.states.value else map[];
      map k | k in r.executionStates.value && k in states :: states[k]
  }

  /** The entry `_exec` pushes for one device and one answer; falsy `errorCode` and `challengeNeeded` are dropped. */
  function Entry(id: string, r: ExecResult): (e: CommandResponse)
    ensures e.ids == [id] && e.status == r.status && e.states == ExecutionStates(r)
    ensures e.errorCode.Some? <==> TruthyOpt(r.errorCode)
    ensures e.errorCode.Some? ==> e.errorCode == r.errorCode
    ensures e.challengeNeeded.Some? <==> TruthyOpt(r.challengeNeeded)
    ensures e.challengeNeeded.Some? ==> e.challengeNeeded == r.challengeNeeded
  {
    CommandResponse([id], r.status,
                    if TruthyOpt(r.errorCode) then r.errorCode else None,
                    ExecutionStates(r),
                    if TruthyOpt(r.challengeNeeded) then r.challengeNeeded else None)
  }

  /** The entries and the device ids with a state report scheduled, in emission order. */
  datatype Fanout = Fanout(entries: seq<CommandResponse>, reports: seq<string>)
  {
    function Then(next: Fanout): Fanout
    {
      Fanout(entries + next.entries, reports + next.reports)
    }
  }

  /** The innermost loop of `_exec`: one execution over the devices of a command, its params threaded through. */
  function RunDevices(reg: DeviceRegistry, execution: Execution, devices: seq<DeviceRef>, isLocal: bool): (r: (Fanout, Execution))
    ensures |r.0.entries| == |devices|
    decreases |devices|
  {
    if devices == [] then (Fanout([], []), execution)
    else
      var before := RunDevices(reg, execution, devices[..|devices| - 1], isLocal);
      var step := DeviceStep(reg, before.1, devices[|devices| - 1], isLocal);
      (before.0.Then(step.0), step.1)
  }

  /** One device of the innermost loop: its entry, its report, and the execution the next device sees. */
  function DeviceStep(reg: DeviceRegistry, execution: Execution, d: DeviceRef, isLocal: bool): (r: (Fanout, Execution))
    ensures |r.0.entries| == 1
  {
    var o := ExecDevice(reg, execution, d, isLocal);
    (Fanout([Entry(d.id, o.response)], if o.reportScheduled then [d.id] else []), o.execution)
  }

  /** The middle loop of `_exec`: every execution of one command. */
  function RunExecutions(reg: DeviceRegistry, executions: seq<Execution>, devices: seq<DeviceRef>, isLocal: bool): (f: Fanout)
    ensures |f.entries| == |executions| * |devices|
    decreases |executions|
  {
    if executions == [] then Fanout([], [])
    else
      var before := RunExecutions(reg, executions[..|executions| - 1], devices, isLocal);
      assert |before.entries| + |devices| == |executions| * |devices| by {
        assert (|executions| - 1) * |devices| + |devices| == |executions| * |devices|;
      }
      before.Then(RunDevices(reg, executions[|executions| - 1], devices, isLocal).0)
  }

  /** The outer loop of `_exec`: every command. */
  function RunCommands(reg: DeviceRegistry, commands: seq<Command>, isLocal: bool): (f: Fanout)
    ensures |f.entries| == PairCount(commands)
    decreases |commands|
  {
    if commands == [] then Fanout([], [])
    else
      var last := commands[|commands| - 1];
      RunCommands(reg, commands[..|commands| - 1], isLocal).Then(RunExecutions(reg, last.execution, last.devices, isLocal))
  }

  /** The EXECUTE response: one 200 carrying every entry. */
  function ExecResponse(reg: DeviceRegistry, requestId: Value, commands: seq<Command>, isLocal: bool): (resp: Response)
    ensures resp.status == 200 && resp.body.ExecBody? && resp.body.requestId == requestId
    ensures |resp.body.commands| == PairCount(commands)
  {
    Response(200, ExecBody(requestId, RunCommands(reg, commands, isLocal).entries))
  }

  /**
   * `_exec`: for every command, every execution and every device, in that
   * nesting, one entry; returns the response and the devices for which a
   * state report was scheduled.
   */
  method Exec(reg: DeviceRegistry, requestId: Value, commands: seq<Command>, isLocal: bool)
    returns (resp: Response, reports: seq<string>)
    ensures resp == ExecResponse(reg, requestId, commands, isLocal)
    ensures reports == RunCommands(reg, commands, isLocal).reports
  {
    var respCommands: seq<CommandResponse> := [];
    reports := [];
    var i := 0;
    while i < |commands|
      invariant 0 <= i <= |commands|
      invariant Fanout(respCommands, reports) == RunCommands(reg, commands[..i], isLocal)
    {
      var fanout := ExecuteCommand(reg, commands[i], isLocal);
      respCommands := respCommands + fanout.entries;
      reports := reports + fanout.reports;
      assert commands[..i + 1][..i] == commands[..i];
      i := i + 1;
    }
    assert commands[..i] == commands;
    resp := Response(200, ExecBody(requestId, respCommands));
  }

  /** The middle loop of `_exec`: each execution of one command, over all its devices. */
  method ExecuteCommand(reg: DeviceRegistry, command: Command, isLocal: bool) returns (fanout: Fanout)
    ensures fanout == RunExecutions(reg, command.execution, command.devices, isLocal)
  {
    fanout := Fanout([], []);
    var j := 0;
    while j < |command.execution|
      invariant 0 <= j <= |command.execution|
      invariant fanout == RunExecutions(reg, command.execution[..j], command.devices, isLocal)
    {
      var step, _ := ExecuteOnDevices(reg, command.execution[j], command.devices, isLocal);
      fanout := fanout.Then(step);
      assert command.execution[..j + 1][..j] == command.execution[..j];
      j := j + 1;
    }
    assert command.execution[..j] == command.execution;
  }

  /**
   * The innermost loop of `_exec`: one execution handed to each device in
   * turn, each device seeing the params the previous handlers left.
   */
  method ExecuteOnDevices(reg: DeviceRegistry, execution: Execution, devices: seq<DeviceRef>, isLocal: bool)
    returns (fanout: Fanout, after: Execution)
    ensures (fanout, after) == RunDevices(reg, execution, devices, isLocal)
  {
    fanout := Fanout([], []);
    after := execution;
    var k := 0;
    while k < |devices|
      invariant 0 <= k <= |devices|
      invariant (fanout, after) == RunDevices(reg, execution, devices[..k], isLocal)
    {
      var outcome := ExecDevice(reg, after, devices[k], isLocal);
      fanout := fanout.Then(Fanout([Entry(devices[k].id, outcome.response)],
                                   if outcome.reportScheduled then [devices[k].id] else []));
      after := outcome.execution;
      assert devices[..k + 1][..k] == devices[..k];
      k := k + 1;
    }
    assert devices[..k] == devices;
  }

  /** The number of (execution, device) pairs: the sum over commands of |execution| * |devices|. */
  function PairCount(commands: seq<Command>): nat
    decreases |commands|
  {
    if commands == [] then 0
    else
      var last := commands[|commands| - 1];
      PairCount(commands[..|commands| - 1]) + |last.execution| * |last.devices|
  }

  /** The `ids` of a command's devices, one singleton per device. */
  function DeviceIds(devices: seq<DeviceRef>): seq<seq<string>>
  {
    seq(|devices|, i requires 0 <= i < |devices| => [devices[i].id])
  }

  function Repeat(s: seq<seq<string>>, n: nat): seq<seq<string>>
  {
    if n == 0 then [] else Repeat(s, n - 1) + s
  }

  /** The `ids` of the entries in nested-loop order: per command, its devices once per execution. */
  function PairIds(commands: seq<Command>): seq<seq<string>>
    decreases |commands|
  {
    if commands == [] then []
    else
      var last := commands[|commands| - 1];
      PairIds(commands[..|commands| - 1]) + Repeat(DeviceIds(last.devices), |last.execution|)
  }

  function IdsOf(entries: seq<CommandResponse>): seq<seq<string>>
  {
    seq(|entries|, i requires 0 <= i < |entries| => entries[i].ids)
  }

  lemma IdsOfAppend(a: seq<CommandResponse>, b: seq<CommandResponse>)
    ensures IdsOf(a + b) == IdsOf(a) + IdsOf(b)
  {
  }

  lemma {:induction false} RunDevicesIds(reg: DeviceRegistry, execution: Execution, devices: seq<DeviceRef>, isLocal: bool)
    ensures IdsOf(RunDevices(reg, execution, devices, isLocal).0.entries) == DeviceIds(devices)
    decreases |devices|
  {
    if devices != [] {
      var init := devices[..|devices| - 1];
      RunDevicesIds(reg, execution, init, isLocal);
      var before := RunDevices(reg, execution, init, isLocal);
      IdsOfAppend(before.0.entries, DeviceStep(reg, before.1, devices[|devices| - 1], isLocal).0.entries);
      assert DeviceIds(devices) == DeviceIds(init) + [[devices[|devices| - 1].id]];
    }
  }

  lemma {:induction false} RunExecutionsIds(reg: DeviceRegistry, executions: seq<Execution>, devices: seq<DeviceRef>, isLocal: bool)
    ensures IdsOf(RunExecutions(reg, executions, devices, isLocal).entries) == Repeat(DeviceIds(devices), |executions|)
    decreases |executions|
  {
    if executions != [] {
      var init := executions[..|executions| - 1];
      RunExecutionsIds(reg, init, devices, isLocal);
      RunDevicesIds(reg, executions[|executions| - 1], devices, isLocal);
      IdsOfAppend(RunExecutions(reg, init, devices, isLocal).entries,
                  RunDevices(reg, executions[|executions| - 1], devices, isLocal).0.entries);
    }
  }

  lemma {:induction false} RepeatLength(s: seq<seq<string>>, n: nat)
    ensures |Repeat(s, n)| == n * |s|
    decreases n
  {
    if n > 0 {
      RepeatLength(s, n - 1);
      assert (n - 1) * |s| + |s| == n * |s|;
    }
  }

  lemma {:induction false} PairIdsLength(commands: seq<Command>)
    ensures |PairIds(commands)| == PairCount(commands)
    decreases |commands|
  {
    if commands != [] {
      var last := commands[|commands| - 1];
      PairIdsLength(commands[..|commands| - 1]);
      RepeatLength(DeviceIds(last.devices), |last.execution|);
    }
  }

  /**
   * EXECUTE fans out: exactly one entry per (command, execution, device),
   * Σ |execution| × |devices| of them, in nested-loop order, the entry for
   * a device carrying `ids == [device.id]`.
   */
  lemma {:induction false} ExecFanOut(reg: DeviceRegistry, commands: seq<Command>, isLocal: bool)
    ensures IdsOf(RunCommands(reg, commands, isLocal).entries) == PairIds(commands)
    ensures |RunCommands(reg, commands, isLocal).entries| == PairCount(commands)
    decreases |commands|
  {
    if commands != [] {
      var init := commands[..|commands| - 1];
      var last := commands[|commands| - 1];
      ExecFanOut(reg, init, isLocal);
      RunExecutionsIds(reg, last.execution, last.devices, isLocal);
      IdsOfAppend(RunCommands(reg, init, isLocal).entries, RunExecutions(reg, last.execution, last.devices, isLocal).entries);
    }
    PairIdsLength(commands);
    assert |IdsOf(RunCommands(reg, commands, isLocal).entries)| == |RunCommands(reg, commands, isLocal).entries|;
  }

  /** An entry is for one device, and a device that is missing or offline gets ERROR/deviceOffline. */
  predicate EntryFits(reg: DeviceRegistry, e: CommandResponse)
  {
    |e.ids| == 1 && (!Online(reg, e.ids[0]) ==> e == Entry(e.ids[0], OfflineResult))
  }

  lemma {:induction false} RunDevicesFit(reg: DeviceRegistry, execution: Execution, devices: seq<DeviceRef>, isLocal: bool)
    ensures forall e :: e in RunDevices(reg, execution, devices, isLocal).0.entries ==> EntryFits(reg, e)
    decreases |devices|
  {
    if devices != [] {
      RunDevicesFit(reg, execution, devices[..|devices| - 1], isLocal);
    }
  }

  lemma {:induction false} RunExecutionsFit(reg: DeviceRegistry, executions: seq<Execution>, devices: seq<DeviceRef>, isLocal: bool)
    ensures forall e :: e in RunExecutions(reg, executions, devices, isLocal).entries ==> EntryFits(reg, e)
    decreases |executions|
  {
    if executions != [] {
      RunExecutionsFit(reg, executions[..|executions| - 1], devices, isLocal);
      RunDevicesFit(reg, executions[|executions| - 1], devices, isLocal);
    }
  }

  /**
   * Every entry of an EXECUTE response names one device, and each pair
   * whose device is missing or offline is answered ERROR/deviceOffline,
   * whatever the other pairs do.
   */
  lemma {:induction false} OfflinePairsReportDeviceOffline(reg: DeviceRegistry, commands: seq<Command>, isLocal: bool)
    ensures forall e :: e in RunCommands(reg, commands, isLocal).entries ==> EntryFits(reg, e)
    decreases |commands|
  {
    if commands != [] {
      var last := commands[|commands| - 1];
      OfflinePairsReportDeviceOffline(reg, commands[..|commands| - 1], isLocal);
      RunExecutionsFit(reg, last.execution, last.devices, isLocal);
    }
  }

  /**
   * Running an execution over `a + b` is running it over `a`, then over `b`
   * with the params `a` left behind: later devices see the params an earlier
   * handler returned.
   */
  lemma {:induction false} RunDevicesAppend(reg: DeviceRegistry, execution: Execution, a: seq<DeviceRef>, b: seq<DeviceRef>, isLocal: bool)
    ensures var first := RunDevices(reg, execution, a, isLocal);
            var second := RunDevices(reg, first.1, b, isLocal);
            RunDevices(reg, execution, a + b, isLocal) == (first.0.Then(second.0), second.1)
    decreases |b|
  {
    if b == [] {
      assert a + b == a;
      var first := RunDevices(reg, execution, a, isLocal);
      assert first.0.Then(Fanout([], [])) == first.0;
    } else {
      var binit := b[..|b| - 1];
      var d := b[|b| - 1];
      assert (a + b)[..|a + b| - 1] == a + binit;
      assert (a + b)[|a + b| - 1] == d;
      RunDevicesAppend(reg, execution, a, binit, isLocal);
      var first := RunDevices(reg, execution, a, isLocal);
      var mid := RunDevices(reg, first.1, binit, isLocal);
      var step := DeviceStep(reg, mid.1, d, isLocal);
      assert RunDevices(reg, first.1, b, isLocal) == (mid.0.Then(step.0), step.1);
      assert RunDevices(reg, execution, a + b, isLocal) == (first.0.Then(mid.0).Then(step.0), step.1);
      assert first.0.Then(mid.0).Then(step.0) == first.0.Then(mid.0.Then(step.0));
    }
  }

  /**
   * A missing or offline device in the middle of a command leaves the other
   * devices' entries exactly as they would be without it: it gets one
   * ERROR/deviceOffline entry at its own position and changes no params.
   */
  lemma OfflineDeviceLeavesOthersUnaffected(reg: DeviceRegistry, execution: Execution, a: seq<DeviceRef>,
                                            offline: DeviceRef, b: seq<DeviceRef>, isLocal: bool)
    requires !Online(reg, offline.id)
    ensures var with := RunDevices(reg, execution, a + [offline] + b, isLocal).0.entries;
            var without := RunDevices(reg, execution, a + b, isLocal).0.entries;
            && with == without[..|a|] + [Entry(offline.id, OfflineResult)] + without[|a|..]
  {
    var first := RunDevices(reg, execution, a, isLocal);
    RunDevicesAppend(reg, execution, a + [offline], b, isLocal);
    RunDevicesAppend(reg, execution, a, [offline], isLocal);
    RunDevicesAppend(reg, execution, a, b, isLocal);
    assert [offline][..0] == [];
    var withA := RunDevices(reg, execution, a + [offline], isLocal);
    assert withA.1 == first.1;
  }
}
