/**
 * The shapes the intent dispatcher of lib/HttpActions.js reads and writes:
 * the smart-home request envelope, the response records it emits, and the
 * device registry it consults (the host node's `getProperties`,
 * `getStates`, `getDevice`, `getDeviceIds`, `getReachableDeviceIds` and a
 * device's `execCommand`), which the core does not own and which is given
 * here as a value of uninterpreted functions.
 */
module Protocol {
  import opened Js

  /** A device named in a QUERY or EXECUTE input; only its `id` is read. */
  datatype DeviceRef = DeviceRef(id: string)

  /** One entry of a command's `execution[]`; `params` may be absent. */
  datatype Execution = Execution(command: string, params: Option<map<string, Value>>)

  /** One entry of an EXECUTE input's `commands[]`. */
  datatype Command = Command(devices: seq<DeviceRef>, execution: seq<Execution>)

  /** One input of `inputs[]`: its intent and the parts of its payload that intents read. */
  datatype Input = Input(intent: Option<string>, devices: seq<DeviceRef>, commands: seq<Command>)

  /** The request body; `requestId` is echoed as it came (`Null` when absent). */
  datatype RequestBody = RequestBody(requestId: Value, inputs: Option<seq<Input>>)

  /** What `_post` reads of a request: the `Authorization` header, the caller's address and the body. */
  datatype Request = Request(authorization: Option<string>, ip: string, body: RequestBody)

  /** One own property of the object `getProperties()` returns, in key order; `None` is a falsy value. */
  datatype PropertyEntry = PropertyEntry(key: string, device: Option<map<string, Value>>)

  /** A device object as `getDevice(id)` returns it. */
  datatype DeviceView = DeviceView(states: map<string, Value>)

  /**
   * The object a device's `execCommand` returns, which is also the shape of
   * what `_execDevice` returns to `_exec`. `None` is an absent property.
   */
  datatype ExecResult = ExecResult(
    status: Option<Value>,
    errorCode: Option<Value>,
    challengeNeeded: Option<Value>,
    states: Option<map<string, Value>>,
    executionStates: Option<seq<string>>,
    reportState: Option<Value>,
    params: Option<map<string, Value>>)

  /** The device registry, as seen during one request. */
  datatype DeviceRegistry = DeviceRegistry(
    /** `getProperties()`, `None` when it returns a falsy value. */
    properties: Option<seq<PropertyEntry>>,
    /** `getDeviceIds(devices)`. */
    deviceIds: seq<DeviceRef> -> seq<string>,
    /** `getStates(ids)`. */
    states: seq<string> -> Value,
    /** `getDevice(id)`, `None` when it returns a falsy value. */
    device: string -> Option<DeviceView>,
    /** `getDevice(id).execCommand(command)`. */
    execCommand: (string, Execution) -> ExecResult,
    /** The device's `states` once `updated(command, result, is_local)` has run. */
    statesAfter: (string, Execution, ExecResult, bool) -> map<string, Value>,
    /** `getReachableDeviceIds()`. */
    reachable: Value)

  /** One entry of an EXECUTE response's `commands[]`. */
  datatype CommandResponse = CommandResponse(
    ids: seq<string>,
    status: Option<Value>,
    errorCode: Option<Value>,
    states: map<string, Value>,
    challengeNeeded: Option<Value>)

  /** The JSON bodies `_post` and the intent handlers send. */
  datatype Body =
    | ErrorBody(error: string)
    | EmptyBody
    | SyncBody(requestId: Value, agentUserId: string, devices: seq<map<string, Value>>)
    | QueryBody(requestId: Value, states: Value)
    | ExecBody(requestId: Value, commands: seq<CommandResponse>)
    | IdentifyBody(requestId: Value, device: Value)
    | ReachableBody(requestId: Value, reachable: Value)

  /** One `response.status(code).json(body)` the handler emits. */
  datatype Response = Response(status: int, body: Body)
}
