/**
 * The smart-home fulfillment endpoint of lib/HttpActions.js (`_post` and the
 * local route in front of it) and the payloads of the two Home Graph calls
 * (`reportState`, `requestSync`).
 *
 * A request is authorized by its `Authorization: Bearer <token>` header: the
 * token is first offered to the local-token rotation, then resolved to a
 * user. Each input of the request is then dispatched on its intent, and
 * every handler emits its own response; the result of a request is the
 * sequence of responses it emits, in order.
 */
module HttpActions {
  import opened Js
  import opened Protocol
  import opened Intents
  import Strings
  import Auth

  const SyncIntent: string := "action.devices.SYNC"
  const QueryIntent: string := "action.devices.QUERY"
  const ExecuteIntent: string := "action.devices.EXECUTE"
  const DisconnectIntent: string := "action.devices.DISCONNECT"
  const IdentifyIntent: string := "action.devices.IDENTIFY"
  const ReachableDevicesIntent: string := "action.devices.REACHABLE_DEVICES"

  /** The 401 for a missing or refused credential, a missing `inputs` or a missing intent. */
  const Unauthorized: Response := Response(401, ErrorBody("missing inputs"))
  /** The 401 for an intent the endpoint does not know. */
  const UnknownIntent: Response := Response(401, ErrorBody("missing intent"))
  /** `status(200).json({})`. */
  const EmptyOk: Response := Response(200, EmptyBody)

  /**
   * The token of an `Authorization` header: a truthy header that splits on
   * single spaces into exactly `"Bearer"` and one more piece.
   */
  function BearerToken(header: Option<string>): (token: Option<string>)
    ensures !NonEmpty(header) ==> token.None?
    ensures token.Some? ==> header == Some("Bearer " + token.value) && ' ' !in token.value
  {
    if !NonEmpty(header) then None
    else
      var parts := Strings.Split(header.value, ' ');
      if |parts| != 2 || parts[0] != "Bearer" then None
      else
        Strings.JoinOfSplit(header.value, ' ');
        assert parts[1..] == [parts[1]];
        assert header.value == parts[0] + [' '] + parts[1];
        assert "Bearer" + [' '] == "Bearer ";
        Some(parts[1])
  }

  /**
   * A header yields token `t` exactly when it is `"Bearer " + t` with no
   * space in `t`: a second space, a leading or doubled space, or any other
   * scheme is refused.
   */
  lemma BearerTokenExact(header: string, t: string)
    ensures BearerToken(Some(header)) == Some(t) <==> header == "Bearer " + t && ' ' !in t
  {
    if BearerToken(Some(header)) == Some(t) {
      var parts := Strings.Split(header, ' ');
      Strings.JoinOfSplit(header, ' ');
      assert parts == ["Bearer", t];
      assert Strings.Join(parts, ' ') == "Bearer" + [' '] + t;
    }
    if header == "Bearer " + t && ' ' !in t {
      var parts := ["Bearer", t];
      assert Strings.Join(parts, ' ') == header;
      assert ' ' !in parts[0];
      Strings.SplitOfJoin(parts, ' ');
    }
  }

  /**
   * What the inputs of one request add up to: the responses emitted, the
   * devices scheduled for a state report, and how many DISCONNECT intents
   * revoked the caller's tokens.
   */
  datatype Batch = Batch(responses: seq<Response>, reports: seq<string>, disconnects: nat)
  {
    function Then(next: Batch): Batch
    {
      Batch(responses + next.responses, reports + next.reports, disconnects + next.disconnects)
    }
  }

  /**
   * One input of `_post`'s loop: a falsy intent is answered "missing
   * inputs" and the loop goes on; a known intent is handed to its handler;
   * any other is answered "missing intent". Each input emits exactly one
   * response.
   */
  function InputStep(reg: DeviceRegistry, requestId: Value, input: Input, isLocal: bool, nodeId: string): (b: Batch)
    ensures |b.responses| == 1
    ensures b.disconnects == (if input.intent == Some(DisconnectIntent) then 1 else 0)
    ensures b.reports != [] ==> input.intent == Some(ExecuteIntent)
    ensures !NonEmpty(input.intent) ==> b.responses == [Unauthorized]
    ensures NonEmpty(input.intent) &&
            input.intent.value !in {SyncIntent, QueryIntent, ExecuteIntent, DisconnectIntent, IdentifyIntent, ReachableDevicesIntent}
            ==> b.responses == [UnknownIntent]
  {
    if !NonEmpty(input.intent) then Batch([Unauthorized], [], 0)
    else
      var intent := input.intent.value;
      if intent == SyncIntent then Batch([SyncResponse(reg, requestId)], [], 0)
      else if intent == QueryIntent then Batch([Query(reg, requestId, input.devices)], [], 0)
      else if intent == ExecuteIntent then
        var fanout := RunCommands(reg, input.commands, isLocal);
        Batch([ExecResponse(reg, requestId, input.commands, isLocal)], fanout.reports, 0)
      else if intent == DisconnectIntent then Batch([EmptyOk], [], 1)
      else if intent == IdentifyIntent then Batch([IdentifyResponse(requestId, nodeId)], [], 0)
      else if intent == ReachableDevicesIntent then Batch([ReachableDevices(reg, requestId)], [], 0)
      else Batch([UnknownIntent], [], 0)
  }

  /**
   * What each intent answers: SYNC, QUERY, EXECUTE, IDENTIFY and
   * REACHABLE_DEVICES their handler's response, EXECUTE also the state
   * reports of its fan-out, and DISCONNECT `200 {}` plus one revocation.
   */
  lemma InputStepDispatch(reg: DeviceRegistry, requestId: Value, input: Input, isLocal: bool, nodeId: string)
    ensures var b := InputStep(reg, requestId, input, isLocal, nodeId);
            && (input.intent == Some(SyncIntent) ==> b == Batch([SyncResponse(reg, requestId)], [], 0))
            && (input.intent == Some(QueryIntent) ==> b == Batch([Query(reg, requestId, input.devices)], [], 0))
            && (input.intent == Some(ExecuteIntent) ==>
                  b == Batch([ExecResponse(reg, requestId, input.commands, isLocal)], RunCommands(reg, input.commands, isLocal).reports, 0))
            && (input.intent == Some(DisconnectIntent) ==> b == Batch([EmptyOk], [], 1))
            && (input.intent == Some(IdentifyIntent) ==> b == Batch([IdentifyResponse(requestId, nodeId)], [], 0))
            && (input.intent == Some(ReachableDevicesIntent) ==> b == Batch([ReachableDevices(reg, requestId)], [], 0))
  {
  }

  /** `_post`'s loop over `inputs`. */
  function RunInputs(reg: DeviceRegistry, requestId: Value, inputs: seq<Input>, isLocal: bool, nodeId: string): (b: Batch)
    ensures |b.responses| == |inputs|
    ensures b.disconnects <= |inputs|
    decreases |inputs|
  {
    if inputs == [] then Batch([], [], 0)
    else
      RunInputs(reg, requestId, inputs[..|inputs| - 1], isLocal, nodeId)
        .Then(InputStep(reg, requestId, inputs[|inputs| - 1], isLocal, nodeId))
  }

  /** The outcome of one request: what it emitted and, when it was admitted, the identity it acted for. */
  datatype Handled = Handled(batch: Batch, caller: Option<string>)

  /** Whether `token` is one of the two local-execution tokens of `blob`. */
  predicate IsLocalToken(blob: Auth.AuthBlob, token: string)
    ensures IsLocalToken(blob, token) ==> forall now :: Auth.UserFor(blob, token, now) == Some(Auth.LocalExecutionUser)
  {
    token == blob.nextLocalAuthCode || token == blob.localAuthCode
  }

  /**
   * `_post(request, response)` against the token tables `blob` as they were
   * when the request arrived. A local token presented from an address
   * outside the loopback and private ranges is answered `200 {}` and then
   * served anyway, since no `return` follows that answer.
   */
  function Handle(req: Request, reg: DeviceRegistry, blob: Auth.AuthBlob, now: int, nodeId: string,
                  isLocalIp: string -> bool): (h: Handled)
    ensures h.caller.None? ==> h.batch == Batch([Unauthorized], [], 0)
    ensures h.caller.Some? <==>
              BearerToken(req.authorization).Some? && Auth.UserFor(blob, BearerToken(req.authorization).value, now).Some?
    ensures h.caller.Some? ==> h.caller == Auth.UserFor(blob, BearerToken(req.authorization).value, now)
    ensures h.caller.Some? && req.body.inputs.Some? ==>
              |h.batch.responses| >= |req.body.inputs.value| && h.batch.disconnects <= |req.body.inputs.value|
  {
    var token := BearerToken(req.authorization);
    if token.None? then Handled(Batch([Unauthorized], [], 0), None)
    else
      var user := Auth.UserFor(blob, token.value, now);
      if user.None? then Handled(Batch([Unauthorized], [], 0), None)
      else
        var isLocal := IsLocalToken(blob, token.value);
        var prefix := if isLocal && !isLocalIp(req.ip) then [EmptyOk] else [];
        if req.body.inputs.None? then Handled(Batch(prefix + [Unauthorized], [], 0), user)
        else Handled(Batch(prefix, [], 0).Then(RunInputs(reg, req.body.requestId, req.body.inputs.value, isLocal, nodeId)), user)
  }

  /** One more turn of `_post`'s loop. */
  lemma RunInputsStep(reg: DeviceRegistry, requestId: Value, inputs: seq<Input>, i: int, isLocal: bool, nodeId: string)
    requires 0 <= i < |inputs|
    ensures RunInputs(reg, requestId, inputs[..i + 1], isLocal, nodeId)
            == RunInputs(reg, requestId, inputs[..i], isLocal, nodeId).Then(InputStep(reg, requestId, inputs[i], isLocal, nodeId))
  {
    assert inputs[..i + 1][..i] == inputs[..i];
  }

  /**
   * The inputs of a request emit one response each, in order, whatever the
   * intents; a request with two inputs therefore answers twice.
   */
  lemma {:induction false} OneResponsePerInput(reg: DeviceRegistry, requestId: Value, inputs: seq<Input>, isLocal: bool, nodeId: string)
    ensures |RunInputs(reg, requestId, inputs, isLocal, nodeId).responses| == |inputs|
    ensures forall i :: 0 <= i < |inputs| ==>
              RunInputs(reg, requestId, inputs, isLocal, nodeId).responses[i]
              == InputStep(reg, requestId, inputs[i], isLocal, nodeId).responses[0]
    decreases |inputs|
  {
    if inputs != [] {
      var init := inputs[..|inputs| - 1];
      OneResponsePerInput(reg, requestId, init, isLocal, nodeId);
      forall i | 0 <= i < |init|
        ensures inputs[i] == init[i]
      {
      }
    }
  }

  /** The tokens are revoked when, and only when, some input is a DISCONNECT. */
  lemma {:induction false} DisconnectsCounted(reg: DeviceRegistry, requestId: Value, inputs: seq<Input>, isLocal: bool, nodeId: string)
    ensures RunInputs(reg, requestId, inputs, isLocal, nodeId).disconnects > 0
            <==> exists i :: 0 <= i < |inputs| && inputs[i].intent == Some(DisconnectIntent)
    decreases |inputs|
  {
    if inputs != [] {
      var init := inputs[..|inputs| - 1];
      DisconnectsCounted(reg, requestId, init, isLocal, nodeId);
      if exists i :: 0 <= i < |init| && init[i].intent == Some(DisconnectIntent) {
        var i :| 0 <= i < |init| && init[i].intent == Some(DisconnectIntent);
        assert inputs[i] == init[i];
      }
      if exists i :: 0 <= i < |inputs| && inputs[i].intent == Some(DisconnectIntent) {
        var i :| 0 <= i < |inputs| && inputs[i].intent == Some(DisconnectIntent);
        if i < |init| {
          assert init[i] == inputs[i];
        }
      }
    }
  }

  /**
   * A request is served exactly when its header is `Bearer <t>` for a token
   * `t` without spaces that resolves to a user: a local token, or a stored
   * access token that has not expired. Every other request is answered with
   * one "missing inputs" 401 and nothing else.
   */
  lemma AdmittedIffBearerOfKnownToken(req: Request, reg: DeviceRegistry, blob: Auth.AuthBlob, now: int, nodeId: string,
                                      isLocalIp: string -> bool)
    ensures Handle(req, reg, blob, now, nodeId, isLocalIp).caller.Some?
            <==> exists t :: req.authorization == Some("Bearer " + t) && ' ' !in t && Auth.UserFor(blob, t, now).Some?
    ensures Handle(req, reg, blob, now, nodeId, isLocalIp).caller.None? ==>
              Handle(req, reg, blob, now, nodeId, isLocalIp).batch == Batch([Unauthorized], [], 0)
  {
    var token := BearerToken(req.authorization);
    if token.Some? {
      BearerTokenExact(req.authorization.value, token.value);
    }
    if exists t :: req.authorization == Some("Bearer " + t) && ' ' !in t && Auth.UserFor(blob, t, now).Some? {
      var t :| req.authorization == Some("Bearer " + t) && ' ' !in t && Auth.UserFor(blob, t, now).Some?;
      BearerTokenExact(req.authorization.value, t);
    }
  }

  /**
   * An admitted request with `inputs` emits, after the optional `200 {}`
   * for a foreign local caller, one response per input in input order.
   */
  lemma AdmittedRequestAnswersEachInput(req: Request, reg: DeviceRegistry, blob: Auth.AuthBlob, now: int, nodeId: string,
                                        isLocalIp: string -> bool, token: string)
    requires BearerToken(req.authorization) == Some(token)
    requires Auth.UserFor(blob, token, now).Some? && req.body.inputs.Some?
    ensures var isLocal := IsLocalToken(blob, token);
            var inputs := req.body.inputs.value;
            var answers := RunInputs(reg, req.body.requestId, inputs, isLocal, nodeId).responses;
            && Handle(req, reg, blob, now, nodeId, isLocalIp).batch.responses
               == (if isLocal && !isLocalIp(req.ip) then [EmptyOk] else []) + answers
            && |answers| == |inputs|
            && forall i :: 0 <= i < |inputs| ==>
                 answers[i] == InputStep(reg, req.body.requestId, inputs[i], isLocal, nodeId).responses[0]
  {
    OneResponsePerInput(reg, req.body.requestId, req.body.inputs.value, IsLocalToken(blob, token), nodeId);
  }


  /**
   * An admitted request without `inputs` is answered with one "missing
   * inputs" 401, after the `200 {}` of a foreign local caller, and does
   * nothing else.
   */
  lemma MissingInputsRefused(req: Request, reg: DeviceRegistry, blob: Auth.AuthBlob, now: int, nodeId: string,
                             isLocalIp: string -> bool, token: string)
    requires BearerToken(req.authorization) == Some(token)
    requires Auth.UserFor(blob, token, now).Some? && req.body.inputs.None?
    ensures var h := Handle(req, reg, blob, now, nodeId, isLocalIp);
            && h.batch.responses == (if IsLocalToken(blob, token) && !isLocalIp(req.ip) then [EmptyOk] else []) + [Unauthorized]
            && h.batch.reports == [] && h.batch.disconnects == 0
  {
  }

  /**
   * A local-execution token presented from outside the loopback and private
   * networks is answered `200 {}`, and then the request is served all the
   * same: the intents run, with local-execution rights, and answer after it.
   */
  lemma ForeignLocalCallerIsStillServed(req: Request, reg: DeviceRegistry, blob: Auth.AuthBlob, now: int, nodeId: string,
                                        isLocalIp: string -> bool)
    requires Auth.LocalPairSound(blob)
    requires req.authorization == Some("Bearer " + blob.localAuthCode) && ' ' !in blob.localAuthCode
    requires !isLocalIp(req.ip) && req.body.inputs.Some? && req.body.inputs.value != []
    ensures var h := Handle(req, reg, blob, now, nodeId, isLocalIp);
            && h.caller == Some(Auth.LocalExecutionUser)
            && h.batch.responses
               == [EmptyOk] + RunInputs(reg, req.body.requestId, req.body.inputs.value, true, nodeId).responses
            && |h.batch.responses| >= 2
  {
    BearerTokenExact(req.authorization.value, blob.localAuthCode);
    OneResponsePerInput(reg, req.body.requestId, req.body.inputs.value, true, nodeId);
  }

  /**
   * The part of lib/HttpActions.js that answers requests: the endpoint
   * shares its node with the token authority and the device registry.
   */
  class Dispatcher {
    /** The token authority of the same node. */
    const auth: Auth.Authority
    /** `_nodeId`, the id IDENTIFY reports. */
    const nodeId: string

    constructor (authority: Auth.Authority, id: string)
      ensures auth == authority && nodeId == id
    {
      auth := authority;
      nodeId := id;
    }

    /**
     * `_post`, with `now` the time of the request and `isLocalIp` the
     * address test against the loopback and private ranges. Returns the
     * responses emitted, in order, and the devices whose state is reported
     * afterwards. Presenting the next local token rotates the pair; every
     * DISCONNECT revokes the caller's tokens, which, revocation being
     * idempotent, leaves the tables as one revocation does.
     */
    method Post(req: Request, reg: DeviceRegistry, isLocalIp: string -> bool, now: int)
      returns (responses: seq<Response>, reports: seq<string>)
      requires auth.localAuthCode != "" && auth.nextLocalAuthCode != ""
      modifies auth`localAuthCode, auth`nextLocalAuthCode, auth`accessTokens, auth`refreshTokens, auth`persisted
      ensures var h := Handle(req, reg, old(auth.Blob()), now, nodeId, isLocalIp);
              responses == h.batch.responses && reports == h.batch.reports
      ensures var token := BearerToken(req.authorization);
              var rotated := token.Some? && token.value == old(auth.nextLocalAuthCode);
              && (rotated ==>
                    && auth.localAuthCode == old(auth.nextLocalAuthCode)
                    && auth.nextLocalAuthCode != "" && auth.nextLocalAuthCode != auth.localAuthCode
                    && auth.nextLocalAuthCode !in old(auth.accessTokens))
              && (!rotated ==>
                    auth.localAuthCode == old(auth.localAuthCode) && auth.nextLocalAuthCode == old(auth.nextLocalAuthCode))
      ensures var h := Handle(req, reg, old(auth.Blob()), now, nodeId, isLocalIp);
              && (h.batch.disconnects > 0 ==>
                    && h.caller.Some?
                    && auth.accessTokens == Auth.AccessTokensKept(old(auth.accessTokens), h.caller.value, now)
                    && auth.refreshTokens == Auth.RefreshTokensKept(old(auth.refreshTokens), h.caller.value))
              && (h.batch.disconnects == 0 ==>
                    auth.accessTokens == old(auth.accessTokens) && auth.refreshTokens == old(auth.refreshTokens))
      ensures var token := BearerToken(req.authorization);
              var h := Handle(req, reg, old(auth.Blob()), now, nodeId, isLocalIp);
              if (token.Some? && token.value == old(auth.nextLocalAuthCode)) || h.batch.disconnects > 0
              then auth.persisted == Some(auth.Blob())
              else auth.persisted == old(auth.persisted)
      ensures old(auth.Valid()) ==> auth.Valid()
    {
      ghost var blob := auth.Blob();
      var token, isLocalExecution, user := Authenticate(req.authorization, now);
      if user.None? {
        responses, reports := [Unauthorized], [];
        assert Handle(req, reg, blob, now, nodeId, isLocalIp) == Handled(Batch([Unauthorized], [], 0), None);
      } else {
        var prefix: seq<Response> := [];
        if isLocalExecution && !isLocalIp(req.ip) {
          prefix := [EmptyOk];
        }
        if req.body.inputs.None? {
          responses, reports := prefix + [Unauthorized], [];
          assert Handle(req, reg, blob, now, nodeId, isLocalIp) == Handled(Batch(prefix + [Unauthorized], [], 0), user);
        } else {
          var served;
          served, reports := ServeInputs(reg, req.body.requestId, req.body.inputs.value, isLocalExecution, user.value, now);
          responses := prefix + served;
          assert Handle(req, reg, blob, now, nodeId, isLocalIp)
                 == Handled(Batch(prefix, [], 0).Then(RunInputs(reg, req.body.requestId, req.body.inputs.value, isLocalExecution, nodeId)), user);
        }
      }
    }

    /**
     * The head of `_post`: reads the bearer token of the `Authorization`
     * header, offers it to the local-token rotation, then resolves it to a
     * user. Only the rotation changes state.
     */
    method Authenticate(header: Option<string>, now: int) returns (token: Option<string>, isLocal: bool, user: Option<string>)
      requires auth.localAuthCode != "" && auth.nextLocalAuthCode != ""
      modifies auth`localAuthCode, auth`nextLocalAuthCode, auth`persisted
      ensures token == BearerToken(header)
      ensures token.None? ==> user.None?
      ensures token.Some? ==>
                && isLocal == IsLocalToken(old(auth.Blob()), token.value)
                && user == Auth.UserFor(old(auth.Blob()), token.value, now)
      ensures var rotated := token.Some? && token.value == old(auth.nextLocalAuthCode);
              && (rotated ==>
                    && auth.localAuthCode == old(auth.nextLocalAuthCode)
                    && auth.nextLocalAuthCode != "" && auth.nextLocalAuthCode != auth.localAuthCode
                    && auth.nextLocalAuthCode !in auth.accessTokens
                    && auth.persisted == Some(auth.Blob()))
              && (!rotated ==> unchanged(auth))
      ensures old(auth.Valid()) ==> auth.Valid()
    {
      if !NonEmpty(header) {
        return None, false, None;
      }
      var res := Strings.Split(header.value, ' ');
      if |res| != 2 || res[0] != "Bearer" {
        return None, false, None;
      }
      token := Some(res[1]);
      ghost var blob := auth.Blob();
      isLocal := auth.IsValidLocalAccessToken(res[1]);
      user := Auth.UserFor(auth.Blob(), res[1], now);
      assert user == Auth.UserFor(blob, res[1], now);
    }

    /** `_post`'s loop over the inputs of an admitted request, acting for `user`. */
    method ServeInputs(reg: DeviceRegistry, requestId: Value, inputs: seq<Input>, isLocal: bool, user: string, now: int)
      returns (responses: seq<Response>, reports: seq<string>)
      modifies auth`accessTokens, auth`refreshTokens, auth`persisted
      ensures var b := RunInputs(reg, requestId, inputs, isLocal, nodeId);
              && responses == b.responses && reports == b.reports
              && (b.disconnects > 0 ==>
                    auth.Blob() == Auth.RevokeUser(old(auth.Blob()), user, now) && auth.persisted == Some(auth.Blob()))
              && (b.disconnects == 0 ==> auth.Blob() == old(auth.Blob()) && auth.persisted == old(auth.persisted))
      ensures old(auth.Valid()) ==> auth.Valid()
    {
      responses := [];
      reports := [];
      ghost var start := auth.Blob();
      ghost var disconnects: nat := 0;
      var i := 0;
      while i < |inputs|
        invariant 0 <= i <= |inputs|
        invariant Batch(responses, reports, disconnects) == RunInputs(reg, requestId, inputs[..i], isLocal, nodeId)
        invariant auth.Blob() == (if disconnects == 0 then start else Auth.RevokeUser(start, user, now))
        invariant auth.persisted == (if disconnects == 0 then old(auth.persisted) else Some(auth.Blob()))
      {
        ghost var before := auth.Blob();
        var response, scheduled := ServeInput(reg, requestId, inputs[i], isLocal, user, now);
        ghost var step := InputStep(reg, requestId, inputs[i], isLocal, nodeId);
        RunInputsStep(reg, requestId, inputs, i, isLocal, nodeId);
        Auth.RevocationStep(start, user, now, disconnects, step.disconnects, before, auth.Blob());
        disconnects := disconnects + step.disconnects;
        responses := responses + [response];
        reports := reports + scheduled;
        i := i + 1;
      }
      assert inputs[..i] == inputs;
    }

    /** One input: dispatch on the intent and emit the handler's response. */
    method ServeInput(reg: DeviceRegistry, requestId: Value, input: Input, isLocal: bool, user: string, now: int)
      returns (response: Response, scheduled: seq<string>)
      modifies auth`accessTokens, auth`refreshTokens, auth`persisted
      ensures var b := InputStep(reg, requestId, input, isLocal, nodeId);
              b.responses == [response] && b.reports == scheduled
      ensures input.intent == Some(DisconnectIntent) ==>
                auth.Blob() == Auth.RevokeUser(old(auth.Blob()), user, now) && auth.persisted == Some(auth.Blob())
      ensures input.intent != Some(DisconnectIntent) ==>
                auth.Blob() == old(auth.Blob()) && auth.persisted == old(auth.persisted)
    {
      var intent := input.intent;
      scheduled := [];
      if !NonEmpty(intent) {
        response := Unauthorized;
      } else if intent.value == SyncIntent {
        response := Sync(reg, requestId);
      } else if intent.value == QueryIntent {
        response := Query(reg, requestId, input.devices);
      } else if intent.value == ExecuteIntent {
        response, scheduled := Exec(reg, requestId, input.commands, isLocal);
      } else if intent.value == DisconnectIntent {
        auth.RemoveAllTokensForUser(user, now);
        response := EmptyOk;
      } else if intent.value == IdentifyIntent {
        response := IdentifyResponse(requestId, nodeId);
      } else if intent.value == ReachableDevicesIntent {
        response := ReachableDevices(reg, requestId);
      } else {
        response := UnknownIntent;
      }
    }

    /**
     * The local-execution route: a caller outside the loopback and private
     * networks is answered `200 {}` before `_post` runs, and `_post` runs
     * regardless.
     */
    method PostLocal(req: Request, reg: DeviceRegistry, isLocalIp: string -> bool, now: int)
      returns (responses: seq<Response>, reports: seq<string>)
      requires auth.localAuthCode != "" && auth.nextLocalAuthCode != ""
      modifies auth`localAuthCode, auth`nextLocalAuthCode, auth`accessTokens, auth`refreshTokens, auth`persisted
      ensures var h := Handle(req, reg, old(auth.Blob()), now, nodeId, isLocalIp);
              && responses == (if isLocalIp(req.ip) then [] else [EmptyOk]) + h.batch.responses
              && reports == h.batch.reports
      ensures var token := BearerToken(req.authorization);
              var rotated := token.Some? && token.value == old(auth.nextLocalAuthCode);
              && (rotated ==>
                    && auth.localAuthCode == old(auth.nextLocalAuthCode)
                    && auth.nextLocalAuthCode != "" && auth.nextLocalAuthCode != auth.localAuthCode
                    && auth.nextLocalAuthCode !in old(auth.accessTokens))
              && (!rotated ==>
                    auth.localAuthCode == old(auth.localAuthCode) && auth.nextLocalAuthCode == old(auth.nextLocalAuthCode))
      ensures var h := Handle(req, reg, old(auth.Blob()), now, nodeId, isLocalIp);
              && (h.batch.disconnects > 0 ==>
                    && h.caller.Some?
                    && auth.accessTokens == Auth.AccessTokensKept(old(auth.accessTokens), h.caller.value, now)
                    && auth.refreshTokens == Auth.RefreshTokensKept(old(auth.refreshTokens), h.caller.value))
              && (h.batch.disconnects == 0 ==>
                    auth.accessTokens == old(auth.accessTokens) && auth.refreshTokens == old(auth.refreshTokens))
      ensures var token := BearerToken(req.authorization);
              var h := Handle(req, reg, old(auth.Blob()), now, nodeId, isLocalIp);
              if (token.Some? && token.value == old(auth.nextLocalAuthCode)) || h.batch.disconnects > 0
              then auth.persisted == Some(auth.Blob())
              else auth.persisted == old(auth.persisted)
      ensures old(auth.Valid()) ==> auth.Valid()
    {
      var prefix: seq<Response> := [];
      if !isLocalIp(req.ip) {
        prefix := [EmptyOk];
      }
      var served;
      served, reports := Post(req, reg, isLocalIp, now);
      responses := prefix + served;
    }

    /**
     * The Home Graph `reportStateAndNotification` request `reportState`
     * sends. It sends nothing when the server is down or no user is logged
     * in; past those tests it reads the service-account key, which throws
     * when no key was ever set (`KeyMissing`) and sends nothing when the key
     * has no private key. `deviceId` is falsy when empty; `requestId` and
     * `eventId` are the generated ids.
     */
    function ReportState(deviceId: string, states: Option<map<string, Value>>, notifications: Option<Value>,
                         serverRunning: bool, requestId: string, eventId: string): (sent: Delivery<ReportPayload>)
      reads auth
      ensures sent.KeyMissing? <==> serverRunning && auth.IsUserLoggedIn() && auth.jwtKey.None?
      ensures sent.Sent? <==> serverRunning && auth.IsUserLoggedIn() && auth.jwtKey.Some? && auth.jwtKey.value.hasPrivateKey
      ensures sent.Sent? ==> sent.value.requestId == requestId && sent.value.agentUserId == AgentUserId
      ensures sent.Sent? ==> (sent.value.eventId.Some? <==> TruthyOpt(notifications))
      ensures sent.Sent? ==> (sent.value.notifications.Some? <==> TruthyOpt(notifications))
      ensures sent.Sent? && TruthyOpt(notifications) ==>
                sent.value.eventId == Some(eventId) && sent.value.notifications == Some(map[deviceId := notifications.value])
      ensures sent.Sent? ==> (sent.value.states.Some? <==> states.Some?)
      ensures sent.Sent? && states.Some? && deviceId == "" ==> sent.value.states == Some(Obj(states.value))
      ensures sent.Sent? && states.Some? && deviceId != "" ==>
                && sent.value.states.value.Obj? && sent.value.states.value.fields.Keys == {deviceId}
                && var reported := sent.value.states.value.fields[deviceId];
                && reported.Obj?
                && (forall k :: k in reported.fields <==> k in states.value && k != "command")
                && (forall k :: k in reported.fields ==> reported.fields[k] == states.value[k])
    {
      if !serverRunning || !auth.IsUserLoggedIn() then NotSent
      else if auth.jwtKey.None? then KeyMissing
      else if !auth.jwtKey.value.hasPrivateKey then NotSent
      else
        var notified := if TruthyOpt(notifications) then Some(map[deviceId := notifications.value]) else None;
        var reported :=
          if states.None? then None
          else if deviceId == "" then Some(Obj(states.value))
          else Some(Obj(map[deviceId := Obj(states.value - {"command"})]));
        Sent(ReportPayload(requestId, AgentUserId, if TruthyOpt(notifications) then Some(eventId) else None, reported, notified))
    }

    /**
     * The Home Graph `requestSync` request `requestSync` sends: just the
     * agent user id, under the same conditions as `reportState`, and with
     * the same throw when no key was ever set.
     */
    function RequestSync(serverRunning: bool): (sent: Delivery<string>)
      reads auth
      ensures sent.KeyMissing? <==> serverRunning && auth.IsUserLoggedIn() && auth.jwtKey.None?
      ensures sent.Sent? <==> serverRunning && auth.IsUserLoggedIn() && auth.jwtKey.Some? && auth.jwtKey.value.hasPrivateKey
      ensures sent.Sent? ==> sent.value == AgentUserId
    {
      if !serverRunning || !auth.IsUserLoggedIn() then NotSent
      else if auth.jwtKey.None? then KeyMissing
      else if !auth.jwtKey.value.hasPrivateKey then NotSent
      else Sent(AgentUserId)
    }
  }

  /**
   * The outcome of a Home Graph call: nothing sent, the TypeError of
   * reading `private_key` from the missing key, or the request sent.
   */
  datatype Delivery<T> = NotSent | KeyMissing | Sent(value: T)

  /** The body of a `reportStateAndNotification` request; `states` and `notifications` sit under `payload.devices`. */
  datatype ReportPayload = ReportPayload(
    requestId: string,
    agentUserId: string,
    eventId: Option<string>,
    states: Option<Value>,
    notifications: Option<map<string, Value>>)
}
