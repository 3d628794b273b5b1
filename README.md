# Google Smart Home bridge for Node-RED: token authority and fulfillment endpoint

This project models two parts of a Node-RED bridge that exposes devices to
Google Assistant, and proves properties of the model.

- **The token authority** (`lib/Auth.js`, class `Auth`) is a small OAuth 2.0 server. It implements:
  - the authorization-code grant (section 4.1 of RFC 6749);
  - the refresh-token grant (section 6 of RFC 6749);
  - a rotating pair of "local execution" tokens for the on-LAN fulfillment path.

  It is modelled as the class `Auth.Authority`. Its tables are `map` fields, updated in place by methods with field-level `modifies` frames.
- **The fulfillment endpoint** (`lib/HttpActions.js`) does three things:
  - it authenticates a request by its `Authorization: Bearer` header (section 2.1 of RFC 6750);
  - it routes each input of the request on its intent (SYNC, QUERY, EXECUTE, DISCONNECT, IDENTIFY, REACHABLE_DEVICES);
  - it emits the handlers' responses.

  The handlers and the request loop are modelled in the modules `Intents` and `HttpActions`. Where the source loops, the model is a method proved against a specification function:
  - `Sync`;
  - `Exec`, with its three nested loops;
  - `Dispatcher.Post` and its input loop.

  Properties are proved about those specification functions as lemmas.

Modules:

| file | module | contents |
|---|---|---|
| `js.dfy` | `Js` | JSON values, `Option`, JavaScript truthiness |
| `strings.dfy` | `Strings` | `String.prototype.split` on one character, `join`, and their round trips |
| `redirect.dfy` | `Redirect` | `isValidRedirectUri`, including `replace(/:\d+/, '')` |
| `auth.dfy` | `Auth` | the token tables, the class `Authority`, and client call sequences |
| `protocol.dfy` | `Protocol` | request, response and device-registry shapes |
| `intents.dfy` | `Intents` | `_sync`, `_query`, `_exec`, `_execDevice`, `_reachable_devices`, IDENTIFY |
| `http_actions.dfy` | `HttpActions` | `_post`, the local route, and the `reportState` and `requestSync` payloads |

### Inputs that are parameters

- The time of an operation is a parameter `now`, in milliseconds.
- A randomly generated token is any non-empty string outside the set it must avoid. It is chosen with `:|` after the lemma `FreshStringExists` has shown one exists. This stands in for the regenerate-until-unique loops.
- Writing the auth file is a snapshot field `persisted`.
- The device registry is a `Protocol.DeviceRegistry` value of uninterpreted functions: `getProperties`, `getStates`, `getDevice`, `execCommand`, a device's states after `updated`, and `getReachableDeviceIds`.
- The address test `isLocalIP` is a parameter `isLocalIp: string -> bool`.

### Behaviour the model reproduces and flags

- **A local token from a foreign address is served anyway.**
  - A local-execution token presented from outside the loopback and private ranges is answered `200 {}`.
  - No `return` follows that answer, so the request is then served with local-execution rights. Its intents answer after the `200 {}`.
  - The same holds on the local route, which sends `200 {}` and then runs `_post` regardless.
  - `HttpActions.ForeignLocalCallerIsStillServed` proves that such a request emits `[200 {}]` followed by one response per input. `Dispatcher.PostLocal` states the route's prefix.
- **A request with several inputs answers several times** (`HttpActions.OneResponsePerInput`). This includes a 401 for a missing intent, after which the loop continues.
- **The redirect check has no host boundary.** The bridge's own-URI escape hatch is a bare prefix test: own URI `https://home.example` also admits `https://home.example.attacker.test/` (`Redirect.AcceptsAnyExtensionOfOwnUri`).
- **A code is still accepted at its expiry instant.** Expiry is a strict `expiresAt < now` everywhere. A code issued at `t` is still redeemed at exactly `t + 600000` (`Auth.RedeemAtExpiryInstant`) and refused one millisecond later (`Auth.RedeemAfterExpiry`).
- **A presented next local token stays valid.**
  - Presenting the next local token promotes it to the current token and mints a new next token (lib/Auth.js:351-359). The promoted token keeps working: presenting it twice yields `true` both times (`Auth.PresentNextTokenTwice`).
  - The new next token is drawn to avoid the promoted token and every access token. It is not checked against the current token it replaces.
- **A redirect check before `setJwtKey` throws.** `isValidRedirectUri` reads the project id of the service-account key once the own-URI test has failed; before `setJwtKey` the key is `null` and the read throws a TypeError (lib/Auth.js:272, lib/Auth.js:417-419). `Auth.RedeemBeforeKeyIsSet` shows a code exchange then fails with `NoServiceAccountKey`. `reportState` and `requestSync` read `private_key` from the same `null` key once a user is logged in and throw the same way (lib/HttpActions.js:661, lib/HttpActions.js:715); `Dispatcher.ReportState` and `Dispatcher.RequestSync` return `KeyMissing` then.

## Model

| member | source | states |
|---|---|---|
| `Strings.Split` | lib/HttpActions.js:175 | pieces are never empty as a list, contain no separator, and a separator-free string is one piece |
| `Strings.JoinOfSplit` | lib/HttpActions.js:175 | joining the pieces of a split gives the original string back |
| `Strings.SplitAppend` | lib/HttpActions.js:175 | a separator-free prefix is glued onto the first piece of what follows |
| `Strings.SplitOfJoin` | lib/Auth.js:118-125 | splitting a join of separator-free pieces gives the pieces back |
| `Redirect.FirstPort` | lib/Auth.js:265-266 | finds the leftmost `:<digit>` at or after an index, or reports that there is none |
| `Redirect.DigitRunEnd` | lib/Auth.js:265-266 | the greedy `\d+` stops at the first non-digit or at the end |
| `Redirect.StripPort` | lib/Auth.js:265-266 | a string without a port is unchanged; otherwise the leftmost `:` and its whole digit run are removed |
| `Redirect.ExtendsOwnUri` | lib/Auth.js:263-269 | for port-free URIs the escape hatch is exactly "the own URI is non-empty and the redirect starts with it" |
| `Redirect.IsValidRedirectUri` | lib/Auth.js:262-280 | a redirect whose port-stripped form extends the port-stripped truthy own URI is accepted without reading the key; otherwise, with no key the call throws (`None`), and with a key exactly the two Google callbacks for its project are accepted and every other redirect is refused |
| `Redirect.StripPortRemovesPort` | lib/Auth.js:264-266 | `origin:digits rest` loses exactly the `:digits` |
| `Redirect.DigitRunEndAt` | lib/Auth.js:265 | a digit run bounded by a non-digit ends there |
| `Redirect.AcceptsOwnOriginOnAnyPort` | lib/Auth.js:263-269 | with own URI `origin:p`, `origin:q/path` is accepted for any ports `p`, `q` |
| `Redirect.AcceptsAnyExtensionOfOwnUri` | lib/Auth.js:267 | any string extending the own URI is accepted, another host included |
| `Auth.LiveCodes` | lib/Auth.js:210-223 | a code survives iff its `expiresAt >= now`, with its entry unchanged |
| `Auth.AccessTokensKept` | lib/Auth.js:473-486 | an access token survives iff it belongs to another user and `expiresAt >= now`, with its entry unchanged |
| `Auth.RefreshTokensKept` | lib/Auth.js:493-499 | a refresh token survives iff it belongs to another user, with its entry unchanged |
| `Auth.RevokeUser` | lib/Auth.js:488-500 | revocation leaves the local pair as it was, only removes entries, and keeps a sound pair sound |
| `Auth.RevocationStep` | lib/Auth.js:488-500 | after any number of revocations of one user at one instant, the tables are the original ones if none happened and one revocation's otherwise |
| `Auth.GrantLeavesOnlyNewTokens` | lib/Auth.js:306-309 | after a grant the user holds no refresh or access token other than the two the grant reports |
| `Auth.UserFor` | lib/Auth.js:363-382 | either local token gives "local execution"; an absent or expired (`expiresAt < now`) token gives null; otherwise the stored user |
| `Auth.EmailsOf` | lib/Auth.js:120-124 | an array allow-list is stored as given; a string is split on `;` into at least one `;`-free address that join back to the string |
| `Auth.EmailsOfJoinedList` | lib/Auth.js:118-125 | a `;`-joined allow-list is read back as exactly its addresses |
| `Auth.RevokeUserIdempotent` | lib/Auth.js:488-500 | revoking a user twice at one instant equals revoking once |
| `Auth.RevokedUserHasNoTokens` | lib/Auth.js:473-500 | after revocation no non-local token resolves to the user and the user holds no refresh token |
| `Auth.FreshStringExists` | lib/Auth.js:446-453 | a non-empty token outside any finite set of live tokens exists |
| `Auth.Authority.constructor` | lib/Auth.js:31-46 | empty configuration and tables, no service-account key, duration 60 minutes, and a sound local pair |
| `Auth.Authority.PersistAuth` | lib/Auth.js:502-509 | the snapshot is the current blob |
| `Auth.Authority.LoadAuth` | lib/Auth.js:63-87 | an empty or non-object file resets and persists; an unreadable one resets without persisting; a stored blob is adopted, its missing local tokens regenerated; both local tokens are then present |
| `Auth.Authority.SetJwtKey` | lib/Auth.js:93-100 | the parsed key (its project id and whether it has a private key) is stored; before the first call there is none |
| `Auth.Authority.ProjectId` | lib/Auth.js:417-419 | the stored key's project id, and the missing key's TypeError (`None`) iff no key was set |
| `Auth.Authority.SetClientIdSecret` | lib/Auth.js:103-106 | both client credentials are stored |
| `Auth.Authority.SetUsernamePassword` | lib/Auth.js:110-114 | local sign-in mode with the given credentials |
| `Auth.Authority.SetGoogleClientIdAndEmails` | lib/Auth.js:118-125 | Google sign-in mode; a string allow-list is split on `;`, an array is kept |
| `Auth.Authority.SetAccessTokenDuration` | lib/Auth.js:157-159 | the duration is stored |
| `Auth.Authority.IsGoogleClientEmailValid` | lib/Auth.js:148-153 | true iff in Google sign-in mode and the address is allow-listed |
| `Auth.Authority.IsValidUser` | lib/Auth.js:169-181 | true iff both name and password match |
| `Auth.Authority.IsValidClient` | lib/Auth.js:235-247 | the id must match; the secret must match only when it was passed |
| `Auth.Authority.IsUserLoggedIn` | lib/Auth.js:227-231 | true iff any refresh token is outstanding |
| `Auth.Authority.IsValidRefreshToken` | lib/Auth.js:386-394 | true iff the token is in the refresh table |
| `Auth.Authority.GenerateNewAccessToken` | lib/Auth.js:446-453 | a non-empty token that is neither local token nor an access token |
| `Auth.Authority.GenerateAccessToken` | lib/Auth.js:454-461 | adds one new token for the user expiring `duration*60000` after `now`, nothing else |
| `Auth.Authority.GenerateRefreshToken` | lib/Auth.js:463-471 | adds one new refresh token for the user, nothing else |
| `Auth.Authority.GenerateLocalAccessToken` | lib/Auth.js:435-441 | a new current token unlike both old tokens and every access token; the next token is minted only if missing |
| `Auth.Authority.ClearAllTokens` | lib/Auth.js:511-519 | empty tables and a sound local pair |
| `Auth.Authority.RemoveExpiredAuthCode` | lib/Auth.js:210-223 | exactly the codes with `expiresAt < now` are deleted; a code expiring at `now` survives |
| `Auth.Authority.GenerateAuthCode` | lib/Auth.js:191-206 | expired codes are purged, then one code not live before is added for the user, expiring at `now + 600000`; other codes unchanged |
| `Auth.Authority.RemoveExpiredAndUserAccessTokens` | lib/Auth.js:473-486 | exactly the user's and the expired access tokens are deleted |
| `Auth.Authority.RemoveTokensOfUser` | lib/Auth.js:488-500 | the tables become their revocation for the user |
| `Auth.Authority.RemoveAllTokensForUser` | lib/Auth.js:398-401 | revocation, persisted, local pair still sound |
| `Auth.Authority.ExchangeAuthCode` | lib/Auth.js:284-319 | unknown code, expired code, and a redirect check that refuses or throws for want of a key fail in that order and change nothing; success iff none applies, and then the code is consumed, the user's tokens and expired access tokens are revoked, one refresh and one access token are added, `expires_in = 60*duration`, and the user holds no other token |
| `Auth.Authority.IssueGrant` | lib/Auth.js:306-318 | the tables become the user's revocation plus one fresh refresh token and one fresh access token of `duration` minutes, persisted, with the local pair kept sound |
| `Auth.Authority.RefreshAccessToken` | lib/Auth.js:323-341 | fails iff the refresh token is unknown, changing nothing; otherwise the refresh table is untouched and the user's and expired access tokens are replaced by one new token |
| `Auth.Authority.IsValidLocalAccessToken` | lib/Auth.js:351-359 | true iff the token is the current or the next; the next is promoted and a new next minted, distinct from it and from every access token; otherwise nothing changes; the pair stays sound |
| `Auth.ExchangeCodeTwice` | lib/Auth.js:284-304 | after a successful exchange the same code is refused as unknown |
| `Auth.RedeemAtExpiryInstant` | lib/Auth.js:191-201 | a code issued at `t` is redeemed at `t + 600000` |
| `Auth.RedeemAfterExpiry` | lib/Auth.js:292-296 | the same code is refused as expired at `t + 600001` |
| `Auth.RedeemBeforeKeyIsSet` | lib/Auth.js:272 | before `setJwtKey`, exchanging a code for a Google callback fails for want of a key |
| `Auth.PresentNextTokenTwice` | lib/Auth.js:351-359 | presenting the next token twice succeeds both times and leaves a different next token |
| `Intents.SyncDeviceList` | lib/HttpActions.js:381-387 | at most one device per property, each carrying an `id` |
| `Intents.SyncResponse` | lib/HttpActions.js:365-428 | 500 for a falsy device map; otherwise 200 with `requestId` echoed, `agentUserId` "0", and the device list, or the placeholder scene alone when the list is empty |
| `Intents.Sync` | lib/HttpActions.js:365-428 | emits the response `SyncResponse` specifies: 500 for a falsy device map, else 200 with the device list, the placeholder scene when it is empty, `agentUserId` "0" and `requestId` echoed |
| `Intents.SyncListComplete` | lib/HttpActions.js:381-387 | every truthy property is listed with its key as `id` |
| `Intents.SyncListSound` | lib/HttpActions.js:381-387 | every listed device is a truthy property with its key as `id` |
| `Intents.SyncListIds` | lib/HttpActions.js:381-387 | the listed ids are the truthy keys, in order |
| `Intents.TruthyKeysFromEntries` | lib/HttpActions.js:381-382 | every truthy key is a property key |
| `Intents.TruthyKeysDistinct` | lib/HttpActions.js:381-382 | distinct property keys give distinct truthy keys |
| `Intents.SyncListIdsDistinct` | lib/HttpActions.js:381-387 | each device appears once: no two listed devices share an id |
| `Intents.SyncListEmpty` | lib/HttpActions.js:389-413 | the list is empty, and the placeholder scene alone is sent, iff no property is truthy |
| `Intents.Query` | lib/HttpActions.js:432-457 | 500 for falsy states, else 200 with `requestId` echoed and the registry's states |
| `Intents.ReachableDevices` | lib/HttpActions.js:581-606 | 500 for a falsy answer, else 200 with `requestId` echoed and the reachable devices |
| `Intents.IdentifyResponse` | lib/HttpActions.js:326-345 | 200, `requestId` echoed, the bridge device with the node id, local-only and proxy |
| `Intents.ExecDevice` | lib/HttpActions.js:515-577 | missing or offline device: ERROR/deviceOffline, handler not called; a result with `status` passes through without report; else SUCCESS with non-empty handler states or the device's, a report unless `reportState` is falsy, and non-empty `params` overwriting the execution's |
| `Intents.ExecutionStates` | lib/HttpActions.js:478-487 | only keys listed in `executionStates` and present in `states`, with their values |
| `Intents.Entry` | lib/HttpActions.js:488-494 | one device's entry: `ids = [id]`, the handler's status and filtered states, and `errorCode` and `challengeNeeded` present iff truthy in the handler's result |
| `Intents.RunExecutions` | lib/HttpActions.js:469-495 | \|executions\| × \|devices\| entries for one command |
| `Intents.RunCommands` | lib/HttpActions.js:466-497 | Σ \|execution\| × \|devices\| entries over all commands |
| `Intents.RunDevices` | lib/HttpActions.js:473-495 | one entry per device |
| `Intents.DeviceStep` | lib/HttpActions.js:474-494 | one entry per device step |
| `Intents.ExecResponse` | lib/HttpActions.js:499-510 | the EXECUTE reply is 200, echoes `requestId`, and carries one command entry per execution–device pair |
| `Intents.Exec` | lib/HttpActions.js:461-511 | the response and scheduled reports are those of `RunCommands` over all commands |
| `Intents.ExecuteCommand` | lib/HttpActions.js:469-496 | every execution of a command, in order |
| `Intents.ExecuteOnDevices` | lib/HttpActions.js:473-495 | each device in turn, seeing the params earlier handlers left |
| `Intents.RunDevicesIds` | lib/HttpActions.js:473-489 | the entries of one execution carry the devices' ids in order |
| `Intents.RunExecutionsIds` | lib/HttpActions.js:469-489 | the devices' ids once per execution |
| `Intents.RepeatLength` | lib/HttpActions.js:469-473 | `n` repetitions of a list have `n` times its length |
| `Intents.PairIdsLength` | lib/HttpActions.js:466-473 | the nested-loop id list has Σ \|execution\| × \|devices\| elements |
| `Intents.ExecFanOut` | lib/HttpActions.js:466-497 | exactly Σ \|execution\| × \|devices\| entries, in nested-loop order, each with `ids = [device.id]` |
| `Intents.RunDevicesFit` | lib/HttpActions.js:522-527 | every entry of one execution fits |
| `Intents.RunExecutionsFit` | lib/HttpActions.js:522-527 | every entry of one command fits |
| `Intents.OfflinePairsReportDeviceOffline` | lib/HttpActions.js:522-527 | every entry names one device, and a missing or offline device's entry is ERROR/deviceOffline |
| `Intents.RunDevicesAppend` | lib/HttpActions.js:546-549 | running over `a + b` is running over `a`, then over `b` with the params `a` left |
| `Intents.OfflineDeviceLeavesOthersUnaffected` | lib/HttpActions.js:522-527 | an offline device adds its ERROR entry at its position and leaves the others' entries unchanged |
| `HttpActions.BearerToken` | lib/HttpActions.js:164-186 | a missing or empty header gives no token; a token is only ever the space-free remainder of a `Bearer ` header |
| `HttpActions.BearerTokenExact` | lib/HttpActions.js:175-186 | a header yields token `t` iff it is `"Bearer " + t` with no space in `t` |
| `HttpActions.InputStep` | lib/HttpActions.js:219-359 | one response per input; a falsy intent gives "missing inputs", an unknown one "missing intent"; only DISCONNECT revokes, only EXECUTE schedules reports |
| `HttpActions.IsLocalToken` | lib/Auth.js:363-366 | a current or next local token resolves to "local execution" at any time |
| `HttpActions.InputStepDispatch` | lib/HttpActions.js:219-359 | SYNC, QUERY, IDENTIFY and REACHABLE_DEVICES answer their handler's response; EXECUTE also schedules its fan-out's reports; DISCONNECT answers `200 {}` and revokes once |
| `HttpActions.RunInputs` | lib/HttpActions.js:218-360 | one response per input and at most one revocation per input |
| `HttpActions.Handle` | lib/HttpActions.js:157-361 | an unadmitted request gets exactly one "missing inputs" 401; admitted iff the header yields a token that resolves to a user, acting for that user; an admitted request with inputs answers at least once per input |
| `HttpActions.OneResponsePerInput` | lib/HttpActions.js:218-360 | the loop emits one response per input, in input order |
| `HttpActions.DisconnectsCounted` | lib/HttpActions.js:317-324 | tokens are revoked iff some input is a DISCONNECT |
| `HttpActions.AdmittedIffBearerOfKnownToken` | lib/HttpActions.js:164-197 | served iff the header is `Bearer t` for a space-free `t` that resolves to a user; otherwise a single "missing inputs" 401 |
| `HttpActions.AdmittedRequestAnswersEachInput` | lib/HttpActions.js:198-230 | an admitted request with inputs emits the optional `200 {}`, then one response per input in order |
| `HttpActions.MissingInputsRefused` | lib/HttpActions.js:208-216 | an admitted request without `inputs` gets one "missing inputs" 401, after the optional `200 {}`, and nothing else happens |
| `HttpActions.ForeignLocalCallerIsStillServed` | lib/HttpActions.js:198-204 | a local token from a foreign address gets `200 {}` and is then served as local execution |
| `HttpActions.Dispatcher.Post` | lib/HttpActions.js:157-361 | emits the responses `Handle` specifies; rotates the pair iff the next token was presented; revokes the caller iff some input is DISCONNECT; persists iff either happened; keeps the local pair sound |
| `HttpActions.Dispatcher.Authenticate` | lib/HttpActions.js:164-197 | the token is `BearerToken` of the header and the user its resolution in the tables as they were; presenting the next local token rotates the pair and persists, anything else changes nothing |
| `HttpActions.Dispatcher.ServeInputs` | lib/HttpActions.js:218-360 | the loop's responses and reports, and one revocation if any DISCONNECT |
| `HttpActions.Dispatcher.ServeInput` | lib/HttpActions.js:219-358 | one input's response; only DISCONNECT changes the tables |
| `HttpActions.Dispatcher.PostLocal` | lib/HttpActions.js:128-136 | a foreign address gets `200 {}` and `_post` runs regardless, with `_post`'s effect on the tables: the pair rotates iff the next token was presented, the caller is revoked iff some input is a DISCONNECT, the tables are persisted iff either happened, and the local pair stays sound |
| `HttpActions.Dispatcher.ReportState` | lib/HttpActions.js:610-661 | nothing when the server is down or no user is logged in; otherwise it throws iff no key was set, and sends iff the key has a private key; `eventId` and `notifications[deviceId]` each present iff notifications are truthy; with a `deviceId` the states sit under it without `"command"`, without one the whole map is used |
| `HttpActions.Dispatcher.RequestSync` | lib/HttpActions.js:694-717 | nothing, a throw, or a send under the same conditions as `ReportState`; what is sent is only `agentUserId` "0" |

## Left out

- File I/O. `fs.readFileSync`, `fs.writeFileSync`, the auth file name, and reading the service-account key file in `setJwtKey` are not modelled. Persistence is the snapshot `persisted`. The key is reduced to its project id and whether it has a private key; it is `None` until `setJwtKey` is called.
- Randomness. `uuid-token-generator` and `genRandomString` are replaced by a nondeterministic choice of a fresh non-empty string.
- Real time. `Date.now()` and `new Date(...)` are replaced by one integer `now` per operation. A request is handled at a single instant.
- The `googleapis` calls (`GoogleAuth`, `reportStateAndNotification`, `requestSync`) and their promise callbacks. These are network calls; only the `postData` they would send is modelled.
- `process.nextTick`. A scheduled state report is recorded as the device id in the returned `reports`.
- Express. Route registration, `_options`, the `/check` page and CORS headers are not modelled. The responses are the emissions attempted, in order.
- `isLocalIP`. The `ip-range-check` CIDR matching against the loopback and private ranges is a parameter.
- Logging, `emitter.emit` and `devices/hood.js`. `devices/hood.js` only configures a node and is not part of this model.
- The `curDevice` object built in `_execDevice` (lib/HttpActions.js:529-557). It is never returned.
- Device state changes. The registry is one value per request, so nothing in a request sees a state change made earlier in that request. A later input does not see the state an earlier EXECUTE left. Within one EXECUTE, a second execution on the same device (say OnOff, then BrightnessAbsolute) gets its `execCommand` result and its states computed from the device as the request found it, although in the source `updated(...)` has already changed that device (lib/HttpActions.js:535-536). The device's states after `updated(...)` are a registry function of the original state.
- `_execDevice` parameter mutation. The overwrite of `command.params` is modelled as returning the updated execution to the devices that follow. Aliasing of that object beyond the current execution is not modelled.
- Malformed requests. A missing `payload` throws in the source; the model's inputs always carry (possibly empty) `devices` and `commands`. An absent `requestId` is the JSON `null`.
- Floating point. Durations and timestamps are integers.
- `HttpActions.Dispatcher.Post`: requires both local tokens to be non-empty. This always holds after the constructor and `LoadAuth`, and the model writes a missing local token as the empty string, which a presented empty token would otherwise match.
- `Intents.ExecutionStates`: a passed-through handler result that lists `executionStates` but has no `states` throws in the source; the model gives an empty map.
- `HttpActions.Dispatcher.ReportState`: a falsy `deviceId` is the empty string. The source's key for an undefined id in `notifications` is not modelled. The `delete states["command"]` on the caller's object is modelled only as its absence from the payload.
- `Auth.Authority.LoadAuth`: a blob that is an object but lacks the `accessTokens` or `refreshTokens` tables is not modelled (the stored blob always has both).
- `HttpActions.OneResponsePerInput`: counts the responses `_post` attempts. Express sends only the first response of a request; the second `response.status(...).json(...)` throws `ERR_HTTP_HEADERS_SENT`, which ends the input loop there. Effects that precede that second emission in the source, such as a DISCONNECT's revocation, still happen; later inputs are not run.
- `HttpActions.DisconnectsCounted`: counts the DISCONNECT inputs of the whole request; with the Express abort above, only a DISCONNECT reached before the second emission revokes.
- `HttpActions.Dispatcher.Post`: its responses are the attempted emissions, and its state after a request of several inputs is that of running all of them, not of the run cut short by `ERR_HTTP_HEADERS_SENT`.
- `HttpActions.Dispatcher.Post`: a token that names a property inherited from `Object.prototype` (such as `constructor`) is not modelled. The source's `accessTokens[token]` then finds a function, whose `user` is `undefined`, which is not `null`, so the request is admitted with an undefined user.
- `HttpActions.Handle`: the tables are maps, so the inherited-property lookup above (a token `constructor` and the like) is not modelled.
- `HttpActions.AdmittedIffBearerOfKnownToken`: a token naming an inherited property of `Object.prototype` resolves to no user in the model but admits the request in the source.
- `Auth.UserFor`: a token naming an inherited property of `Object.prototype` gives null in the model; the source finds the inherited member, reads an `undefined` user and an `Invalid Date` expiry that never compares as expired, and returns `undefined`.
- `Auth.Authority.IsValidRefreshToken`: a refresh token naming an inherited property of `Object.prototype` is unknown in the model; the source finds the inherited member and answers true.
- `Auth.Authority.RefreshAccessToken`: a refresh token naming an inherited property of `Object.prototype` fails in the model; the source accepts it and issues an access token whose user is the inherited function.
- `Intents.Sync`: the source writes `device.id = key` into the registry's own property objects; the model builds new device values, so that mutation of the registry is not modelled.
