/**
 * The token authority of lib/Auth.js: a small OAuth 2.0 server implementing
 * the authorization-code grant (section 4.1 of RFC 6749) and the
 * refresh-token grant (section 6 of RFC 6749), plus a rotating pair of
 * "local execution" tokens.
 *
 * Time is the parameter `now` (milliseconds since the epoch). A random token
 * is any non-empty string outside the set it must avoid; the lemma
 * `FreshStringExists` shows such a string always exists, which is what the
 * source's regenerate-until-unique loops rely on.
 */
module Auth {
  import opened Js
  import Strings
  import Redirect

  /** An authorization code lives 10 minutes. */
  const CodeLifetime: int := 10 * 60000
  /** The identity `getuserForAccessToken` reports for either local token. */
  const LocalExecutionUser: string := "local execution"
  /** Access-token lifetime in minutes until `setAccessTokenDuration` is called. */
  const DefaultAccessTokenDuration: int := 60

  datatype CodeInfo = CodeInfo(user: string, expiresAt: int)
  datatype TokenInfo = TokenInfo(user: string, expiresAt: int)

  /** The persisted object `_auth`; an empty local token stands for a missing (falsy) one. */
  datatype AuthBlob = AuthBlob(
    accessTokens: map<string, TokenInfo>,
    refreshTokens: map<string, string>,
    localAuthCode: string,
    nextLocalAuthCode: string)

  /** What `loadAuth` finds in the auth file. */
  datatype StoredAuth =
    | EmptyFile              // the file was just created: nothing persisted yet
    | Unreadable             // not JSON, or the JSON `null` (reading a field of it throws)
    | NotATable              // a JSON number, string, boolean or array
    | Stored(blob: AuthBlob)

  /**
   * The two things the core reads from the service-account key file:
   * its `project_id`, and whether its `private_key` is truthy.
   */
  datatype ServiceAccountKey = ServiceAccountKey(projectId: string, hasPrivateKey: bool)

  /** A token response; its `token_type` is always "bearer". */
  datatype Grant = Grant(accessToken: string, refreshToken: Option<string>, expiresIn: int)

  /**
   * The conditions on which the grant operations throw; `NoServiceAccountKey`
   * is the TypeError of reading the project id before `setJwtKey`.
   */
  datatype AuthError = UnknownCode | ExpiredCode | InvalidRedirectUri | NoServiceAccountKey | UnknownRefreshToken

  datatype Result<T> = Ok(value: T) | Failure(error: AuthError)

  /** The allowed e-mail addresses: a `;`-separated string or an array. */
  datatype EmailConfig = EmailString(s: string) | EmailList(list: seq<string>)

  /** Every expiry test of the source is a strict `expiresAt < now`. */
  predicate Expired(expiresAt: int, now: int)
  {
    expiresAt < now
  }

  /** The authorization codes that survive `removeExpiredAuthCode`. */
  function LiveCodes(codes: map<string, CodeInfo>, now: int): (live: map<string, CodeInfo>)
    ensures forall c :: c in live <==> c in codes && codes[c].expiresAt >= now
    ensures forall c :: c in live ==> live[c] == codes[c]
  {
    map c | c in codes && !Expired(codes[c].expiresAt, now) :: codes[c]
  }

  /** The access tokens that survive `_removeAllAccessTokensExpiredAndForUser(user)`. */
  function AccessTokensKept(tokens: map<string, TokenInfo>, user: string, now: int): (kept: map<string, TokenInfo>)
    ensures forall t :: t in kept <==> t in tokens && tokens[t].user != user && tokens[t].expiresAt >= now
    ensures forall t :: t in kept ==> kept[t] == tokens[t]
  {
    map t | t in tokens && tokens[t].user != user && !Expired(tokens[t].expiresAt, now) :: tokens[t]
  }

  /** The refresh tokens that survive `_removeAllTokensForUser(user)`. */
  function RefreshTokensKept(tokens: map<string, string>, user: string): (kept: map<string, string>)
    ensures forall t :: t in kept <==> t in tokens && tokens[t] != user
    ensures forall t :: t in kept ==> kept[t] == tokens[t]
  {
    map t | t in tokens && tokens[t] != user :: tokens[t]
  }

  /** `_removeAllTokensForUser(user)` on the persisted tables. */
  function RevokeUser(b: AuthBlob, user: string, now: int): (r: AuthBlob)
    ensures r.localAuthCode == b.localAuthCode && r.nextLocalAuthCode == b.nextLocalAuthCode
    ensures r.accessTokens.Keys <= b.accessTokens.Keys && r.refreshTokens.Keys <= b.refreshTokens.Keys
    ensures LocalPairSound(b) ==> LocalPairSound(r)
  {
    b.(accessTokens := AccessTokensKept(b.accessTokens, user, now),
       refreshTokens := RefreshTokensKept(b.refreshTokens, user))
  }

  /**
   * The local pair is usable: both tokens present, distinct, and neither
   * shadowing an access token.
   */
  predicate LocalPairSound(b: AuthBlob)
  {
    && b.localAuthCode != ""
    && b.nextLocalAuthCode != ""
    && b.localAuthCode != b.nextLocalAuthCode
    && b.localAuthCode !in b.accessTokens
    && b.nextLocalAuthCode !in b.accessTokens
  }

  /**
   * A stored blob whose present local tokens are distinct and shadow no
   * access token; `loadAuth` trusts the file and checks none of this.
   */
  predicate StoredPairConsistent(b: AuthBlob)
  {
    && (b.localAuthCode != "" ==> b.localAuthCode !in b.accessTokens)
    && (b.nextLocalAuthCode != "" ==> b.nextLocalAuthCode !in b.accessTokens)
    && (b.localAuthCode != "" && b.nextLocalAuthCode != "" ==> b.localAuthCode != b.nextLocalAuthCode)
  }

  /**
   * `getuserForAccessToken(token)`: either local token resolves to the local
   * execution identity without any expiry check; any other token resolves to
   * its owner while it is stored and not expired, and to null otherwise.
   */
  function UserFor(b: AuthBlob, token: string, now: int): (user: Option<string>)
    ensures token == b.localAuthCode || token == b.nextLocalAuthCode ==> user == Some(LocalExecutionUser)
    ensures token != b.localAuthCode && token != b.nextLocalAuthCode ==>
              (user.Some? <==> token in b.accessTokens && !Expired(b.accessTokens[token].expiresAt, now))
    ensures user.Some? && token != b.localAuthCode && token != b.nextLocalAuthCode ==>
              user.value == b.accessTokens[token].user
  {
    if token == b.localAuthCode || token == b.nextLocalAuthCode then Some(LocalExecutionUser)
    else if token !in b.accessTokens then None
    else if Expired(b.accessTokens[token].expiresAt, now) then None
    else Some(b.accessTokens[token].user)
  }

  /** The allow-list `setGoogleClientIdAndEmails` stores. */
  function EmailsOf(config: EmailConfig): (emails: seq<string>)
    ensures config.EmailList? ==> emails == config.list
    ensures config.EmailString? ==>
              && |emails| >= 1
              && (forall i :: 0 <= i < |emails| ==> ';' !in emails[i])
              && Strings.Join(emails, ';') == config.s
  {
    match config
    case EmailString(s) =>
      Strings.JoinOfSplit(s, ';');
      Strings.Split(s, ';')
    case EmailList(list) => list
  }

  /**
   * A `;`-separated allow-list is read back as exactly the addresses that
   * were joined into it.
   */
  lemma EmailsOfJoinedList(list: seq<string>)
    requires |list| >= 1
    requires forall i :: 0 <= i < |list| ==> ';' !in list[i]
    ensures EmailsOf(EmailString(Strings.Join(list, ';'))) == list
  {
    Strings.SplitOfJoin(list, ';');
  }

  /**
   * Revoking a user twice at the same instant revokes nothing more: a
   * request carrying several DISCONNECT inputs has the effect of one.
   */
  lemma RevokeUserIdempotent(b: AuthBlob, user: string, now: int)
    ensures RevokeUser(RevokeUser(b, user, now), user, now) == RevokeUser(b, user, now)
  {
  }

  /**
   * The tables after `n` revocations of the same user at the same instant:
   * one revocation or several leave the same tables.
   */
  lemma RevocationStep(start: AuthBlob, user: string, now: int, n: nat, step: nat, current: AuthBlob, next: AuthBlob)
    requires current == (if n == 0 then start else RevokeUser(start, user, now))
    requires step > 0 ==> next == RevokeUser(current, user, now)
    requires step == 0 ==> next == current
    ensures next == (if n + step == 0 then start else RevokeUser(start, user, now))
  {
    if step > 0 && n > 0 {
      RevokeUserIdempotent(start, user, now);
    }
  }

  /** Neither table of a revoked blob holds an entry of the user. */
  lemma RevokedTablesExcludeUser(b: AuthBlob, user: string, now: int)
    ensures forall t :: t in RevokeUser(b, user, now).accessTokens ==> RevokeUser(b, user, now).accessTokens[t].user != user
    ensures forall t :: t in RevokeUser(b, user, now).refreshTokens ==> RevokeUser(b, user, now).refreshTokens[t] != user
  {
  }

  /**
   * The tables `after` are those `before` with the user revoked at `now` and
   * then one new refresh token and one new access token of `duration`
   * minutes added for the user, as the grant `g` reports.
   */
  predicate GrantIssued(before: AuthBlob, user: string, now: int, duration: int, g: Grant, after: AuthBlob)
  {
    var revoked := RevokeUser(before, user, now);
    && g.refreshToken.Some?
    && g.refreshToken.value !in revoked.refreshTokens
    && after.refreshTokens == revoked.refreshTokens[g.refreshToken.value := user]
    && g.accessToken !in revoked.accessTokens
    && g.accessToken != after.localAuthCode && g.accessToken != after.nextLocalAuthCode
    && after.accessTokens == revoked.accessTokens[g.accessToken := TokenInfo(user, now + duration * 60000)]
    && after.localAuthCode == before.localAuthCode && after.nextLocalAuthCode == before.nextLocalAuthCode
    && g.expiresIn == 60 * duration
  }

  /**
   * After a grant the user holds exactly the two tokens it reports: every
   * earlier session of the user is gone.
   */
  lemma GrantLeavesOnlyNewTokens(before: AuthBlob, user: string, now: int, duration: int, g: Grant, after: AuthBlob)
    requires GrantIssued(before, user, now, duration, g, after)
    ensures forall t :: t in after.refreshTokens && after.refreshTokens[t] == user ==> Some(t) == g.refreshToken
    ensures forall t :: t in after.accessTokens && after.accessTokens[t].user == user ==> t == g.accessToken
  {
    RevokedTablesExcludeUser(before, user, now);
  }

  /**
   * After revocation no access token of the user resolves to the user any
   * more, and the user holds no refresh token.
   */
  lemma RevokedUserHasNoTokens(b: AuthBlob, user: string, now: int, later: int, token: string)
    requires token != b.localAuthCode && token != b.nextLocalAuthCode
    ensures UserFor(RevokeUser(b, user, now), token, later) != Some(user)
    ensures user !in RevokeUser(b, user, now).refreshTokens.Values
  {
  }

  /** The longest string of a finite set. */
  ghost function LongestLength(strings: set<string>): (n: nat)
    ensures forall s :: s in strings ==> |s| <= n
    decreases strings
  {
    if strings == {} then 0
    else
      var s :| s in strings;
      var rest := LongestLength(strings - {s});
      if |s| > rest then |s| else rest
  }

  /**
   * Whatever finite set of live tokens must be avoided, a fresh non-empty
   * token exists: the regenerate-until-unique loops have something to find.
   */
  lemma FreshStringExists(avoid: set<string>)
    ensures exists s: string :: s != "" && s !in avoid
  {
    var n := LongestLength(avoid);
    var s: string := seq(n + 1, _ => 'x');
    assert s != "" && s !in avoid;
  }

  class Authority {
    var clientId: string
    var clientSecret: string
    var username: string
    var password: string
    var useGoogleClientAuth: bool
    var googleClientId: string
    var emails: seq<string>
    /** The service-account key `_jwtkey`; `None` (the source's `null`) until `setJwtKey` has run. */
    var jwtKey: Option<ServiceAccountKey>
    /** Access-token lifetime, in minutes. */
    var accessTokenDuration: int
    /** `_authCode`: outstanding authorization codes (never persisted). */
    var authCodes: map<string, CodeInfo>
    var accessTokens: map<string, TokenInfo>
    var refreshTokens: map<string, string>
    var localAuthCode: string
    var nextLocalAuthCode: string
    /** The blob last written to the auth file, if any. */
    var persisted: Option<AuthBlob>

    /** The persisted part of the state, `_auth`. */
    function Blob(): AuthBlob
      reads this
    {
      AuthBlob(accessTokens, refreshTokens, localAuthCode, nextLocalAuthCode)
    }

    ghost predicate Valid()
      reads this
    {
      LocalPairSound(Blob())
    }

    /** `new Auth()`: empty configuration, empty tables and a fresh local pair. */
    constructor ()
      ensures Valid()
      ensures authCodes == map[] && accessTokens == map[] && refreshTokens == map[]
      ensures clientId == "" && clientSecret == "" && username == "" && password == ""
      ensures !useGoogleClientAuth && googleClientId == "" && emails == []
      ensures accessTokenDuration == DefaultAccessTokenDuration
      ensures jwtKey == None && persisted == None
    {
      clientId := "";
      clientSecret := "";
      username := "";
      password := "";
      useGoogleClientAuth := false;
      googleClientId := "";
      emails := [];
      jwtKey := None;
      accessTokenDuration := DefaultAccessTokenDuration;
      authCodes := map[];
      accessTokens := map[];
      refreshTokens := map[];
      localAuthCode := "";
      nextLocalAuthCode := "";
      persisted := None;
      new;
      ClearAllTokens();
    }

    /** `_persistAuth`: the whole blob is written at once. */
    method PersistAuth()
      modifies this`persisted
      ensures persisted == Some(Blob())
    {
      persisted := Some(Blob());
    }

    /**
     * The repair step of `loadAuth`, given what the auth file holds: an
     * empty file or a non-object resets the tables; an unreadable file
     * resets them as well but is not written back; a stored table is
     * adopted, with a missing local token (and then a missing next one)
     * regenerated.
     */
    method LoadAuth(stored: StoredAuth)
      modifies this`accessTokens, this`refreshTokens, this`localAuthCode, this`nextLocalAuthCode, this`persisted
      ensures localAuthCode != "" && nextLocalAuthCode != ""
      ensures !stored.Stored? ==> accessTokens == map[] && refreshTokens == map[] && Valid()
      ensures stored.Stored? ==>
                accessTokens == stored.blob.accessTokens && refreshTokens == stored.blob.refreshTokens
      ensures stored.Stored? && stored.blob.localAuthCode != "" ==> localAuthCode == stored.blob.localAuthCode
      ensures stored.Stored? && stored.blob.nextLocalAuthCode != "" ==>
                nextLocalAuthCode == stored.blob.nextLocalAuthCode
      ensures stored.Stored? && StoredPairConsistent(stored.blob) ==> Valid()
      ensures stored.Unreadable? ==> persisted == old(persisted)
      ensures !stored.Unreadable? ==> persisted == Some(Blob())
    {
      match stored
      case EmptyFile =>
        ClearAllTokens();
        PersistAuth();
      case Unreadable =>
        ClearAllTokens();
      case NotATable =>
        ClearAllTokens();
        PersistAuth();
      case Stored(blob) =>
        accessTokens := blob.accessTokens;
        refreshTokens := blob.refreshTokens;
        localAuthCode := blob.localAuthCode;
        nextLocalAuthCode := blob.nextLocalAuthCode;
        if localAuthCode == "" {
          var _ := GenerateLocalAccessToken();
        }
        if nextLocalAuthCode == "" {
          nextLocalAuthCode := GenerateNewAccessToken();
        }
        PersistAuth();
    }

    /** `setJwtKey`, with the key file already read and parsed. */
    method SetJwtKey(key: ServiceAccountKey)
      modifies this`jwtKey
      ensures jwtKey == Some(key)
    {
      jwtKey := Some(key);
    }

    /**
     * `getProjectId()`: the key's project id; `None` stands for the
     * TypeError of reading a field of the `null` key before `setJwtKey`.
     */
    function ProjectId(): (id: Option<string>)
      reads this
      ensures id.Some? <==> jwtKey.Some?
      ensures id.Some? ==> id.value == jwtKey.value.projectId
    {
      if jwtKey.None? then None else Some(jwtKey.value.projectId)
    }

    method SetClientIdSecret(id: string, secret: string)
      modifies this`clientId, this`clientSecret
      ensures clientId == id && clientSecret == secret
    {
      clientId := id;
      clientSecret := secret;
    }

    /** Switches to local username/password authentication. */
    method SetUsernamePassword(name: string, pass: string)
      modifies this`useGoogleClientAuth, this`username, this`password
      ensures !useGoogleClientAuth && username == name && password == pass
    {
      useGoogleClientAuth := false;
      username := name;
      password := pass;
    }

    /** Switches to Google sign-in with an allow-list of e-mail addresses. */
    method SetGoogleClientIdAndEmails(id: string, config: EmailConfig)
      modifies this`useGoogleClientAuth, this`googleClientId, this`emails
      ensures useGoogleClientAuth && googleClientId == id && emails == EmailsOf(config)
    {
      useGoogleClientAuth := true;
      googleClientId := id;
      match config
      case EmailString(s) =>
        emails := Strings.Split(s, ';');
      case EmailList(list) =>
        emails := list;
    }

    method SetAccessTokenDuration(minutes: int)
      modifies this`accessTokenDuration
      ensures accessTokenDuration == minutes
    {
      accessTokenDuration := minutes;
    }

    /** An address is accepted only in Google sign-in mode and only if allow-listed. */
    function IsGoogleClientEmailValid(email: string): (ok: bool)
      reads this
      ensures ok <==> useGoogleClientAuth && email in emails
    {
      useGoogleClientAuth && email in emails
    }

    /** Exact match of both credentials. */
    function IsValidUser(name: string, pass: string): (ok: bool)
      reads this
      ensures ok <==> name == username && pass == password
    {
      username == name && password == pass
    }

    /**
     * `isValidClient(id)` or `isValidClient(id, secret)`: the secret is
     * compared only when it was passed (`None` is the one-argument call).
     */
    function IsValidClient(id: string, secret: Option<string>): (ok: bool)
      reads this
      ensures ok ==> id == clientId
      ensures secret.None? ==> (ok <==> id == clientId)
      ensures secret.Some? ==> (ok <==> id == clientId && secret.value == clientSecret)
    {
      if clientId != id then false
      else if secret.Some? && clientSecret != secret.value then false
      else true
    }

    /** A user counts as logged in while any refresh token is outstanding. */
    function IsUserLoggedIn(): (loggedIn: bool)
      reads this
      ensures loggedIn <==> exists t :: t in refreshTokens
    {
      assert |refreshTokens| == 0 <==> refreshTokens == map[];
      |refreshTokens| > 0
    }

    function IsValidRefreshToken(token: string): (ok: bool)
      reads this
      ensures ok <==> token in refreshTokens
    {
      token in refreshTokens
    }

    /**
     * `_generateNewAccessToken`: a token that is neither local token nor a
     * stored access token (nothing is stored yet).
     */
    method GenerateNewAccessToken() returns (token: string)
      ensures token != "" && token != localAuthCode && token != nextLocalAuthCode && token !in accessTokens
    {
      var avoid := accessTokens.Keys + {localAuthCode, nextLocalAuthCode};
      FreshStringExists(avoid);
      token :| token != "" && token !in avoid;
    }

    /** `_generateAccessToken(user)`: stores a fresh token expiring `accessTokenDuration` minutes from now. */
    method GenerateAccessToken(user: string, now: int) returns (token: string)
      modifies this`accessTokens
      ensures token != "" && token != localAuthCode && token != nextLocalAuthCode && token !in old(accessTokens)
      ensures accessTokens == old(accessTokens)[token := TokenInfo(user, now + accessTokenDuration * 60000)]
    {
      token := GenerateNewAccessToken();
      accessTokens := accessTokens[token := TokenInfo(user, now + accessTokenDuration * 60000)];
    }

    /** `_generateRefreshToken(user)`: stores a refresh token not yet in the table. */
    method GenerateRefreshToken(user: string) returns (token: string)
      modifies this`refreshTokens
      ensures token != "" && token !in old(refreshTokens)
      ensures refreshTokens == old(refreshTokens)[token := user]
    {
      FreshStringExists(refreshTokens.Keys);
      token :| token != "" && token !in refreshTokens.Keys;
      refreshTokens := refreshTokens[token := user];
    }

    /**
     * `generateLocalAccessToken`: a new local token, distinct from both
     * tokens of the old pair and from every access token; the next token is
     * minted only when there is none.
     */
    method GenerateLocalAccessToken() returns (token: string)
      modifies this`localAuthCode, this`nextLocalAuthCode
      ensures token == localAuthCode
      ensures localAuthCode != "" && localAuthCode !in accessTokens
      ensures localAuthCode != old(localAuthCode) && localAuthCode != old(nextLocalAuthCode)
      ensures old(nextLocalAuthCode) != "" ==> nextLocalAuthCode == old(nextLocalAuthCode)
      ensures old(nextLocalAuthCode) == "" ==>
                nextLocalAuthCode != "" && nextLocalAuthCode != localAuthCode && nextLocalAuthCode !in accessTokens
      ensures old(nextLocalAuthCode) !in accessTokens ==> Valid()
    {
      localAuthCode := GenerateNewAccessToken();
      if nextLocalAuthCode == "" {
        nextLocalAuthCode := GenerateNewAccessToken();
      }
      token := localAuthCode;
    }

    /** `_clearAllTokens`: empty tables and a fresh, sound local pair. */
    method ClearAllTokens()
      modifies this`accessTokens, this`refreshTokens, this`localAuthCode, this`nextLocalAuthCode
      ensures accessTokens == map[] && refreshTokens == map[]
      ensures Valid()
    {
      accessTokens := map[];
      refreshTokens := map[];
      localAuthCode := "";
      nextLocalAuthCode := "";
      var _ := GenerateLocalAccessToken();
    }

    /**
     * `removeExpiredAuthCode`: collects the codes with `expiresAt < now`,
     * then deletes them. A code expiring exactly at `now` survives.
     */
    method RemoveExpiredAuthCode(now: int)
      modifies this`authCodes
      ensures authCodes == LiveCodes(old(authCodes), now)
      ensures forall c :: c in authCodes <==> c in old(authCodes) && old(authCodes)[c].expiresAt >= now
    {
      var toDel: set<string> := {};
      var pending := authCodes.Keys;
      while pending != {}
        invariant pending <= authCodes.Keys
        invariant forall c :: c in toDel <==> c in authCodes && c !in pending && Expired(authCodes[c].expiresAt, now)
        decreases pending
      {
        var c :| c in pending;
        if Expired(authCodes[c].expiresAt, now) {
          toDel := toDel + {c};
        }
        pending := pending - {c};
      }
      var doomed := toDel;
      while doomed != {}
        invariant doomed <= toDel
        invariant authCodes == old(authCodes) - (toDel - doomed)
        decreases doomed
      {
        var c :| c in doomed;
        authCodes := authCodes - {c};
        doomed := doomed - {c};
      }
      assert authCodes == LiveCodes(old(authCodes), now);
    }

    /**
     * `generateAuthCode(user)`: purges the expired codes, then records one
     * code that is not live for the user, valid for ten minutes. Every other
     * live code is kept as it was.
     */
    method GenerateAuthCode(user: string, now: int) returns (code: string)
      modifies this`authCodes
      ensures code != "" && code !in LiveCodes(old(authCodes), now)
      ensures authCodes == LiveCodes(old(authCodes), now)[code := CodeInfo(user, now + CodeLifetime)]
    {
      RemoveExpiredAuthCode(now);
      FreshStringExists(authCodes.Keys);
      code :| code != "" && code !in authCodes.Keys;
      authCodes := authCodes[code := CodeInfo(user, now + CodeLifetime)];
    }

    /**
     * `_removeAllAccessTokensExpiredAndForUser(user)`: collects every access
     * token that belongs to `user` or has expired, then deletes them.
     */
    method RemoveExpiredAndUserAccessTokens(user: string, now: int)
      modifies this`accessTokens
      ensures accessTokens == AccessTokensKept(old(accessTokens), user, now)
    {
      var toDel: set<string> := {};
      var pending := accessTokens.Keys;
      while pending != {}
        invariant pending <= accessTokens.Keys
        invariant forall t :: t in toDel <==>
                    t in accessTokens && t !in pending
                    && (accessTokens[t].user == user || Expired(accessTokens[t].expiresAt, now))
        decreases pending
      {
        var t :| t in pending;
        if accessTokens[t].user == user || Expired(accessTokens[t].expiresAt, now) {
          toDel := toDel + {t};
        }
        pending := pending - {t};
      }
      var doomed := toDel;
      while doomed != {}
        invariant doomed <= toDel
        invariant accessTokens == old(accessTokens) - (toDel - doomed)
        decreases doomed
      {
        var t :| t in doomed;
        accessTokens := accessTokens - {t};
        doomed := doomed - {t};
      }
      assert accessTokens == AccessTokensKept(old(accessTokens), user, now);
    }

    /**
     * `_removeAllTokensForUser(user)`: the access tokens of the user and all
     * expired ones, then every refresh token of the user.
     */
    method RemoveTokensOfUser(user: string, now: int)
      modifies this`accessTokens, this`refreshTokens
      ensures Blob() == RevokeUser(old(Blob()), user, now)
    {
      RemoveExpiredAndUserAccessTokens(user, now);
      var toDel: set<string> := {};
      var pending := refreshTokens.Keys;
      while pending != {}
        invariant pending <= refreshTokens.Keys
        invariant forall t :: t in toDel <==> t in refreshTokens && t !in pending && refreshTokens[t] == user
        invariant accessTokens == AccessTokensKept(old(accessTokens), user, now)
        decreases pending
      {
        var t :| t in pending;
        if refreshTokens[t] == user {
          toDel := toDel + {t};
        }
        pending := pending - {t};
      }
      var doomed := toDel;
      while doomed != {}
        invariant doomed <= toDel
        invariant refreshTokens == old(refreshTokens) - (toDel - doomed)
        invariant accessTokens == AccessTokensKept(old(accessTokens), user, now)
        decreases doomed
      {
        var t :| t in doomed;
        refreshTokens := refreshTokens - {t};
        doomed := doomed - {t};
      }
      assert refreshTokens == RefreshTokensKept(old(refreshTokens), user);
    }

    /** `removeAllTokensForUser(user)`: revokes and persists. */
    method RemoveAllTokensForUser(user: string, now: int)
      modifies this`accessTokens, this`refreshTokens, this`persisted
      ensures Blob() == RevokeUser(old(Blob()), user, now)
      ensures persisted == Some(Blob())
      ensures old(Valid()) ==> Valid()
    {
      RemoveTokensOfUser(user, now);
      PersistAuth();
    }

    /**
     * `exchangeAuthCode(code, redirect_uri, my_uri)`. It fails, changing
     * nothing, when the code is unknown, when it has expired, when the
     * redirect URI is refused, or when it is not the own URI and no
     * service-account key is set; the code then stays redeemable. On success
     * the code is consumed, every token of its user (and every expired
     * access token) is revoked, and the user is left with exactly one new
     * refresh token and one new access token.
     */
    method ExchangeAuthCode(code: string, redirectUri: string, myUri: Option<string>, now: int)
      returns (r: Result<Grant>)
      modifies this`authCodes, this`accessTokens, this`refreshTokens, this`persisted
      ensures code !in old(authCodes) ==> r == Failure(UnknownCode)
      ensures code in old(authCodes) && Expired(old(authCodes)[code].expiresAt, now) ==> r == Failure(ExpiredCode)
      ensures (&& code in old(authCodes) && !Expired(old(authCodes)[code].expiresAt, now)
               && Redirect.IsValidRedirectUri(redirectUri, myUri, ProjectId()) == Some(false)) ==> r == Failure(InvalidRedirectUri)
      ensures (&& code in old(authCodes) && !Expired(old(authCodes)[code].expiresAt, now)
               && Redirect.IsValidRedirectUri(redirectUri, myUri, ProjectId()) == None) ==> r == Failure(NoServiceAccountKey)
      ensures r.Failure? ==> unchanged(this)
      ensures r.Ok? <==>
                && code in old(authCodes)
                && !Expired(old(authCodes)[code].expiresAt, now)
                && Redirect.IsValidRedirectUri(redirectUri, myUri, ProjectId()) == Some(true)
      ensures r.Ok? ==>
                && authCodes == old(authCodes) - {code}
                && GrantIssued(old(Blob()), old(authCodes)[code].user, now, accessTokenDuration, r.value, Blob())
                && persisted == Some(Blob())
      ensures r.Ok? ==>
                var user := old(authCodes)[code].user;
                && (forall t :: t in refreshTokens && refreshTokens[t] == user ==> Some(t) == r.value.refreshToken)
                && (forall t :: t in accessTokens && accessTokens[t].user == user ==> t == r.value.accessToken)
      ensures old(Valid()) ==> Valid()
    {
      if code !in authCodes {
        r := Failure(UnknownCode);
      } else if Expired(authCodes[code].expiresAt, now) {
        r := Failure(ExpiredCode);
      } else {
        var redirectOk := Redirect.IsValidRedirectUri(redirectUri, myUri, ProjectId());
        if redirectOk.None? {
          r := Failure(NoServiceAccountKey);
        } else if !redirectOk.value {
          r := Failure(InvalidRedirectUri);
        } else {
          var user := authCodes[code].user;
          ghost var tables := Blob();
          authCodes := authCodes - {code};
          assert Blob() == tables;
          var grant := IssueGrant(user, now);
          GrantLeavesOnlyNewTokens(tables, user, now, accessTokenDuration, grant, Blob());
          r := Ok(grant);
        }
      }
    }

    /**
     * The success path of `exchangeAuthCode` once the code is consumed: the
     * user's tokens and every expired access token are revoked, then one
     * refresh token and one access token are minted and the tables saved.
     */
    method IssueGrant(user: string, now: int) returns (g: Grant)
      modifies this`accessTokens, this`refreshTokens, this`persisted
      ensures GrantIssued(old(Blob()), user, now, accessTokenDuration, g, Blob())
      ensures persisted == Some(Blob())
      ensures old(Valid()) ==> Valid()
    {
      ghost var revoked := RevokeUser(Blob(), user, now);
      RemoveTokensOfUser(user, now);
      assert accessTokens == revoked.accessTokens && refreshTokens == revoked.refreshTokens;
      var refreshToken := GenerateRefreshToken(user);
      var accessToken := GenerateAccessToken(user, now);
      PersistAuth();
      g := Grant(accessToken, Some(refreshToken), 60 * accessTokenDuration);
      assert GrantIssued(old(Blob()), user, now, accessTokenDuration, g, Blob());
    }

    /**
     * `refreshAccessToken(refresh_token)`. An unknown refresh token fails
     * and changes nothing. Otherwise the refresh table is untouched, every
     * access token of the token's user and every expired one is removed,
     * and one new access token for that user is added.
     */
    method RefreshAccessToken(token: string, now: int) returns (r: Result<Grant>)
      modifies this`accessTokens, this`persisted
      ensures r.Failure? <==> token !in refreshTokens
      ensures r.Failure? ==> r.error == UnknownRefreshToken && unchanged(this)
      ensures r.Ok? ==>
                var user := refreshTokens[token];
                var kept := AccessTokensKept(old(accessTokens), user, now);
                && r.value.accessToken !in kept
                && r.value.accessToken != localAuthCode && r.value.accessToken != nextLocalAuthCode
                && accessTokens == kept[r.value.accessToken := TokenInfo(user, now + accessTokenDuration * 60000)]
                && r.value.refreshToken == None
                && r.value.expiresIn == 60 * accessTokenDuration
                && persisted == Some(Blob())
      ensures old(Valid()) ==> Valid()
    {
      if !IsValidRefreshToken(token) {
        return Failure(UnknownRefreshToken);
      }
      var user := refreshTokens[token];
      RemoveExpiredAndUserAccessTokens(user, now);
      var accessToken := GenerateAccessToken(user, now);
      PersistAuth();
      r := Ok(Grant(accessToken, None, 60 * accessTokenDuration));
    }

    /**
     * `isValidLocalAccessToken(token)`. Presenting the next token promotes
     * it to current and mints a new next token, distinct from the promoted
     * one and from every access token (it is not checked against the old
     * current token). Presenting the current token, or anything else,
     * changes nothing.
     */
    method IsValidLocalAccessToken(token: string) returns (valid: bool)
      modifies this`localAuthCode, this`nextLocalAuthCode, this`persisted
      ensures valid <==> token == old(nextLocalAuthCode) || token == old(localAuthCode)
      ensures token == old(nextLocalAuthCode) ==>
                && localAuthCode == old(nextLocalAuthCode)
                && nextLocalAuthCode != "" && nextLocalAuthCode != localAuthCode
                && nextLocalAuthCode !in accessTokens
                && persisted == Some(Blob())
      ensures token != old(nextLocalAuthCode) ==> unchanged(this)
      ensures old(Valid()) ==> Valid()
    {
      if token == nextLocalAuthCode {
        localAuthCode := nextLocalAuthCode;
        nextLocalAuthCode := GenerateNewAccessToken();
        PersistAuth();
        return true;
      }
      valid := token == localAuthCode;
    }
  }

  /*************************************************************************
   * Sequences of calls
   *************************************************************************/

  /**
   * Codes are single-use: once an exchange has succeeded, the same code is
   * refused as unknown, at any later time and for any redirect URI.
   */
  method ExchangeCodeTwice(a: Authority, code: string, redirectUri: string, myUri: Option<string>, now: int,
                           later: int, laterUri: string)
    returns (first: Result<Grant>, second: Result<Grant>)
    modifies a`authCodes, a`accessTokens, a`refreshTokens, a`persisted
    ensures first.Ok? ==> second == Failure(UnknownCode)
  {
    first := a.ExchangeAuthCode(code, redirectUri, myUri, now);
    second := a.ExchangeAuthCode(code, laterUri, myUri, later);
  }

  /**
   * A code issued at `now` is still redeemed at `now + 600000`, the instant
   * its `expiresAt` names, because expiry is a strict `<`.
   */
  method RedeemAtExpiryInstant(a: Authority, user: string, redirectUri: string, myUri: Option<string>, now: int)
    returns (r: Result<Grant>)
    requires Redirect.IsValidRedirectUri(redirectUri, myUri, a.ProjectId()) == Some(true)
    modifies a`authCodes, a`accessTokens, a`refreshTokens, a`persisted
    ensures r.Ok? && r.value.refreshToken.Some?
  {
    var code := a.GenerateAuthCode(user, now);
    r := a.ExchangeAuthCode(code, redirectUri, myUri, now + CodeLifetime);
  }

  /** One millisecond later the same code is refused as expired. */
  method RedeemAfterExpiry(a: Authority, user: string, redirectUri: string, myUri: Option<string>, now: int)
    returns (r: Result<Grant>)
    modifies a`authCodes, a`accessTokens, a`refreshTokens, a`persisted
    ensures r == Failure(ExpiredCode)
  {
    var code := a.GenerateAuthCode(user, now);
    r := a.ExchangeAuthCode(code, redirectUri, myUri, now + CodeLifetime + 1);
  }

  /**
   * Before a service-account key is set, a fresh authority refuses even the
   * Google callback: the exchange throws on reading the project id, and the
   * code stays outstanding. Only an own URI that the redirect extends would
   * have been accepted.
   */
  method RedeemBeforeKeyIsSet(user: string, now: int, projectId: string) returns (r: Result<Grant>)
    ensures r == Failure(NoServiceAccountKey)
  {
    var a := new Authority();
    var code := a.GenerateAuthCode(user, now);
    r := a.ExchangeAuthCode(code, Redirect.GoogleCallback(projectId), None, now);
  }

  /**
   * Presenting the next local token twice: both calls succeed, since the
   * first promotes it to the current token, and a different next token is
   * left waiting.
   */
  method PresentNextTokenTwice(a: Authority) returns (first: bool, second: bool)
    modifies a`localAuthCode, a`nextLocalAuthCode, a`persisted
    ensures first && second
    ensures a.localAuthCode == old(a.nextLocalAuthCode) && a.nextLocalAuthCode != old(a.nextLocalAuthCode)
  {
    var next := a.nextLocalAuthCode;
    first := a.IsValidLocalAccessToken(next);
    second := a.IsValidLocalAccessToken(next);
  }
}
