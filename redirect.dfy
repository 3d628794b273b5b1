/**
 * The token authority's check that a `redirect_uri` presented at the token
 * endpoint may receive the grant (`isValidRedirectUri` in lib/Auth.js): one
 * of the two Google account-linking callbacks for the configured project, or
 * any URI that starts with the bridge's own advertised URI once the first
 * `:<digits>` (a port) has been removed from both. Comparing with the
 * callbacks needs the project id of the service-account key, which is read
 * only once the own-URI test has failed.
 */
module Redirect {
  import opened Js

  const GoogleCallbackPrefix := "https://oauth-redirect.googleusercontent.com/r/"
  const SandboxCallbackPrefix := "https://oauth-redirect-sandbox.googleusercontent.com/r/"

  predicate IsDigit(c: char)
  {
    '0' <= c <= '9'
  }

  /** The regular expression `/:\d+/` has a match starting at index `i` of `s`. */
  predicate PortAt(s: string, i: int)
  {
    0 <= i && i + 1 < |s| && s[i] == ':' && IsDigit(s[i + 1])
  }

  predicate HasNoPort(s: string)
  {
    forall i :: 0 <= i < |s| ==> !PortAt(s, i)
  }

  /** The leftmost match of `/:\d+/` at or after index `from`, if any. */
  function FirstPort(s: string, from: nat): (r: Option<nat>)
    requires from <= |s|
    ensures r.Some? ==> from <= r.value && PortAt(s, r.value)
    ensures r.Some? ==> forall k :: from <= k < r.value ==> !PortAt(s, k)
    ensures r.None? ==> forall k :: from <= k < |s| ==> !PortAt(s, k)
    decreases |s| - from
  {
    if from == |s| then None
    else if PortAt(s, from) then Some(from)
    else FirstPort(s, from + 1)
  }

  /** Where a greedy `\d+` that starts at index `j` stops. */
  function DigitRunEnd(s: string, j: nat): (e: nat)
    requires j <= |s|
    ensures j <= e <= |s|
    ensures forall k :: j <= k < e ==> IsDigit(s[k])
    ensures e == |s| || !IsDigit(s[e])
    decreases |s| - j
  {
    if j < |s| && IsDigit(s[j]) then DigitRunEnd(s, j + 1) else j
  }

  /**
   * `s.replace(/:\d+/, '')`: the leftmost colon that is followed by a digit
   * is removed together with the whole run of digits after it; a string
   * without such a colon is returned unchanged.
   */
  function StripPort(s: string): (r: string)
    ensures HasNoPort(s) ==> r == s
    ensures forall i :: PortAt(s, i) && (forall k :: 0 <= k < i ==> !PortAt(s, k)) ==>
              r == s[..i] + s[DigitRunEnd(s, i + 1)..]
    ensures |r| <= |s|
  {
    match FirstPort(s, 0)
    case None => s
    case Some(i) =>
      assert forall j :: PortAt(s, j) && (forall k :: 0 <= k < j ==> !PortAt(s, k)) ==> j == i by {
        forall j | PortAt(s, j) && (forall k :: 0 <= k < j ==> !PortAt(s, k))
          ensures j == i
        {
          LeftmostPortUnique(s, i, j);
        }
      }
      s[..i] + s[DigitRunEnd(s, i + 1)..]
  }

  /** At most one index is the leftmost match. */
  lemma LeftmostPortUnique(s: string, i: int, j: int)
    requires PortAt(s, i) && forall k :: 0 <= k < i ==> !PortAt(s, k)
    requires PortAt(s, j) && forall k :: 0 <= k < j ==> !PortAt(s, k)
    ensures i == j
  {
  }

  function GoogleCallback(projectId: string): string
  {
    GoogleCallbackPrefix + projectId
  }

  function SandboxCallback(projectId: string): string
  {
    SandboxCallbackPrefix + projectId
  }

  /**
   * The bridge's own-URI escape hatch: an own URI is given (truthy) and,
   * once both have lost their first port, the redirect starts with it.
   */
  predicate ExtendsOwnUri(redirectUri: string, myUri: Option<string>)
    ensures myUri.Some? && HasNoPort(myUri.value) && HasNoPort(redirectUri) ==>
              (ExtendsOwnUri(redirectUri, myUri) <==> myUri.value != "" && myUri.value <= redirectUri)
  {
    NonEmpty(myUri) && StripPort(myUri.value) <= StripPort(redirectUri)
  }

  /**
   * `isValidRedirectUri(redirect_uri, my_uri)` of an authority whose
   * service-account key names `projectId`, or that has no key yet (`None`).
   * The result `None` is the TypeError `getProjectId` throws when no key has
   * been set: the escape hatch is tried first and needs no key, the two
   * Google callbacks are compared only after it has failed.
   */
  function IsValidRedirectUri(redirectUri: string, myUri: Option<string>, projectId: Option<string>): (ok: Option<bool>)
    ensures ExtendsOwnUri(redirectUri, myUri) ==> ok == Some(true)
    ensures !ExtendsOwnUri(redirectUri, myUri) && projectId.None? ==> ok == None
    ensures !ExtendsOwnUri(redirectUri, myUri) && projectId.Some? ==>
              ok == Some(redirectUri == GoogleCallback(projectId.value) || redirectUri == SandboxCallback(projectId.value))
    ensures projectId.Some? && (redirectUri == GoogleCallback(projectId.value) || redirectUri == SandboxCallback(projectId.value))
            ==> ok == Some(true)
  {
    if ExtendsOwnUri(redirectUri, myUri) then Some(true)
    else if projectId.None? then None
    else Some(redirectUri == GoogleCallback(projectId.value) || redirectUri == SandboxCallback(projectId.value))
  }

  /**
   * Removing the port: an origin without a port, then `:` and a run of
   * digits, then a rest that does not start with a digit, loses exactly the
   * `:` and the digits.
   */
  lemma StripPortRemovesPort(origin: string, port: string, rest: string)
    requires HasNoPort(origin)
    requires port != [] && forall k :: 0 <= k < |port| ==> IsDigit(port[k])
    requires rest == [] || !IsDigit(rest[0])
    ensures StripPort(origin + [':'] + port + rest) == origin + rest
  {
    var s := origin + [':'] + port + rest;
    var i := |origin|;
    assert PortAt(s, i) by { assert s[i + 1] == port[0]; }
    forall k | 0 <= k < i
      ensures !PortAt(s, k)
    {
      if k + 1 < i {
        assert s[k] == origin[k] && s[k + 1] == origin[k + 1];
        assert !PortAt(origin, k);
      } else {
        assert s[k + 1] == ':';
      }
    }
    var e := i + 1 + |port|;
    assert DigitRunEnd(s, i + 1) == e by {
      DigitRunEndAt(s, i + 1, e);
    }
    assert s[..i] == origin;
    assert s[e..] == rest;
  }

  /** The run of digits from `j` ends at `e` when `s[j..e]` are digits and `s[e]` is not. */
  lemma DigitRunEndAt(s: string, j: nat, e: nat)
    requires j <= e <= |s|
    requires forall k :: j <= k < e ==> IsDigit(s[k])
    requires e == |s| || !IsDigit(s[e])
    ensures DigitRunEnd(s, j) == e
  {
  }

  /**
   * The own-URI escape hatch ignores ports: with the bridge advertising
   * `origin:myPort`, a redirect to `origin:port/path` is accepted whatever
   * the two ports are.
   */
  lemma AcceptsOwnOriginOnAnyPort(origin: string, myPort: string, port: string, path: string, projectId: Option<string>)
    requires origin != [] && HasNoPort(origin)
    requires myPort != [] && forall k :: 0 <= k < |myPort| ==> IsDigit(myPort[k])
    requires port != [] && forall k :: 0 <= k < |port| ==> IsDigit(port[k])
    requires path == [] || !IsDigit(path[0])
    ensures IsValidRedirectUri(origin + [':'] + port + path, Some(origin + [':'] + myPort), projectId) == Some(true)
  {
    StripPortRemovesPort(origin, port, path);
    StripPortRemovesPort(origin, myPort, []);
    assert origin + [':'] + myPort + [] == origin + [':'] + myPort;
    assert origin + [] == origin;
  }

  /**
   * The escape hatch is a bare prefix test with no host boundary: an own URI
   * `https://home.example` also admits `https://home.example.attacker.test/`,
   * a different host, because the suffix is never inspected.
   */
  lemma AcceptsAnyExtensionOfOwnUri(ownUri: string, suffix: string, projectId: Option<string>)
    requires ownUri != [] && HasNoPort(ownUri + suffix)
    ensures IsValidRedirectUri(ownUri + suffix, Some(ownUri), projectId) == Some(true)
  {
    assert HasNoPort(ownUri) by {
      forall i | 0 <= i < |ownUri|
        ensures !PortAt(ownUri, i)
      {
        assert !PortAt(ownUri + suffix, i);
        if i + 1 < |ownUri| {
          assert ownUri[i] == (ownUri + suffix)[i] && ownUri[i + 1] == (ownUri + suffix)[i + 1];
        }
      }
    }
    assert StripPort(ownUri) == ownUri && StripPort(ownUri + suffix) == ownUri + suffix;
  }
}
