/**
 * The OAuth 2.0 authorization-code client with PKCE (RFC 7636, method
 * S256): the verifier/challenge pair, the authorization redirect with its
 * anti-CSRF `state` (section 10.12 of RFC 6749), and the callback's guard
 * chain followed by the token request (section 4.1.3 of RFC 6749).
 */
module OAuth {
  import opened Wrappers
  import opened Text
  import opened Errors
  import opened Dict
  import opened Base64
  import opened UrlLib
  import opened Http
  import opened Entropy
  import Discovery

  // ---------------------------------------------------------------------------
  // PKCE

  /** A SHA-256 digest: 32 bytes. */
  type Digest = d: seq<Byte> | |d| == 32 witness seq(32, i => 0)

  /** `hashlib.sha256(...).digest()`, left uninterpreted. */
  type Sha256 = seq<Byte> -> Digest

  /** The random bytes behind the verifier (`token_urlsafe(32)`) and the state (`token_urlsafe(16)`). */
  const VerifierBytes: nat := 32
  const StateBytes: nat := 16

  /** The `unreserved` characters section 4.1 of RFC 7636 allows in a code verifier. */
  predicate VerifierChar(c: char)
  {
    'A' <= c <= 'Z' || 'a' <= c <= 'z' || '0' <= c <= '9' || c == '-' || c == '.' || c == '_' || c == '~'
  }

  /** `ASCII(s)` of RFC 7636: one byte per character. */
  function Ascii(s: string): (bs: seq<Byte>)
    requires forall i :: 0 <= i < |s| ==> s[i] as int < 0x80
    ensures |bs| == |s| && forall i :: 0 <= i < |s| ==> bs[i] == s[i] as int
  {
    seq(|s|, i requires 0 <= i < |s| => s[i] as int)
  }

  /**
   * The S256 challenge: `urlsafe_b64encode(sha256(verifier.encode("utf-8")))`
   * with the `=` padding stripped. It is 43 characters of the URL-safe
   * alphabet, never contains `=`, and decodes back to the digest.
   */
  function Challenge(sha: Sha256, verifier: string): (c: string)
    ensures |c| == 43
    ensures IsUrlSafe(c) && '=' !in c
    ensures DecodeNoPad(c) == Some(sha(Utf8(verifier)))
  {
    var d := sha(Utf8(verifier));
    EncodeShape(d);
    DecodeEncodeNoPad(d);
    var c := EncodeNoPad(d);
    assert forall i :: 0 <= i < |c| ==> c[i] != '=' by {
      forall i | 0 <= i < |c| ensures c[i] != '=' { assert IsUrlSafeChar(c[i]); }
    }
    c
  }

  /** The challenge is the only text that decodes to the verifier's digest. */
  lemma ChallengeUnique(sha: Sha256, verifier: string, c: string)
    requires DecodeNoPad(c) == Some(sha(Utf8(verifier)))
    ensures c == Challenge(sha, verifier)
  {
    DecodeNoPadInjective(c, Challenge(sha, verifier));
  }

  datatype Pkce = Pkce(verifier: string, challenge: string)

  /**
   * `_generate_pkce_params()`, given the 32 random bytes it draws. The
   * verifier is 43 characters, inside the 43 to 128 that section 4.1 of
   * RFC 7636 allows, all of them `unreserved`, and carries every random
   * byte; the challenge is BASE64URL(SHA256(ASCII(verifier))) as section 4.2
   * defines S256.
   */
  function GeneratePkce(sha: Sha256, random: seq<Byte>): (p: Pkce)
    requires |random| == VerifierBytes
    ensures 43 <= |p.verifier| <= 128 && |p.verifier| == 43
    ensures forall i :: 0 <= i < |p.verifier| ==> VerifierChar(p.verifier[i]) && p.verifier[i] as int < 0x80
    ensures DecodeNoPad(p.verifier) == Some(random)
    ensures DecodeNoPad(p.challenge) == Some(sha(Ascii(p.verifier)))
    ensures p.challenge == Challenge(sha, p.verifier)
  {
    var v := TokenUrlSafe(random);
    DecodeEncodeNoPad(random);
    assert forall i :: 0 <= i < |v| ==> VerifierChar(v[i]) && v[i] as int < 0x80 by {
      forall i | 0 <= i < |v| ensures VerifierChar(v[i]) && v[i] as int < 0x80 { assert IsUrlSafeChar(v[i]); }
    }
    Utf8OfAscii(v);
    assert Utf8(v) == Ascii(v);
    Pkce(v, Challenge(sha, v))
  }

  /**
   * A verifier that decodes to the random bytes, with a challenge that
   * decodes to its digest, is the pair `GeneratePkce` returns: no other
   * pair meets those two conditions.
   */
  lemma PkceUnique(sha: Sha256, random: seq<Byte>, p: Pkce)
    requires |random| == VerifierBytes
    requires DecodeNoPad(p.verifier) == Some(random)
    requires DecodeNoPad(p.challenge) == Some(sha(Utf8(p.verifier)))
    ensures p == GeneratePkce(sha, random)
  {
    var q := GeneratePkce(sha, random);
    DecodeNoPadInjective(p.verifier, q.verifier);
    ChallengeUnique(sha, p.verifier, p.challenge);
  }

  // ---------------------------------------------------------------------------
  // The authorization redirect

  /** The parameters `_openid_authorize_redirect` always sends, in their order: the state, then the rest. */
  function DefaultAuthorizeParams(state: string, clientId: string, redirectUri: string, scope: string,
                                  challenge: string): Pairs
  {
    [("state", state)] + DefaultsAfterState(clientId, redirectUri, scope, challenge)
  }

  function DefaultsAfterState(clientId: string, redirectUri: string, scope: string, challenge: string): Pairs
  {
    [("client_id", clientId),
     ("response_type", "code"),
     ("redirect_uri", redirectUri),
     ("scope", scope),
     ("code_challenge", challenge),
     ("code_challenge_method", "S256")]
  }

  /** The defaults, then `authorize_params.update(extra_params)`. */
  function AuthorizeParams(state: string, clientId: string, redirectUri: string, scope: string,
                           challenge: string, extra: Pairs): Pairs
  {
    Update(DefaultAuthorizeParams(state, clientId, redirectUri, scope, challenge), extra)
  }

  /** `f"{authorize_url}?{urlencode(authorize_params)}"`. */
  function AuthorizeUrl(endpoint: string, params: Pairs): (u: string)
    ensures |u| > |endpoint| && u[..|endpoint|] == endpoint && u[|endpoint|] == '?'
    ensures DecodeForm(u[|endpoint| + 1..]) == Utf8Items(params)
  {
    DecodeUrlencode(params);
    var u := endpoint + "?" + Urlencode(params);
    assert u[|endpoint| + 1..] == Urlencode(params);
    u
  }

  /** What `_openid_authorize_redirect` returns. */
  datatype Redirect = Redirect(url: string, state: string, verifier: string)

  /** The random bytes a redirect draws: 16 for the state, then 32 for the verifier. */
  const RedirectBytes: nat := StateBytes + VerifierBytes

  /**
   * The redirect built from the discovery outcome and the random bytes
   * drawn for the state and the verifier: a missing `authorization_endpoint`
   * is a KeyError; otherwise the state is `token_urlsafe(16)` of the first
   * 16 bytes, the verifier comes from `GeneratePkce` of the other 32 and the
   * URL carries the parameters.
   */
  function AuthorizeOutcome(config: Result<Json, Error>, sha: Sha256, random: seq<Byte>,
                            clientId: string, redirectUri: string, scope: string, extra: Pairs): (r: Result<Redirect, Error>)
    requires |random| == RedirectBytes
    ensures config.Err? ==> r == Err(config.error)
    ensures config.Ok? && "authorization_endpoint" !in config.value ==> r == Err(KeyError("authorization_endpoint"))
    ensures r.Ok? <==> config.Ok? && "authorization_endpoint" in config.value
  {
    match config
    case Err(e) => Err(e)
    case Ok(c) =>
      if "authorization_endpoint" !in c then Err(KeyError("authorization_endpoint"))
      else
        var state := TokenUrlSafe(random[..StateBytes]);
        var pkce := GeneratePkce(sha, random[StateBytes..]);
        var params := AuthorizeParams(state, clientId, redirectUri, scope, pkce.challenge, extra);
        Ok(Redirect(AuthorizeUrl(c["authorization_endpoint"], params), state, pkce.verifier))
  }

  /**
   * A successful redirect: the state is 22 URL-safe characters that decode
   * to the first 16 random bytes, the verifier is the one `GeneratePkce`
   * makes of the other 32, and the URL is the authorization endpoint with
   * the parameters built from the state and the verifier's challenge.
   */
  lemma AuthorizeOutcomeOk(config: Result<Json, Error>, sha: Sha256, random: seq<Byte>,
                           clientId: string, redirectUri: string, scope: string, extra: Pairs)
    requires |random| == RedirectBytes
    requires AuthorizeOutcome(config, sha, random, clientId, redirectUri, scope, extra).Ok?
    ensures var r := AuthorizeOutcome(config, sha, random, clientId, redirectUri, scope, extra).value;
      && |r.state| == 22 && IsUrlSafe(r.state) && DecodeNoPad(r.state) == Some(random[..StateBytes])
      && r.verifier == GeneratePkce(sha, random[StateBytes..]).verifier
      && r.url == AuthorizeUrl(config.value["authorization_endpoint"],
                               AuthorizeParams(r.state, clientId, redirectUri, scope, Challenge(sha, r.verifier), extra))
  {
    DecodeEncodeNoPad(random[..StateBytes]);
  }

  /** The six names after `state` have six different lengths. */
  lemma RestKeyLengths(clientId: string, redirectUri: string, scope: string, challenge: string)
    ensures var d := DefaultsAfterState(clientId, redirectUri, scope, challenge);
      forall i :: 0 <= i < 6 ==> |d[i].0| == [9, 13, 12, 5, 14, 21][i]
  {
    var d := DefaultsAfterState(clientId, redirectUri, scope, challenge);
    forall i | 0 <= i < 6 ensures |d[i].0| == [9, 13, 12, 5, 14, 21][i] {
      assert i == 0 || i == 1 || i == 2 || i == 3 || i == 4 || i == 5;
    }
  }

  /** The seven default names are distinct: the defaults form a dict. */
  lemma DefaultsUnique(state: string, clientId: string, redirectUri: string, scope: string, challenge: string)
    ensures UniqueKeys(DefaultAuthorizeParams(state, clientId, redirectUri, scope, challenge))
  {
    var rest := DefaultsAfterState(clientId, redirectUri, scope, challenge);
    RestKeyLengths(clientId, redirectUri, scope, challenge);
    DistinctLengths(rest);
    assert "state" !in Keys(rest) by {
      assert "state" != rest[3].0 by { assert "state"[1] != rest[3].0[1]; }
    }
    UniqueCons(("state", state), rest);
  }

  /** Each of the six names after `state` finds the value at its own position. */
  lemma RestAt(clientId: string, redirectUri: string, scope: string, challenge: string, n: nat)
    requires n < 6
    ensures var d := DefaultsAfterState(clientId, redirectUri, scope, challenge);
      Lookup(d, d[n].0) == Some(d[n].1)
  {
    RestKeyLengths(clientId, redirectUri, scope, challenge);
    LookupAt(DefaultsAfterState(clientId, redirectUri, scope, challenge), n);
  }

  /** The first three names after `state` have the values the source gives them. */
  lemma RestValuesFront(clientId: string, redirectUri: string, scope: string, challenge: string)
    ensures var d := DefaultsAfterState(clientId, redirectUri, scope, challenge);
      && Lookup(d, "client_id") == Some(clientId)
      && Lookup(d, "response_type") == Some("code")
      && Lookup(d, "redirect_uri") == Some(redirectUri)
  {
    RestAt(clientId, redirectUri, scope, challenge, 1);
    RestAt(clientId, redirectUri, scope, challenge, 2);
  }

  /** The last three names have the values the source gives them: the challenge goes with method S256. */
  lemma RestValuesBack(clientId: string, redirectUri: string, scope: string, challenge: string)
    ensures var d := DefaultsAfterState(clientId, redirectUri, scope, challenge);
      && Lookup(d, "scope") == Some(scope)
      && Lookup(d, "code_challenge") == Some(challenge)
      && Lookup(d, "code_challenge_method") == Some("S256")
  {
    RestAt(clientId, redirectUri, scope, challenge, 3);
    RestAt(clientId, redirectUri, scope, challenge, 4);
    RestAt(clientId, redirectUri, scope, challenge, 5);
  }

  /** The default values, as the names say. */
  lemma DefaultValues(state: string, clientId: string, redirectUri: string, scope: string, challenge: string, k: string)
    ensures var d := DefaultAuthorizeParams(state, clientId, redirectUri, scope, challenge);
      Lookup(d, k) == if k == "state" then Some(state) else Lookup(DefaultsAfterState(clientId, redirectUri, scope, challenge), k)
  {
    var d := DefaultAuthorizeParams(state, clientId, redirectUri, scope, challenge);
    assert d[1..] == DefaultsAfterState(clientId, redirectUri, scope, challenge);
  }

  /**
   * The authorization parameters: the seven defaults keep their order, keys
   * of `extra` that are already there take `extra`'s value in place, new
   * keys follow in `extra`'s order, and the result is a dict.
   */
  lemma AuthorizeParamsShape(state: string, clientId: string, redirectUri: string, scope: string,
                             challenge: string, extra: Pairs, k: string)
    requires UniqueKeys(extra)
    ensures var p := AuthorizeParams(state, clientId, redirectUri, scope, challenge, extra);
      && UniqueKeys(p)
      && |p| >= 7 && Keys(p)[..7] == ["state", "client_id", "response_type", "redirect_uri", "scope", "code_challenge", "code_challenge_method"]
      && Lookup(p, k) == if k in Keys(extra) then Lookup(extra, k)
                         else Lookup(DefaultAuthorizeParams(state, clientId, redirectUri, scope, challenge), k)
  {
    var d := DefaultAuthorizeParams(state, clientId, redirectUri, scope, challenge);
    DefaultsUnique(state, clientId, redirectUri, scope, challenge);
    UpdateUnique(d, extra);
    UpdateKeys(d, extra);
    UpdateLookup(d, extra, k);
  }

  /**
   * Unless `extra` overrides them, the URL's query carries the state that is
   * returned (the one the caller stores for the callback) and the challenge
   * of the verifier that is returned, with method S256.
   */
  lemma RedirectBindsStateAndChallenge(config: Result<Json, Error>, sha: Sha256, random: seq<Byte>,
                                       clientId: string, redirectUri: string, scope: string, extra: Pairs)
    requires |random| == RedirectBytes
    requires UniqueKeys(extra)
    requires "state" !in Keys(extra) && "code_challenge" !in Keys(extra) && "code_challenge_method" !in Keys(extra)
    requires AuthorizeOutcome(config, sha, random, clientId, redirectUri, scope, extra).Ok?
    ensures var r := AuthorizeOutcome(config, sha, random, clientId, redirectUri, scope, extra).value;
      var p := AuthorizeParams(r.state, clientId, redirectUri, scope, Challenge(sha, r.verifier), extra);
      && Lookup(p, "state") == Some(r.state)
      && Lookup(p, "code_challenge") == Some(Challenge(sha, r.verifier))
      && Lookup(p, "code_challenge_method") == Some("S256")
  {
    var r := AuthorizeOutcome(config, sha, random, clientId, redirectUri, scope, extra).value;
    var c := Challenge(sha, r.verifier);
    DefaultValues(r.state, clientId, redirectUri, scope, c, "state");
    DefaultValues(r.state, clientId, redirectUri, scope, c, "code_challenge");
    DefaultValues(r.state, clientId, redirectUri, scope, c, "code_challenge_method");
    RestValuesBack(clientId, redirectUri, scope, c);
    AuthorizeParamsShape(r.state, clientId, redirectUri, scope, c, extra, "state");
    AuthorizeParamsShape(r.state, clientId, redirectUri, scope, c, extra, "code_challenge");
    AuthorizeParamsShape(r.state, clientId, redirectUri, scope, c, extra, "code_challenge_method");
  }

  /**
   * `await _openid_authorize_redirect(base, client_id, redirect_uri, scope,
   * extra_params)`: draw the state, look up the configuration, draw the
   * verifier, build the URL. The draws, the lookup and the outcome are those
   * of `AuthorizeOutcome`; no bytes are drawn for the verifier when the
   * lookup fails.
   */
  method AuthorizeRedirect(cache: Discovery.Cache, net: Network, rng: Source, sha: Sha256, base: string, clientId: string,
                           redirectUri: string, scope: string, extra: Pairs) returns (r: Result<Redirect, Error>)
    requires cache.Valid()
    modifies cache, net, rng
    ensures cache.Valid()
    ensures cache.entries == Discovery.CacheAfter(old(cache.entries), net.get, base)
    ensures net.sent == old(net.sent) + Discovery.Requests(old(cache.entries), net.get, base)
    ensures r == AuthorizeOutcome(Discovery.Outcome(old(cache.entries), net.get, base), sha,
                                  rng.Peek(old(rng.drawn), RedirectBytes), clientId, redirectUri, scope, extra)
    ensures rng.drawn == old(rng.drawn) + StateBytes + (if r.Ok? then VerifierBytes else 0)
  {
    ghost var from := rng.drawn;
    var stateRandom := rng.TokenBytes(StateBytes);
    ghost var next := rng.drawn;
    var state := TokenUrlSafe(stateRandom);
    var config := cache.Resolve(net, base);
    if config.Err? {
      return Err(config.error);
    }
    if "authorization_endpoint" !in config.value {
      return Err(KeyError("authorization_endpoint"));
    }
    var authorizeUrl := config.value["authorization_endpoint"];
    var verifierRandom := rng.TokenBytes(VerifierBytes);
    var pkce := GeneratePkce(sha, verifierRandom);
    var params := AuthorizeParams(state, clientId, redirectUri, scope, pkce.challenge, extra);
    r := Ok(Redirect(AuthorizeUrl(authorizeUrl, params), state, pkce.verifier));
    ghost var random := rng.Peek(from, RedirectBytes);
    assert random[..StateBytes] == stateRandom && random[StateBytes..] == verifierRandom by {
      rng.PeekSplit(from, StateBytes, VerifierBytes, next);
    }
  }

  // ---------------------------------------------------------------------------
  // The callback

  /**
   * The guard chain of `_openid_token_callback`, first failure wins: an
   * `error` from the provider is a 500 carrying its description; then a
   * missing code, a missing state and a state other than the stored one are
   * each a 400. The request passes exactly when none of these hold.
   */
  function CheckCallback(code: string, error: string, errorDescription: string, state: string, checkState: string): (r: Option<Error>)
    ensures r.None? <==> error == "" && code != "" && state != "" && state == checkState
    ensures error != "" ==> r == Some(HttpError(500, errorDescription))
    ensures r.Some? ==> StatusOf(r.value) == (if error != "" then 500 else 400)
  {
    if error != "" then Some(HttpError(500, errorDescription))
    else if code == "" then Some(HttpError(400, "Missing code= parameter"))
    else if state == "" then Some(HttpError(400, "OAuth state missing"))
    else if state != checkState then Some(HttpError(400, "OAuth state doesn't match"))
    else None
  }

  /**
   * The CSRF defence: a callback whose state differs from the stored one is
   * refused whatever its code, and once the stored state has been cleared to
   * "" no callback passes, so a replayed callback fails.
   */
  lemma CallbackNeedsStoredState(code: string, error: string, errorDescription: string, state: string, checkState: string)
    ensures state != checkState ==> CheckCallback(code, error, errorDescription, state, checkState).Some?
    ensures CheckCallback(code, error, errorDescription, state, "").Some?
  {
  }

  /** The token request's form: the four fields, then `params.update(extra_params)`. */
  function TokenForm(code: string, clientId: string, verifier: string, extra: Pairs): Pairs
  {
    Update([("code", code), ("grant_type", "authorization_code"), ("client_id", clientId), ("code_verifier", verifier)], extra)
  }

  /**
   * The token form carries the code, the client id, the verifier and the
   * `authorization_code` grant type, except where `extra` overrides them.
   */
  lemma TokenFormFields(code: string, clientId: string, verifier: string, extra: Pairs, k: string)
    requires UniqueKeys(extra)
    ensures UniqueKeys(TokenForm(code, clientId, verifier, extra))
    ensures k !in Keys(extra) && k in {"code", "grant_type", "client_id", "code_verifier"} ==>
      Lookup(TokenForm(code, clientId, verifier, extra), k) ==
        Some(if k == "code" then code else if k == "grant_type" then "authorization_code"
             else if k == "client_id" then clientId else verifier)
    ensures k in Keys(extra) ==> Lookup(TokenForm(code, clientId, verifier, extra), k) == Lookup(extra, k)
  {
    var d := [("code", code), ("grant_type", "authorization_code"), ("client_id", clientId), ("code_verifier", verifier)];
    forall i | 0 <= i < 4 ensures |d[i].0| == [4, 10, 9, 13][i] {
      assert i == 0 || i == 1 || i == 2 || i == 3;
    }
    DistinctLengths(d);
    UpdateUnique(d, extra);
    UpdateLookup(d, extra, k);
    if k == "grant_type" { LookupAt(d, 1); }
    if k == "client_id" { LookupAt(d, 2); }
    if k == "code_verifier" { LookupAt(d, 3); }
  }

  /**
   * The token response: a status of 400 or more has its body parsed (the
   * debug print) and then raises; otherwise the parsed body is returned.
   */
  function TokenResult(f: Fetch): (r: Result<Json, Error>)
    ensures f.Failed? ==> r == Err(ConnectError(f.reason))
    ensures r.Ok? <==> f.Reply? && f.status < 400 && f.body.Some?
    ensures r.Ok? ==> r.value == f.body.value
  {
    match f
    case Failed(reason) => Err(ConnectError(reason))
    case Reply(status, body) =>
      if status >= 400 && body.None? then Err(JsonError)
      else if status >= 400 then Err(StatusError(status))
      else if body.None? then Err(JsonError)
      else Ok(body.value)
  }

  /** The outcome of a callback and the token POST it sent, if any. */
  datatype Exchange = Exchange(result: Result<Json, Error>, posts: seq<Outbound>)

  /**
   * `_openid_token_callback` after its configuration lookup: a failed lookup
   * or a missing `token_endpoint` fails first, then the guard chain; only a
   * request that passes every guard is posted to the token endpoint.
   */
  function CallbackOutcome(config: Result<Json, Error>, post: (string, Pairs) -> Fetch, clientId: string, code: string,
                           error: string, errorDescription: string, state: string, checkState: string,
                           verifier: string, extra: Pairs): (x: Exchange)
    ensures x.posts != [] <==> config.Ok? && "token_endpoint" in config.value
                               && CheckCallback(code, error, errorDescription, state, checkState).None?
    ensures x.posts != [] ==>
      x.posts == [PostRequest(config.value["token_endpoint"], TokenForm(code, clientId, verifier, extra))]
      && x.result == TokenResult(post(config.value["token_endpoint"], TokenForm(code, clientId, verifier, extra)))
    ensures config.Err? ==> x.result == Err(config.error)
    ensures config.Ok? && "token_endpoint" !in config.value ==> x.result == Err(KeyError("token_endpoint"))
    ensures config.Ok? && "token_endpoint" in config.value && CheckCallback(code, error, errorDescription, state, checkState).Some?
      ==> x.result == Err(CheckCallback(code, error, errorDescription, state, checkState).value)
  {
    match config
    case Err(e) => Exchange(Err(e), [])
    case Ok(c) =>
      if "token_endpoint" !in c then Exchange(Err(KeyError("token_endpoint")), [])
      else match CheckCallback(code, error, errorDescription, state, checkState)
        case Some(e) => Exchange(Err(e), [])
        case None =>
          var form := TokenForm(code, clientId, verifier, extra);
          Exchange(TokenResult(post(c["token_endpoint"], form)), [PostRequest(c["token_endpoint"], form)])
  }

  /**
   * `await _openid_token_callback(base, client_id, code, error,
   * error_description, state, check_state, code_verifier, extra_params)`.
   */
  method TokenCallback(cache: Discovery.Cache, net: Network, base: string, clientId: string, code: string, error: string,
                       errorDescription: string, state: string, checkState: string, verifier: string, extra: Pairs)
    returns (r: Result<Json, Error>)
    requires cache.Valid()
    modifies cache, net
    ensures cache.Valid()
    ensures cache.entries == Discovery.CacheAfter(old(cache.entries), net.get, base)
    ensures var x := CallbackOutcome(Discovery.Outcome(old(cache.entries), net.get, base), net.post, clientId, code, error,
                                     errorDescription, state, checkState, verifier, extra);
      r == x.result && net.sent == old(net.sent) + Discovery.Requests(old(cache.entries), net.get, base) + x.posts
  {
    var config := cache.Resolve(net, base);
    if config.Err? {
      return Err(config.error);
    }
    if "token_endpoint" !in config.value {
      return Err(KeyError("token_endpoint"));
    }
    var tokenUrl := config.value["token_endpoint"];
    var guard := CheckCallback(code, error, errorDescription, state, checkState);
    if guard.Some? {
      return Err(guard.value);
    }
    var params := TokenForm(code, clientId, verifier, extra);
    var f := net.Post(tokenUrl, params);
    r := TokenResult(f);
  }

  /**
   * PKCE binds the two legs: when the verifier returned by the redirect is
   * the one the callback posts, the token request's `code_verifier` is a
   * value whose S256 challenge is the `code_challenge` the authorization
   * URL carried (unless `extra` overrides either).
   */
  lemma VerifierMatchesChallenge(config: Result<Json, Error>, sha: Sha256, random: seq<Byte>,
                                 clientId: string, redirectUri: string, scope: string,
                                 extra: Pairs, code: string, tokenExtra: Pairs)
    requires |random| == RedirectBytes
    requires UniqueKeys(extra) && UniqueKeys(tokenExtra)
    requires "state" !in Keys(extra) && "code_challenge" !in Keys(extra) && "code_challenge_method" !in Keys(extra)
    requires "code_verifier" !in Keys(tokenExtra)
    requires AuthorizeOutcome(config, sha, random, clientId, redirectUri, scope, extra).Ok?
    ensures var r := AuthorizeOutcome(config, sha, random, clientId, redirectUri, scope, extra).value;
      var sent := AuthorizeParams(r.state, clientId, redirectUri, scope, Challenge(sha, r.verifier), extra);
      && Lookup(TokenForm(code, clientId, r.verifier, tokenExtra), "code_verifier") == Some(r.verifier)
      && Lookup(sent, "code_challenge") == Some(Challenge(sha, r.verifier))
      && Lookup(sent, "code_challenge_method") == Some("S256")
      && DecodeNoPad(Challenge(sha, r.verifier)) == Some(sha(Ascii(r.verifier)))
  {
    var r := AuthorizeOutcome(config, sha, random, clientId, redirectUri, scope, extra).value;
    RedirectBindsStateAndChallenge(config, sha, random, clientId, redirectUri, scope, extra);
    TokenFormFields(code, clientId, r.verifier, tokenExtra, "code_verifier");
    AuthorizeOutcomeOk(config, sha, random, clientId, redirectUri, scope, extra);
  }
}
