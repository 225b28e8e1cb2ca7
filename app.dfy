/**
 * The web application's login flows: the SMART-on-FHIR EHR launch and its
 * callback (which also trades the FHIR token for a JupyterHealth Exchange
 * token), the JupyterHealth Exchange login and its callback, logout, and
 * the formatting of a FHIR resource's name.
 *
 * A handler's `Ok` value is the location of the redirect it answers with.
 */
module App {
  import opened Wrappers
  import opened Text
  import opened Errors
  import opened Dict
  import opened Http
  import opened Entropy
  import opened Settings
  import opened Jhe
  import opened Session
  import opened OAuth
  import Discovery

  // ---------------------------------------------------------------------------
  // Names

  /**
   * A FHIR `HumanName` object. The `given` list is shared with the resource
   * it was read from, so appending to it changes the resource.
   */
  class FhirName {
    var given: Option<seq<string>>
    const family: Option<string>
    const prefix: Option<seq<string>>
    /** Whether the object has keys the formatter does not read (`use`, `text`, ...). */
    const otherKeys: bool

    constructor(given: Option<seq<string>>, family: Option<string>, prefix: Option<seq<string>>, otherKeys: bool)
      ensures this.given == given && this.family == family && this.prefix == prefix && this.otherKeys == otherKeys
    {
      this.given := given;
      this.family := family;
      this.prefix := prefix;
      this.otherKeys := otherKeys;
    }

    /** An empty dict, which Python treats as false. */
    predicate IsEmpty()
      reads this
    {
      given.None? && family.None? && prefix.None? && !otherKeys
    }
  }

  /** A resource's `name` entry: absent (or null), a list of names, or a single name. */
  datatype NameField = Missing | NameList(names: seq<FhirName>) | NameObject(name: FhirName)

  /** The name object `_human_name` formats, if the entry is a non-empty list or an object. */
  function Chosen(n: NameField): (c: Option<FhirName>)
    ensures n.NameList? && n.names != [] ==> c == Some(n.names[0])
    ensures n.NameObject? ==> c == Some(n.name)
    ensures c.None? <==> n.Missing? || (n.NameList? && n.names == [])
  {
    match n
    case Missing => None
    case NameList(ns) => if ns == [] then None else Some(ns[0])
    case NameObject(o) => Some(o)
  }

  /** The objects `_human_name` may change: the chosen name, whose `given` list it extends. */
  function NameTarget(n: NameField): set<FhirName>
  {
    if Chosen(n).Some? then {Chosen(n).value} else {}
  }

  /** Python truthiness of the entry: `not name` holds for a missing entry, an empty list and an empty dict. */
  predicate NameIsFalsy(n: NameField)
    reads NameTarget(n)
  {
    n.Missing? || (n.NameList? && n.names == []) || (n.NameObject? && n.name.IsEmpty())
  }

  /** The words of a name in the order they are joined: prefixes, given names, then the family name if non-empty. */
  function NameWords(given: seq<string>, family: Option<string>, prefix: Option<seq<string>>): seq<string>
  {
    var fields := given + (if family.Some? && family.value != "" then [family.value] else []);
    if prefix.Some? && prefix.value != [] then prefix.value + fields else fields
  }

  /**
   * `" ".join(fields).strip() or "Unknown"`: the joined words without
   * surrounding whitespace, or "Unknown" when nothing is left. The result
   * is never empty and never starts or ends with whitespace.
   */
  function FormatName(given: seq<string>, family: Option<string>, prefix: Option<seq<string>>): (r: string)
    ensures r != [] && !IsSpace(r[0]) && !IsSpace(r[|r| - 1])
    ensures Strip(Join(" ", NameWords(given, family, prefix))) == [] ==> r == "Unknown"
    ensures Strip(Join(" ", NameWords(given, family, prefix))) != [] ==> r == Strip(Join(" ", NameWords(given, family, prefix)))
  {
    var s := Strip(Join(" ", NameWords(given, family, prefix)));
    if s == [] then "Unknown" else s
  }

  /** A word that has characters and no whitespace at either end. */
  predicate Word(w: string)
  {
    w != [] && !IsSpace(w[0]) && !IsSpace(w[|w| - 1])
  }

  /** Joining words with spaces leaves no whitespace at either end. */
  lemma {:induction false} JoinWords(ws: seq<string>)
    requires ws != []
    requires forall i :: 0 <= i < |ws| ==> Word(ws[i])
    ensures Word(Join(" ", ws))
    ensures Join(" ", ws)[0] == ws[0][0]
    decreases |ws|
  {
    if |ws| > 1 {
      JoinWords(ws[1..]);
      var j := Join(" ", ws[1..]);
      assert Join(" ", ws) == ws[0] + " " + j;
      assert Join(" ", ws)[|Join(" ", ws)| - 1] == j[|j| - 1];
    }
  }

  /** `strip()` leaves a word as it is. */
  lemma StripWord(s: string)
    requires Word(s)
    ensures Strip(s) == s
  {
    assert LStripSpace(s) == s;
    assert RStripSpace(s) == s;
  }

  /**
   * When every part is a proper word, the formatted name is the prefixes,
   * the given names and the family name, in that order, separated by single
   * spaces.
   */
  lemma FormatWords(given: seq<string>, family: string, prefix: seq<string>)
    requires forall i :: 0 <= i < |given| ==> Word(given[i])
    requires forall i :: 0 <= i < |prefix| ==> Word(prefix[i])
    requires Word(family)
    ensures FormatName(given, Some(family), Some(prefix)) == Join(" ", prefix + given + [family])
  {
    var ws := prefix + given + [family];
    assert NameWords(given, Some(family), Some(prefix)) == ws by {
      if prefix == [] { assert ws == given + [family]; }
    }
    assert forall i :: 0 <= i < |ws| ==> Word(ws[i]) by {
      forall i | 0 <= i < |ws| ensures Word(ws[i]) {
        if i < |prefix| { assert ws[i] == prefix[i]; }
        else if i < |prefix| + |given| { assert ws[i] == given[i - |prefix|]; }
      }
    }
    JoinWords(ws);
    StripWord(Join(" ", ws));
  }

  /**
   * `_human_name(resource)` given the resource's `name` entry: "unknown" for
   * a falsy entry; otherwise the first (or only) name is formatted by
   * `FormatName` with a missing `given` read as [], and, when that name has
   * a `given` list and a non-empty family name, the family name is appended
   * to that list in place.
   */
  method HumanName(n: NameField) returns (r: string)
    modifies NameTarget(n)
    ensures old(NameIsFalsy(n)) ==> r == "unknown" && unchanged(NameTarget(n))
    ensures !old(NameIsFalsy(n)) ==>
      var o := Chosen(n).value;
      && r == FormatName(if old(o.given).Some? then old(o.given).value else [], o.family, o.prefix)
      && o.given == (if old(o.given).Some? && o.family.Some? && o.family.value != ""
                     then Some(old(o.given).value + [o.family.value]) else old(o.given))
  {
    if NameIsFalsy(n) {
      return "unknown";
    }
    var o := Chosen(n).value;
    ghost var given := if o.given.Some? then o.given.value else [];
    var fields: seq<string>;
    if o.given.Some? {
      fields := o.given.value;
    } else {
      fields := [];
    }
    if o.family.Some? && o.family.value != "" {
      fields := fields + [o.family.value];
      if o.given.Some? {
        o.given := Some(fields);
      }
    }
    if o.prefix.Some? && o.prefix.value != [] {
      fields := o.prefix.value + fields;
    }
    assert fields == NameWords(given, o.family, o.prefix);
    var s := Strip(Join(" ", fields));
    r := if s == [] then "Unknown" else s;
    assert r == FormatName(given, o.family, o.prefix);
  }

  // ---------------------------------------------------------------------------
  // The SMART-on-FHIR launch

  /** `extra_params` of the launch: the EHR's launch id and the audience, the FHIR server. */
  function LaunchParams(launch: string, aud: string): Pairs
  {
    [("launch", launch), ("aud", aud)]
  }

  /** The session `get_session(request)` finds, as the one object a callback may change. */
  function SessionTarget(sessions: map<string, SessionState>, query: map<string, string>, headers: map<string, string>,
                         cookie: map<string, string>): set<SessionState>
  {
    var cur := CurrentId(query, headers, cookie);
    if cur.Ok? && Find(sessions, cur.value).Some? then {Find(sessions, cur.value).value} else {}
  }

  /**
   * The session a launch leaves behind: it remembers the FHIR server and
   * holds the new OAuth client, no tokens yet, and the state and verifier
   * of the redirect when there is one (none pending when it failed); no
   * FHIR context and no JHE login pending.
   */
  ghost predicate Launched(s: SessionState, config: Config, api: string, out: Result<Redirect, Error>)
    reads s
  {
    && s.fhirApi == api
    && s.fhirOauthSession == Some(NewOAuthClient(config))
    && s.fhirToken == "" && s.jheToken == "" && s.fhirContext == map[]
    && s.jheOauthState == "" && s.jheCodeVerifier == ""
    && (out.Ok? ==> s.fhirOauthState == out.value.state && s.fhirCodeVerifier == out.value.verifier)
    && (out.Err? ==> s.fhirOauthState == "" && s.fhirCodeVerifier == "")
  }

  /** The handler's answer for a redirect outcome: the authorization URL, or the error. */
  function Answer(out: Result<Redirect, Error>): (r: Result<string, Error>)
    ensures r.Ok? <==> out.Ok?
    ensures out.Ok? ==> r.value == out.value.url
    ensures out.Err? ==> r.error == out.error
  {
    if out.Ok? then Ok(out.value.url) else Err(out.error)
  }

  /**
   * The part of `launch` after the session is made: the session remembers
   * the FHIR server `iss` without trailing slashes, the authorization
   * redirect runs against `iss` with the FHIR client, the FHIR redirect URI,
   * the launch scope and `LaunchParams`, and its state and verifier are
   * stored in the session.
   */
  method StartLaunch(s: SessionState, cache: Discovery.Cache, net: Network, rng: Source, sha: Sha256, config: Config,
                     iss: string, api: string, extra: Pairs, ghost entries: Discovery.Entries, ghost at: nat)
    returns (r: Result<string, Error>)
    requires cache.Valid() && s.IsNew(config)
    requires cache.entries == entries && rng.drawn == at
    modifies s, cache, net, rng
    ensures cache.Valid()
    ensures cache.entries == Discovery.CacheAfter(entries, net.get, iss)
    ensures net.sent == old(net.sent) + Discovery.Requests(entries, net.get, iss)
    ensures var out := AuthorizeOutcome(Discovery.Outcome(entries, net.get, iss), sha, rng.Peek(at, RedirectBytes),
                                        config.fhirClientId, FhirRedirectUri(config), FhirScope, extra);
      && r == Answer(out) && Launched(s, config, api, out)
      && rng.drawn == at + StateBytes + (if out.Ok? then VerifierBytes else 0)
  {
    s.fhirApi := api;
    var redirect := AuthorizeRedirect(cache, net, rng, sha, iss, config.fhirClientId, FhirRedirectUri(config),
                                      FhirScope, extra);
    if redirect.Err? {
      return Err(redirect.error);
    }
    s.AwaitFhir(redirect.value.state, redirect.value.verifier);
    r := Ok(redirect.value.url);
  }

  /**
   * `GET /launch?iss=...&launch=...`: a new session (`NewSession`, that is `get_session` with
   * `make_new`), then `StartLaunch` on it, whose random bytes follow the
   * session id's; the browser is sent to the authorization URL.
   */
  method Launch(store: SessionStore, cache: Discovery.Cache, net: Network, rng: Source, sha: Sha256, config: Config,
                req: Request, iss: string, launch: string) returns (r: Result<string, Error>)
    requires cache.Valid()
    modifies store, cache, net, rng, req
    ensures cache.Valid()
    ensures var cur := CurrentId(req.query, req.headers, old(req.cookie));
      cur.Err? ==> r == Err(cur.error) && store.sessions == old(store.sessions) && req.cookie == old(req.cookie)
                   && net.sent == old(net.sent) && rng.drawn == old(rng.drawn)
    ensures var cur := CurrentId(req.query, req.headers, old(req.cookie));
      cur.Ok? ==>
        var id := NewId(cur.value, rng.Peek(old(rng.drawn), SessionIdBytes));
        var out := AuthorizeOutcome(Discovery.Outcome(old(cache.entries), net.get, iss), sha,
                                    rng.Peek(old(rng.drawn) + IdDraw(cur.value), RedirectBytes),
                                    config.fhirClientId, FhirRedirectUri(config), FhirScope,
                                    LaunchParams(launch, RStrip(iss, '/')));
        && req.cookie == CookieAfterNew(old(req.cookie), id)
        && id in store.sessions && fresh(store.sessions[id])
        && store.sessions == old(store.sessions)[id := store.sessions[id]]
        && cache.entries == Discovery.CacheAfter(old(cache.entries), net.get, iss)
        && net.sent == old(net.sent) + Discovery.Requests(old(cache.entries), net.get, iss)
        && r == Answer(out)
        && Launched(store.sessions[id], config, RStrip(iss, '/'), out)
        && rng.drawn == old(rng.drawn) + IdDraw(cur.value) + StateBytes + (if out.Ok? then VerifierBytes else 0)
  {
    var got := store.NewSession(req, rng, config);
    if got.Err? {
      return Err(got.error);
    }
    r := StartLaunch(got.value, cache, net, rng, sha, config, iss, RStrip(iss, '/'), LaunchParams(launch, RStrip(iss, '/')),
                    old(cache.entries), old(rng.drawn) + IdDraw(CurrentId(req.query, req.headers, old(req.cookie)).value));
  }

  /** `extra_params` of the FHIR token request: the redirect URI and the returned state. */
  function FhirTokenParams(config: Config, state: string): Pairs
  {
    [("redirect_uri", FhirRedirectUri(config)), ("state", state)]
  }

  /** What the FHIR callback sets after the token request, and the POST it sends. */
  datatype FhirCompletion = FhirCompletion(
    result: Result<string, Error>,
    context: Option<Json>,
    fhirToken: Option<string>,
    jheToken: Option<string>,
    posts: seq<Outbound>)

  /**
   * The rest of `fhir_callback` once the token request is answered: the
   * response becomes the FHIR context, its `access_token` the FHIR token,
   * and that token is exchanged at the JHE (with `localhost` in the issuer
   * rewritten to `fhirproxy`) for the JHE token. The flow succeeds exactly
   * when every step does and the JHE token is non-empty; an empty one makes
   * `get_jhe()` return None, whose `get_user` is then an AttributeError.
   */
  function CompleteFhir(tokens: Result<Json, Error>, post: (string, Pairs) -> Fetch, jheUrl: string, fhirApi: string): (c: FhirCompletion)
    ensures tokens.Err? ==> c == FhirCompletion(Err(tokens.error), None, None, None, [])
    ensures tokens.Ok? ==> c.context == Some(tokens.value)
    ensures c.fhirToken.Some? <==> tokens.Ok? && "access_token" in tokens.value
    ensures c.fhirToken.Some? ==>
      && c.fhirToken.value == tokens.value["access_token"]
      && c.posts == [PostRequest(ExchangeUrl(jheUrl),
                                 ExchangeForm(jheUrl, c.fhirToken.value, ReplaceAll(fhirApi, "localhost", "fhirproxy")))]
      && (c.jheToken.Some? <==> ExchangeResult(post(c.posts[0].url, c.posts[0].form)).Ok?)
    ensures c.jheToken.Some? ==> c.fhirToken.Some? && c.jheToken.value == ExchangeResult(post(c.posts[0].url, c.posts[0].form)).value
    ensures c.result.Ok? <==> c.jheToken.Some? && c.jheToken.value != ""
    ensures c.result.Ok? ==> c.result.value == "/"
  {
    match tokens
    case Err(e) => FhirCompletion(Err(e), None, None, None, [])
    case Ok(t) =>
      if "access_token" !in t then FhirCompletion(Err(KeyError("access_token")), Some(t), None, None, [])
      else
        var token := t["access_token"];
        var iss := ReplaceAll(fhirApi, "localhost", "fhirproxy");
        var request := PostRequest(ExchangeUrl(jheUrl), ExchangeForm(jheUrl, token, iss));
        match ExchangeResult(post(request.url, request.form))
        case Err(e) => FhirCompletion(Err(e), Some(t), Some(token), None, [request])
        case Ok(jheToken) =>
          FhirCompletion(if jheToken == "" then Err(AttributeError("get_user")) else Ok("/"),
                         Some(t), Some(token), Some(jheToken), [request])
  }

  /**
   * In a public deployment, where the FHIR server's URL does not mention
   * `localhost`, the JHE is told the FHIR server's own URL as the issuer.
   */
  lemma PublicIssuerUnchanged(tokens: Result<Json, Error>, post: (string, Pairs) -> Fetch, jheUrl: string, fhirApi: string)
    requires !Contains(fhirApi, "localhost")
    requires CompleteFhir(tokens, post, jheUrl, fhirApi).fhirToken.Some?
    ensures var c := CompleteFhir(tokens, post, jheUrl, fhirApi);
      c.posts == [PostRequest(ExchangeUrl(jheUrl), ExchangeForm(jheUrl, c.fhirToken.value, fhirApi))]
  {
    ReplaceAllAbsent(fhirApi, "localhost", "fhirproxy");
  }

  /**
   * `GET /callback?code=...&state=...`: without a session this is a 400.
   * Otherwise the session's pending FHIR state and verifier are read and
   * cleared first, whatever happens next; then the token request of
   * `TokenCallback` against the stored FHIR server with the FHIR client and
   * `FhirTokenParams`; then `CompleteFhir`, whose values are stored in the
   * session as they are produced.
   */
  method FhirCallback(store: SessionStore, cache: Discovery.Cache, net: Network, config: Config, req: Request,
                      code: string, error: string, errorDescription: string, state: string) returns (r: Result<string, Error>)
    requires cache.Valid()
    modifies cache, net, SessionTarget(store.sessions, req.query, req.headers, req.cookie)
    ensures cache.Valid()
    ensures var cur := CurrentId(req.query, req.headers, req.cookie);
      cur.Err? ==> r == Err(cur.error) && net.sent == old(net.sent) && cache.entries == old(cache.entries)
    ensures var cur := CurrentId(req.query, req.headers, req.cookie);
      cur.Ok? && Find(store.sessions, cur.value).None? ==>
        r == Err(HttpError(400, "no session, start again.")) && net.sent == old(net.sent) && cache.entries == old(cache.entries)
    ensures var cur := CurrentId(req.query, req.headers, req.cookie);
      cur.Ok? && Find(store.sessions, cur.value).Some? ==>
        var s := Find(store.sessions, cur.value).value;
        var x := CallbackOutcome(Discovery.Outcome(old(cache.entries), net.get, s.fhirApi), net.post, config.fhirClientId,
                                 code, error, errorDescription, state, old(s.fhirOauthState), old(s.fhirCodeVerifier),
                                 FhirTokenParams(config, state));
        var c := CompleteFhir(x.result, net.post, config.jheUrl, s.fhirApi);
        && s.fhirOauthState == "" && s.fhirCodeVerifier == "" && s.fhirApi == old(s.fhirApi)
        && s.fhirOauthSession == old(s.fhirOauthSession)
        && s.jheOauthState == old(s.jheOauthState) && s.jheCodeVerifier == old(s.jheCodeVerifier)
        && cache.entries == Discovery.CacheAfter(old(cache.entries), net.get, s.fhirApi)
        && net.sent == old(net.sent) + Discovery.Requests(old(cache.entries), net.get, s.fhirApi) + x.posts + c.posts
        && r == c.result
        && s.fhirContext == (if c.context.Some? then c.context.value else old(s.fhirContext))
        && s.fhirToken == (if c.fhirToken.Some? then c.fhirToken.value else old(s.fhirToken))
        && s.jheToken == (if c.jheToken.Some? then c.jheToken.value else old(s.jheToken))
  {
    var cur := CurrentId(req.query, req.headers, req.cookie);
    if cur.Err? {
      return Err(cur.error);
    }
    var found := Find(store.sessions, cur.value);
    if found.None? {
      return Err(HttpError(400, "no session, start again."));
    }
    var s := found.value;
    var checkState, verifier := s.TakeFhirPending();
    var tokens := TokenCallback(cache, net, s.fhirApi, config.fhirClientId, code, error, errorDescription, state,
                                checkState, verifier, FhirTokenParams(config, state));
    r := FinishFhirLogin(s, net, config, tokens);
  }

  /**
   * The rest of `fhir_callback` once the token request is answered, as
   * `CompleteFhir` describes it: the session's FHIR context, FHIR token and
   * JHE token are stored one after the other as they are produced, so a
   * failure leaves the earlier ones in place.
   */
  method FinishFhirLogin(s: SessionState, net: Network, config: Config, tokens: Result<Json, Error>)
    returns (r: Result<string, Error>)
    modifies s, net
    ensures var c := CompleteFhir(tokens, net.post, config.jheUrl, s.fhirApi);
      && r == c.result
      && net.sent == old(net.sent) + c.posts
      && s.fhirContext == (if c.context.Some? then c.context.value else old(s.fhirContext))
      && s.fhirToken == (if c.fhirToken.Some? then c.fhirToken.value else old(s.fhirToken))
      && s.jheToken == (if c.jheToken.Some? then c.jheToken.value else old(s.jheToken))
    ensures s.fhirApi == old(s.fhirApi) && s.fhirOauthSession == old(s.fhirOauthSession)
    ensures s.fhirOauthState == old(s.fhirOauthState) && s.fhirCodeVerifier == old(s.fhirCodeVerifier)
    ensures s.jheOauthState == old(s.jheOauthState) && s.jheCodeVerifier == old(s.jheCodeVerifier)
  {
    if tokens.Err? {
      return Err(tokens.error);
    }
    s.fhirContext := tokens.value;
    if "access_token" !in tokens.value {
      return Err(KeyError("access_token"));
    }
    s.fhirToken := tokens.value["access_token"];
    var iss := ReplaceAll(s.fhirApi, "localhost", "fhirproxy");
    var exchanged := ExchangeToken(net, config.jheUrl, s.fhirToken, iss);
    if exchanged.Err? {
      return Err(exchanged.error);
    }
    s.jheToken := exchanged.value;
    var jhe := s.Jhe(config.jheUrl);
    if jhe.None? {
      return Err(AttributeError("get_user"));
    }
    r := Ok("/");
  }

  // ---------------------------------------------------------------------------
  // The JupyterHealth Exchange login

  /** The JHE's OpenID issuer as the browser reaches it. */
  function JheIssuer(config: Config): (u: string)
    ensures StartsWith(u, config.jhePublicUrl) && u[|config.jhePublicUrl|..] == "/o"
  {
    config.jhePublicUrl + "/o"
  }

  /**
   * The session a JHE login leaves behind: a new one, holding no JHE token
   * (so the source's "already logged in" shortcut never applies) and the
   * state and verifier of the redirect when there is one; no FHIR token,
   * context or FHIR login pending.
   */
  ghost predicate JheLoginStarted(s: SessionState, config: Config, out: Result<Redirect, Error>)
    reads s
  {
    && s.jheToken == "" && s.fhirApi == "" && s.fhirOauthSession == Some(NewOAuthClient(config))
    && s.fhirToken == "" && s.fhirContext == map[] && s.fhirOauthState == "" && s.fhirCodeVerifier == ""
    && (out.Ok? ==> s.jheOauthState == out.value.state && s.jheCodeVerifier == out.value.verifier)
    && (out.Err? ==> s.jheOauthState == "" && s.jheCodeVerifier == "")
  }

  /**
   * The part of `jhe_login` after the session is made: the authorization
   * redirect against the JHE with the JHE client, the JHE redirect URI,
   * scope `openid` and no extra parameters, whose state and verifier are
   * stored in the session.
   */
  method StartJheLogin(s: SessionState, cache: Discovery.Cache, net: Network, rng: Source, sha: Sha256, config: Config,
                       issuer: string, ghost entries: Discovery.Entries, ghost at: nat) returns (r: Result<string, Error>)
    requires cache.Valid() && s.IsNew(config)
    requires cache.entries == entries && rng.drawn == at
    modifies s, cache, net, rng
    ensures cache.Valid()
    ensures cache.entries == Discovery.CacheAfter(entries, net.get, issuer)
    ensures net.sent == old(net.sent) + Discovery.Requests(entries, net.get, issuer)
    ensures var out := AuthorizeOutcome(Discovery.Outcome(entries, net.get, issuer), sha, rng.Peek(at, RedirectBytes),
                                        config.jheClientId, JheRedirectUri(config), "openid", []);
      && r == Answer(out) && JheLoginStarted(s, config, out)
      && rng.drawn == at + StateBytes + (if out.Ok? then VerifierBytes else 0)
  {
    var redirect := AuthorizeRedirect(cache, net, rng, sha, issuer, config.jheClientId,
                                      JheRedirectUri(config), "openid", []);
    if redirect.Err? {
      return Err(redirect.error);
    }
    s.AwaitJhe(redirect.value.state, redirect.value.verifier);
    r := Ok(redirect.value.url);
  }

  /**
   * `GET /jhe_login`: a new session (`NewSession`, that is `get_session` with `make_new`, which
   * holds no JHE token, so the "already logged in" shortcut never applies),
   * then `StartJheLogin` on it.
   */
  method JheLogin(store: SessionStore, cache: Discovery.Cache, net: Network, rng: Source, sha: Sha256, config: Config,
                  req: Request) returns (r: Result<string, Error>)
    requires cache.Valid()
    modifies store, cache, net, rng, req
    ensures cache.Valid()
    ensures var cur := CurrentId(req.query, req.headers, old(req.cookie));
      cur.Err? ==> r == Err(cur.error) && store.sessions == old(store.sessions) && req.cookie == old(req.cookie)
                   && net.sent == old(net.sent) && rng.drawn == old(rng.drawn)
    ensures var cur := CurrentId(req.query, req.headers, old(req.cookie));
      cur.Ok? ==>
        var id := NewId(cur.value, rng.Peek(old(rng.drawn), SessionIdBytes));
        var out := AuthorizeOutcome(Discovery.Outcome(old(cache.entries), net.get, JheIssuer(config)), sha,
                                    rng.Peek(old(rng.drawn) + IdDraw(cur.value), RedirectBytes),
                                    config.jheClientId, JheRedirectUri(config), "openid", []);
        && req.cookie == CookieAfterNew(old(req.cookie), id)
        && id in store.sessions && fresh(store.sessions[id])
        && store.sessions == old(store.sessions)[id := store.sessions[id]]
        && cache.entries == Discovery.CacheAfter(old(cache.entries), net.get, JheIssuer(config))
        && net.sent == old(net.sent) + Discovery.Requests(old(cache.entries), net.get, JheIssuer(config))
        && r == Answer(out)
        && JheLoginStarted(store.sessions[id], config, out)
        && rng.drawn == old(rng.drawn) + IdDraw(cur.value) + StateBytes + (if out.Ok? then VerifierBytes else 0)
  {
    var got := store.NewSession(req, rng, config);
    if got.Err? {
      return Err(got.error);
    }
    r := StartJheLogin(got.value, cache, net, rng, sha, config, JheIssuer(config),
                      old(cache.entries), old(rng.drawn) + IdDraw(CurrentId(req.query, req.headers, old(req.cookie)).value));
  }

  /**
   * The rest of `jhe_callback` once the token request is answered: the
   * response's `access_token` becomes the JHE token, and an empty one fails
   * the handler's `assert jhe is not None`.
   */
  function CompleteJhe(tokens: Result<Json, Error>): (c: (Result<string, Error>, Option<string>))
    ensures c.1.Some? <==> tokens.Ok? && "access_token" in tokens.value
    ensures c.1.Some? ==> c.1.value == tokens.value["access_token"]
    ensures c.0.Ok? <==> c.1.Some? && c.1.value != ""
    ensures c.0.Ok? ==> c.0.value == "/"
    ensures tokens.Err? ==> c.0 == Err(tokens.error)
  {
    match tokens
    case Err(e) => (Err(e), None)
    case Ok(t) =>
      if "access_token" !in t then (Err(KeyError("access_token")), None)
      else if t["access_token"] == "" then (Err(AssertionError), Some(""))
      else (Ok("/"), Some(t["access_token"]))
  }

  /**
   * `GET /jhe_callback?code=...&state=...`: without a session this is a
   * 400. Otherwise the session's pending JHE state and verifier are read and
   * cleared first; then the token request of `TokenCallback` against the JHE
   * with the JHE client and no extra parameters; then `CompleteJhe`, whose
   * token is stored in the session.
   */
  method JheCallback(store: SessionStore, cache: Discovery.Cache, net: Network, config: Config, req: Request,
                     code: string, error: string, errorDescription: string, state: string) returns (r: Result<string, Error>)
    requires cache.Valid()
    modifies cache, net, SessionTarget(store.sessions, req.query, req.headers, req.cookie)
    ensures cache.Valid()
    ensures var cur := CurrentId(req.query, req.headers, req.cookie);
      cur.Err? ==> r == Err(cur.error) && net.sent == old(net.sent) && cache.entries == old(cache.entries)
    ensures var cur := CurrentId(req.query, req.headers, req.cookie);
      cur.Ok? && Find(store.sessions, cur.value).None? ==>
        r == Err(HttpError(400, "No session, login again")) && net.sent == old(net.sent) && cache.entries == old(cache.entries)
    ensures var cur := CurrentId(req.query, req.headers, req.cookie);
      cur.Ok? && Find(store.sessions, cur.value).Some? ==>
        var s := Find(store.sessions, cur.value).value;
        var x := CallbackOutcome(Discovery.Outcome(old(cache.entries), net.get, JheIssuer(config)), net.post,
                                 config.jheClientId, code, error, errorDescription, state, old(s.jheOauthState),
                                 old(s.jheCodeVerifier), []);
        var c := CompleteJhe(x.result);
        && s.jheOauthState == "" && s.jheCodeVerifier == ""
        && cache.entries == Discovery.CacheAfter(old(cache.entries), net.get, JheIssuer(config))
        && net.sent == old(net.sent) + Discovery.Requests(old(cache.entries), net.get, JheIssuer(config)) + x.posts
        && r == c.0
        && s.jheToken == (if c.1.Some? then c.1.value else old(s.jheToken))
        && s.fhirToken == old(s.fhirToken) && s.fhirOauthState == old(s.fhirOauthState)
        && s.fhirCodeVerifier == old(s.fhirCodeVerifier) && s.fhirContext == old(s.fhirContext)
        && s.fhirApi == old(s.fhirApi) && s.fhirOauthSession == old(s.fhirOauthSession)
  {
    var cur := CurrentId(req.query, req.headers, req.cookie);
    if cur.Err? {
      return Err(cur.error);
    }
    var found := Find(store.sessions, cur.value);
    if found.None? {
      return Err(HttpError(400, "No session, login again"));
    }
    var s := found.value;
    var checkState, verifier := s.TakeJhePending();
    var tokens := TokenCallback(cache, net, JheIssuer(config), config.jheClientId, code, error, errorDescription,
                                state, checkState, verifier, []);
    if tokens.Err? {
      return Err(tokens.error);
    }
    if "access_token" !in tokens.value {
      return Err(KeyError("access_token"));
    }
    s.jheToken := tokens.value["access_token"];
    var jhe := s.Jhe(config.jheUrl);
    if jhe.None? {
      return Err(AssertionError);
    }
    r := Ok("/");
  }

  /** `GET /logout`: `SessionStore.Logout`, then back to the main page. */
  method LogoutRoute(store: SessionStore, req: Request) returns (r: Result<string, Error>)
    modifies store, req
    ensures var iframe := IsLocalIframe(req.query, req.headers);
      && (iframe.Err? ==> r == Err(iframe.error) && store.sessions == old(store.sessions) && req.cookie == old(req.cookie))
      && (iframe.Ok? ==> var (id, cookie) := LogoutId(iframe.value, old(req.cookie));
            r == Ok("/") && store.sessions == Drop(old(store.sessions), id) && req.cookie == cookie)
  {
    var done := store.Logout(req);
    if done.Err? {
      return Err(done.error);
    }
    r := Ok("/");
  }

  // ---------------------------------------------------------------------------
  // Properties of the flows

  /**
   * The state a redirect hands out lets its own callback through: a
   * callback with no error, a code, and the state from the authorization
   * URL passes every guard against the stored state, and posts the stored
   * verifier.
   */
  lemma OwnCallbackPasses(config: Result<Json, Error>, sha: Sha256, random: seq<Byte>,
                          clientId: string, redirectUri: string, scope: string, extra: Pairs,
                          tokenConfig: Result<Json, Error>, post: (string, Pairs) -> Fetch, code: string,
                          errorDescription: string, tokenExtra: Pairs)
    requires |random| == RedirectBytes
    requires AuthorizeOutcome(config, sha, random, clientId, redirectUri, scope, extra).Ok?
    requires code != ""
    requires tokenConfig.Ok? && "token_endpoint" in tokenConfig.value
    ensures var out := AuthorizeOutcome(config, sha, random, clientId, redirectUri, scope, extra).value;
      CallbackOutcome(tokenConfig, post, clientId, code, "", errorDescription, out.state, out.state, out.verifier, tokenExtra).posts
        == [PostRequest(tokenConfig.value["token_endpoint"], TokenForm(code, clientId, out.verifier, tokenExtra))]
  {
    AuthorizeOutcomeOk(config, sha, random, clientId, redirectUri, scope, extra);
  }

  /**
   * A callback is single use: once a callback has cleared the stored state,
   * a replay of it (or any later callback before a new redirect) fails and
   * sends no token request, and a callback whose state is not the stored
   * one fails the same way.
   */
  lemma CallbackIsSingleUse(config: Result<Json, Error>, post: (string, Pairs) -> Fetch, clientId: string, code: string,
                            error: string, errorDescription: string, state: string, checkState: string,
                            verifier: string, extra: Pairs)
    ensures var x := CallbackOutcome(config, post, clientId, code, error, errorDescription, state, "", verifier, extra);
      x.posts == [] && x.result.Err?
    ensures state != checkState ==>
      var x := CallbackOutcome(config, post, clientId, code, error, errorDescription, state, checkState, verifier, extra);
      x.posts == [] && x.result.Err?
  {
    CallbackNeedsStoredState(code, error, errorDescription, state, checkState);
  }

  /** The JHE flow succeeds exactly when its token request returns a non-empty `access_token`, which becomes the session's JHE token. */
  lemma JheFlowSucceeds(config: Result<Json, Error>, post: (string, Pairs) -> Fetch, clientId: string, code: string,
                        errorDescription: string, state: string, verifier: string)
    requires config.Ok? && "token_endpoint" in config.value && code != "" && state != ""
    ensures var x := CallbackOutcome(config, post, clientId, code, "", errorDescription, state, state, verifier, []);
      var f := post(config.value["token_endpoint"], TokenForm(code, clientId, verifier, []));
      && (CompleteJhe(x.result).0.Ok? <==>
            f.Reply? && f.status < 400 && f.body.Some? && "access_token" in f.body.value && f.body.value["access_token"] != "")
      && (CompleteJhe(x.result).0.Ok? ==> CompleteJhe(x.result).1 == Some(f.body.value["access_token"]))
  {
  }
}
