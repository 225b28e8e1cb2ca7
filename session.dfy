/**
 * Per-browser session state kept in process memory: the `_sessions` map
 * from session id to `SessionState`, the session id carried in the signed
 * session cookie, and the shared `"iframe"` id used for local iframe
 * launches, where the browser refuses to set the cookie.
 */
module Session {
  import opened Wrappers
  import opened Text
  import opened Errors
  import opened Http
  import opened Base64
  import opened Entropy
  import opened Settings

  /** `SESSION_KEY`: the cookie entry holding the session id. */
  const SessionKey: string := "session_id"

  /** The id every local iframe launch shares. */
  const IframeId: string := "iframe"

  /** `secrets.token_urlsafe(16)` for a new session id. */
  const SessionIdBytes: nat := 16

  /** The hosts a local iframe launch comes from. */
  const LocalHosts: set<string> := {"localhost", "127.0.0.1"}

  /** The scope `_new_oauth_session` configures. */
  const FhirScope: string := "user/*.* patient/*.read openid profile launch launch/patient"

  /** The `OAuth2Session` a new session holds: its configuration only. */
  datatype OAuthClient = OAuthClient(clientId: string, redirectUri: string, pkce: string, scope: string)

  /** `JupyterHealthClient(url=..., token=...)`. */
  datatype JheClient = JheClient(url: string, token: string)

  /** `_new_oauth_session()` under the given settings. */
  function NewOAuthClient(c: Config): (o: OAuthClient)
    ensures o.clientId == c.fhirClientId && o.redirectUri == FhirRedirectUri(c)
    ensures o.pkce == "S256" && o.scope == FhirScope
  {
    OAuthClient(c.fhirClientId, FhirRedirectUri(c), "S256", FhirScope)
  }

  /**
   * A session's credentials: the FHIR token, OAuth client and launch
   * context, the JHE token, and the values the handlers keep between a
   * redirect and its callback (the FHIR server's base URL and, per provider,
   * the pending OAuth state and PKCE verifier).
   */
  class SessionState {
    var fhirToken: string
    var fhirOauthSession: Option<OAuthClient>
    var fhirContext: Json
    var jheToken: string
    var fhirApi: string
    var fhirOauthState: string
    var fhirCodeVerifier: string
    var jheOauthState: string
    var jheCodeVerifier: string

    /** Every credential empty and no OAuth exchange pending. */
    ghost predicate IsBlank()
      reads this
    {
      fhirToken == "" && fhirOauthSession == None && fhirContext == map[] && jheToken == ""
      && fhirApi == "" && fhirOauthState == "" && fhirCodeVerifier == ""
      && jheOauthState == "" && jheCodeVerifier == ""
    }

    /** What `get_session(request, make_new=True)` hands back: blank but for a new OAuth client. */
    ghost predicate IsNew(config: Config)
      reads this
    {
      fhirOauthSession == Some(NewOAuthClient(config)) && fhirToken == "" && fhirContext == map[] && jheToken == ""
      && fhirApi == "" && fhirOauthState == "" && fhirCodeVerifier == ""
      && jheOauthState == "" && jheCodeVerifier == ""
    }

    /** `SessionState()`: every field at its default. */
    constructor()
      ensures IsBlank()
    {
      fhirToken := "";
      fhirOauthSession := None;
      fhirContext := map[];
      jheToken := "";
      fhirApi := "";
      fhirOauthState := "";
      fhirCodeVerifier := "";
      jheOauthState := "";
      jheCodeVerifier := "";
    }

    /** A FHIR authorization redirect is pending: its state and verifier are kept for the callback. */
    method AwaitFhir(state: string, verifier: string)
      modifies this
      ensures fhirOauthState == state && fhirCodeVerifier == verifier
      ensures fhirToken == old(fhirToken) && fhirOauthSession == old(fhirOauthSession) && fhirContext == old(fhirContext)
      ensures jheToken == old(jheToken) && fhirApi == old(fhirApi)
      ensures jheOauthState == old(jheOauthState) && jheCodeVerifier == old(jheCodeVerifier)
    {
      fhirCodeVerifier := verifier;
      fhirOauthState := state;
    }

    /** A JHE authorization redirect is pending: its state and verifier are kept for the callback. */
    method AwaitJhe(state: string, verifier: string)
      modifies this
      ensures jheOauthState == state && jheCodeVerifier == verifier
      ensures fhirToken == old(fhirToken) && fhirOauthSession == old(fhirOauthSession) && fhirContext == old(fhirContext)
      ensures jheToken == old(jheToken) && fhirApi == old(fhirApi)
      ensures fhirOauthState == old(fhirOauthState) && fhirCodeVerifier == old(fhirCodeVerifier)
    {
      jheOauthState := state;
      jheCodeVerifier := verifier;
    }

    /**
     * The FHIR callback's first step: the pending state and verifier are
     * read and cleared, so a second callback finds nothing to compare with.
     */
    method TakeFhirPending() returns (state: string, verifier: string)
      modifies this
      ensures state == old(fhirOauthState) && verifier == old(fhirCodeVerifier)
      ensures fhirOauthState == "" && fhirCodeVerifier == ""
      ensures fhirToken == old(fhirToken) && fhirOauthSession == old(fhirOauthSession) && fhirContext == old(fhirContext)
      ensures jheToken == old(jheToken) && fhirApi == old(fhirApi)
      ensures jheOauthState == old(jheOauthState) && jheCodeVerifier == old(jheCodeVerifier)
    {
      state := fhirOauthState;
      fhirOauthState := "";
      verifier := fhirCodeVerifier;
      fhirCodeVerifier := "";
    }

    /** The JHE callback's first step: the pending JHE state and verifier are read and cleared. */
    method TakeJhePending() returns (state: string, verifier: string)
      modifies this
      ensures state == old(jheOauthState) && verifier == old(jheCodeVerifier)
      ensures jheOauthState == "" && jheCodeVerifier == ""
      ensures fhirToken == old(fhirToken) && fhirOauthSession == old(fhirOauthSession) && fhirContext == old(fhirContext)
      ensures jheToken == old(jheToken) && fhirApi == old(fhirApi)
      ensures fhirOauthState == old(fhirOauthState) && fhirCodeVerifier == old(fhirCodeVerifier)
    {
      state := jheOauthState;
      jheOauthState := "";
      verifier := jheCodeVerifier;
      jheCodeVerifier := "";
    }

    /** `get_jhe()`: a client for the JHE exactly when a JHE token is held. */
    function Jhe(jheUrl: string): (c: Option<JheClient>)
      reads this
      ensures c.Some? <==> jheToken != ""
      ensures c.Some? ==> c.value == JheClient(jheUrl, jheToken)
    {
      if jheToken != "" then Some(JheClient(jheUrl, jheToken)) else None
    }
  }

  /**
   * The parts of a request the session code reads: the query string, the
   * headers (names in lower case) and the session cookie's contents, which
   * the handler may change.
   */
  class Request {
    const query: map<string, string>
    const headers: map<string, string>
    var cookie: map<string, string>

    constructor(query: map<string, string>, headers: map<string, string>, cookie: map<string, string>)
      ensures this.query == query && this.headers == headers && this.cookie == cookie
    {
      this.query := query;
      this.headers := headers;
      this.cookie := cookie;
    }
  }

  /** The `sec-fetch-dest` header names an iframe. */
  predicate FromIframe(headers: map<string, string>)
  {
    "sec-fetch-dest" in headers && headers["sec-fetch-dest"] == "iframe"
  }

  /**
   * `_is_local_iframe(request)`: a non-empty `iframe` query parameter, or an
   * iframe fetch whose `Host` (without its port) is a local host. The host
   * header is only read for an iframe fetch, and its absence is then a
   * KeyError.
   */
  function IsLocalIframe(query: map<string, string>, headers: map<string, string>): (r: Result<bool, Error>)
    ensures r.Err? <==> !("iframe" in query && query["iframe"] != "") && FromIframe(headers) && "host" !in headers
    ensures r.Err? ==> r.error == KeyError("host")
    ensures r == Ok(true) <==>
      ("iframe" in query && query["iframe"] != "")
      || (FromIframe(headers) && "host" in headers && BeforeColon(headers["host"]) in LocalHosts)
  {
    if "iframe" in query && query["iframe"] != "" then Ok(true)
    else if !FromIframe(headers) then Ok(false)
    else if "host" !in headers then Err(KeyError("host"))
    else Ok(BeforeColon(headers["host"]) in LocalHosts)
  }

  /** A local iframe whatever port the host header names. */
  lemma LocalIframeAnyPort(query: map<string, string>, headers: map<string, string>, port: string)
    requires FromIframe(headers) && "host" in headers && headers["host"] == "localhost:" + port
    ensures IsLocalIframe(query, headers) == Ok(true)
  {
    var h := headers["host"];
    assert h[9] == ':';
    assert IndexOf(h, ':') == 9 by {
      forall i | 0 <= i < 9 ensures h[i] != ':' { assert h[i] == "localhost"[i]; }
    }
    assert BeforeColon(h) == "localhost";
  }

  /**
   * The session id a request carries, before any new one is made: the
   * iframe id for a local iframe, otherwise the cookie's entry if any.
   */
  function CurrentId(query: map<string, string>, headers: map<string, string>, cookie: map<string, string>): (r: Result<Option<string>, Error>)
    ensures IsLocalIframe(query, headers).Err? ==> r == Err(IsLocalIframe(query, headers).error)
    ensures IsLocalIframe(query, headers) == Ok(true) ==> r == Ok(Some(IframeId))
    ensures IsLocalIframe(query, headers) == Ok(false) ==> r == Ok(if SessionKey in cookie then Some(cookie[SessionKey]) else None)
  {
    match IsLocalIframe(query, headers)
    case Err(e) => Err(e)
    case Ok(iframe) =>
      if iframe then Ok(Some(IframeId))
      else if SessionKey in cookie then Ok(Some(cookie[SessionKey]))
      else Ok(None)
  }

  /**
   * The session `get_session(request)` finds without making one: none for a
   * missing or empty id, or for an id the store does not hold.
   */
  function Find(sessions: map<string, SessionState>, id: Option<string>): (s: Option<SessionState>)
    ensures s.Some? <==> id.Some? && id.value != "" && id.value in sessions
    ensures s.Some? ==> s.value == sessions[id.value]
  {
    if id.Some? && id.value != "" && id.value in sessions then Some(sessions[id.value]) else None
  }

  /**
   * The id `get_session(request, make_new=True)` files the new session under:
   * the iframe id is kept, anything else (no id included) is replaced by the
   * fresh random id.
   */
  function NewId(current: Option<string>, random: seq<Byte>): (id: string)
    requires |random| == SessionIdBytes
    ensures current == Some(IframeId) ==> id == IframeId
    ensures current != Some(IframeId) ==> |id| == 22 && IsUrlSafe(id) && DecodeNoPad(id) == Some(random)
  {
    DecodeEncodeNoPad(random);
    if current == Some(IframeId) then IframeId else TokenUrlSafe(random)
  }

  /** How many random bytes making a session draws: none when the iframe id is kept. */
  function IdDraw(current: Option<string>): (n: nat)
    ensures n == (if current == Some(IframeId) then 0 else SessionIdBytes)
  {
    if current == Some(IframeId) then 0 else SessionIdBytes
  }

  /** A freshly drawn id is never the iframe id, so a cookie session cannot land on the shared iframe session. */
  lemma FreshIdIsNotIframe(current: Option<string>, random: seq<Byte>)
    requires |random| == SessionIdBytes
    requires current != Some(IframeId)
    ensures NewId(current, random) != IframeId && NewId(current, random) != ""
  {
    assert |NewId(current, random)| == 22;
  }

  /** The cookie after a new session is made: the new id is stored unless it is the iframe id. */
  function CookieAfterNew(cookie: map<string, string>, id: string): (c: map<string, string>)
    ensures id != IframeId ==> c == cookie[SessionKey := id]
    ensures id == IframeId ==> c == cookie
  {
    if id != IframeId then cookie[SessionKey := id] else cookie
  }

  /**
   * The round trip of a cookie session: once a new session's id is stored in
   * the cookie, the next request with that cookie finds the same session.
   */
  lemma NewSessionIsFound(query: map<string, string>, headers: map<string, string>, cookie: map<string, string>,
                          sessions: map<string, SessionState>, random: seq<Byte>, s: SessionState)
    requires |random| == SessionIdBytes
    requires CurrentId(query, headers, cookie).Ok?
    ensures var id := NewId(CurrentId(query, headers, cookie).value, random);
      var cookie' := CookieAfterNew(cookie, id);
      Find(sessions[id := s], CurrentId(query, headers, cookie').value) == Some(s)
  {
    var cur := CurrentId(query, headers, cookie).value;
    var id := NewId(cur, random);
    if cur != Some(IframeId) {
      FreshIdIsNotIframe(cur, random);
    }
  }

  /**
   * The session ids that `logout(request)` drops: the iframe id for a local
   * iframe (the cookie is left alone), otherwise the cookie's id, which is
   * popped from the cookie too.
   */
  function LogoutId(iframe: bool, cookie: map<string, string>): (r: (Option<string>, map<string, string>))
    ensures iframe ==> r == (Some(IframeId), cookie)
    ensures !iframe ==> SessionKey !in r.1 && r.1 == cookie - {SessionKey}
    ensures !iframe ==> r.0 == (if SessionKey in cookie then Some(cookie[SessionKey]) else None)
  {
    if iframe then (Some(IframeId), cookie)
    else if SessionKey in cookie then (Some(cookie[SessionKey]), cookie - {SessionKey})
    else (None, cookie)
  }

  /** `_sessions.pop(session_id, None)`. */
  function Drop(sessions: map<string, SessionState>, id: Option<string>): (m: map<string, SessionState>)
    ensures id.Some? ==> m == sessions - {id.value}
    ensures id.None? ==> m == sessions
  {
    if id.Some? then sessions - {id.value} else sessions
  }

  /**
   * After a logout the request no longer finds a session, and a second
   * logout changes neither the store nor the cookie.
   */
  lemma LogoutForgets(iframe: bool, cookie: map<string, string>, sessions: map<string, SessionState>)
    ensures var (id, cookie') := LogoutId(iframe, cookie);
      && Find(Drop(sessions, id), id) == None
      && (!iframe ==> Find(sessions, (LogoutId(iframe, cookie')).0) == None)
      && LogoutId(iframe, cookie').1 == cookie'
      && Drop(Drop(sessions, id), LogoutId(iframe, cookie').0) == Drop(sessions, id)
  {
  }

  /** The in-memory store, `_sessions`. */
  class SessionStore {
    var sessions: map<string, SessionState>

    constructor()
      ensures sessions == map[]
    {
      sessions := map[];
    }

    /**
     * `SessionState.get_session(request, make_new=True)`: a blank session
     * holding a new OAuth client is filed under `NewId` (replacing any
     * session there), the cookie is updated by `CookieAfterNew`, and 16
     * random bytes are drawn unless the id is the iframe id. The iframe
     * check's KeyError comes first and changes nothing.
     */
    method NewSession(req: Request, rng: Source, config: Config) returns (r: Result<SessionState, Error>)
      modifies this, req, rng
      ensures var cur := CurrentId(req.query, req.headers, old(req.cookie));
        && (cur.Err? ==> r == Err(cur.error) && sessions == old(sessions) && req.cookie == old(req.cookie)
                         && rng.drawn == old(rng.drawn))
        && (cur.Ok? ==>
              var id := NewId(cur.value, rng.Peek(old(rng.drawn), SessionIdBytes));
              && r.Ok? && fresh(r.value)
              && sessions == old(sessions)[id := r.value]
              && req.cookie == CookieAfterNew(old(req.cookie), id)
              && rng.drawn == old(rng.drawn) + IdDraw(cur.value)
              && r.value.IsNew(config))
    {
      var cur := CurrentId(req.query, req.headers, req.cookie);
      if cur.Err? {
        return Err(cur.error);
      }
      var id;
      if cur.value != Some(IframeId) {
        var random := rng.TokenBytes(SessionIdBytes);
        id := TokenUrlSafe(random);
        req.cookie := req.cookie[SessionKey := id];
      } else {
        id := IframeId;
      }
      var s := new SessionState();
      sessions := sessions[id := s];
      s.fhirOauthSession := Some(NewOAuthClient(config));
      r := Ok(s);
    }

    /**
     * `SessionState.get_session(request, make_new)`. Without `make_new` the
     * result is the session `Find` gives for the current id and nothing
     * changes; with it, `NewSession`. The iframe check's KeyError comes
     * first and changes nothing.
     */
    method GetSession(req: Request, makeNew: bool, rng: Source, config: Config) returns (r: Result<Option<SessionState>, Error>)
      modifies this, req, rng
      ensures var cur := CurrentId(req.query, req.headers, old(req.cookie));
        && (cur.Err? ==> r == Err(cur.error) && sessions == old(sessions) && req.cookie == old(req.cookie)
                         && rng.drawn == old(rng.drawn))
        && (cur.Ok? && !makeNew ==> r == Ok(Find(sessions, cur.value)) && sessions == old(sessions)
                                    && req.cookie == old(req.cookie) && rng.drawn == old(rng.drawn))
        && (cur.Ok? && makeNew ==>
              var id := NewId(cur.value, rng.Peek(old(rng.drawn), SessionIdBytes));
              && r.Ok? && r.value.Some? && fresh(r.value.value)
              && sessions == old(sessions)[id := r.value.value]
              && req.cookie == CookieAfterNew(old(req.cookie), id)
              && rng.drawn == old(rng.drawn) + IdDraw(cur.value)
              && r.value.value.IsNew(config))
    {
      if makeNew {
        var s := NewSession(req, rng, config);
        if s.Err? {
          return Err(s.error);
        }
        return Ok(Some(s.value));
      }
      var cur := CurrentId(req.query, req.headers, req.cookie);
      if cur.Err? {
        return Err(cur.error);
      }
      r := Ok(Find(sessions, cur.value));
    }

    /**
     * `SessionState.logout(request)`: the session `LogoutId` names is dropped
     * from the store and the cookie loses its id; the iframe check's KeyError
     * comes first and changes nothing.
     */
    method Logout(req: Request) returns (r: Result<(), Error>)
      modifies this, req
      ensures var iframe := IsLocalIframe(req.query, req.headers);
        && (iframe.Err? ==> r == Err(iframe.error) && sessions == old(sessions) && req.cookie == old(req.cookie))
        && (iframe.Ok? ==> var (id, cookie) := LogoutId(iframe.value, old(req.cookie));
              r == Ok(()) && sessions == Drop(old(sessions), id) && req.cookie == cookie)
    {
      var iframe := IsLocalIframe(req.query, req.headers);
      if iframe.Err? {
        return Err(iframe.error);
      }
      var sessionId: Option<string>;
      if iframe.value {
        sessionId := Some(IframeId);
      } else if SessionKey in req.cookie {
        sessionId := Some(req.cookie[SessionKey]);
        req.cookie := req.cookie - {SessionKey};
      } else {
        sessionId := None;
      }
      if sessionId.Some? {
        sessions := sessions - {sessionId.value};
      }
      r := Ok(());
    }
  }
}
