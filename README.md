# jhe-smart-demo chart app: OAuth 2.0 + PKCE client, session store and login handlers

This project models the login core of the chart app in Dafny:

- **OAuth helpers** (`oauth.dfy`, `discovery.dfy`). The PKCE verifier and S256 challenge of RFC 7636. The
  OpenID configuration lookup, with its well-known URL, its fallback URL and its 128-entry LRU memo. The
  authorization redirect, with its `state` and its ordered parameter dict. The callback's guard chain and the
  authorization-code token request.
- **Token exchange** (`jhe.dfy`). The RFC 8693 request to the JupyterHealth Exchange (JHE) and the handling
  of its response.
- **Sessions** (`session.dfy`). `SessionState` objects in the process-wide `_sessions` map, keyed by the id
  in the session cookie. A local iframe launch uses the shared `"iframe"` id instead. The module covers
  `get_session`, `logout` and `get_jhe`.
- **Handlers** (`app.dfy`). `launch`, `fhir_callback`, `jhe_login`, `jhe_callback`, the logout route and
  `_human_name`.
- **Settings** (`settings.dfy`). The two redirect URIs derived from `app_host`, and the rule that an empty
  JHE public URL falls back to the internal one.
- **The handlers as written** (`aswritten.dfy`). They cannot run, as "## Findings" explains.

The Python library behaviour the core relies on is written out in supporting modules:

- `base64.dfy`: `urlsafe_b64encode` and the padding strip.
- `urllib.dfy`: `quote_plus`, `urlencode`, `urlparse` and `urlunparse`. `urlparse` includes the bracket checks
  CPython 3.12 makes on the netloc.
- `ipaddress.dfy`: whether `ip_address` accepts a string as an IPv4 or an IPv6 address. `urlparse` uses it
  for a bracketed host.
- `dict.dfy`: insertion-ordered dicts, `d[k] = v` and `update`.
- `text.dfy`: `rstrip`, `strip`, `join`, `partition`, `replace` and UTF-8.

Effects are modelled as explicit objects:

- `Http.Network` holds the server's answers as fixed functions and logs every request sent.
- `Entropy.Source` is an unknown byte stream from which `secrets` draws.
- SHA-256 is an uninterpreted function returning 32 bytes.

Every state-changing operation is a method whose postcondition equates its results and new state with a pure
function. The properties are proved about those functions.

Where the system's prose description and the code differ, the model follows the code:

- The discovery document is parsed outside the `try` (`oauth.py:44`). A primary URL that answers 2xx with a
  body that is not JSON is therefore an error, and the fallback is not tried.
- `urlparse` of the fallback can raise ValueError. That error replaces the first fetch's error.
- The authorization-code token request sends `redirect_uri` only through `extra_params`. `fhir_callback`
  passes it; `jhe_callback` passes no extra parameters, so its request carries none.
- A token response with a status below 400 is accepted (`oauth.py:112`). A 3xx status is therefore parsed,
  not refused.
- The issuer sent to the JHE has every `localhost` rewritten to `fhirproxy` (`app.py:231`), unconditionally.

## Model

| member | source | states |
|---|---|---|
| Settings.PublicUrl | chart-app/app/settings.py:23-32 | an empty public URL becomes the JHE URL; any other value is kept |
| Settings.PublicUrlIdempotent | chart-app/app/settings.py:23-32 | resolving the public URL twice changes nothing, and the result is empty only when both inputs are |
| Settings.Load | chart-app/app/settings.py:9-32 | `app_host` takes its default when unset, the public URL passes through the validator, and the secret key, FHIR API base, JHE URL and both client ids are kept as given |
| Settings.FhirRedirectUri | chart-app/app/settings.py:34-36 | the FHIR redirect URI is `app_host` followed by `/callback` |
| Settings.JheRedirectUri | chart-app/app/settings.py:38-40 | the JHE redirect URI is `app_host` followed by `/jhe_callback` |
| Settings.RedirectUrisDiffer | chart-app/app/settings.py:34-40 | the two providers never share a callback route |
| Settings.DefaultRedirect | chart-app/app/settings.py:14-36 | without `APP_HOST` the FHIR redirect URI is `http://127.0.0.1:8000/callback` |
| OAuth.Challenge | chart-app/app/oauth.py:17-20 | the S256 challenge is 43 URL-safe characters, contains no `=`, and decodes back to the SHA-256 digest of the verifier's UTF-8 bytes |
| OAuth.GeneratePkce | chart-app/app/oauth.py:15-21 | the verifier is 43 unreserved ASCII characters (within RFC 7636's 43 to 128) that decode to the 32 random bytes; the challenge decodes to SHA256(ASCII(verifier)) |
| OAuth.ChallengeUnique | chart-app/app/oauth.py:17-20 | the challenge is the only unpadded base64url string that decodes to SHA256 of the verifier's UTF-8 bytes |
| OAuth.PkceUnique | chart-app/app/oauth.py:15-21 | any pair whose verifier decodes to the random bytes and whose challenge decodes to the verifier's digest is the generated pair |
| OAuth.AuthorizeUrl | chart-app/app/oauth.py:67 | the URL is the endpoint, `?`, then a query from which a form decoder recovers every parameter in order |
| OAuth.AuthorizeOutcome | chart-app/app/oauth.py:51-67 | a failed discovery is passed on, and a missing `authorization_endpoint` is a KeyError; the redirect succeeds exactly when neither happens |
| OAuth.AuthorizeOutcomeOk | chart-app/app/oauth.py:51-69 | the state is 22 URL-safe characters carrying the first 16 random bytes, the verifier is the PKCE verifier of the other 32, and the URL holds the parameters built from them |
| OAuth.DefaultsUnique | chart-app/app/oauth.py:56-64 | the seven default parameter names are distinct |
| OAuth.RestValuesFront | chart-app/app/oauth.py:58-60 | `client_id`, `response_type=code` and `redirect_uri` carry the values the code gives them |
| OAuth.RestValuesBack | chart-app/app/oauth.py:61-63 | `scope`, `code_challenge` and `code_challenge_method=S256` carry the values the code gives them |
| OAuth.DefaultValues | chart-app/app/oauth.py:56-64 | `state` holds the state; every other name finds its default value |
| OAuth.AuthorizeParamsShape | chart-app/app/oauth.py:56-66 | the seven defaults keep their order, `extra_params` overrides same-named keys in place and adds new ones, and the result is a dict |
| OAuth.RedirectBindsStateAndChallenge | chart-app/app/oauth.py:51-69 | unless `extra_params` overrides them, the URL carries the returned state and the challenge of the returned verifier with method S256 |
| OAuth.AuthorizeRedirect | chart-app/app/oauth.py:48-69 | the redirect equals `AuthorizeOutcome` of the lookup and the random bytes; 16 bytes are drawn, then 32 more only when the lookup succeeded |
| OAuth.CheckCallback | chart-app/app/oauth.py:86-95 | the guards in order: `error` gives a 500 with the description; a missing code, a missing state or a different state gives a 400; the request passes exactly when none holds |
| OAuth.CallbackNeedsStoredState | chart-app/app/oauth.py:92-95 | a foreign state is refused, and once the stored state is cleared no callback passes |
| OAuth.TokenFormFields | chart-app/app/oauth.py:97-105 | the form carries `code`, `grant_type=authorization_code`, `client_id` and `code_verifier` unless `extra_params` overrides them, takes `extra_params`' values, and is a dict |
| OAuth.TokenResult | chart-app/app/oauth.py:107-115 | a transport failure is passed on; the parsed body is returned exactly when the status is below 400 and the body is JSON |
| OAuth.CallbackOutcome | chart-app/app/oauth.py:83-117 | a failed lookup is passed on and a missing `token_endpoint` is a KeyError, both before the guards; a token POST is sent exactly when all pass, and its answer decides the result |
| OAuth.TokenCallback | chart-app/app/oauth.py:72-117 | the result and the requests sent are those of the lookup followed by `CallbackOutcome` |
| OAuth.VerifierMatchesChallenge | chart-app/app/oauth.py:54-105 | the verifier the token request posts is the one whose S256 challenge the authorization URL carried |
| Discovery.PrimaryUrl | chart-app/app/oauth.py:27 | the base with every trailing `/` removed, followed by `/.well-known/openid-configuration` |
| Discovery.FallbackUrl | chart-app/app/oauth.py:33-37 | fails, with the same error, exactly when `urlparse` of the base does, bracket checks included; otherwise it parses back to the base's scheme, netloc, params, query and fragment with the well-known path |
| Discovery.Raised | chart-app/app/oauth.py:29-31 | a failed fetch raises its transport error, or a status error for a status outside 2xx |
| Discovery.ParseJson | chart-app/app/oauth.py:44 | `r.json()` gives the body exactly when it is JSON |
| Discovery.Discover | chart-app/app/oauth.py:26-45 | the primary URL is fetched first; the fallback only after it fails; when both fail the first error is raised; a success returns the last fetched body |
| Discovery.FetchConfig | chart-app/app/oauth.py:26-45 | sends the requests of `Discover` in order and returns its result |
| Discovery.WithoutMembers | chart-app/app/oauth.py:24 | removing a key from the cache keeps exactly the other entries |
| Discovery.TouchKeeps | chart-app/app/oauth.py:24 | a cache hit keeps the LRU valid, with the same size and the same value for every key |
| Discovery.AdmitFinds | chart-app/app/oauth.py:24 | a successful miss caches the document under the base string, and the LRU stays valid with at most 128 entries |
| Discovery.FailedMissForgets | chart-app/app/oauth.py:24 | a failed lookup caches nothing |
| Discovery.ResolvedIsMemoised | chart-app/app/oauth.py:24-45 | once a base has resolved, looking it up again returns the same document and sends no request |
| Discovery.Cache.Resolve | chart-app/app/oauth.py:24-45 | `_get_openid_config(base)`: the result, requests and new cache are `Outcome`, `Requests` and `CacheAfter`, and the cache stays valid |
| Jhe.ExchangeUrl | chart-app/app/jhe.py:11 | the exchange endpoint is the JHE URL followed by `/o/token-exchange` |
| Jhe.ExchangeFormFields | chart-app/app/jhe.py:13-15 | `subject_token` is the access token, `iss` is passed through unchanged, and `audience` is the JHE URL |
| Jhe.ExchangeFormTypes | chart-app/app/jhe.py:16-18 | both token types are the access-token URN, and the grant is the token-exchange grant of RFC 8693 |
| Jhe.ExchangeFormDecodes | chart-app/app/jhe.py:12-19 | the form is a dict, and decoding its urlencoding gives every field back |
| Jhe.ExchangeResult | chart-app/app/jhe.py:21-26 | a status from 400 to 599 is an error; otherwise the result is the body's `access_token`, when the body is JSON and has one |
| Jhe.ExchangeToken | chart-app/app/jhe.py:4-26 | one POST of the exchange form to the exchange URL, then `ExchangeResult` of the answer |
| Session.NewOAuthClient | chart-app/app/session.py:102-110 | the OAuth client is configured with the FHIR client id, the FHIR redirect URI, PKCE S256 and the launch scope |
| Session.SessionState.constructor | chart-app/app/session.py:25-40 | a new record has every token and pending value empty |
| Session.SessionState.Jhe | chart-app/app/session.py:42-47 | `get_jhe` gives a client for the JHE exactly when the JHE token is non-empty |
| Session.SessionState.AwaitFhir | chart-app/app/app.py:187-188 | stores the FHIR verifier and state, and nothing else changes |
| Session.SessionState.AwaitJhe | chart-app/app/app.py:266-267 | stores the JHE state and verifier, and nothing else changes |
| Session.SessionState.TakeFhirPending | chart-app/app/app.py:205-208 | returns the pending FHIR state and verifier and clears both, and nothing else changes |
| Session.SessionState.TakeJhePending | chart-app/app/app.py:284-287 | returns the pending JHE state and verifier and clears both, and nothing else changes |
| Session.IsLocalIframe | chart-app/app/session.py:49-55 | true for a non-empty `iframe` query parameter whatever the headers say; otherwise true exactly for an iframe fetch whose host, without its port, is local; a missing `host` on an iframe fetch is a KeyError |
| Session.LocalIframeAnyPort | chart-app/app/session.py:53-55 | `localhost` with any port counts as local |
| Session.CurrentId | chart-app/app/session.py:75-85 | the id is `"iframe"` for a local iframe, otherwise the cookie's `session_id` if present |
| Session.Find | chart-app/app/session.py:95-100 | a session is found exactly when the id is non-empty and stored, and it is the stored record |
| Session.NewId | chart-app/app/session.py:87-91 | the iframe id is kept; any other id is replaced by a 22-character URL-safe token of the 16 random bytes |
| Session.IdDraw | chart-app/app/session.py:89-90 | 16 bytes are drawn unless the id is the iframe id |
| Session.FreshIdIsNotIframe | chart-app/app/session.py:89-91 | a drawn id is neither the iframe id nor empty |
| Session.CookieAfterNew | chart-app/app/session.py:89-91 | the cookie gets the new id unless it is the iframe id, in which case the cookie is unchanged |
| Session.NewSessionIsFound | chart-app/app/session.py:82-98 | after `make_new`, the next lookup with the updated cookie finds that same record |
| Session.LogoutId | chart-app/app/session.py:58-62 | a local iframe drops the iframe id and keeps the cookie; otherwise the cookie's id is popped from the cookie and dropped |
| Session.Drop | chart-app/app/session.py:64 | `_sessions.pop(id, None)` removes that key, or nothing when there is no id |
| Session.LogoutForgets | chart-app/app/session.py:57-64 | after logout the request finds no session, and a second logout changes neither the store nor the cookie |
| Session.SessionStore.NewSession | chart-app/app/session.py:87-94 | a fresh record with a new OAuth client is filed under `NewId`, replacing any record there, and the cookie and random draw follow `CookieAfterNew` and `IdDraw`; an iframe-check KeyError changes nothing |
| Session.SessionStore.GetSession | chart-app/app/session.py:66-100 | without `make_new` it returns `Find` and changes nothing; with it, it behaves as `NewSession` |
| Session.SessionStore.Logout | chart-app/app/session.py:57-64 | drops the session `LogoutId` names and updates the cookie; an iframe-check KeyError changes nothing |
| Entropy.Source.TokenBytes | chart-app/app/oauth.py:51 | a draw returns the next `n` bytes of the stream and advances the position by `n` |
| Http.Network.Get | chart-app/app/oauth.py:29 | returns the server's answer for the URL and logs the GET |
| Http.Network.Post | chart-app/app/oauth.py:108-111 | returns the server's answer for the URL and form, and logs the POST |
| Errors.StatusOf | chart-app/app/app.py:202-203 | an `HTTPException` answers with its own status; every other exception answers 500 |
| Base64.TokenUrlSafe | chart-app/app/oauth.py:51 | `token_urlsafe(n)` is ceil(4n/3) characters of the URL-safe alphabet |
| Base64.EncodeShape | chart-app/app/oauth.py:19 | the encoding is ceil(4n/3) alphabet characters followed only by the padding that `rstrip("=")` removes |
| Base64.DecodeEncodeNoPad | chart-app/app/oauth.py:19 | decoding the unpadded encoding gives back the bytes |
| Base64.EncodeDecodeNoPad | chart-app/app/oauth.py:19 | every unpadded string the decoder accepts is the unpadded encoding of its bytes (unused bits must be zero, as section 3.5 of RFC 4648 allows a decoder to demand) |
| Base64.DecodeNoPadInjective | chart-app/app/oauth.py:19 | two unpadded strings that decode to the same bytes are the same string |
| Text.RStrip | chart-app/app/app.py:177 | `rstrip(c)` removes exactly the trailing run of `c` |
| Text.RStripUnique | chart-app/app/app.py:177 | the three properties of `RStrip` determine its result |
| Text.Strip | chart-app/app/app.py:55 | `strip()` gives the text between a leading and a trailing run of whitespace; the result is empty or has no whitespace at either end |
| Text.BeforeColon | chart-app/app/session.py:55 | `partition(":")[0]` is the text before the first colon |
| Text.ReplaceAllAbsent | chart-app/app/app.py:231 | `replace` leaves text without the pattern unchanged |
| Text.Utf8OfAscii | chart-app/app/oauth.py:17 | UTF-8 of ASCII text is one byte per character, equal to its code point |
| UrlLib.QuotePlusUnreserved | chart-app/app/oauth.py:67 | `quote_plus` leaves unreserved text, such as a base64url token, unchanged |
| UrlLib.UnquoteQuotePlus | chart-app/app/oauth.py:67 | percent-decoding undoes `quote_plus`, giving the text's UTF-8 bytes |
| UrlLib.DecodeUrlencode | chart-app/app/oauth.py:67 | decoding `urlencode(d)` gives back every key and value of `d` in order |
| UrlLib.ParseGivesParsed | chart-app/app/oauth.py:34 | every successful `urlparse` result has well-formed components |
| UrlLib.ReparseWithPath | chart-app/app/oauth.py:33-37 | replacing the path with a plain one, then `urlunparse` and `urlparse`, keeps every other component |
| UrlLib.NetlocError | chart-app/app/oauth.py:34 | `urlparse`'s netloc checks: a `[` without `]` or the reverse is "Invalid IPv6 URL", a netloc without brackets passes, and every refusal is a ValueError |
| UrlLib.BracketedHostChecked | chart-app/app/oauth.py:34 | a netloc `[host]` or `[host]:port` passes or fails exactly as `_check_bracketed_host` judges the host |
| UrlLib.TextBeforeBracket | chart-app/app/oauth.py:34 | text in front of the `[` is "Invalid IPv6 URL" |
| UrlLib.BracketedIPv6Passes | chart-app/app/oauth.py:34 | an IPv6 address in brackets, with or without a port, passes |
| UrlLib.BracketedIPv4Refused | chart-app/app/oauth.py:34 | an IPv4 address in brackets, such as `[127.0.0.1]`, is refused |
| UrlLib.BracketedNameRefused | chart-app/app/oauth.py:34 | a name in brackets, such as `[foo]`, is refused as not an address |
| IpAddress.ParseAddress | chart-app/app/oauth.py:34 | `ip_address` tries IPv4 first, then IPv6: the version is V4 exactly for an IPv4 address, V6 for an IPv6 one, and none for anything else |
| IpAddress.IPv4NotIPv6 | chart-app/app/oauth.py:34 | no string is both an IPv4 and an IPv6 address |
| IpAddress.IPv4Chars | chart-app/app/oauth.py:34 | an IPv4 address holds only ASCII digits and dots |
| IpAddress.DottedQuad | chart-app/app/oauth.py:34 | four octets joined by dots are an IPv4 address |
| IpAddress.IPv4Loopback | chart-app/app/oauth.py:34 | `127.0.0.1` is an IPv4 address |
| IpAddress.IPv6Loopback | chart-app/app/oauth.py:34 | `::1` is an IPv6 address |
| IpAddress.NameIsNoAddress | chart-app/app/oauth.py:34 | a lower-case name is neither kind of address |
| Dict.SetKeys | chart-app/app/oauth.py:65-66 | `d[k] = v` keeps the key order, appending `k` only when it is new |
| Dict.SetLookup | chart-app/app/oauth.py:65-66 | after `d[k] = v`, `k` maps to `v` and every other key keeps its value |
| Dict.UpdateKeys | chart-app/app/oauth.py:65-66 | `update` keeps `d`'s keys in place and appends only new keys of `e` |
| Dict.UpdateUnique | chart-app/app/oauth.py:104-105 | `update` of a dict gives a dict |
| Dict.UpdateLookup | chart-app/app/oauth.py:104-105 | after `d.update(e)`, `e`'s keys take `e`'s values and the others keep `d`'s |
| App.Chosen | chart-app/app/app.py:44-49 | the first element of a non-empty list, or the object itself; nothing for a missing entry or an empty list |
| App.FormatName | chart-app/app/app.py:50-55 | the stripped join of the name words whenever that is non-empty, and "Unknown" otherwise; never empty and never padded with whitespace |
| App.FormatWords | chart-app/app/app.py:50-55 | for proper words the name is prefixes, given names and family joined by single spaces |
| App.HumanName | chart-app/app/app.py:42-55 | "unknown" for a falsy entry; otherwise the formatted chosen name, and the caller's `given` list gains the family name when both are present |
| App.Answer | chart-app/app/app.py:189 | a successful redirect answers with its URL; a failure answers with its error |
| App.StartLaunch | chart-app/app/app.py:177-189 | after the new session: `fhir_api` is `iss` without trailing `/`; the redirect uses the FHIR client, the redirect URI, the launch scope and `launch`/`aud`; its state and verifier are stored; tokens, context and the JHE pending pair stay blank; 16 random bytes are drawn, and 32 more when the lookup succeeded |
| App.Launch | chart-app/app/app.py:174-189 | a new session, filed and cookied as `NewSession` says, then `StartLaunch` on it, with the redirect's bytes drawn after the session id's; a failed iframe check draws nothing; the final stream position is stated in both cases |
| App.CompleteFhir | chart-app/app/app.py:224-237 | the context is the token response and the FHIR token its `access_token`; that token is exchanged with `localhost` rewritten in the issuer; success exactly when a non-empty JHE token comes back |
| App.PublicIssuerUnchanged | chart-app/app/app.py:229-233 | when the FHIR URL has no `localhost`, the JHE receives it unchanged as the issuer |
| App.FinishFhirLogin | chart-app/app/app.py:224-237 | stores context, FHIR token and JHE token one after another as `CompleteFhir` produces them, and touches no other field |
| App.FhirCallback | chart-app/app/app.py:192-237 | no session gives a 400 and sends nothing; otherwise the pending state and verifier are cleared before validation, and the token request and `CompleteFhir` follow; the OAuth client and the JHE pending pair are unchanged |
| App.JheIssuer | chart-app/app/app.py:260 | the JHE issuer is the public URL followed by `/o` |
| App.StartJheLogin | chart-app/app/app.py:259-268 | the redirect uses the JHE client, the JHE redirect URI, scope `openid` and no extras; its state and verifier are stored; the FHIR fields stay blank; 16 random bytes are drawn, and 32 more when the lookup succeeded |
| App.JheLogin | chart-app/app/app.py:243-268 | a new session, which holds no JHE token, then `StartJheLogin` on it; the final stream position is the id draw plus the redirect's draw |
| App.CompleteJhe | chart-app/app/app.py:298-303 | the JHE token is the response's `access_token`; success exactly when it is non-empty |
| App.JheCallback | chart-app/app/app.py:271-303 | no session gives a 400; otherwise the pending JHE state and verifier are cleared first, then the token request with no extras, and the token is stored; the FHIR token, context, API, verifier and OAuth client are unchanged |
| App.LogoutRoute | chart-app/app/app.py:167-171 | logs out as `SessionStore.Logout` does, then redirects to `/` |
| App.OwnCallbackPasses | chart-app/app/oauth.py:48-117 | a callback that carries the state its own redirect handed out passes every guard and posts that redirect's verifier |
| App.CallbackIsSingleUse | chart-app/app/app.py:205-208 | once the stored state is cleared, a replayed callback fails and sends no token request, as does one with a foreign state |
| App.JheFlowSucceeds | chart-app/app/app.py:288-303 | a valid JHE callback succeeds exactly when the token POST returns a non-empty `access_token`, which becomes the JHE token |
| AsWritten.Bind | chart-app/app/oauth.py:48-49 | a call that does not bind to the signature is a TypeError |
| AsWritten.BindSucceeds | chart-app/app/oauth.py:72-82 | a call binds exactly when the positional arguments fit, every keyword names an open parameter, and every required open parameter is given |
| AsWritten.UnknownKeyword | chart-app/app/app.py:185 | a keyword the callee does not declare is a TypeError |
| AsWritten.SmartIsRejected | chart-app/app/app.py:222 | neither OAuth helper accepts `smart`, so passing it is a TypeError |
| AsWritten.AuthorizeBinds | chart-app/app/app.py:259-264 | the JHE login's call binds to the authorize helper's signature |
| AsWritten.TokenCallbackBinds | chart-app/app/app.py:288-297 | eight positional arguments plus at most `extra_params` bind to the token helper's signature |
| AsWritten.TakePendingRuns | chart-app/app/app.py:205-208 | taking the pending pair fails on the first read when the state is undeclared, and completes exactly when both fields are declared |
| AsWritten.LaunchFails | chart-app/app/app.py:176-188 | as written, `launch` stops at its first step with a ValueError for `fhir_api` |
| AsWritten.FhirCallbackFails | chart-app/app/app.py:205-223 | as written, `fhir_callback` stops at its first step with an AttributeError for `fhir_oauth_state` |
| AsWritten.JheLoginFails | chart-app/app/app.py:259-267 | as written, `jhe_login` completes its authorize call and then stops with a ValueError for `jhe_oauth_state` |
| AsWritten.JheLoginStopsAtState | chart-app/app/app.py:259-267 | whenever `jhe_token` is declared and `jhe_oauth_state` is not, `jhe_login` stops at step 2 with a ValueError for `jhe_oauth_state` |
| AsWritten.JheCallbackFails | chart-app/app/app.py:284-298 | as written, `jhe_callback` stops at its first step with an AttributeError for `jhe_oauth_state` |
| AsWritten.SmartAloneStillFails | chart-app/app/app.py:179-223 | with the fields declared but `smart` still passed, `launch` and `fhir_callback` stop at their helper call with a TypeError |
| AsWritten.LaunchNeeds | chart-app/app/app.py:174-189 | without `smart`, `launch` completes exactly when `fhir_api`, `fhir_code_verifier` and `fhir_oauth_state` are declared |
| AsWritten.FhirCallbackNeeds | chart-app/app/app.py:192-237 | without `smart`, `fhir_callback` completes exactly when the six fields it uses are declared |
| AsWritten.JheLoginNeeds | chart-app/app/app.py:243-268 | `jhe_login` completes exactly when `jhe_token`, `jhe_oauth_state` and `jhe_code_verifier` are declared |
| AsWritten.JheCallbackNeeds | chart-app/app/app.py:271-303 | `jhe_callback` completes exactly when `jhe_oauth_state`, `jhe_code_verifier` and `jhe_token` are declared |
| AsWritten.HandlersNeedTheirFields | chart-app/app/session.py:25-40 | each handler runs through exactly when the model declares the fields it uses |
| AsWritten.CorrectedRuns | chart-app/app/session.py:25-40 | with all nine fields declared and no `smart`, all four handlers run through every step |

## Left out

- **I/O and async.** Real HTTP, async suspension, and `alru_cache`'s de-duplication of concurrent lookups are
  left out. The network is the `Network` object with fixed answers, and the cache is a sequential LRU.
- **SHA-256 and `secrets`.** SHA-256 is an uninterpreted function. `secrets` reads an unknown byte stream.
  Base64url, the padding strip and urlencoding are modelled concretely.
- **JSON.** JSON is modelled as a map from strings to strings. Nested values of the token response (the launch
  context beyond `access_token`) are not represented.
- **Logging and debug output.** `log.info`/`log.error` calls and the debug `print`s are left out. The
  `r.json()` inside the debug print of an error response is kept, because it can raise.
- **Framework plumbing.**
  - Headers are modelled as a map whose names are already lower-case.
  - The query string is a single-valued map.
  - The cookie is a plain string map; the `SessionMiddleware` signing and the secret key are not modelled.
- **Settings loading.** Loading settings from the environment and `.env`, and the random default of
  `secret_key`, are not modelled; `Settings.Load` takes the values as parameters.
- **`OAuth2Session` internals.** Only the configuration `_new_oauth_session` passes is modelled, as
  `Session.OAuthClient`.
- **The JHE client.** `JupyterHealthClient` and its `get_user` call are not modelled.
- App.FhirCallback: `get_user()` on a client that exists is taken to succeed. Only the `AttributeError` of
  calling it on None is modelled.
- App.JheCallback: `get_user()` on a client that exists is taken to succeed.
- **Other routes.** The `index` and `chart_json` routes, the FHIR resource fetches, JWT decoding and the
  seeding scripts are not part of this model.
- App.JheLogin: the "already logged in" branch (`app.py:247-257`) is not modelled. `make_new=True` always
  returns a blank record, so that branch cannot run; `App.JheLoginStarted` records that the new session holds
  no JHE token.
- Session.SessionStore.GetSession: a non-empty id that is not in the store makes `get_session` fall off the
  end and return None. The model gives `None` for it, as it does for the other no-session cases.
- UrlLib.UrlParse: the NFKC check `_checknetloc` that CPython makes on a non-ASCII netloc is not modelled, for
  want of Unicode normalisation. A netloc whose NFKC form gains one of `/?#@:` is accepted here but raises
  ValueError in CPython.
- Discovery.FallbackUrl: inherits the gap of `UrlLib.UrlParse` above for non-ASCII netlocs.
- UrlLib.BracketedHostError: the "does not appear to be an IPv4 or IPv6 address" message quotes the host as
  `'host'`. That is what `repr` gives only for text without quotes or backslashes.
- UrlLib.BracketedIPv6Passes: takes as a precondition that the host does not start with `v`. An IPv6 address
  never does, but the model does not prove it.
- App.Launch, App.FhirCallback, App.JheLogin, App.JheCallback: these model the handlers as corrected (all
  session fields declared, no `smart` keyword). The code as written is modelled in `AsWritten`, reduced to
  the attribute accesses and calls that decide whether a handler runs.

## Findings

| source | as written | input that shows it | evidently intended | confidence | as-written member | corrected member |
|---|---|---|---|---|---|---|
| chart-app/app/app.py:177 | `launch` assigns `fhir_api` on a `SessionState`, a pydantic model that declares only four fields (`session.py:36-40`); pydantic raises ValueError | any `GET /launch?iss=...&launch=...` that passes the iframe check | `SessionState` also declares `fhir_api`, `fhir_oauth_state`, `fhir_code_verifier`, `jhe_oauth_state` and `jhe_code_verifier` | not executed | AsWritten.LaunchFails | AsWritten.CorrectedRuns |
| chart-app/app/app.py:205 | `fhir_callback` reads `fhir_oauth_state`, which is not declared; AttributeError | `GET /callback?iframe=1&code=c&state=s` after `GET /launch?iframe=1&iss=...&launch=...`, whose failure still leaves the shared `"iframe"` session filed | the same declared fields | not executed | AsWritten.FhirCallbackFails | AsWritten.CorrectedRuns |
| chart-app/app/app.py:266 | `jhe_login` fetches discovery and draws the state and verifier, then fails to store `jhe_oauth_state`; ValueError | any `GET /jhe_login` | the same declared fields | not executed | AsWritten.JheLoginFails | AsWritten.CorrectedRuns |
| chart-app/app/app.py:284 | `jhe_callback` reads `jhe_oauth_state`, which is not declared; AttributeError | `GET /jhe_callback?iframe=1&code=c&state=s` after `GET /jhe_login?iframe=1`, whose failure still leaves the shared `"iframe"` session filed | the same declared fields | not executed | AsWritten.JheCallbackFails | AsWritten.CorrectedRuns |
| chart-app/app/app.py:185 | `launch` passes `smart=True`, which `_openid_authorize_redirect` (`oauth.py:48-49`) does not declare; TypeError even with the fields declared | any `GET /launch?iss=...&launch=...` | no `smart` keyword | not executed | AsWritten.SmartAloneStillFails | AsWritten.LaunchNeeds |
| chart-app/app/app.py:222 | `fhir_callback` passes `smart=True`, which `_openid_token_callback` (`oauth.py:72-82`) does not declare; TypeError even with the fields declared | `GET /callback?iframe=1&code=c&state=s` after an iframe launch, with the fields declared | no `smart` keyword | not executed | AsWritten.SmartIsRejected | AsWritten.FhirCallbackNeeds |
