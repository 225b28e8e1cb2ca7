/**
 * The application's configuration: the values read from the environment and
 * the ones derived from them (the two OAuth redirect URIs and the public URL
 * of the JupyterHealth Exchange, which falls back to its internal URL).
 */
module Settings {
  import opened Text

  /** `Settings.app_host`'s default. */
  const DefaultAppHost: string := "http://127.0.0.1:8000"

  /** The settings once loaded and validated. */
  datatype Config = Config(
    appHost: string,
    secretKey: string,
    fhirClientId: string,
    fhirApiBase: string,
    jheUrl: string,
    jheClientId: string,
    jhePublicUrl: string)

  /**
   * The `_public_url` validator, which also runs on the default "": an empty
   * public URL becomes the internal JHE URL, any other value is kept.
   */
  function PublicUrl(v: string, jheUrl: string): (r: string)
    ensures v == "" ==> r == jheUrl
    ensures v != "" ==> r == v
  {
    if v == "" then jheUrl else v
  }

  /** Resolving the public URL twice changes nothing: its result is never empty unless both inputs are. */
  lemma PublicUrlIdempotent(v: string, jheUrl: string)
    ensures PublicUrl(PublicUrl(v, jheUrl), jheUrl) == PublicUrl(v, jheUrl)
    ensures PublicUrl(v, jheUrl) == "" <==> v == "" && jheUrl == ""
  {
  }

  /**
   * The settings built from the environment's values: `appHost` is
   * `DefaultAppHost` when unset and `jhePublicUrl` passes through
   * `PublicUrl`. The required fields are given; the random default of
   * `secret_key` is passed in.
   */
  function Load(appHost: string, appHostSet: bool, secretKey: string, fhirClientId: string,
                fhirApiBase: string, jheUrl: string, jheClientId: string, jhePublicUrl: string): (c: Config)
    ensures c.appHost == (if appHostSet then appHost else DefaultAppHost)
    ensures c.jhePublicUrl == PublicUrl(jhePublicUrl, jheUrl)
    ensures c.jheUrl == jheUrl && c.fhirClientId == fhirClientId && c.jheClientId == jheClientId
    ensures c.secretKey == secretKey && c.fhirApiBase == fhirApiBase
  {
    Config(if appHostSet then appHost else DefaultAppHost, secretKey, fhirClientId, fhirApiBase,
           jheUrl, jheClientId, PublicUrl(jhePublicUrl, jheUrl))
  }

  /** `fhir_redirect_uri`: the FHIR callback route under the public host. */
  function FhirRedirectUri(c: Config): (r: string)
    ensures StartsWith(r, c.appHost)
    ensures r[|c.appHost|..] == "/callback"
  {
    c.appHost + "/callback"
  }

  /** `jhe_redirect_uri`: the JHE callback route under the public host. */
  function JheRedirectUri(c: Config): (r: string)
    ensures StartsWith(r, c.appHost)
    ensures r[|c.appHost|..] == "/jhe_callback"
  {
    c.appHost + "/jhe_callback"
  }

  /** The two providers are never sent to the same callback route. */
  lemma RedirectUrisDiffer(c: Config)
    ensures FhirRedirectUri(c) != JheRedirectUri(c)
  {
    assert |FhirRedirectUri(c)| != |JheRedirectUri(c)|;
  }

  /** With no `APP_HOST` in the environment the FHIR provider calls back to the local development server. */
  lemma DefaultRedirect(secretKey: string, fhirClientId: string, fhirApiBase: string, jheUrl: string,
                        jheClientId: string, jhePublicUrl: string)
    ensures FhirRedirectUri(Load("", false, secretKey, fhirClientId, fhirApiBase, jheUrl, jheClientId, jhePublicUrl))
            == "http://127.0.0.1:8000/callback"
  {
  }
}
