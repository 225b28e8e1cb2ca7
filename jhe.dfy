/**
 * The token-exchange hop to the JupyterHealth Exchange (section 2.1 of
 * RFC 8693): the FHIR access token is posted as the subject token and the
 * response's `access_token` is the Exchange's own token.
 */
module Jhe {
  import opened Wrappers
  import opened Errors
  import opened Dict
  import opened UrlLib
  import opened Http

  /** The token-type URN for an OAuth access token (section 3 of RFC 8693). */
  const AccessTokenType: string := "urn:ietf:params:oauth:token-type:access_token"
  /** The grant type of a token exchange (section 2.1 of RFC 8693). */
  const TokenExchangeGrant: string := "urn:ietf:params:oauth:grant-type:token-exchange"

  /** The Exchange's token-exchange endpoint. */
  function ExchangeUrl(jheUrl: string): (u: string)
    ensures |u| >= |jheUrl| && u[..|jheUrl|] == jheUrl && u[|jheUrl|..] == "/o/token-exchange"
  {
    jheUrl + "/o/token-exchange"
  }

  /** The form body of the exchange request, in the order the fields are written. */
  function ExchangeForm(jheUrl: string, accessToken: string, iss: string): Pairs
  {
    [("subject_token", accessToken),
     ("iss", iss),
     ("audience", jheUrl),
     ("subject_token_type", AccessTokenType),
     ("requested_token_type", AccessTokenType),
     ("grant_type", TokenExchangeGrant)]
  }

  /**
   * The audience is the Exchange itself, the subject token is the given
   * access token and `iss` goes through unchanged.
   */
  lemma ExchangeFormFields(jheUrl: string, accessToken: string, iss: string)
    ensures Lookup(ExchangeForm(jheUrl, accessToken, iss), "subject_token") == Some(accessToken)
    ensures Lookup(ExchangeForm(jheUrl, accessToken, iss), "iss") == Some(iss)
    ensures Lookup(ExchangeForm(jheUrl, accessToken, iss), "audience") == Some(jheUrl)
  {
    var f := ExchangeForm(jheUrl, accessToken, iss);
    assert Lookup(f[2..], "audience") == Some(jheUrl);
    assert Lookup(f[1..], "audience") == Lookup(f[2..], "audience") by { assert f[1..][1..] == f[2..]; }
  }

  /** Each field name finds the value at its own position. */
  lemma FormAt(jheUrl: string, accessToken: string, iss: string, n: nat)
    requires n < 6
    ensures var f := ExchangeForm(jheUrl, accessToken, iss);
      Lookup(f, f[n].0) == Some(f[n].1)
  {
    FormKeyLengths(jheUrl, accessToken, iss);
    LookupAt(ExchangeForm(jheUrl, accessToken, iss), n);
  }

  /** Both token types are the access-token URN and the grant is the token-exchange grant. */
  lemma ExchangeFormTypes(jheUrl: string, accessToken: string, iss: string)
    ensures Lookup(ExchangeForm(jheUrl, accessToken, iss), "subject_token_type") == Some(AccessTokenType)
    ensures Lookup(ExchangeForm(jheUrl, accessToken, iss), "requested_token_type") == Some(AccessTokenType)
    ensures Lookup(ExchangeForm(jheUrl, accessToken, iss), "grant_type") == Some(TokenExchangeGrant)
  {
    FormAt(jheUrl, accessToken, iss, 3);
    FormAt(jheUrl, accessToken, iss, 4);
    FormAt(jheUrl, accessToken, iss, 5);
  }

  lemma FormKeyLengths(jheUrl: string, accessToken: string, iss: string)
    ensures forall i :: 0 <= i < 6 ==> |ExchangeForm(jheUrl, accessToken, iss)[i].0| == [13, 3, 8, 18, 20, 10][i]
  {
    var f := ExchangeForm(jheUrl, accessToken, iss);
    forall i | 0 <= i < 6 ensures |f[i].0| == [13, 3, 8, 18, 20, 10][i] {
      assert i == 0 || i == 1 || i == 2 || i == 3 || i == 4 || i == 5;
    }
  }

  /** The six field names are distinct, so the form is a dict and a server decoding the body gets each key and value back. */
  lemma ExchangeFormDecodes(jheUrl: string, accessToken: string, iss: string)
    ensures UniqueKeys(ExchangeForm(jheUrl, accessToken, iss))
    ensures DecodeForm(Urlencode(ExchangeForm(jheUrl, accessToken, iss))) == Utf8Items(ExchangeForm(jheUrl, accessToken, iss))
  {
    var f := ExchangeForm(jheUrl, accessToken, iss);
    FormKeyLengths(jheUrl, accessToken, iss);
    DistinctLengths(f);
    DecodeUrlencode(f);
  }

  /**
   * What `exchange_token` makes of the response. A status of 400 or more
   * first has its body parsed as JSON (the debug print), then
   * `raise_for_status` raises for 400 to 599; otherwise the body is parsed
   * and only its `access_token` member is returned.
   */
  function ExchangeResult(f: Fetch): (r: Result<string, Error>)
    ensures f.Failed? ==> r == Err(ConnectError(f.reason))
    ensures f.Reply? && 400 <= f.status < 600 ==> r.Err?
    ensures r.Ok? <==> f.Reply? && !(400 <= f.status < 600) && f.body.Some? && "access_token" in f.body.value
    ensures r.Ok? ==> r.value == f.body.value["access_token"]
  {
    match f
    case Failed(reason) => Err(ConnectError(reason))
    case Reply(status, body) =>
      if status >= 400 && body.None? then Err(JsonError)
      else if 400 <= status < 600 then Err(StatusError(status))
      else if body.None? then Err(JsonError)
      else if "access_token" !in body.value then Err(KeyError("access_token"))
      else Ok(body.value["access_token"])
  }

  /** `exchange_token(jhe_url, access_token, iss)`: one POST, then `ExchangeResult` of its response. */
  method ExchangeToken(net: Network, jheUrl: string, accessToken: string, iss: string) returns (r: Result<string, Error>)
    modifies net
    ensures net.sent == old(net.sent) + [PostRequest(ExchangeUrl(jheUrl), ExchangeForm(jheUrl, accessToken, iss))]
    ensures r == ExchangeResult(net.post(ExchangeUrl(jheUrl), ExchangeForm(jheUrl, accessToken, iss)))
  {
    var f := net.Post(ExchangeUrl(jheUrl), ExchangeForm(jheUrl, accessToken, iss));
    r := ExchangeResult(f);
  }
}
