/**
 * Outbound HTTP as the core sees it. A server answers a request with a
 * status and a body that is or is not a JSON object, or the request fails in
 * transport (`httpx.ConnectError` and the like). The answers are fixed
 * functions of the request; the `Network` object records every request sent,
 * so "no request" and "the POST went out" can be stated.
 */
module Http {
  import opened Wrappers
  import opened Dict

  /** A JSON object with string members: the discovery document, a token response. */
  type Json = map<string, string>

  /** What one request brings back: `body` is None when `r.json()` would raise. */
  datatype Fetch = Reply(status: int, body: Option<Json>) | Failed(reason: string)

  /** One request sent: a GET, or a POST with a form-encoded body. */
  datatype Outbound = GetRequest(url: string) | PostRequest(url: string, form: Pairs)

  /** `httpx.Response.is_success`: `raise_for_status` raises for every other status. */
  predicate IsSuccess(status: int)
  {
    200 <= status < 300
  }

  class Network {
    /** The server's answer to a GET of a URL. */
    const get: string -> Fetch
    /** The server's answer to a POST of a form to a URL. */
    const post: (string, Pairs) -> Fetch
    /** Every request sent so far, oldest first. */
    var sent: seq<Outbound>

    constructor (get: string -> Fetch, post: (string, Pairs) -> Fetch)
      ensures this.get == get && this.post == post && sent == []
    {
      this.get := get;
      this.post := post;
      sent := [];
    }

    method Get(url: string) returns (f: Fetch)
      modifies this
      ensures f == get(url)
      ensures sent == old(sent) + [GetRequest(url)]
    {
      f := get(url);
      sent := sent + [GetRequest(url)];
    }

    method Post(url: string, form: Pairs) returns (f: Fetch)
      modifies this
      ensures f == post(url, form)
      ensures sent == old(sent) + [PostRequest(url, form)]
    {
      f := post(url, form);
      sent := sent + [PostRequest(url, form)];
    }
  }
}
