/**
 * The OpenID configuration lookup (`_get_openid_config`): a GET of
 * `{base}/.well-known/openid-configuration`, falling back to the same path at
 * the root of the base URL, memoised per base string by an LRU cache of
 * 128 entries (`async_lru.alru_cache`'s default size) that keeps only
 * successful lookups.
 */
module Discovery {
  import opened Wrappers
  import opened Text
  import opened Errors
  import opened UrlLib
  import opened Http

  /** The discovery document's path (section 4 of OpenID Connect Discovery 1.0). */
  const WellKnownPath: string := "/.well-known/openid-configuration"

  /**
   * The first URL tried: the base with its trailing slashes removed, then the
   * well-known path.
   */
  function PrimaryUrl(base: string): (u: string)
    ensures |u| >= |WellKnownPath| && u[|u| - |WellKnownPath|..] == WellKnownPath
    ensures var head := u[..|u| - |WellKnownPath|];
      && |head| <= |base| && head == base[..|head|]
      && (head == [] || head[|head| - 1] != '/')
      && forall i :: |head| <= i < |base| ==> base[i] == '/'
  {
    var head := RStrip(base, '/');
    var u := head + WellKnownPath;
    assert u[..|head|] == head && u[|head|..] == WellKnownPath;
    u
  }

  lemma WellKnownPlain()
    ensures PlainPath(WellKnownPath)
  {
    assert StartsWith(WellKnownPath, "/");
    assert WellKnownPath[1] == '.';
    assert forall i :: 0 <= i < |WellKnownPath| ==> WellKnownPath[i] !in {';', '?', '#'} + Unsafe;
  }

  /**
   * The second URL tried: `urlunparse(urlparse(base)._replace(path=...))`. It
   * fails exactly when `urlparse` does, and otherwise parses back to the base
   * URL's scheme, netloc, params, query and fragment with the well-known
   * path in place of the base's path.
   */
  function FallbackUrl(base: string): (r: Result<string, Error>)
    ensures r.Ok? <==> UrlParse(base).Ok?
    ensures r.Err? ==> r.error == UrlParse(base).error
    ensures r.Ok? ==> UrlParse(r.value) == Ok(UrlParse(base).value.(path := WellKnownPath))
  {
    match UrlParse(base)
    case Err(e) => Err(e)
    case Ok(p) =>
      ParseGivesParsed(base);
      WellKnownPlain();
      ReparseWithPath(p, WellKnownPath);
      Ok(UrlUnparse(p.(path := WellKnownPath)))
  }

  /** `client.get(url)` returned and `raise_for_status()` did not raise. */
  predicate Succeeded(f: Fetch)
  {
    f.Reply? && IsSuccess(f.status)
  }

  /** The exception a failed fetch raises: the transport error, or the HTTP status error. */
  function Raised(f: Fetch): (e: Error)
    requires !Succeeded(f)
    ensures f.Failed? ==> e == ConnectError(f.reason)
    ensures f.Reply? ==> e == StatusError(f.status) && !IsSuccess(f.status)
  {
    match f
    case Failed(reason) => ConnectError(reason)
    case Reply(status, _) => StatusError(status)
  }

  /** `r.json()`: the body, or the error a body that is not JSON raises. */
  function ParseJson(f: Fetch): (r: Result<Json, Error>)
    requires f.Reply?
    ensures r.Ok? <==> f.body.Some?
    ensures r.Ok? ==> r.value == f.body.value
  {
    if f.body.Some? then Ok(f.body.value) else Err(JsonError)
  }

  /** The outcome of one uncached lookup and the GET requests it sent, in order. */
  datatype Lookup = Lookup(result: Result<Json, Error>, requests: seq<Outbound>)

  /**
   * The wrapped coroutine: the primary URL is always fetched first; the
   * fallback is fetched only when that fetch failed and the base parses;
   * when both fail, the first failure is raised. A successful fetch's body
   * is parsed outside the `try`, so a body that is not JSON is an error
   * even on the primary URL, without trying the fallback.
   */
  function Discover(get: string -> Fetch, base: string): (d: Lookup)
    ensures 1 <= |d.requests| <= 2 && d.requests[0] == GetRequest(PrimaryUrl(base))
    ensures |d.requests| == 2 <==> !Succeeded(get(PrimaryUrl(base))) && FallbackUrl(base).Ok?
    ensures |d.requests| == 2 ==> d.requests[1] == GetRequest(FallbackUrl(base).value)
    ensures Succeeded(get(PrimaryUrl(base))) ==> d.result == ParseJson(get(PrimaryUrl(base)))
    ensures !Succeeded(get(PrimaryUrl(base))) && FallbackUrl(base).Err? ==> d.result == Err(FallbackUrl(base).error)
    ensures |d.requests| == 2 && !Succeeded(get(FallbackUrl(base).value)) ==> d.result == Err(Raised(get(PrimaryUrl(base))))
    ensures d.result.Ok? ==> var last := get(d.requests[|d.requests| - 1].url);
      Succeeded(last) && last.body == Some(d.result.value)
  {
    var primary := PrimaryUrl(base);
    var f := get(primary);
    if Succeeded(f) then Lookup(ParseJson(f), [GetRequest(primary)])
    else match FallbackUrl(base)
      case Err(e) => Lookup(Err(e), [GetRequest(primary)])
      case Ok(url) =>
        var g := get(url);
        if Succeeded(g) then Lookup(ParseJson(g), [GetRequest(primary), GetRequest(url)])
        else Lookup(Err(Raised(f)), [GetRequest(primary), GetRequest(url)])
  }

  lemma AppendTwo<T>(s: seq<T>, a: T, b: T)
    ensures s + [a] + [b] == s + [a, b]
  {
  }

  /** The coroutine `alru_cache` wraps, run on a miss: try the primary URL, then the fallback. */
  method FetchConfig(net: Network, base: string) returns (result: Result<Json, Error>)
    modifies net
    ensures result == Discover(net.get, base).result
    ensures net.sent == old(net.sent) + Discover(net.get, base).requests
  {
    ghost var sent0 := net.sent;
    var primary := PrimaryUrl(base);
    var f := net.Get(primary);
    if Succeeded(f) {
      result := ParseJson(f);
    } else {
      var fallback := FallbackUrl(base);
      if fallback.Err? {
        result := Err(fallback.error);
      } else {
        var g := net.Get(fallback.value);
        AppendTwo(sent0, GetRequest(primary), GetRequest(fallback.value));
        if Succeeded(g) {
          result := ParseJson(g);
        } else {
          result := Err(Raised(f));
        }
      }
    }
  }

  // ---------------------------------------------------------------------------
  // The memo: an LRU cache in least-recently-used-first order

  /** `alru_cache`'s default `maxsize`. */
  const CacheSize: nat := 128

  type Entries = seq<(string, Json)>

  predicate DistinctKeys(e: Entries)
  {
    forall i, j :: 0 <= i < j < |e| ==> e[i].0 != e[j].0
  }

  function Find(e: Entries, k: string): (r: Option<Json>)
    ensures r.None? <==> forall i :: 0 <= i < |e| ==> e[i].0 != k
    ensures r.Some? ==> (k, r.value) in e
  {
    if e == [] then None else if e[0].0 == k then Some(e[0].1) else Find(e[1..], k)
  }

  /** The entries with key `k` removed, the others kept in order. */
  function Without(e: Entries, k: string): (r: Entries)
    ensures |r| <= |e|
  {
    if e == [] then [] else if e[0].0 == k then Without(e[1..], k) else [e[0]] + Without(e[1..], k)
  }

  /** `Without` keeps exactly the entries whose key is not `k`. */
  lemma {:induction false} WithoutMembers(e: Entries, k: string)
    ensures forall p :: p in Without(e, k) <==> p in e && p.0 != k
  {
    if e != [] {
      WithoutMembers(e[1..], k);
      assert forall p :: p in e <==> p == e[0] || p in e[1..];
    }
  }

  /** A cache hit: the entry moves to the most recently used end (`move_to_end`). */
  function Touch(e: Entries, k: string): Entries
  {
    match Find(e, k)
    case None => e
    case Some(v) => Without(e, k) + [(k, v)]
  }

  /** A new entry at the most recently used end; past `CacheSize` the least recently used one goes. */
  function Admit(e: Entries, k: string, v: Json): Entries
  {
    var e' := e + [(k, v)];
    if |e'| > CacheSize then e'[1..] else e'
  }

  /**
   * A miss: the pending entry is admitted (evicting as `Admit` does) before
   * the lookup runs, and removed again when the lookup raises.
   */
  function AfterMiss(e: Entries, k: string, r: Result<Json, Error>): Entries
  {
    if r.Ok? then Admit(e, k, r.value) else Without(Admit(e, k, map[]), k)
  }

  /** What `await _get_openid_config(base)` returns, given the cache and the server's answers. */
  function Outcome(e: Entries, get: string -> Fetch, base: string): Result<Json, Error>
  {
    match Find(e, base)
    case Some(v) => Ok(v)
    case None => Discover(get, base).result
  }

  /** The GET requests a lookup sends: none on a hit. */
  function Requests(e: Entries, get: string -> Fetch, base: string): seq<Outbound>
  {
    if Find(e, base).Some? then [] else Discover(get, base).requests
  }

  /** The cache after a lookup. */
  function CacheAfter(e: Entries, get: string -> Fetch, base: string): Entries
  {
    if Find(e, base).Some? then Touch(e, base) else AfterMiss(e, base, Discover(get, base).result)
  }

  /** Removing entries brings no key in: a key absent from `e` is absent from `Without(e, k)`. */
  lemma {:induction false} WithoutKeyAbsent(e: Entries, k: string, x: string)
    requires forall i :: 0 <= i < |e| ==> e[i].0 != x
    ensures forall i :: 0 <= i < |Without(e, k)| ==> Without(e, k)[i].0 != x
  {
    if e != [] {
      WithoutKeyAbsent(e[1..], k, x);
      var w := Without(e[1..], k);
      if e[0].0 != k {
        assert forall i :: 0 <= i < |w| ==> ([e[0]] + w)[i + 1] == w[i];
      }
    }
  }

  lemma {:induction false} WithoutDistinct(e: Entries, k: string)
    requires DistinctKeys(e)
    ensures DistinctKeys(Without(e, k))
  {
    if e != [] {
      TailDistinct(e);
      WithoutDistinct(e[1..], k);
      if e[0].0 != k {
        var w := Without(e[1..], k);
        assert forall i :: 0 <= i < |e[1..]| ==> e[1..][i].0 != e[0].0 by {
          forall i | 0 <= i < |e[1..]| ensures e[1..][i].0 != e[0].0 { assert e[1..][i] == e[i + 1]; }
        }
        WithoutKeyAbsent(e[1..], k, e[0].0);
        assert forall i :: 0 <= i < |w| ==> ([e[0]] + w)[i + 1] == w[i];
      }
    }
  }

  lemma {:induction false} FindWithout(e: Entries, k: string, k': string)
    ensures Find(Without(e, k), k') == if k' == k then None else Find(e, k')
  {
    if e != [] {
      FindWithout(e[1..], k, k');
    }
  }

  lemma DistinctFind(e: Entries, k: string, v: Json)
    requires DistinctKeys(e) && (k, v) in e
    ensures Find(e, k) == Some(v)
  {
    var r := Find(e, k);
    var i :| 0 <= i < |e| && e[i] == (k, v);
    var j :| 0 <= j < |e| && e[j] == (k, r.value);
    assert i == j;
  }

  lemma {:induction false} FindAppend(e: Entries, p: (string, Json), k: string)
    ensures Find(e + [p], k) == if Find(e, k).Some? then Find(e, k) else if p.0 == k then Some(p.1) else None
  {
    if e != [] {
      assert (e + [p])[1..] == e[1..] + [p];
      FindAppend(e[1..], p, k);
    }
  }

  lemma AppendDistinct(e: Entries, p: (string, Json))
    requires DistinctKeys(e) && Find(e, p.0).None?
    ensures DistinctKeys(e + [p])
  {
  }

  lemma TailDistinct(e: Entries)
    requires DistinctKeys(e) && e != []
    ensures DistinctKeys(e[1..])
  {
    assert forall i :: 0 <= i < |e| - 1 ==> e[1..][i] == e[i + 1];
  }

  /**
   * A hit keeps the cache a valid LRU of the same size holding the same
   * entries: every key still finds the value it found before.
   */
  lemma TouchKeeps(e: Entries, k: string, k': string)
    requires DistinctKeys(e)
    ensures DistinctKeys(Touch(e, k)) && |Touch(e, k)| == |e|
    ensures Find(Touch(e, k), k') == Find(e, k')
  {
    match Find(e, k)
    case None =>
    case Some(v) =>
      WithoutDistinct(e, k);
      FindWithout(e, k, k);
      AppendDistinct(Without(e, k), (k, v));
      FindWithout(e, k, k');
      FindAppend(Without(e, k), (k, v), k');
      WithoutSize(e, k);
  }

  lemma {:induction false} WithoutSize(e: Entries, k: string)
    requires DistinctKeys(e) && Find(e, k).Some?
    ensures |Without(e, k)| == |e| - 1
  {
    if e[0].0 == k {
      TailDistinct(e);
      WithoutAbsent(e[1..], k);
    } else {
      TailDistinct(e);
      WithoutSize(e[1..], k);
    }
  }

  lemma {:induction false} WithoutAbsent(e: Entries, k: string)
    requires Find(e, k).None?
    ensures Without(e, k) == e
  {
    if e != [] {
      WithoutAbsent(e[1..], k);
    }
  }

  /**
   * A successful miss leaves the looked-up key cached with its document, so
   * the next lookup of the same string is a hit; the cache stays a valid LRU
   * of at most `CacheSize` entries.
   */
  lemma AdmitFinds(e: Entries, k: string, v: Json)
    requires DistinctKeys(e) && |e| <= CacheSize && Find(e, k).None?
    ensures DistinctKeys(Admit(e, k, v)) && |Admit(e, k, v)| <= CacheSize
    ensures Find(Admit(e, k, v), k) == Some(v)
  {
    var e' := e + [(k, v)];
    AppendDistinct(e, (k, v));
    FindAppend(e, (k, v), k);
    if |e'| > CacheSize {
      TailDistinct(e');
      assert (k, v) in e'[1..] by { assert e'[1..][|e'| - 2] == (k, v); }
      DistinctFind(e'[1..], k, v);
    }
  }

  /** A failed miss caches nothing: the key stays absent and the cache a valid LRU. */
  lemma FailedMissForgets(e: Entries, k: string)
    requires DistinctKeys(e) && |e| <= CacheSize && Find(e, k).None?
    ensures DistinctKeys(Without(Admit(e, k, map[]), k)) && |Without(Admit(e, k, map[]), k)| <= CacheSize
    ensures Find(Without(Admit(e, k, map[]), k), k).None?
  {
    AdmitFinds(e, k, map[]);
    WithoutDistinct(Admit(e, k, map[]), k);
    FindWithout(Admit(e, k, map[]), k, k);
  }

  /**
   * The memo: once `base` has resolved, a lookup of the same string right
   * after returns the same document and sends no request.
   */
  lemma ResolvedIsMemoised(e: Entries, get: string -> Fetch, get': string -> Fetch, base: string)
    requires DistinctKeys(e) && |e| <= CacheSize
    requires Outcome(e, get, base).Ok?
    ensures Outcome(CacheAfter(e, get, base), get', base) == Outcome(e, get, base)
    ensures Requests(CacheAfter(e, get, base), get', base) == []
  {
    if Find(e, base).Some? {
      TouchKeeps(e, base, base);
    } else {
      AdmitFinds(e, base, Discover(get, base).result.value);
    }
  }

  class Cache {
    var entries: Entries

    ghost predicate Valid()
      reads this
    {
      DistinctKeys(entries) && |entries| <= CacheSize
    }

    constructor ()
      ensures Valid() && entries == []
    {
      entries := [];
    }

    /** `await _get_openid_config(base)`. */
    method Resolve(net: Network, base: string) returns (r: Result<Json, Error>)
      requires Valid()
      modifies this, net
      ensures Valid()
      ensures r == Outcome(old(entries), net.get, base)
      ensures net.sent == old(net.sent) + Requests(old(entries), net.get, base)
      ensures entries == CacheAfter(old(entries), net.get, base)
    {
      var hit := Find(entries, base);
      if hit.Some? {
        TouchKeeps(entries, base, base);
        entries := Touch(entries, base);
        return Ok(hit.value);
      }
      var result := FetchConfig(net, base);
      if result.Ok? {
        AdmitFinds(entries, base, result.value);
      } else {
        FailedMissForgets(entries, base);
      }
      entries := Admit(entries, base, if result.Ok? then result.value else map[]);
      if result.Err? {
        entries := Without(entries, base);
      }
      r := result;
    }
  }
}
