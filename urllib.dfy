/**
 * The parts of Python's `urllib.parse` the OAuth client uses: `quote_plus`
 * and `urlencode` for the authorize query, `urlparse` and `urlunparse` for
 * the discovery fallback (CPython 3.12 behaviour, but for the NFKC check of
 * non-ASCII netlocs). Beside them, a decoder for
 * `application/x-www-form-urlencoded` text (the parsing a server applies to the
 * query), used only to state what the encoder preserves.
 */
module UrlLib {
  import opened Wrappers
  import opened Text
  import opened Errors
  import opened Dict
  import IpAddress

  // ---------------------------------------------------------------------------
  // quote_plus and urlencode

  /** The characters `quote` never escapes: ASCII letters, digits and `_.-~`. */
  predicate Unreserved(c: char)
  {
    'A' <= c <= 'Z' || 'a' <= c <= 'z' || '0' <= c <= '9' || c == '_' || c == '.' || c == '-' || c == '~'
  }

  predicate AllUnreserved(s: string)
  {
    forall i :: 0 <= i < |s| ==> Unreserved(s[i])
  }

  /** The characters `quote_plus` can produce. */
  predicate QuotedChar(c: char)
  {
    Unreserved(c) || c == '+' || c == '%'
  }

  predicate AllQuoted(s: string)
  {
    forall i :: 0 <= i < |s| ==> QuotedChar(s[i])
  }

  /** An upper-case hexadecimal digit, as `quote` writes them. */
  function HexDigit(n: int): (c: char)
    requires 0 <= n < 16
    ensures Unreserved(c)
  {
    if n < 10 then ('0' as int + n) as char else ('A' as int + n - 10) as char
  }

  predicate IsHex(c: char)
  {
    '0' <= c <= '9' || 'a' <= c <= 'f' || 'A' <= c <= 'F'
  }

  /** The value of a hexadecimal digit of either case. */
  function HexValue(c: char): (n: int)
    requires IsHex(c)
    ensures 0 <= n < 16
  {
    if '0' <= c <= '9' then c as int - '0' as int
    else if 'a' <= c <= 'f' then c as int - 'a' as int + 10
    else c as int - 'A' as int + 10
  }

  lemma HexRoundTrip(n: int)
    requires 0 <= n < 16
    ensures IsHex(HexDigit(n)) && HexValue(HexDigit(n)) == n
  {
  }

  /** `%XX` for each byte. */
  function EscapeBytes(bs: seq<Byte>): (r: string)
    ensures |r| == 3 * |bs|
    ensures AllQuoted(r)
  {
    if bs == [] then ""
    else ['%', HexDigit(bs[0] / 16), HexDigit(bs[0] % 16)] + EscapeBytes(bs[1..])
  }

  /** One character as `quote_plus(s, safe="")` writes it. */
  function QuoteChar(c: char): (r: string)
    ensures r != [] && AllQuoted(r)
  {
    if Unreserved(c) then [c] else if c == ' ' then "+" else EscapeBytes(Utf8Char(c))
  }

  /**
   * `quote_plus(s)`: unreserved characters kept, a space written `+`, every
   * other character written as the `%XX` escapes of its UTF-8 bytes.
   */
  function QuotePlus(s: string): (r: string)
    ensures AllQuoted(r)
    ensures |r| >= |s|
  {
    if s == [] then "" else QuoteChar(s[0]) + QuotePlus(s[1..])
  }

  /** Text made only of unreserved characters (a base64url token, say) is not changed by quoting. */
  lemma {:induction false} QuotePlusUnreserved(s: string)
    requires AllUnreserved(s)
    ensures QuotePlus(s) == s
  {
    if s != [] {
      assert AllUnreserved(s[1..]) by {
        assert forall i :: 0 <= i < |s[1..]| ==> s[1..][i] == s[i + 1];
      }
      QuotePlusUnreserved(s[1..]);
      assert s == [s[0]] + s[1..];
    }
  }

  /** `quote_plus(k) + "=" + quote_plus(v)`, one item of `urlencode`. */
  function EncodeItem(item: (string, string)): string
  {
    QuotePlus(item.0) + "=" + QuotePlus(item.1)
  }

  function EncodeItems(d: Pairs): (r: seq<string>)
    ensures |r| == |d|
    ensures forall i :: 0 <= i < |d| ==> r[i] == EncodeItem(d[i])
  {
    if d == [] then [] else [EncodeItem(d[0])] + EncodeItems(d[1..])
  }

  /** `urlencode(d)`: the encoded items in the dict's order, joined by `&`. */
  function Urlencode(d: Pairs): string
  {
    Join("&", EncodeItems(d))
  }

  // ---------------------------------------------------------------------------
  // Decoding, the reference the encoder is measured against

  /**
   * Percent-decoding with `+` read as a space (`unquote_to_bytes` after
   * replacing `+`): `%XX` becomes that byte, a `%` not followed by two hex
   * digits stays as it is, and any other character becomes its UTF-8 bytes.
   */
  function UnquotePlusToBytes(s: string): seq<Byte>
    decreases |s|
  {
    if s == [] then []
    else if s[0] == '+' then [0x20] + UnquotePlusToBytes(s[1..])
    else if s[0] == '%' && |s| >= 3 && IsHex(s[1]) && IsHex(s[2]) then
      [HexValue(s[1]) * 16 + HexValue(s[2])] + UnquotePlusToBytes(s[3..])
    else Utf8Char(s[0]) + UnquotePlusToBytes(s[1..])
  }

  /**
   * The `application/x-www-form-urlencoded` parser (as the URL Standard
   * defines it, up to the final UTF-8 decoding): split on `&`, skip empty
   * pieces, split each at its first `=`, then percent-decode both halves.
   */
  function DecodeForm(q: string): seq<(seq<Byte>, seq<Byte>)>
  {
    DecodePieces(Split(q, '&'))
  }

  function DecodePieces(ps: seq<string>): seq<(seq<Byte>, seq<Byte>)>
  {
    if ps == [] then []
    else if ps[0] == "" then DecodePieces(ps[1..])
    else [DecodePiece(ps[0])] + DecodePieces(ps[1..])
  }

  function DecodePiece(p: string): (seq<Byte>, seq<Byte>)
  {
    var i := IndexOf(p, '=');
    if i == |p| then (UnquotePlusToBytes(p), [])
    else (UnquotePlusToBytes(p[..i]), UnquotePlusToBytes(p[i + 1..]))
  }

  /** The UTF-8 bytes of each key and value, in order: what a server recovers from `urlencode(d)`. */
  function Utf8Items(d: Pairs): (r: seq<(seq<Byte>, seq<Byte>)>)
    ensures |r| == |d|
    ensures forall i :: 0 <= i < |d| ==> r[i] == (Utf8(d[i].0), Utf8(d[i].1))
  {
    if d == [] then [] else [(Utf8(d[0].0), Utf8(d[0].1))] + Utf8Items(d[1..])
  }

  lemma {:induction false} UnquoteEscapes(bs: seq<Byte>, t: string)
    ensures UnquotePlusToBytes(EscapeBytes(bs) + t) == bs + UnquotePlusToBytes(t)
  {
    if bs != [] {
      var b := bs[0];
      var e := EscapeBytes(bs) + t;
      HexRoundTrip(b / 16);
      HexRoundTrip(b % 16);
      assert e == ['%', HexDigit(b / 16), HexDigit(b % 16)] + (EscapeBytes(bs[1..]) + t);
      assert e[0] == '%' && e[1] == HexDigit(b / 16) && e[2] == HexDigit(b % 16);
      assert e[3..] == EscapeBytes(bs[1..]) + t;
      assert HexValue(e[1]) * 16 + HexValue(e[2]) == b;
      assert UnquotePlusToBytes(e) == [b] + UnquotePlusToBytes(e[3..]);
      UnquoteEscapes(bs[1..], t);
      assert UnquotePlusToBytes(e) == [b] + (bs[1..] + UnquotePlusToBytes(t));
      assert bs == [b] + bs[1..];
    } else {
      assert EscapeBytes(bs) + t == t;
    }
  }

  lemma UnquoteQuoteChar(c: char, t: string)
    ensures UnquotePlusToBytes(QuoteChar(c) + t) == Utf8Char(c) + UnquotePlusToBytes(t)
  {
    if Unreserved(c) || c == ' ' {
      assert (QuoteChar(c) + t)[1..] == t;
    } else {
      UnquoteEscapes(Utf8Char(c), t);
    }
  }

  /** Percent-decoding undoes `quote_plus`, giving the UTF-8 bytes of the text. */
  lemma {:induction false} UnquoteQuotePlus(s: string)
    ensures UnquotePlusToBytes(QuotePlus(s)) == Utf8(s)
  {
    if s != [] {
      UnquoteQuoteChar(s[0], QuotePlus(s[1..]));
      UnquoteQuotePlus(s[1..]);
    }
  }

  lemma {:induction false} SplitNoSep(s: string, c: char)
    requires c !in s
    ensures Split(s, c) == [s]
  {
  }

  lemma {:induction false} SplitJoin(ps: seq<string>, c: char)
    requires |ps| >= 1
    requires forall i :: 0 <= i < |ps| ==> c !in ps[i]
    ensures Split(Join([c], ps), c) == ps
    decreases |ps|
  {
    if |ps| > 1 {
      var s := Join([c], ps);
      var rest := Join([c], ps[1..]);
      assert s == ps[0] + ([c] + rest);
      IndexOfAnyAppend(ps[0], [c] + rest, {c});
      assert IndexOf(s, c) == |ps[0]|;
      assert s[..|ps[0]|] == ps[0];
      assert s[|ps[0]| + 1..] == rest;
      SplitJoin(ps[1..], c);
      assert ps == [ps[0]] + ps[1..];
    }
  }

  /** Quoted text joined by a separator it cannot contain splits back at that separator. */
  lemma QuotedSplit(k: string, v: string, c: char)
    requires AllQuoted(k) && !QuotedChar(c)
    ensures IndexOf(k + [c] + v, c) == |k|
    ensures (k + [c] + v)[..|k|] == k && (k + [c] + v)[|k| + 1..] == v
  {
    assert k + [c] + v == k + ([c] + v);
    IndexOfAnyAppend(k, [c] + v, {c});
  }

  lemma NoAmpersand(s: string)
    requires AllQuoted(s)
    ensures '&' !in s
  {
    assert forall i :: 0 <= i < |s| ==> s[i] != '&';
  }

  lemma DecodeItem(item: (string, string))
    ensures EncodeItem(item) != ""
    ensures '&' !in EncodeItem(item)
    ensures DecodePiece(EncodeItem(item)) == (Utf8(item.0), Utf8(item.1))
  {
    var k, v := QuotePlus(item.0), QuotePlus(item.1);
    var p := EncodeItem(item);
    assert p == k + ['='] + v;
    QuotedSplit(k, v, '=');
    NoAmpersand(k);
    NoAmpersand(v);
    UnquoteQuotePlus(item.0);
    UnquoteQuotePlus(item.1);
  }

  lemma {:induction false} DecodeItems(d: Pairs)
    ensures DecodePieces(EncodeItems(d)) == Utf8Items(d)
  {
    if d != [] {
      DecodeItem(d[0]);
      DecodeItems(d[1..]);
      assert EncodeItems(d)[1..] == EncodeItems(d[1..]);
    }
  }

  /**
   * Decoding `urlencode(d)` gives back every key and value of `d`, in order,
   * as UTF-8 bytes: quoting loses nothing and the separators `&` and `=` never
   * leak out of a key or a value.
   */
  lemma DecodeUrlencode(d: Pairs)
    ensures DecodeForm(Urlencode(d)) == Utf8Items(d)
  {
    var ps := EncodeItems(d);
    if d == [] {
      SplitNoSep("", '&');
    } else {
      forall i | 0 <= i < |ps| ensures '&' !in ps[i] {
        DecodeItem(d[i]);
      }
      SplitJoin(ps, '&');
      DecodeItems(d);
    }
  }

  // ---------------------------------------------------------------------------
  // urlparse and urlunparse

  /** The six fields of `urllib.parse.ParseResult`. */
  datatype UrlParts = UrlParts(scheme: string, netloc: string, path: string, params: string, query: string, fragment: string)

  /** The schemes whose path may carry `;params`. */
  predicate UsesParams(scheme: string)
  {
    scheme in UsesParamsList
  }

  /** `urllib.parse.uses_params`. */
  const UsesParamsList: set<string> := {"", "ftp", "hdl", "prospero", "http", "imap", "https", "shttp", "rtsp",
                                    "rtsps", "rtspu", "sip", "sips", "mms", "sftp", "tel"}

  /** The schemes `urlunsplit` writes with `//` even without a netloc. */
  predicate UsesNetloc(scheme: string)
  {
    scheme in UsesNetlocList
  }

  /** `urllib.parse.uses_netloc`. */
  const UsesNetlocList: set<string> := {"", "ftp", "http", "gopher", "nntp", "telnet", "imap", "wais", "file", "mms",
                                    "https", "shttp", "snews", "prospero", "rtsp", "rtsps", "rtspu", "rsync",
                                    "svn", "svn+ssh", "sftp", "nfs", "git", "git+ssh", "ws", "wss", "itms-services"}

  /** The characters `urlsplit` deletes wherever they occur. */
  const Unsafe: set<char> := {'\t', '\r', '\n'}

  predicate NoneOf(s: string, cs: set<char>)
  {
    forall i :: 0 <= i < |s| ==> s[i] !in cs
  }

  /** The C0 controls and space, stripped from the front of the URL. */
  predicate C0OrSpace(c: char)
  {
    c <= ' '
  }

  function LStripC0(s: string): (r: string)
    ensures |r| <= |s| && r == s[|s| - |r|..]
    ensures r == [] || !C0OrSpace(r[0])
  {
    if s != [] && C0OrSpace(s[0]) then LStripC0(s[1..]) else s
  }

  /** `url.replace(c, "")` for tab, carriage return and line feed. */
  function RemoveUnsafe(s: string): (r: string)
    ensures NoneOf(r, Unsafe)
  {
    if s == [] then [] else if s[0] in Unsafe then RemoveUnsafe(s[1..]) else [s[0]] + RemoveUnsafe(s[1..])
  }

  predicate AsciiAlpha(c: char)
  {
    'A' <= c <= 'Z' || 'a' <= c <= 'z'
  }

  /** `urllib.parse.scheme_chars`. */
  predicate SchemeChar(c: char)
  {
    AsciiAlpha(c) || '0' <= c <= '9' || c == '+' || c == '-' || c == '.'
  }

  /** A scheme as `urlsplit` returns it: empty, or a lower-case letter followed by lower-case scheme characters. */
  predicate SchemeForm(s: string)
  {
    s == [] || ('a' <= s[0] <= 'z' && forall i :: 0 <= i < |s| ==> SchemeChar(s[i]) && !('A' <= s[i] <= 'Z'))
  }

  /**
   * The scheme step of `urlsplit`: the text before the first `:` when it is
   * non-empty, starts with an ASCII letter and holds only scheme characters,
   * lower-cased; otherwise no scheme.
   */
  function SplitScheme(u: string): (r: (string, string))
    ensures SchemeForm(r.0)
    ensures |r.1| <= |u| && r.1 == u[|u| - |r.1|..]
  {
    var i := IndexOf(u, ':');
    if 0 < i < |u| && AsciiAlpha(u[0]) && forall j :: 0 <= j < i ==> SchemeChar(u[j]) then
      (AsciiLower(u[..i]), u[i + 1..])
    else ("", u)
  }

  /** `s.partition(c)` without the separator: the text before the first `c`, and after it ("" when absent). */
  function Partition(s: string, c: char): (r: (string, string))
    ensures c !in r.0
    ensures |r.0| + |r.1| <= |s| && r.0 == s[..|r.0|] && r.1 == s[|s| - |r.1|..]
  {
    var i := IndexOf(s, c);
    if i < |s| then (s[..i], s[i + 1..]) else (s, "")
  }

  /** `_splitnetloc(url, 2)`, given the text after `//`: the netloc runs to the first `/`, `?` or `#`. */
  function SplitNetloc(s: string): (r: (string, string))
    ensures NoneOf(r.0, {'/', '?', '#'})
    ensures r.0 + r.1 == s
  {
    var j := IndexOfAny(s, {'/', '?', '#'});
    assert s[..j] + s[j..] == s;
    (s[..j], s[j..])
  }

  /**
   * `_splitparams(path)`, called only when the path holds a `;`: the params
   * start at the first `;` after the last `/`.
   */
  function SplitParams(path: string): (r: (string, string))
    requires ';' in path
    ensures NoneOf(r.1, {'/'})
    ensures |r.0| + |r.1| <= |path| && r.0 == path[..|r.0|] && r.1 == path[|path| - |r.1|..]
  {
    var j := LastIndexOf(path, '/');
    var start := if j < 0 then 0 else j;
    var k := IndexOf(path[start..], ';');
    if start + k == |path| then (path, "") else (path[..start + k], path[start + k + 1..])
  }

  /** The netloc check of `urlsplit`: a `[` without `]`, or the reverse, is refused. */
  predicate BracketsBalanced(netloc: string)
  {
    ('[' in netloc) == (']' in netloc)
  }

  /** The length of the run of hexadecimal digits at the start of `s`. */
  function HexRun(s: string): (n: nat)
    ensures n <= |s|
    ensures forall i :: 0 <= i < n ==> IpAddress.HexChar(s[i])
    ensures n < |s| ==> !IpAddress.HexChar(s[n])
  {
    if s != [] && IpAddress.HexChar(s[0]) then 1 + HexRun(s[1..]) else 0
  }

  /**
   * `re.match(r"\Av[a-fA-F0-9]+\..+\Z", host)`: a `v`, one or more
   * hexadecimal digits, a `.`, then at least one character other than a line
   * feed (which `.` does not match).
   */
  predicate IsIPvFuture(host: string)
  {
    && |host| >= 1 && host[0] == 'v'
    && var k := 1 + HexRun(host[1..]);
       k >= 2 && k + 1 < |host| && host[k] == '.' && '\n' !in host[k + 1..]
  }

  /**
   * `_check_bracketed_host(hostname)`: a host starting with `v` must be an
   * IPvFuture literal; any other must be an address `ip_address` accepts
   * and not an IPv4 one. The last message quotes the host as `repr` does
   * for text without quotes or backslashes.
   */
  function BracketedHostError(host: string): (e: Option<Error>)
    ensures e.Some? ==> e.value.ValueError?
  {
    if StartsWith(host, "v") then
      if IsIPvFuture(host) then None else Some(ValueError("IPvFuture address is invalid"))
    else
      var version := IpAddress.ParseAddress(host);
      if version == Some(IpAddress.V4) then Some(ValueError("An IPv4 address cannot be in brackets"))
      else if version == Some(IpAddress.V6) then None
      else Some(ValueError("'" + host + "' does not appear to be an IPv4 or IPv6 address"))
  }

  /**
   * `_check_bracketed_netloc(netloc)`: the host and port follow the last
   * `@`. When they hold a `[`, nothing may precede it, the host runs to the
   * first `]`, and whatever follows that must start with `:`; otherwise the
   * host runs to the first `:`. The host then goes to `BracketedHostError`.
   */
  function BracketedNetlocError(netloc: string): (e: Option<Error>)
    ensures e.Some? ==> e.value.ValueError?
  {
    var hostPort := netloc[LastIndexOf(netloc, '@') + 1..];
    var i := IndexOf(hostPort, '[');
    if i == |hostPort| then BracketedHostError(Partition(hostPort, ':').0)
    else if i > 0 then Some(ValueError("Invalid IPv6 URL"))
    else
      var (host, port) := Partition(hostPort[1..], ']');
      if port != "" && port[0] != ':' then Some(ValueError("Invalid IPv6 URL"))
      else BracketedHostError(host)
  }

  /**
   * The bracket checks `urlsplit` makes on the netloc: a `[` without `]`, or
   * the reverse, is refused; when both are present the netloc goes through
   * `BracketedNetlocError`. Every refusal is a ValueError, and a netloc
   * without brackets always passes.
   */
  function NetlocError(netloc: string): (e: Option<Error>)
    ensures e.Some? ==> e.value.ValueError?
    ensures !BracketsBalanced(netloc) ==> e == Some(ValueError("Invalid IPv6 URL"))
    ensures '[' !in netloc && ']' !in netloc ==> e.None?
  {
    if !BracketsBalanced(netloc) then Some(ValueError("Invalid IPv6 URL"))
    else if '[' in netloc then BracketedNetlocError(netloc)
    else None
  }

  /** The netloc step of `urlsplit`: after a leading `//`, up to the first `/`, `?` or `#`. */
  function SplitAuthority(rest: string): (r: (string, string))
    ensures NoneOf(r.0, {'/', '?', '#'})
  {
    if StartsWith(rest, "//") then SplitNetloc(rest[2..]) else ("", rest)
  }

  /** The fragment, query and params steps, on what follows the netloc. */
  function SplitPath(scheme: string, netloc: string, tail: string): UrlParts
  {
    var (beforeFragment, fragment) := Partition(tail, '#');
    var (path, query) := Partition(beforeFragment, '?');
    var (path', params) := if UsesParams(scheme) && ';' in path then SplitParams(path) else (path, "");
    UrlParts(scheme, netloc, path', params, query, fragment)
  }

  /**
   * `urlparse(url)`: strip leading controls and spaces, delete tabs and line
   * breaks, split off the scheme, the netloc (after `//`), the fragment (after
   * the first `#`), the query (after the first `?`) and, for the schemes in
   * `uses_params`, the params. A netloc that `NetlocError` refuses is a
   * ValueError.
   */
  function UrlParse(url: string): Result<UrlParts, Error>
  {
    var u := RemoveUnsafe(LStripC0(url));
    var (scheme, rest) := SplitScheme(u);
    var (netloc, tail) := SplitAuthority(rest);
    match NetlocError(netloc)
    case Some(e) => Err(e)
    case None => Ok(SplitPath(scheme, netloc, tail))
  }

  /** The netloc step of `urlunsplit`: `//` and the netloc in front of the path when there is an authority. */
  function WithAuthority(scheme: string, netloc: string, url: string): string
  {
    if netloc != "" then "//" + netloc + (if url != "" && url[0] != '/' then "/" + url else url)
    else if StartsWith(url, "//") then "//" + url
    else if scheme != "" && UsesNetloc(scheme) && (url == "" || url[0] == '/') then "//" + url
    else url
  }

  /** `urlunsplit((scheme, netloc, url, query, fragment))`. */
  function UrlUnsplit(scheme: string, netloc: string, url: string, query: string, fragment: string): string
  {
    (if scheme != "" then scheme + ":" else "")
    + WithAuthority(scheme, netloc, url)
    + (if query != "" then "?" + query else "")
    + (if fragment != "" then "#" + fragment else "")
  }

  /** `urlunparse(parts)`: the params go back after a `;`, then `urlunsplit`. */
  function UrlUnparse(p: UrlParts): string
  {
    UrlUnsplit(p.scheme, p.netloc, if p.params != "" then p.path + (";" + p.params) else p.path, p.query, p.fragment)
  }

  /** What every successful `urlparse` result looks like. */
  predicate Parsed(p: UrlParts)
  {
    && SchemeForm(p.scheme)
    && NoneOf(p.netloc, {'/', '?', '#'} + Unsafe) && NetlocError(p.netloc).None?
    && NoneOf(p.path, {'?', '#'} + Unsafe)
    && NoneOf(p.params, {'/', '?', '#'} + Unsafe) && (p.params != "" ==> UsesParams(p.scheme))
    && NoneOf(p.query, {'#'} + Unsafe)
    && NoneOf(p.fragment, Unsafe)
  }

  lemma NoneOfSlice(s: string, cs: set<char>, i: int, j: int)
    requires NoneOf(s, cs) && 0 <= i <= j <= |s|
    ensures NoneOf(s[i..j], cs)
  {
    assert forall k :: 0 <= k < j - i ==> s[i..j][k] == s[i + k];
  }

  lemma NoneOfConcat(a: string, b: string, cs: set<char>)
    ensures NoneOf(a + b, cs) <==> NoneOf(a, cs) && NoneOf(b, cs)
  {
    if NoneOf(a + b, cs) {
      assert forall k :: 0 <= k < |b| ==> b[k] == (a + b)[|a| + k];
      assert forall k :: 0 <= k < |a| ==> a[k] == (a + b)[k];
    }
  }

  lemma NoneOfChar(s: string, c: char, cs: set<char>)
    requires NoneOf(s, cs) && c in cs
    ensures c !in s
  {
    assert forall k :: 0 <= k < |s| ==> s[k] != c;
  }

  lemma NoneOfSubset(s: string, cs: set<char>, ds: set<char>)
    requires NoneOf(s, cs) && ds <= cs
    ensures NoneOf(s, ds)
  {
  }

  lemma AuthorityClean(rest: string)
    requires NoneOf(rest, Unsafe)
    ensures NoneOf(SplitAuthority(rest).0, Unsafe) && NoneOf(SplitAuthority(rest).1, Unsafe)
  {
    if StartsWith(rest, "//") {
      NoneOfSlice(rest, Unsafe, 2, |rest|);
      NoneOfConcat(SplitAuthority(rest).0, SplitAuthority(rest).1, Unsafe);
    }
  }

  lemma PathClean(scheme: string, netloc: string, tail: string)
    requires NoneOf(tail, Unsafe)
    ensures var p := SplitPath(scheme, netloc, tail);
      && NoneOf(p.path, {'?', '#'} + Unsafe)
      && NoneOf(p.params, {'/', '?', '#'} + Unsafe) && (p.params != "" ==> UsesParams(scheme))
      && NoneOf(p.query, {'#'} + Unsafe)
      && NoneOf(p.fragment, Unsafe)
  {
    var (beforeFragment, fragment) := Partition(tail, '#');
    NoneOfSlice(tail, Unsafe, 0, |beforeFragment|);
    NoneOfSlice(tail, Unsafe, |tail| - |fragment|, |tail|);
    var (path, query) := Partition(beforeFragment, '?');
    var cs := {'#'} + Unsafe;
    assert NoneOf(beforeFragment, cs);
    NoneOfSlice(beforeFragment, cs, 0, |path|);
    NoneOfSlice(beforeFragment, cs, |beforeFragment| - |query|, |beforeFragment|);
    var ds := {'?', '#'} + Unsafe;
    assert NoneOf(path, ds);
    if UsesParams(scheme) && ';' in path {
      var (path', params) := SplitParams(path);
      NoneOfSlice(path, ds, 0, |path'|);
      NoneOfSlice(path, ds, |path| - |params|, |path|);
      assert NoneOf(params, {'/'} + ds);
    }
  }

  /** Every successful `urlparse` gives parts of the shape `Parsed` describes. */
  lemma ParseGivesParsed(url: string)
    requires UrlParse(url).Ok?
    ensures Parsed(UrlParse(url).value)
  {
    var u := RemoveUnsafe(LStripC0(url));
    var (scheme, rest) := SplitScheme(u);
    NoneOfSlice(u, Unsafe, |u| - |rest|, |u|);
    var (netloc, tail) := SplitAuthority(rest);
    AuthorityClean(rest);
    NoneOfConcat(netloc, [], {'/', '?', '#'});
    assert NoneOf(netloc, {'/', '?', '#'} + Unsafe);
    PathClean(scheme, netloc, tail);
  }

  // ---------------------------------------------------------------------------
  // Reparsing after a path replacement

  lemma Assoc(a: string, b: string, c: string)
    ensures (a + b) + c == a + (b + c)
  {
  }

  lemma PartitionAt(a: string, c: char, b: string)
    requires c !in a
    ensures Partition(a + ([c] + b), c) == (a, b)
  {
    var s := a + ([c] + b);
    assert forall j :: 0 <= j < |a| ==> a[j] !in {c};
    IndexOfAnyAppend(a, [c] + b, {c});
    assert s[..|a|] == a && s[|a| + 1..] == b;
  }

  /** Without an `@` the host and port are the whole netloc. */
  lemma NoUserinfo(n: string)
    requires '@' !in n
    ensures LastIndexOf(n, '@') == -1
  {
  }

  /**
   * A netloc that is a bracketed host, optionally followed by `:port`,
   * passes or fails exactly as its host does under `BracketedHostError`.
   */
  lemma BracketedHostChecked(host: string, port: string)
    requires '[' !in host && ']' !in host && '@' !in host
    requires '@' !in port && (port == "" || port[0] == ':')
    ensures NetlocError("[" + (host + ("]" + port))) == BracketedHostError(host)
  {
    var n := "[" + (host + ("]" + port));
    assert '@' !in n by {
      forall k | 0 <= k < |n| ensures n[k] != '@' {
        if 1 <= k < 1 + |host| { assert n[k] == host[k - 1]; }
        else if k > 1 + |host| { assert n[k] == port[k - 2 - |host|]; }
      }
    }
    assert NetlocError(n) == BracketedNetlocError(n) by {
      assert n[0] == '[' && n[1 + |host|] == ']';
    }
    assert BracketedNetlocError(n) == BracketedHostError(host) by {
      NoUserinfo(n);
      assert n[-1 + 1..] == n;
      assert IndexOf(n, '[') == 0;
      assert n[1..] == host + ([']'] + port);
      PartitionAt(host, ']', port);
    }
  }

  /** Text in front of the bracket is refused, whatever the brackets hold. */
  lemma TextBeforeBracket(before: string, rest: string)
    requires before != [] && '[' !in before && '@' !in before && '@' !in rest && ']' in rest
    ensures NetlocError(before + ("[" + rest)) == Some(ValueError("Invalid IPv6 URL"))
  {
    var n := before + ("[" + rest);
    assert '@' !in n by {
      forall k | 0 <= k < |n| ensures n[k] != '@' {
        if k < |before| { assert n[k] == before[k]; }
        else if k > |before| { assert n[k] == rest[k - 1 - |before|]; }
      }
    }
    assert NetlocError(n) == BracketedNetlocError(n) by {
      assert n[|before|] == '[';
      var k :| 0 <= k < |rest| && rest[k] == ']';
      assert n[|before| + 1 + k] == ']';
    }
    assert IndexOf(n, '[') == |before| by {
      assert forall j :: 0 <= j < |before| ==> before[j] !in {'['};
      IndexOfAnyAppend(before, "[" + rest, {'['});
    }
    NoUserinfo(n);
    assert n[-1 + 1..] == n;
  }

  /** An IPv6 address in brackets passes, with or without a port. */
  lemma BracketedIPv6Passes(host: string, port: string)
    requires IpAddress.IsIPv6(host) && !StartsWith(host, "v")
    requires '[' !in host && ']' !in host && '@' !in host
    requires '@' !in port && (port == "" || port[0] == ':')
    ensures NetlocError("[" + (host + ("]" + port))).None?
  {
    if IpAddress.IsIPv4(host) { IpAddress.IPv4NotIPv6(host); }
    BracketedHostChecked(host, port);
  }

  /** An IPv4 address in brackets is refused. */
  lemma BracketedIPv4Refused(host: string)
    requires IpAddress.IsIPv4(host)
    ensures NetlocError("[" + (host + "]")) == Some(ValueError("An IPv4 address cannot be in brackets"))
  {
    IpAddress.IPv4Chars(host);
    assert '[' !in host && ']' !in host && '@' !in host by {
      forall j | 0 <= j < |host| ensures host[j] != '[' && host[j] != ']' && host[j] != '@' {
        assert IpAddress.AsciiDigit(host[j]) || host[j] == '.';
      }
    }
    assert !StartsWith(host, "v") by {
      assert IpAddress.AsciiDigit(host[0]) || host[0] == '.';
      assert host[..1] == [host[0]] != "v";
    }
    IpAddress.IPv4NotIPv6(host);
    assert IpAddress.ParseAddress(host) == Some(IpAddress.V4);
    assert host + ("]" + "") == host + "]";
    BracketedHostChecked(host, "");
  }

  /** A name in brackets (other than an IPvFuture one) is refused as no address at all. */
  lemma BracketedNameRefused(host: string)
    requires host != "" && host[0] != 'v' && forall i :: 0 <= i < |host| ==> 'a' <= host[i] <= 'z'
    ensures NetlocError("[" + (host + "]")) == Some(ValueError("'" + host + "' does not appear to be an IPv4 or IPv6 address"))
  {
    IpAddress.NameIsNoAddress(host);
    assert '[' !in host && ']' !in host && '@' !in host by {
      forall j | 0 <= j < |host| ensures host[j] != '[' && host[j] != ']' && host[j] != '@' {
        assert 'a' <= host[j] <= 'z';
      }
    }
    assert !StartsWith(host, "v") by {
      assert host[..1] == [host[0]] != "v";
    }
    assert IpAddress.ParseAddress(host).None?;
    assert host + ("]" + "") == host + "]";
    BracketedHostChecked(host, "");
  }

  lemma PartitionAbsent(a: string, c: char)
    requires c !in a
    ensures Partition(a, c) == (a, "")
  {
  }

  lemma {:induction false} LastIndexOfAppend(a: string, b: string, c: char)
    requires c !in b
    ensures LastIndexOf(a + b, c) == LastIndexOf(a, c)
    decreases |b|
  {
    if b != [] {
      var s := a + b;
      assert s[|s| - 1] == b[|b| - 1];
      assert s[..|s| - 1] == a + b[..|b| - 1];
      LastIndexOfAppend(a, b[..|b| - 1], c);
    } else {
      assert a + b == a;
    }
  }

  /** The last `/` of a path starting with `/`, followed by `;params`, lies in the path. */
  lemma LastSlashInPath(path: string, params: string)
    requires StartsWith(path, "/") && NoneOf(params, {'/'})
    ensures 0 <= LastIndexOf(path + ([';'] + params), '/') < |path|
  {
    var b := [';'] + params;
    NoneOfConcat([';'], params, {'/'});
    NoneOfChar(b, '/', {'/'});
    LastIndexOfAppend(path, b, '/');
    LastIndexOfAtLeast(path, '/', 0);
  }

  lemma {:induction false} LastIndexOfAtLeast(s: string, c: char, i: nat)
    requires i < |s| && s[i] == c
    ensures LastIndexOf(s, c) >= i
    decreases |s|
  {
    if s[|s| - 1] != c {
      LastIndexOfAtLeast(s[..|s| - 1], c, i);
    }
  }

  /** `_splitparams` recovers the params written after a path that has no `;`. */
  lemma SplitParamsAfter(path: string, params: string)
    requires StartsWith(path, "/") && ';' !in path && NoneOf(params, {'/'})
    ensures SplitParams(path + (";" + params)) == (path, params)
  {
    var b := [';'] + params;
    var s := path + b;
    assert ';' in s by { assert s[|path|] == ';'; }
    LastSlashInPath(path, params);
    var j := LastIndexOf(s, '/');
    assert s[j..] == path[j..] + b;
    assert forall k :: 0 <= k < |path| - j ==> path[j..][k] !in {';'} by {
      assert forall k :: 0 <= k < |path| - j ==> path[j..][k] == path[j + k];
    }
    IndexOfAnyAppend(path[j..], b, {';'});
    assert IndexOf(s[j..], ';') == |path| - j;
    assert s[..|path|] == path;
    assert s[|path| + 1..] == params;
  }

  /** With a netloc, or a scheme that `urlunsplit` writes with `//`, the URL carries an authority part. */
  predicate HasAuthority(p: UrlParts)
  {
    p.netloc != "" || (p.scheme != "" && UsesNetloc(p.scheme))
  }

  function SchemePart(p: UrlParts): string
  {
    if p.scheme != "" then p.scheme + ":" else ""
  }

  function AuthorityPart(p: UrlParts): string
  {
    if HasAuthority(p) then "//" + p.netloc else ""
  }

  function ParamsPart(p: UrlParts): string
  {
    if p.params != "" then p.path + (";" + p.params) else p.path
  }

  function QueryPart(p: UrlParts): string
  {
    if p.query != "" then "?" + p.query else ""
  }

  function FragmentPart(p: UrlParts): string
  {
    if p.fragment != "" then "#" + p.fragment else ""
  }

  /** What follows the netloc in `urlunparse`'s output. */
  function TailPart(p: UrlParts): string
  {
    ParamsPart(p) + QueryPart(p) + FragmentPart(p)
  }

  /** A path that `urlunparse` writes as it is and `urlparse` reads back as it is. */
  predicate PlainPath(path: string)
  {
    StartsWith(path, "/") && !StartsWith(path, "//") && NoneOf(path, {';', '?', '#'} + Unsafe)
  }

  lemma TailStart(p: UrlParts)
    requires PlainPath(p.path)
    ensures StartsWith(ParamsPart(p), "/") && !StartsWith(ParamsPart(p), "//")
    ensures StartsWith(TailPart(p), "/") && !StartsWith(TailPart(p), "//")
  {
    var body := ParamsPart(p);
    var t := TailPart(p);
    assert t[0] == body[0] == '/';
    if |t| >= 2 {
      NoneOfChar(p.path, ';', {';', '?', '#'} + Unsafe);
      assert t[1] == if |body| >= 2 then body[1] else (QueryPart(p) + FragmentPart(p))[0];
      assert |body| >= 2 ==> body[1] == if |p.path| >= 2 then p.path[1] else ';';
    }
  }

  /** The authority step of `urlunsplit` for a path that starts with a single `/`. */
  lemma AuthorityLayout(scheme: string, netloc: string, url: string)
    requires StartsWith(url, "/") && !StartsWith(url, "//")
    ensures WithAuthority(scheme, netloc, url) ==
      (if netloc != "" || (scheme != "" && UsesNetloc(scheme)) then "//" + netloc else "") + url
  {
    if netloc == "" && scheme != "" && UsesNetloc(scheme) {
      assert "//" + netloc == "//";
    }
  }

  /** The layout of `urlunparse` for a path that starts with a single `/`. */
  lemma UnparseLayout(p: UrlParts)
    requires PlainPath(p.path)
    ensures UrlUnparse(p) == SchemePart(p) + (AuthorityPart(p) + TailPart(p))
  {
    TailStart(p);
    var s, a, b, q, f := SchemePart(p), AuthorityPart(p), ParamsPart(p), QueryPart(p), FragmentPart(p);
    AuthorityLayout(p.scheme, p.netloc, b);
    assert UrlUnparse(p) == s + (a + b) + q + f;
    Assoc(s, a + b, q);
    Assoc(a, b, q);
    Assoc(s, a + (b + q), f);
    Assoc(a, b + q, f);
    Assoc(b, q, f);
  }

  lemma TailClean(p: UrlParts)
    requires Parsed(p) && PlainPath(p.path)
    ensures NoneOf(TailPart(p), Unsafe)
    ensures NoneOf(ParamsPart(p), {'?', '#'})
  {
    var cs := {'?', '#'} + Unsafe;
    NoneOfSubset(p.path, {';', '?', '#'} + Unsafe, cs);
    NoneOfSubset(p.params, {'/', '?', '#'} + Unsafe, cs);
    NoneOfConcat(";", p.params, cs);
    NoneOfConcat(p.path, ";" + p.params, cs);
    NoneOfSubset(ParamsPart(p), cs, Unsafe);
    NoneOfSubset(p.query, {'#'} + Unsafe, Unsafe);
    NoneOfConcat("?", p.query, Unsafe);
    NoneOfConcat("#", p.fragment, Unsafe);
    NoneOfConcat(ParamsPart(p), QueryPart(p), Unsafe);
    NoneOfConcat(ParamsPart(p) + QueryPart(p), FragmentPart(p), Unsafe);
  }

  /** The fragment, query and params steps read back what `urlunparse` wrote after the netloc. */
  lemma SplitPathBack(p: UrlParts)
    requires Parsed(p) && PlainPath(p.path)
    ensures SplitPath(p.scheme, p.netloc, TailPart(p)) == p
  {
    var body, q := ParamsPart(p), QueryPart(p);
    TailClean(p);
    var before := body + q;
    NoneOfConcat("?", p.query, {'#'});
    NoneOfSubset(body, {'?', '#'}, {'#'});
    NoneOfConcat(body, q, {'#'});
    NoneOfChar(before, '#', {'#'});
    if p.fragment != "" {
      PartitionAt(before, '#', p.fragment);
    } else {
      assert TailPart(p) == before;
      PartitionAbsent(before, '#');
    }
    NoneOfChar(body, '?', {'?', '#'});
    if p.query != "" {
      PartitionAt(body, '?', p.query);
    } else {
      assert before == body;
      PartitionAbsent(body, '?');
    }
    NoneOfChar(p.path, ';', {';', '?', '#'} + Unsafe);
    if p.params != "" {
      assert ';' in body by { assert body[|p.path|] == ';'; }
      NoneOfSubset(p.params, {'/', '?', '#'} + Unsafe, {'/'});
      SplitParamsAfter(p.path, p.params);
    }
  }

  lemma {:induction false} RemoveUnsafeClean(s: string)
    requires NoneOf(s, Unsafe)
    ensures RemoveUnsafe(s) == s
  {
    if s != [] {
      NoneOfSlice(s, Unsafe, 1, |s|);
      RemoveUnsafeClean(s[1..]);
      assert s == [s[0]] + s[1..];
    }
  }

  lemma {:induction false} AsciiLowerOfLower(s: string)
    requires forall i :: 0 <= i < |s| ==> !('A' <= s[i] <= 'Z')
    ensures AsciiLower(s) == s
  {
  }

  lemma SchemeBackPresent(scheme: string, rest: string)
    requires scheme != "" && SchemeForm(scheme)
    ensures SplitScheme(scheme + ":" + rest) == (scheme, rest)
  {
    var u := scheme + (":" + rest);
    Assoc(scheme, ":", rest);
    assert forall j :: 0 <= j < |scheme| ==> scheme[j] !in {':'};
    IndexOfAnyAppend(scheme, ":" + rest, {':'});
    var i := |scheme|;
    assert IndexOf(u, ':') == i;
    assert forall j :: 0 <= j < i ==> u[j] == scheme[j];
    assert u[..i] == scheme;
    assert u[i + 1..] == rest;
    AsciiLowerOfLower(scheme);
  }

  lemma SchemeBackAbsent(rest: string)
    requires StartsWith(rest, "/")
    ensures SplitScheme(rest) == ("", rest)
  {
  }

  /** The scheme step reads back the scheme `urlunsplit` wrote in front of the rest. */
  lemma SchemeBack(scheme: string, rest: string)
    requires SchemeForm(scheme) && StartsWith(rest, "/")
    ensures SplitScheme((if scheme != "" then scheme + ":" else "") + rest) == (scheme, rest)
  {
    if scheme != "" {
      SchemeBackPresent(scheme, rest);
    } else {
      assert "" + rest == rest;
      SchemeBackAbsent(rest);
    }
  }

  lemma AuthorityBackPresent(netloc: string, t: string)
    requires NoneOf(netloc, {'/', '?', '#'}) && StartsWith(t, "/")
    ensures SplitAuthority(("//" + netloc) + t) == (netloc, t)
  {
    var r := ("//" + netloc) + t;
    assert StartsWith(r, "//");
    var s := r[2..];
    assert s == netloc + t;
    assert forall j :: 0 <= j < |netloc| ==> netloc[j] !in {'/', '?', '#'};
    IndexOfAnyAppend(netloc, t, {'/', '?', '#'});
    assert IndexOfAny(s, {'/', '?', '#'}) == |netloc|;
    assert s[..|netloc|] == netloc;
    assert s[|netloc|..] == t;
  }

  lemma AuthorityBackAbsent(t: string)
    requires !StartsWith(t, "//")
    ensures SplitAuthority(t) == ("", t)
  {
  }

  /** The netloc step reads back the netloc `urlunsplit` wrote after `//`. */
  lemma AuthorityBack(p: UrlParts)
    requires Parsed(p) && PlainPath(p.path)
    ensures SplitAuthority(AuthorityPart(p) + TailPart(p)) == (p.netloc, TailPart(p))
  {
    var t := TailPart(p);
    TailStart(p);
    if HasAuthority(p) {
      NoneOfSubset(p.netloc, {'/', '?', '#'} + Unsafe, {'/', '?', '#'});
      AuthorityBackPresent(p.netloc, t);
    } else {
      assert AuthorityPart(p) + t == t;
      AuthorityBackAbsent(t);
    }
  }

  lemma UnparseClean(p: UrlParts)
    requires Parsed(p) && PlainPath(p.path)
    ensures NoneOf(SchemePart(p) + (AuthorityPart(p) + TailPart(p)), Unsafe)
  {
    TailClean(p);
    NoneOfConcat(p.scheme, ":", Unsafe);
    NoneOfSubset(p.netloc, {'/', '?', '#'} + Unsafe, Unsafe);
    NoneOfConcat("//", p.netloc, Unsafe);
    NoneOfConcat(AuthorityPart(p), TailPart(p), Unsafe);
    NoneOfConcat(SchemePart(p), AuthorityPart(p) + TailPart(p), Unsafe);
  }

  /**
   * `urlunparse` then `urlparse` gives back every component when the path is
   * replaced by one starting with a single `/` and holding no `;`, `?`, `#`
   * or line break: the scheme, netloc, params, query and fragment survive.
   */
  lemma ReparseWithPath(p: UrlParts, path: string)
    requires Parsed(p) && PlainPath(path)
    ensures UrlParse(UrlUnparse(p.(path := path))) == Ok(p.(path := path))
  {
    var q := p.(path := path);
    NoneOfSubset(path, {';', '?', '#'} + Unsafe, {'?', '#'} + Unsafe);
    assert Parsed(q);
    Reparse(q);
  }

  /** A parsed URL whose path starts with a single `/` survives `urlunparse` then `urlparse`. */
  lemma Reparse(q: UrlParts)
    requires Parsed(q) && PlainPath(q.path)
    ensures UrlParse(UrlUnparse(q)) == Ok(q)
  {
    var x := UrlUnparse(q);
    var r := AuthorityPart(q) + TailPart(q);
    UnparseUntouched(q);
    SchemeBack(q.scheme, r);
    AuthorityBack(q);
    SplitPathBack(q);
  }

  /** The text `urlunparse` writes has no leading control or space and nothing `urlparse` deletes. */
  lemma UnparseUntouched(q: UrlParts)
    requires Parsed(q) && PlainPath(q.path)
    ensures StartsWith(AuthorityPart(q) + TailPart(q), "/")
    ensures UrlUnparse(q) == SchemePart(q) + (AuthorityPart(q) + TailPart(q))
    ensures RemoveUnsafe(LStripC0(UrlUnparse(q))) == UrlUnparse(q)
  {
    var x := UrlUnparse(q);
    UnparseLayout(q);
    UnparseClean(q);
    TailStart(q);
    var r := AuthorityPart(q) + TailPart(q);
    assert r[0] == '/';
    assert x[0] == if q.scheme != "" then q.scheme[0] else '/';
    assert LStripC0(x) == x;
    RemoveUnsafeClean(x);
  }
}
