/**
 * The part of Python's `ipaddress` module that `urlsplit` relies on to vet a
 * bracketed host: whether `ip_address(s)` accepts the string `s`, and as
 * which version. An IPv4 address is a dotted quad of strict decimal octets;
 * an IPv6 address is up to eight hextets with at most one `::`, an optional
 * dotted-quad suffix and an optional `%scope`. Only the verdict is modelled,
 * not the address's integer value.
 */
module IpAddress {
  import opened Wrappers
  import opened Text

  predicate AsciiDigit(c: char)
  {
    '0' <= c <= '9'
  }

  /** `_BaseV6._HEX_DIGITS`. */
  predicate HexChar(c: char)
  {
    '0' <= c <= '9' || 'a' <= c <= 'f' || 'A' <= c <= 'F'
  }

  /** `int(s, 10)` for a string of ASCII digits. */
  function DecimalValue(s: string): (n: nat)
    requires forall i :: 0 <= i < |s| ==> AsciiDigit(s[i])
  {
    if s == [] then 0
    else
      assert AsciiDigit(s[|s| - 1]);
      DecimalValue(s[..|s| - 1]) * 10 + (s[|s| - 1] as int - '0' as int)
  }

  /**
   * `_parse_octet` succeeds: one to three ASCII digits, no leading zero
   * unless the octet is "0" itself, and a value of at most 255.
   */
  predicate IsOctet(s: string)
  {
    && 1 <= |s| <= 3
    && (forall i :: 0 <= i < |s| ==> AsciiDigit(s[i]))
    && (s[0] == '0' ==> s == "0")
    && DecimalValue(s) <= 255
  }

  /** `IPv4Address(s)` succeeds: no `/`, not empty, and exactly four octets separated by `.`. */
  predicate IsIPv4(s: string)
  {
    var octets := Split(s, '.');
    '/' !in s && s != "" && |octets| == 4 && forall i :: 0 <= i < 4 ==> IsOctet(octets[i])
  }

  /** `s.split(c, maxsplit=n)`: at most `n` splits, the last piece keeps the rest. */
  function SplitMax(s: string, c: char, n: nat): (parts: seq<string>)
    ensures 1 <= |parts| <= n + 1
    decreases n
  {
    var i := IndexOf(s, c);
    if n == 0 || i == |s| then [s] else [s[..i]] + SplitMax(s[i + 1..], c, n - 1)
  }

  /** `_parse_hextet` succeeds: one to four hexadecimal digits (`int("", 16)` fails on an empty part). */
  predicate IsHextet(s: string)
  {
    1 <= |s| <= 4 && forall i :: 0 <= i < |s| ==> HexChar(s[i])
  }

  predicate AllHextets(ps: seq<string>)
  {
    forall i :: 0 <= i < |ps| ==> IsHextet(ps[i])
  }

  /** The indices `i` with `lo <= i < hi` of the empty parts, in order: the loop that looks for `::`. */
  function EmptyBetween(parts: seq<string>, lo: nat, hi: nat): (r: seq<nat>)
    requires hi <= |parts|
    ensures forall k :: 0 <= k < |r| ==> lo <= r[k] < hi && parts[r[k]] == ""
    ensures forall i :: lo <= i < hi && parts[i] == "" ==> i in r
    decreases hi - lo
  {
    if lo >= hi then [] else (if parts[lo] == "" then [lo] else []) + EmptyBetween(parts, lo + 1, hi)
  }

  /**
   * The hextet checks of `_ip_int_from_string` on its list of parts: at
   * most nine parts and at most one empty part between the ends. With that
   * `::`, an empty first (last) part must be the `::` itself, at least one
   * hextet must be left for the `::` to stand for, and the parts before and
   * after it are hextets. Without it, exactly eight parts, all hextets.
   */
  predicate HextetsValid(parts: seq<string>)
    requires |parts| >= 3
  {
    var skips := EmptyBetween(parts, 1, |parts| - 1);
    if |parts| > 9 || |skips| > 1 then false
    else if |skips| == 1 then
      var hi := if parts[0] == "" then skips[0] - 1 else skips[0];
      var lo := if parts[|parts| - 1] == "" then |parts| - skips[0] - 2 else |parts| - skips[0] - 1;
      && (parts[0] == "" ==> hi == 0)
      && (parts[|parts| - 1] == "" ==> lo == 0)
      && hi + lo <= 7
      && AllHextets(parts[..hi]) && AllHextets(parts[|parts| - lo..])
    else
      |parts| == 8 && parts[0] != "" && parts[7] != "" && AllHextets(parts)
  }

  /**
   * `_BaseV6._ip_int_from_string(addr)` succeeds: the address is 1 to 45
   * characters and splits on `:` into at least three parts; a last part
   * holding a `.` must be an IPv4 address and counts as the two hextets
   * `'%x'` writes for its halves (always valid, so any valid pair stands in
   * for them here).
   */
  predicate IsIPv6Body(addr: string)
  {
    var parts := SplitMax(addr, ':', 9);
    && addr != "" && |addr| <= 45 && |parts| >= 3
    && var last := parts[|parts| - 1];
       if '.' in last then IsIPv4(last) && HextetsValid(parts[..|parts| - 1] + ["0", "0"])
       else HextetsValid(parts)
  }

  /**
   * `IPv6Address(s)` succeeds: no `/`; after the first `%`, if any, a
   * non-empty scope id with no further `%` (`_split_scope_id`); and a valid
   * address before it.
   */
  predicate IsIPv6(s: string)
  {
    var i := IndexOf(s, '%');
    && '/' !in s
    && (i < |s| ==> i + 1 < |s| && '%' !in s[i + 1..])
    && IsIPv6Body(s[..i])
  }

  datatype Version = V4 | V6

  /** `ip_address(s)` for a string: IPv4 is tried first, then IPv6; None when both raise. */
  function ParseAddress(s: string): (v: Option<Version>)
    ensures v == Some(V4) <==> IsIPv4(s)
    ensures v == Some(V6) <==> !IsIPv4(s) && IsIPv6(s)
    ensures v.None? <==> !IsIPv4(s) && !IsIPv6(s)
  {
    if IsIPv4(s) then Some(V4) else if IsIPv6(s) then Some(V6) else None
  }

  /** A string without `:` splits into one part and so is never an IPv6 address. */
  lemma NoColonNotIPv6(s: string)
    requires ':' !in s
    ensures !IsIPv6(s)
  {
    var i := IndexOf(s, '%');
    var addr := s[..i];
    assert ':' !in addr by {
      forall k | 0 <= k < |addr| ensures addr[k] != ':' { assert addr[k] == s[k]; }
    }
    assert IndexOf(addr, ':') == |addr|;
    assert SplitMax(addr, ':', 9) == [addr];
  }

  /**
   * The two syntaxes never overlap: an IPv4 address holds no `:`, so the
   * order in which `ip_address` tries them does not change its verdict.
   */
  lemma IPv4NotIPv6(s: string)
    requires IsIPv4(s)
    ensures !IsIPv6(s)
  {
    IPv4Chars(s);
    assert ':' !in s;
    NoColonNotIPv6(s);
  }

  /** An IPv4 address is made of ASCII digits and dots only. */
  lemma IPv4Chars(s: string)
    requires IsIPv4(s)
    ensures forall j :: 0 <= j < |s| ==> AsciiDigit(s[j]) || s[j] == '.'
  {
    var octets := Split(s, '.');
    forall j | 0 <= j < |s| ensures AsciiDigit(s[j]) || s[j] == '.' {
      if s[j] != '.' {
        CharInSomePiece(s, j);
        var k :| 0 <= k < |octets| && s[j] in octets[k];
        assert IsOctet(octets[k]);
        var m :| 0 <= m < |octets[k]| && octets[k][m] == s[j];
        assert AsciiDigit(octets[k][m]);
      }
    }
  }

  /** A character other than the separator lands in one of the pieces. */
  lemma {:induction false} CharInSomePiece(s: string, j: int)
    requires 0 <= j < |s| && s[j] != '.'
    ensures exists k :: 0 <= k < |Split(s, '.')| && s[j] in Split(s, '.')[k]
    decreases |s|
  {
    var i := IndexOf(s, '.');
    var parts := Split(s, '.');
    if i == |s| {
      assert parts[0] == s;
    } else if j < i {
      assert parts[0] == s[..i] && s[..i][j] == s[j];
    } else {
      assert j > i;
      CharInSomePiece(s[i + 1..], j - i - 1);
      var k :| 0 <= k < |Split(s[i + 1..], '.')| && s[i + 1..][j - i - 1] in Split(s[i + 1..], '.')[k];
      assert parts[k + 1] == Split(s[i + 1..], '.')[k];
    }
  }

  /** Four octets joined by `.` make an IPv4 address. */
  lemma DottedQuad(a: string, b: string, c: string, d: string)
    requires IsOctet(a) && IsOctet(b) && IsOctet(c) && IsOctet(d)
    ensures IsIPv4(a + ("." + (b + ("." + (c + ("." + d))))))
  {
    var s := a + ("." + (b + ("." + (c + ("." + d)))));
    OctetClean(a);
    OctetClean(b);
    OctetClean(c);
    OctetClean(d);
    SplitFour(a, b, c, d);
    assert '/' !in s by {
      forall k | 0 <= k < |s| ensures s[k] != '/' {
        assert s[k] == '.' || s[k] in a || s[k] in b || s[k] in c || s[k] in d;
      }
    }
  }

  /** An octet holds neither `.` nor `/`. */
  lemma OctetClean(s: string)
    requires IsOctet(s)
    ensures '.' !in s && '/' !in s
  {
    forall k | 0 <= k < |s| ensures s[k] != '.' && s[k] != '/' { assert AsciiDigit(s[k]); }
  }

  /** The IPv4 loopback address in its usual spelling. */
  lemma IPv4Loopback()
    ensures IsIPv4("127.0.0.1")
  {
    OctetExamples();
    DottedQuad("127", "0", "0", "1");
    assert "127" + ("." + ("0" + ("." + ("0" + ("." + "1"))))) == "127.0.0.1";
  }

  /** Four pieces without `.`, joined by `.`, split back into those pieces. */
  lemma SplitFour(a: string, b: string, c: string, d: string)
    requires '.' !in a && '.' !in b && '.' !in c && '.' !in d
    ensures Split(a + ("." + (b + ("." + (c + ("." + d))))), '.') == [a, b, c, d]
  {
    SplitNone(d, '.');
    SplitAt(c, '.', d);
    SplitAt(b, '.', c + ("." + d));
    SplitAt(a, '.', b + ("." + (c + ("." + d))));
  }

  lemma OctetExamples()
    ensures IsOctet("127") && IsOctet("0") && IsOctet("1")
  {
    assert DecimalValue("127") == 127 by {
      assert "127"[..2] == "12" && "12"[..1] == "1" && "1"[..0] == "";
    }
    assert DecimalValue("1") == 1 by { assert "1"[..0] == ""; }
    assert DecimalValue("0") == 0 by { assert "0"[..0] == ""; }
  }

  /** The IPv6 loopback address in its usual spelling. */
  lemma IPv6Loopback()
    ensures IsIPv6("::1")
  {
    var v6 := "::1";
    assert IndexOf(v6, '%') == 3 && v6[..3] == v6;
    assert IndexOf(v6, ':') == 0 && v6[1..] == ":1";
    assert IndexOf(":1", ':') == 0 && ":1"[1..] == "1";
    assert IndexOf("1", ':') == 1;
    var parts := SplitMax(v6, ':', 9);
    assert parts == ["", "", "1"];
    assert EmptyBetween(parts, 1, 2) == [1];
    assert parts[3 - 1..] == ["1"];
    assert IsHextet("1");
  }

  /** A name is neither kind of address. */
  lemma NameIsNoAddress(s: string)
    requires s != "" && forall i :: 0 <= i < |s| ==> 'a' <= s[i] <= 'z'
    ensures !IsIPv4(s) && !IsIPv6(s)
  {
    assert '.' !in s && ':' !in s;
    assert IndexOf(s, '.') == |s|;
    assert Split(s, '.') == [s];
    NoColonNotIPv6(s);
  }
}
