/**
 * `base64.urlsafe_b64encode` (section 5 of RFC 4648: the alphabet with `-` and
 * `_` for `+` and `/`, `=` padding to a multiple of four), the `.rstrip("=")`
 * that both `secrets.token_urlsafe` and the PKCE challenge apply to it, and a
 * decoder for the unpadded form that undoes it.
 */
module Base64 {
  import opened Wrappers
  import opened Text

  /** The characters of the URL-safe alphabet. */
  predicate IsUrlSafeChar(c: char)
  {
    'A' <= c <= 'Z' || 'a' <= c <= 'z' || '0' <= c <= '9' || c == '-' || c == '_'
  }

  predicate IsUrlSafe(s: string)
  {
    forall i :: 0 <= i < |s| ==> IsUrlSafeChar(s[i])
  }

  /** The character for a six-bit value. */
  function Symbol(v: int): (c: char)
    requires 0 <= v < 64
    ensures IsUrlSafeChar(c)
  {
    if v < 26 then ('A' as int + v) as char
    else if v < 52 then ('a' as int + v - 26) as char
    else if v < 62 then ('0' as int + v - 52) as char
    else if v == 62 then '-'
    else '_'
  }

  /** The six-bit value of an alphabet character. */
  function SymbolValue(c: char): (v: int)
    requires IsUrlSafeChar(c)
    ensures 0 <= v < 64 && Symbol(v) == c
  {
    if 'A' <= c <= 'Z' then c as int - 'A' as int
    else if 'a' <= c <= 'z' then c as int - 'a' as int + 26
    else if '0' <= c <= '9' then c as int - '0' as int + 52
    else if c == '-' then 62
    else 63
  }

  lemma SymbolRoundTrip(v: int)
    requires 0 <= v < 64
    ensures SymbolValue(Symbol(v)) == v
  {
  }

  /** Three bytes as four characters. */
  function Quad(a: Byte, b: Byte, c: Byte): string
  {
    [Symbol(a / 4), Symbol((a % 4) * 16 + b / 16), Symbol((b % 16) * 4 + c / 64), Symbol(c % 64)]
  }

  /** `base64.urlsafe_b64encode(b)`, padded with `=` to a multiple of four characters. */
  function Encode(b: seq<Byte>): string
    decreases |b|
  {
    if |b| >= 3 then Quad(b[0], b[1], b[2]) + Encode(b[3..])
    else if |b| == 2 then [Symbol(b[0] / 4), Symbol((b[0] % 4) * 16 + b[1] / 16), Symbol((b[1] % 16) * 4), '=']
    else if |b| == 1 then [Symbol(b[0] / 4), Symbol((b[0] % 4) * 16), '=', '=']
    else ""
  }

  /** `base64.urlsafe_b64encode(b).rstrip("=")`. */
  function EncodeNoPad(b: seq<Byte>): string
  {
    RStrip(Encode(b), '=')
  }

  /** The padding `Encode` appends after the data characters. */
  function Padding(n: nat): string
  {
    if n % 3 == 1 then "==" else if n % 3 == 2 then "=" else ""
  }

  lemma PaddingPeriodic(n: nat)
    requires n >= 3
    ensures Padding(n) == Padding(n - 3)
  {
    assert n % 3 == (n - 3) % 3;
  }

  lemma UrlSafeConcat(a: string, b: string)
    requires IsUrlSafe(a) && IsUrlSafe(b)
    ensures IsUrlSafe(a + b)
  {
    assert forall i :: 0 <= i < |a + b| ==> (a + b)[i] == if i < |a| then a[i] else b[i - |a|];
  }

  lemma QuadShape(a: Byte, b: Byte, c: Byte)
    ensures |Quad(a, b, c)| == 4 && IsUrlSafe(Quad(a, b, c))
  {
  }

  /** The remainder cases of `Encode`: two or three data characters, then the padding. */
  lemma TailShape(b: seq<Byte>)
    requires 1 <= |b| <= 2
    ensures Encode(b) == EncodeNoPad(b) + Padding(|b|)
    ensures |EncodeNoPad(b)| == |b| + 1
    ensures IsUrlSafe(EncodeNoPad(b))
  {
    var e := Encode(b);
    RStripUnique(e, '=', e[..|b| + 1]);
  }

  /** Padding is stripped off a group of four in front of data that is all from the alphabet. */
  lemma StripPadding(q: string, t: string, n: nat)
    requires |q| == 4 && IsUrlSafe(q) && IsUrlSafe(t)
    ensures RStrip(q + t + Padding(n), '=') == q + t
  {
    var body := q + t;
    UrlSafeConcat(q, t);
    assert IsUrlSafeChar(body[|body| - 1]);
    var e := body + Padding(n);
    assert e[..|body|] == body;
    assert forall i :: |body| <= i < |e| ==> e[i] == '=';
    RStripUnique(e, '=', body);
  }

  /** One group of three bytes in front of bytes whose encoding has the expected shape. */
  lemma EncodeStep(b: seq<Byte>)
    requires |b| >= 3
    requires Encode(b[3..]) == EncodeNoPad(b[3..]) + Padding(|b| - 3)
    requires IsUrlSafe(EncodeNoPad(b[3..]))
    ensures Encode(b) == Quad(b[0], b[1], b[2]) + EncodeNoPad(b[3..]) + Padding(|b|)
    ensures EncodeNoPad(b) == Quad(b[0], b[1], b[2]) + EncodeNoPad(b[3..])
  {
    var q, t := Quad(b[0], b[1], b[2]), EncodeNoPad(b[3..]);
    EncodeGroup(b, q, t);
    QuadShape(b[0], b[1], b[2]);
    StripPadding(q, t, |b|);
  }

  lemma EncodeGroup(b: seq<Byte>, q: string, t: string)
    requires |b| >= 3 && q == Quad(b[0], b[1], b[2])
    requires Encode(b[3..]) == t + Padding(|b| - 3)
    ensures Encode(b) == q + t + Padding(|b|)
  {
    EncodeUnfold(b);
    Associate(q, t, Padding(|b| - 3));
    PaddingPeriodic(|b|);
  }

  lemma EncodeUnfold(b: seq<Byte>)
    requires |b| >= 3
    ensures Encode(b) == Quad(b[0], b[1], b[2]) + Encode(b[3..])
  {
  }

  lemma Associate(q: string, t: string, p: string)
    ensures q + (t + p) == q + t + p
  {
  }

  /**
   * The shape of the encoding: data characters from the URL-safe alphabet,
   * ceil(4n/3) of them, followed by the padding and nothing else.
   */
  lemma {:induction false} EncodeShape(b: seq<Byte>)
    ensures Encode(b) == EncodeNoPad(b) + Padding(|b|)
    ensures |EncodeNoPad(b)| == (4 * |b| + 2) / 3
    ensures IsUrlSafe(EncodeNoPad(b))
    decreases |b|
  {
    if |b| >= 3 {
      EncodeShape(b[3..]);
      EncodeStep(b);
      QuadShape(b[0], b[1], b[2]);
      UrlSafeConcat(Quad(b[0], b[1], b[2]), EncodeNoPad(b[3..]));
    } else if |b| >= 1 {
      TailShape(b);
    }
  }

  /** `secrets.token_urlsafe(n)`, given the `n` random bytes it draws. */
  function TokenUrlSafe(random: seq<Byte>): (t: string)
    ensures |t| == (4 * |random| + 2) / 3
    ensures IsUrlSafe(t)
  {
    EncodeShape(random);
    EncodeNoPad(random)
  }

  /** Four characters back to three bytes. */
  function Unquad(s: string): (bs: seq<Byte>)
    requires |s| == 4 && IsUrlSafe(s)
    ensures |bs| == 3
  {
    var v0, v1, v2, v3 := SymbolValue(s[0]), SymbolValue(s[1]), SymbolValue(s[2]), SymbolValue(s[3]);
    [v0 * 4 + v1 / 16, (v1 % 16) * 16 + v2 / 4, (v2 % 4) * 64 + v3]
  }

  /**
   * Canonical decoding of unpadded base64url text (section 3.5 of RFC 4648):
   * groups of four characters, then a final group of two or three whose
   * last character carries no bits beyond the data; None for a lone
   * trailing character, a character outside the alphabet, or a final
   * character with any of those unused bits set.
   */
  function DecodeNoPad(s: string): Option<seq<Byte>>
    decreases |s|
  {
    if |s| == 0 then Some([])
    else if |s| == 1 || !IsUrlSafe(s[..if |s| < 4 then |s| else 4]) then None
    else if |s| == 2 then
      var v1 := SymbolValue(s[1]);
      if v1 % 16 != 0 then None else Some([SymbolValue(s[0]) * 4 + v1 / 16])
    else if |s| == 3 then
      var v1, v2 := SymbolValue(s[1]), SymbolValue(s[2]);
      if v2 % 4 != 0 then None else Some([SymbolValue(s[0]) * 4 + v1 / 16, (v1 % 16) * 16 + v2 / 4])
    else match DecodeNoPad(s[4..])
      case None => None
      case Some(rest) => Some(Unquad(s[..4]) + rest)
  }

  /** Byte arithmetic of the 3-to-4 grouping, one byte at a time. */
  lemma SplitFirst(a: Byte, b: Byte)
    ensures (a / 4) * 4 + ((a % 4) * 16 + b / 16) / 16 == a
  {
  }

  lemma SplitSecond(a: Byte, b: Byte, c: Byte)
    ensures (((a % 4) * 16 + b / 16) % 16) * 16 + ((b % 16) * 4 + c / 64) / 4 == b
  {
  }

  lemma SplitThird(b: Byte, c: Byte)
    ensures (((b % 16) * 4 + c / 64) % 4) * 64 + c % 64 == c
  {
  }

  lemma QuadRoundTrip(a: Byte, b: Byte, c: Byte)
    ensures IsUrlSafe(Quad(a, b, c))
    ensures Unquad(Quad(a, b, c)) == [a, b, c]
  {
    SymbolRoundTrip(a / 4);
    SymbolRoundTrip((a % 4) * 16 + b / 16);
    SymbolRoundTrip((b % 16) * 4 + c / 64);
    SymbolRoundTrip(c % 64);
    SplitFirst(a, b);
    SplitSecond(a, b, c);
    SplitThird(b, c);
  }

  /** One group of four characters in front of decodable text. */
  lemma DecodeStep(q: string, t: string, rest: seq<Byte>)
    requires |q| == 4 && IsUrlSafe(q)
    requires DecodeNoPad(t) == Some(rest)
    ensures DecodeNoPad(q + t) == Some(Unquad(q) + rest)
  {
    var s := q + t;
    assert s[..4] == q && s[4..] == t;
  }

  lemma DecodeTail(b: seq<Byte>)
    requires 1 <= |b| <= 2
    ensures DecodeNoPad(EncodeNoPad(b)) == Some(b)
  {
    TailShape(b);
    if |b| == 2 {
      DecodeTwo(b[0], b[1], EncodeNoPad(b));
      assert b == [b[0], b[1]];
    } else {
      DecodeOne(b[0], EncodeNoPad(b));
      assert b == [b[0]];
    }
  }

  lemma DecodeTwo(x: Byte, y: Byte, s: string)
    requires s == [Symbol(x / 4), Symbol((x % 4) * 16 + y / 16), Symbol((y % 16) * 4)]
    ensures DecodeNoPad(s) == Some([x, y])
  {
    var v0, v1, v2 := x / 4, (x % 4) * 16 + y / 16, (y % 16) * 4;
    SymbolRoundTrip(v0);
    SymbolRoundTrip(v1);
    SymbolRoundTrip(v2);
    SplitFirst(x, y);
    SplitSecond(x, y, 0);
    assert DecodeNoPad(s) == Some([v0 * 4 + v1 / 16, (v1 % 16) * 16 + v2 / 4]);
  }

  lemma DecodeOne(x: Byte, s: string)
    requires s == [Symbol(x / 4), Symbol((x % 4) * 16)]
    ensures DecodeNoPad(s) == Some([x])
  {
    var v0, v1 := x / 4, (x % 4) * 16;
    SymbolRoundTrip(v0);
    SymbolRoundTrip(v1);
    SplitFirst(x, 0);
    assert DecodeNoPad(s) == Some([v0 * 4 + v1 / 16]);
  }

  /** Decoding the unpadded encoding gives back the bytes: no information is lost by dropping `=`. */
  lemma {:induction false} DecodeEncodeNoPad(b: seq<Byte>)
    ensures DecodeNoPad(EncodeNoPad(b)) == Some(b)
    decreases |b|
  {
    if |b| >= 3 {
      var rest := b[3..];
      assert b == [b[0], b[1], b[2]] + rest;
      EncodeShape(rest);
      EncodeStep(b);
      QuadRoundTrip(b[0], b[1], b[2]);
      QuadShape(b[0], b[1], b[2]);
      DecodeEncodeNoPad(rest);
      DecodeStep(Quad(b[0], b[1], b[2]), EncodeNoPad(rest), rest);
    } else if |b| >= 1 {
      DecodeTail(b);
    } else {
      EncodeShape(b);
    }
  }

  /** Four characters survive decoding and re-encoding unchanged. */
  lemma UnquadRoundTrip(q: string)
    requires |q| == 4 && IsUrlSafe(q)
    ensures var bs := Unquad(q); Quad(bs[0], bs[1], bs[2]) == q
  {
    var v0, v1, v2, v3 := SymbolValue(q[0]), SymbolValue(q[1]), SymbolValue(q[2]), SymbolValue(q[3]);
    var bs := Unquad(q);
    assert bs[0] / 4 == v0 && (bs[0] % 4) * 16 + bs[1] / 16 == v1;
    assert (bs[1] % 16) * 4 + bs[2] / 64 == v2 && bs[2] % 64 == v3;
  }

  /** A final group of two characters is the encoding of the byte it decodes to. */
  lemma EncodeDecodeTwo(s: string, x: Byte)
    requires |s| == 2 && IsUrlSafe(s) && SymbolValue(s[1]) % 16 == 0
    requires x == SymbolValue(s[0]) * 4 + SymbolValue(s[1]) / 16
    ensures EncodeNoPad([x]) == s
  {
    TailShape([x]);
    assert Encode([x])[..2] == [Symbol(x / 4), Symbol((x % 4) * 16)];
    assert x / 4 == SymbolValue(s[0]) && (x % 4) * 16 == SymbolValue(s[1]);
  }

  /** A final group of three characters is the encoding of the two bytes it decodes to. */
  lemma EncodeDecodeThree(s: string, x: Byte, y: Byte)
    requires |s| == 3 && IsUrlSafe(s) && SymbolValue(s[2]) % 4 == 0
    requires x == SymbolValue(s[0]) * 4 + SymbolValue(s[1]) / 16
    requires y == (SymbolValue(s[1]) % 16) * 16 + SymbolValue(s[2]) / 4
    ensures EncodeNoPad([x, y]) == s
  {
    var v0, v1, v2 := SymbolValue(s[0]), SymbolValue(s[1]), SymbolValue(s[2]);
    TailShape([x, y]);
    assert Encode([x, y])[..3] == [Symbol(x / 4), Symbol((x % 4) * 16 + y / 16), Symbol((y % 16) * 4)];
    assert x / 4 == v0 && x % 4 == v1 / 16 && y / 16 == v1 % 16 && (y % 16) * 4 == v2;
  }

  /**
   * Text that decodes is the unpadded encoding of what it decodes to: with
   * `DecodeEncodeNoPad`, decoding and encoding are inverse bijections
   * between byte strings and canonical unpadded base64url text.
   */
  lemma {:induction false} EncodeDecodeNoPad(s: string)
    requires DecodeNoPad(s).Some?
    ensures EncodeNoPad(DecodeNoPad(s).value) == s
    decreases |s|
  {
    var b := DecodeNoPad(s).value;
    if |s| == 0 {
      assert b == [];
      EncodeShape(b);
    } else if |s| == 2 {
      EncodeDecodeTwo(s, b[0]);
      assert b == [b[0]];
    } else if |s| == 3 {
      EncodeDecodeThree(s, b[0], b[1]);
      assert b == [b[0], b[1]];
    } else {
      var q, t := s[..4], s[4..];
      var rest := DecodeNoPad(t).value;
      assert b == Unquad(q) + rest;
      EncodeDecodeNoPad(t);
      EncodeShape(rest);
      assert b[3..] == rest;
      EncodeStep(b);
      UnquadRoundTrip(q);
      assert s == q + t;
    }
  }

  /** Distinct texts never decode to the same bytes. */
  lemma DecodeNoPadInjective(s: string, t: string)
    requires DecodeNoPad(s).Some? && DecodeNoPad(s) == DecodeNoPad(t)
    ensures s == t
  {
    EncodeDecodeNoPad(s);
    EncodeDecodeNoPad(t);
  }
}
