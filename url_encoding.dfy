/**
 * `urllib.parse.urlencode` with its default `quote_plus`: every key and value
 * is UTF-8 encoded, the bytes A-Z a-z 0-9 `_.-~` are kept, a space becomes
 * `+` and every other byte becomes `%XX` with upper-case hex digits; pairs are
 * written `key=value` and joined with `&`.
 */
module UrlEncoding {
  import opened Wrappers
  import opened Text
  import opened Bytes

  /** The bytes `quote` never escapes. */
  predicate IsAlwaysSafe(b: int) {
    (65 <= b <= 90) || (97 <= b <= 122) || (48 <= b <= 57) || b == 95 || b == 46 || b == 45 || b == 126
  }

  /** The characters that can appear in a quoted value. */
  predicate IsQuotedChar(c: char) {
    c == '+' || c == '%' || IsAlwaysSafe(c as int)
  }

  function HexDigit(n: int): (c: char)
    requires 0 <= n < 16
    ensures IsAlwaysSafe(c as int)
  {
    if n < 10 then (48 + n) as char else (55 + n) as char
  }

  /** The value of a hexadecimal digit of either case. */
  function HexValue(c: char): (r: Option<int>)
    ensures r.Some? ==> 0 <= r.value < 16
    ensures forall n :: 0 <= n < 16 && c == HexDigit(n) ==> r == Some(n)
  {
    if '0' <= c <= '9' then Some(c as int - 48)
    else if 'A' <= c <= 'F' then Some(c as int - 55)
    else if 'a' <= c <= 'f' then Some(c as int - 87)
    else None
  }

  function QuoteByte(b: Byte): string
  {
    if b == 32 then "+"
    else if IsAlwaysSafe(b) then [b as char]
    else ['%', HexDigit(b / 16), HexDigit(b % 16)]
  }

  /** Quoting bytes yields only letters, digits, `_.-~`, `+` and `%`. */
  function QuoteBytes(bs: seq<Byte>): (r: string)
    ensures forall i :: 0 <= i < |r| ==> IsQuotedChar(r[i])
  {
    if bs == [] then "" else QuoteByte(bs[0]) + QuoteBytes(bs[1..])
  }

  /** `quote_plus(s)` */
  function QuotePlus(s: string): (r: string)
    ensures forall i :: 0 <= i < |r| ==> IsQuotedChar(r[i])
  {
    QuoteBytes(EncodeUtf8(s))
  }

  /** One `key=value` pair, both sides quoted. */
  function EncodePair(p: (string, string)): string
  {
    QuotePlus(p.0) + "=" + QuotePlus(p.1)
  }

  /** `urlencode(params)` for a list of string pairs: the pairs in list order, joined with `&`. */
  function UrlEncode(params: seq<(string, string)>): string
  {
    Join("&", seq(|params|, i requires 0 <= i < |params| => EncodePair(params[i])))
  }

  /** The first pair, then `&` and the rest, when there is a rest. */
  lemma UrlEncodeCons(params: seq<(string, string)>)
    requires |params| >= 1
    ensures |params| == 1 ==> UrlEncode(params) == EncodePair(params[0])
    ensures |params| > 1 ==> UrlEncode(params) == EncodePair(params[0]) + "&" + UrlEncode(params[1..])
  {
    var pieces := seq(|params|, i requires 0 <= i < |params| => EncodePair(params[i]));
    assert pieces[1..] == seq(|params[1..]|, i requires 0 <= i < |params[1..]| => EncodePair(params[1..][i]));
  }

  function Prepend(b: Byte, r: Option<seq<Byte>>): Option<seq<Byte>>
  {
    if r.Some? then Some([b] + r.value) else None
  }

  /**
   * The decoding side of the form encoding: `+` is a space, `%XX` a byte, and
   * any other ASCII character stands for itself. `None` for malformed input.
   */
  function Unquote(s: string): Option<seq<Byte>>
    decreases |s|
  {
    if s == [] then Some([])
    else if s[0] == '+' then Prepend(32, Unquote(s[1..]))
    else if s[0] == '%' then
      if |s| < 3 then None
      else match (HexValue(s[1]), HexValue(s[2]))
        case (Some(h), Some(l)) => Prepend(h * 16 + l, Unquote(s[3..]))
        case _ => None
    else if s[0] as int < 128 then Prepend(s[0] as int, Unquote(s[1..]))
    else None
  }

  lemma UnquoteQuoteByte(b: Byte, rest: string)
    ensures Unquote(QuoteByte(b) + rest) == Prepend(b, Unquote(rest))
  {
    var q := QuoteByte(b);
    if b == 32 {
      assert (q + rest)[1..] == rest;
    } else if IsAlwaysSafe(b) {
      assert (q + rest)[1..] == rest;
    } else {
      assert (q + rest)[3..] == rest;
      assert HexValue(q[1]) == Some(b / 16);
      assert HexValue(q[2]) == Some(b % 16);
    }
  }

  /** Quoting loses nothing: decoding gives back the very bytes. */
  lemma {:induction false} UnquoteQuote(bs: seq<Byte>)
    ensures Unquote(QuoteBytes(bs)) == Some(bs)
  {
    if bs != [] {
      UnquoteQuoteByte(bs[0], QuoteBytes(bs[1..]));
      UnquoteQuote(bs[1..]);
      assert [bs[0]] + bs[1..] == bs;
    }
  }

  lemma {:induction false} QuoteBytesAppend(a: seq<Byte>, b: seq<Byte>)
    ensures QuoteBytes(a + b) == QuoteBytes(a) + QuoteBytes(b)
  {
    if a == [] {
      assert a + b == b;
    } else {
      assert (a + b)[1..] == a[1..] + b;
      QuoteBytesAppend(a[1..], b);
    }
  }

  lemma QuotePlusAppend(a: string, b: string)
    ensures QuotePlus(a + b) == QuotePlus(a) + QuotePlus(b)
  {
    EncodeUtf8Append(a, b);
    QuoteBytesAppend(EncodeUtf8(a), EncodeUtf8(b));
  }

  /** Neither separator of a query string can appear in a quoted value. */
  lemma QuotedHasNoSeparator(s: string)
    ensures '&' !in QuotePlus(s) && '=' !in QuotePlus(s)
  {
    var q := QuotePlus(s);
    assert forall i :: 0 <= i < |q| ==> IsQuotedChar(q[i]);
  }

  /** The pairs as bytes: what a decoder of the query gives back. */
  function EncodedParams(params: seq<(string, string)>): (r: seq<(seq<Byte>, seq<Byte>)>)
    ensures |r| == |params|
    ensures forall i :: 0 <= i < |r| ==> r[i] == (EncodeUtf8(params[i].0), EncodeUtf8(params[i].1))
  {
    if params == [] then []
    else [(EncodeUtf8(params[0].0), EncodeUtf8(params[0].1))] + EncodedParams(params[1..])
  }

  /** The decoding of one `key=value` field; `None` when it has no `=` or a side is malformed. */
  function ParsePair(field: string): Option<(seq<Byte>, seq<Byte>)>
  {
    match SplitOnce(field, '=')
    case None => None
    case Some((k, v)) =>
      match Unquote(k)
      case None => None
      case Some(kb) =>
        match Unquote(v)
        case None => None
        case Some(vb) => Some((kb, vb))
  }

  /**
   * The decoding partner of `UrlEncode`: the fields between `&` separators,
   * each decoded by `ParsePair`. An empty query has no fields.
   */
  function ParseQuery(q: string): Option<seq<(seq<Byte>, seq<Byte>)>>
    decreases |q|
  {
    match SplitOnce(q, '&')
    case None =>
      if q == "" then Some([])
      else if ParsePair(q).None? then None
      else Some([ParsePair(q).value])
    case Some((field, rest)) =>
      if ParsePair(field).None? then None
      else match ParseQuery(rest)
        case None => None
        case Some(ps) => Some([ParsePair(field).value] + ps)
  }

  lemma ParseEncodedPair(p: (string, string))
    ensures ParsePair(EncodePair(p)) == Some((EncodeUtf8(p.0), EncodeUtf8(p.1)))
  {
    QuotedHasNoSeparator(p.0);
    SplitOnceAt(QuotePlus(p.0), '=', QuotePlus(p.1));
    UnquoteQuote(EncodeUtf8(p.0));
    UnquoteQuote(EncodeUtf8(p.1));
  }

  /** Decoding the encoded query gives back every pair, in order, as UTF-8 bytes. */
  lemma {:induction false} ParseUrlEncode(params: seq<(string, string)>)
    ensures ParseQuery(UrlEncode(params)) == Some(EncodedParams(params))
  {
    if params != [] {
      var e := EncodePair(params[0]);
      UrlEncodeCons(params);
      ParseEncodedPair(params[0]);
      QuotedHasNoSeparator(params[0].0);
      QuotedHasNoSeparator(params[0].1);
      assert '&' !in e;
      assert e != "" by { assert e[|QuotePlus(params[0].0)|] == '='; }
      if |params| == 1 {
        assert UrlEncode(params) == e;
        assert SplitOnce(e, '&').None?;
        assert EncodedParams(params[1..]) == [];
        assert ParseQuery(e) == Some([ParsePair(e).value]);
        assert EncodedParams(params) == [(EncodeUtf8(params[0].0), EncodeUtf8(params[0].1))];
      } else {
        var rest := UrlEncode(params[1..]);
        SplitOnceAt(e, '&', rest);
        ParseUrlEncode(params[1..]);
        assert UrlEncode(params) == e + "&" + rest;
      }
    }
  }

  /** Words of letters and digits separated by spaces come out with `+` for each space. */
  lemma {:induction false} QuotePlusWords(s: string)
    requires forall i :: 0 <= i < |s| ==> s[i] == ' ' || IsAlwaysSafe(s[i] as int)
    ensures QuotePlus(s) == ReplaceChar(s, ' ', '+')
  {
    if s != [] {
      assert s == [s[0]] + s[1..];
      QuotePlusAppend([s[0]], s[1..]);
      QuotePlusWords(s[1..]);
      assert EncodeUtf8([s[0]]) == [s[0] as int];
    }
  }
}
