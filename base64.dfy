/**
 * The Base64 encoding of section 4 of RFC 4648: 64 symbols, each carrying six
 * bits, every group of four symbols standing for three bytes, the last group
 * padded with one or two `=` when the byte count is not a multiple of three.
 *
 * `Decode` accepts the well-formed encodings: a length divisible by four,
 * only alphabet symbols, and `=` only as one or two final padding symbols.
 * Like Python's decoder it does not insist that the bits a padded group
 * drops are zero.
 */
module Base64 {
  import opened Wrappers
  import opened Bytes

  /** The symbol for a six-bit value: A-Z, a-z, 0-9, `+`, `/`. */
  function CharOf(i: int): (c: char)
    requires 0 <= i < 64
    ensures c != '='
  {
    if i < 26 then (65 + i) as char
    else if i < 52 then (97 + i - 26) as char
    else if i < 62 then (48 + i - 52) as char
    else if i == 62 then '+'
    else '/'
  }

  /** The six-bit value of an alphabet symbol; `None` for anything else, `=` included. */
  function IndexOf(c: char): (r: Option<int>)
    ensures r.Some? ==> 0 <= r.value < 64
  {
    if 'A' <= c <= 'Z' then Some(c as int - 65)
    else if 'a' <= c <= 'z' then Some(c as int - 97 + 26)
    else if '0' <= c <= '9' then Some(c as int - 48 + 52)
    else if c == '+' then Some(62)
    else if c == '/' then Some(63)
    else None
  }

  /** The symbol table and its inverse agree, in both directions. */
  lemma IndexOfCharOf(i: int, c: char)
    requires 0 <= i < 64
    ensures IndexOf(c) == Some(i) <==> CharOf(i) == c
  {
  }

  predicate IsSymbol(c: char) {
    IndexOf(c).Some?
  }

  function ValueOf(c: char): int
    requires IsSymbol(c)
  {
    IndexOf(c).value
  }

  /** Three bytes as four symbols. */
  function EncodeTriple(x: Byte, y: Byte, z: Byte): string
  {
    [CharOf(x / 4), CharOf((x % 4) * 16 + y / 16), CharOf((y % 16) * 4 + z / 64), CharOf(z % 64)]
  }

  /** `base64.b64encode(bs)` */
  function Encode(bs: seq<Byte>): (r: string)
  {
    if |bs| == 0 then ""
    else if |bs| == 1 then [CharOf(bs[0] / 4), CharOf((bs[0] % 4) * 16), '=', '=']
    else if |bs| == 2 then
      [CharOf(bs[0] / 4), CharOf((bs[0] % 4) * 16 + bs[1] / 16), CharOf((bs[1] % 16) * 4), '=']
    else EncodeTriple(bs[0], bs[1], bs[2]) + Encode(bs[3..])
  }

  /** The byte made of the six bits of `a` and the top two of `b`. */
  function FirstByte(a: int, b: int): Byte
    requires 0 <= a < 64 && 0 <= b < 64
  {
    a * 4 + b / 16
  }

  /** The byte made of the low four bits of `b` and the top four of `c`. */
  function SecondByte(b: int, c: int): Byte
    requires 0 <= b < 64 && 0 <= c < 64
  {
    (b % 16) * 16 + c / 4
  }

  /** The byte made of the low two bits of `c` and the six of `d`. */
  function ThirdByte(c: int, d: int): Byte
    requires 0 <= c < 64 && 0 <= d < 64
  {
    (c % 4) * 64 + d
  }

  /** Four unpadded symbols as three bytes. */
  function DecodeGroup(g: string): (r: Option<seq<Byte>>)
    requires |g| == 4
    ensures r.Some? ==> |r.value| == 3
  {
    if IsSymbol(g[0]) && IsSymbol(g[1]) && IsSymbol(g[2]) && IsSymbol(g[3]) then
      Some([FirstByte(ValueOf(g[0]), ValueOf(g[1])), SecondByte(ValueOf(g[1]), ValueOf(g[2])), ThirdByte(ValueOf(g[2]), ValueOf(g[3]))])
    else None
  }

  /** The final group, which may end in one or two `=`. */
  function DecodeFinalGroup(g: string): (r: Option<seq<Byte>>)
    requires |g| == 4
    ensures r.Some? ==> 1 <= |r.value| <= 3
  {
    if g[2] == '=' && g[3] == '=' then
      if IsSymbol(g[0]) && IsSymbol(g[1]) then Some([FirstByte(ValueOf(g[0]), ValueOf(g[1]))])
      else None
    else if g[3] == '=' then
      if IsSymbol(g[0]) && IsSymbol(g[1]) && IsSymbol(g[2]) then
        Some([FirstByte(ValueOf(g[0]), ValueOf(g[1])), SecondByte(ValueOf(g[1]), ValueOf(g[2]))])
      else None
    else DecodeGroup(g)
  }

  /**
   * `base64.b64decode(s)` on well-formed input; `None` where the model
   * rejects. Every group of four symbols gives three bytes except a padded
   * last group, which gives one or two; a length that is not a multiple of
   * four leaves a short group and is rejected.
   */
  function Decode(s: string): (r: Option<seq<Byte>>)
    ensures r.Some? ==> |s| % 4 == 0 && 3 * (|s| / 4) - 2 <= |r.value| <= 3 * (|s| / 4)
    decreases |s|
  {
    if |s| == 0 then Some([])
    else if |s| < 4 then None
    else if |s| == 4 then DecodeFinalGroup(s)
    else
      match DecodeGroup(s[..4])
      case None => None
      case Some(head) =>
        match Decode(s[4..])
        case None => None
        case Some(tail) => Some(head + tail)
  }

  /** The regrouping `LongRoundTrip` needs, proved on its own where the context is small. */
  lemma SplitThree(bs: seq<Byte>)
    requires |bs| > 3
    ensures [bs[0], bs[1], bs[2]] + bs[3..] == bs
  {
  }

  /** Four symbols decode to the bytes their values stand for. */
  lemma DecodeSymbols(a: int, b: int, c: int, d: int)
    requires 0 <= a < 64 && 0 <= b < 64 && 0 <= c < 64 && 0 <= d < 64
    ensures DecodeGroup([CharOf(a), CharOf(b), CharOf(c), CharOf(d)])
         == Some([FirstByte(a, b), SecondByte(b, c), ThirdByte(c, d)])
  {
    IndexOfCharOf(a, CharOf(a));
    IndexOfCharOf(b, CharOf(b));
    IndexOfCharOf(c, CharOf(c));
    IndexOfCharOf(d, CharOf(d));
  }

  /** Regrouping three bytes into six-bit values and back is the identity. */
  lemma RegroupBits(x: Byte, y: Byte, z: Byte)
    ensures FirstByte(x / 4, (x % 4) * 16 + y / 16) == x
    ensures SecondByte((x % 4) * 16 + y / 16, (y % 16) * 4 + z / 64) == y
    ensures ThirdByte((y % 16) * 4 + z / 64, z % 64) == z
  {
    var b, c := (x % 4) * 16 + y / 16, (y % 16) * 4 + z / 64;
    assert b / 16 == x % 4 && b % 16 == y / 16;
    assert c / 4 == y % 16 && c % 4 == z / 64;
  }

  lemma TripleRoundTrip(x: Byte, y: Byte, z: Byte)
    ensures DecodeGroup(EncodeTriple(x, y, z)) == Some([x, y, z])
  {
    DecodeSymbols(x / 4, (x % 4) * 16 + y / 16, (y % 16) * 4 + z / 64, z % 64);
    RegroupBits(x, y, z);
  }

  lemma PairRoundTrip(bs: seq<Byte>)
    requires |bs| == 2
    ensures Decode(Encode(bs)) == Some(bs)
  {
    var x, y := bs[0], bs[1];
    var a, b, c := x / 4, (x % 4) * 16 + y / 16, (y % 16) * 4;
    IndexOfCharOf(a, CharOf(a));
    IndexOfCharOf(b, CharOf(b));
    IndexOfCharOf(c, CharOf(c));
    assert b / 16 == x % 4 && b % 16 == y / 16 && c / 4 == y % 16;
    var t := [CharOf(a), CharOf(b), CharOf(c), '='];
    assert Encode(bs) == t;
    assert t[2] != '=';
    assert a * 4 + b / 16 == x;
    assert (b % 16) * 16 + c / 4 == y;
    assert FirstByte(a, b) == x && SecondByte(b, c) == y;
    assert DecodeFinalGroup(t) == Some([x, y]);
    assert Decode(t) == DecodeFinalGroup(t);
    assert [bs[0], bs[1]] == bs;
  }

  lemma SingleRoundTrip(bs: seq<Byte>)
    requires |bs| == 1
    ensures Decode(Encode(bs)) == Some(bs)
  {
    var a, b := bs[0] / 4, (bs[0] % 4) * 16;
    IndexOfCharOf(a, CharOf(a));
    IndexOfCharOf(b, CharOf(b));
    assert b / 16 == bs[0] % 4;
    var t := [CharOf(a), CharOf(b), '=', '='];
    assert Encode(bs) == t;
    assert a * 4 + b / 16 == bs[0];
    assert FirstByte(a, b) == bs[0];
    assert DecodeFinalGroup(t) == Some([bs[0]]);
    assert Decode(t) == DecodeFinalGroup(t);
    assert [bs[0]] == bs;
  }

  lemma TripleOnlyRoundTrip(bs: seq<Byte>)
    requires |bs| == 3
    ensures Decode(Encode(bs)) == Some(bs)
  {
    var t := EncodeTriple(bs[0], bs[1], bs[2]);
    TripleRoundTrip(bs[0], bs[1], bs[2]);
    assert Encode(bs) == t + Encode([]) == t;
    assert t[2] != '=' && t[3] != '=';
    assert |t| == 4;
    assert DecodeFinalGroup(t) == DecodeGroup(t);
    assert Decode(t) == DecodeFinalGroup(t);
    assert [bs[0], bs[1], bs[2]] == bs;
  }

  /** A full leading group decodes on its own, ahead of the rest. */
  lemma DecodeCons(g: string, rest: string)
    requires |g| == 4 && DecodeGroup(g).Some?
    requires rest != []
    ensures Decode(g + rest) == if Decode(rest).Some? then Some(DecodeGroup(g).value + Decode(rest).value) else None
  {
    var s := g + rest;
    assert s[..4] == g && s[4..] == rest;
  }

  lemma LongRoundTrip(bs: seq<Byte>)
    requires |bs| > 3
    requires Decode(Encode(bs[3..])) == Some(bs[3..])
    ensures Decode(Encode(bs)) == Some(bs)
  {
    var t := EncodeTriple(bs[0], bs[1], bs[2]);
    TripleRoundTrip(bs[0], bs[1], bs[2]);
    var rest := Encode(bs[3..]);
    assert Encode(bs) == t + rest;
    assert rest != [] by {
      assert |bs[3..]| > 0;
    }
    DecodeCons(t, rest);
    assert Decode(t + rest) == Some([bs[0], bs[1], bs[2]] + bs[3..]);
    SplitThree(bs);
  }

  /** Decoding an encoding gives back the bytes: `b64decode(b64encode(bs)) == bs`. */
  lemma {:induction false} DecodeEncode(bs: seq<Byte>)
    ensures Decode(Encode(bs)) == Some(bs)
  {
    if |bs| == 1 {
      SingleRoundTrip(bs);
    } else if |bs| == 2 {
      PairRoundTrip(bs);
    } else if |bs| == 3 {
      TripleOnlyRoundTrip(bs);
    } else if |bs| > 3 {
      DecodeEncode(bs[3..]);
      LongRoundTrip(bs);
    }
  }
}
