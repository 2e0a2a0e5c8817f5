/**
 * Bytes, and the UTF-8 encoding Python's `str.encode()` applies before a
 * string is hashed or percent-encoded (RFC 3629, section 3).
 */
module Bytes {

  type Byte = b: int | 0 <= b < 256

  /** The UTF-8 bytes of one Unicode scalar value. */
  function EncodeChar(c: char): (r: seq<Byte>)
    ensures 1 <= |r| <= 4
    ensures c as int < 128 ==> r == [c as int]
    ensures c as int >= 128 ==> forall i :: 0 <= i < |r| ==> r[i] >= 128
  {
    var cp := c as int;
    if cp < 0x80 then [cp]
    else if cp < 0x800 then [0xC0 + cp / 0x40, 0x80 + cp % 0x40]
    else if cp < 0x1_0000 then [0xE0 + cp / 0x1000, 0x80 + (cp / 0x40) % 0x40, 0x80 + cp % 0x40]
    else [0xF0 + cp / 0x4_0000, 0x80 + (cp / 0x1000) % 0x40, 0x80 + (cp / 0x40) % 0x40, 0x80 + cp % 0x40]
  }

  /** `s.encode()`, that is `s.encode('utf-8')`. */
  function EncodeUtf8(s: string): (r: seq<Byte>)
    ensures |s| <= |r| <= 4 * |s|
  {
    if s == [] then [] else EncodeChar(s[0]) + EncodeUtf8(s[1..])
  }

  /** Encoding distributes over concatenation. */
  lemma {:induction false} EncodeUtf8Append(a: string, b: string)
    ensures EncodeUtf8(a + b) == EncodeUtf8(a) + EncodeUtf8(b)
  {
    if a == [] {
      assert a + b == b;
    } else {
      assert (a + b)[1..] == a[1..] + b;
      EncodeUtf8Append(a[1..], b);
    }
  }
}
