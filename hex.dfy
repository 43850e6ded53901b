/**
 * Bytes and the lowercase hexadecimal rendering Go's fmt package produces for
 * `%x` on a byte array or slice: two digits per byte, digits `0-9a-f`.
 */
module HexFormat {
  import opened Wrappers

  type byte = x: int | 0 <= x < 256

  predicate IsHexDigit(c: char) {
    ('0' <= c <= '9') || ('a' <= c <= 'f')
  }

  /** The hexadecimal digit of a nibble. */
  function DigitOf(n: int): (c: char)
    requires 0 <= n < 16
    ensures IsHexDigit(c)
  {
    if n < 10 then ('0' as int + n) as char else ('a' as int + n - 10) as char
  }

  /** The nibble of a lowercase hexadecimal digit, None for any other character. */
  function ValueOf(c: char): (r: Option<int>)
    ensures r.Some? <==> IsHexDigit(c)
    ensures r.Some? ==> 0 <= r.value < 16 && DigitOf(r.value) == c
    ensures forall n :: 0 <= n < 16 && DigitOf(n) == c ==> r == Some(n)
  {
    if '0' <= c <= '9' then Some(c as int - '0' as int)
    else if 'a' <= c <= 'f' then Some(c as int - 'a' as int + 10)
    else None
  }

  /** `fmt.Sprintf("%x", s)` for a byte sequence s. */
  function Hex(s: seq<byte>): (h: string)
    ensures |h| == 2 * |s|
    ensures forall i :: 0 <= i < |h| ==> IsHexDigit(h[i])
  {
    if s == [] then []
    else [DigitOf(s[0] / 16), DigitOf(s[0] % 16)] + Hex(s[1..])
  }

  /** Decodes a string of lowercase hexadecimal digit pairs back to bytes. */
  function Unhex(h: string): (r: Option<seq<byte>>)
    ensures r.Some? ==> 2 * |r.value| == |h|
    decreases |h|
  {
    if h == [] then Some([])
    else if |h| == 1 then None
    else
      match (ValueOf(h[0]), ValueOf(h[1]), Unhex(h[2..]))
      case (Some(hi), Some(lo), Some(rest)) => Some([(hi * 16 + lo) as byte] + rest)
      case _ => None
  }

  /** Decoding undoes `%x`: the hexadecimal text of a byte sequence determines it. */
  lemma {:induction false} UnhexHex(s: seq<byte>)
    ensures Unhex(Hex(s)) == Some(s)
  {
    if s != [] {
      var hi, lo := s[0] / 16, s[0] % 16;
      var h := Hex(s);
      assert h == [DigitOf(hi), DigitOf(lo)] + Hex(s[1..]);
      assert h[0] == DigitOf(hi) && h[1] == DigitOf(lo) && h[2..] == Hex(s[1..]);
      UnhexHex(s[1..]);
      assert ValueOf(h[0]) == Some(hi) && ValueOf(h[1]) == Some(lo);
      assert (hi * 16 + lo) as byte == s[0];
      assert Unhex(h) == Some([s[0]] + s[1..]);
      assert [s[0]] + s[1..] == s;
    }
  }

  /** `%x` is injective: equal renderings come from equal bytes. */
  lemma HexInjective(a: seq<byte>, b: seq<byte>)
    ensures Hex(a) == Hex(b) <==> a == b
  {
    if Hex(a) == Hex(b) {
      UnhexHex(a);
      UnhexHex(b);
    }
  }
}
