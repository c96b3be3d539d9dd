/** Lowercase base16 (section 8 of RFC 4648), the encoding Go's
    `hex.EncodeToString` produces: two digits per byte, high nibble first. */
module Hex {
  import opened Prelude

  predicate IsLowerHexDigit(c: char) {
    '0' <= c <= '9' || 'a' <= c <= 'f'
  }

  /** The digit for a nibble. */
  function Digit(v: int): (c: char)
    requires 0 <= v < 16
    ensures IsLowerHexDigit(c)
  {
    if v < 10 then ('0' as int + v) as char else ('a' as int + (v - 10)) as char
  }

  /** The nibble a digit stands for. */
  function Value(c: char): (v: int)
    requires IsLowerHexDigit(c)
    ensures 0 <= v < 16
  {
    if c <= '9' then c as int - '0' as int else c as int - 'a' as int + 10
  }

  lemma DigitValue(v: int)
    requires 0 <= v < 16
    ensures Value(Digit(v)) == v
  {
  }

  lemma ValueDigit(c: char)
    requires IsLowerHexDigit(c)
    ensures Digit(Value(c)) == c
  {
  }

  /** Go's `hex.EncodeToString`. */
  function Encode(bytes: seq<byte>): (s: string)
    ensures |s| == 2 * |bytes|
    ensures forall i :: 0 <= i < |s| ==> IsLowerHexDigit(s[i])
  {
    if |bytes| == 0 then []
    else [Digit(bytes[0] / 16), Digit(bytes[0] % 16)] + Encode(bytes[1..])
  }

  /** A string of lowercase digits of even length, the only shape `Encode` produces. */
  predicate IsCanonical(s: string) {
    |s| % 2 == 0 && forall i :: 0 <= i < |s| ==> IsLowerHexDigit(s[i])
  }

  /** The inverse of `Encode`: rejects odd lengths and anything outside the
      lowercase alphabet. */
  function Decode(s: string): (r: Option<seq<byte>>)
    ensures r.Some? <==> IsCanonical(s)
    ensures r.Some? ==> 2 * |r.value| == |s|
    decreases |s|
  {
    if |s| == 0 then Some([])
    else if |s| < 2 || !IsLowerHexDigit(s[0]) || !IsLowerHexDigit(s[1]) then None
    else
      match Decode(s[2..])
      case None => None
      case Some(rest) => Some([Value(s[0]) * 16 + Value(s[1])] + rest)
  }

  /** Decoding what was encoded gives the bytes back. */
  lemma {:induction false} DecodeEncode(bytes: seq<byte>)
    ensures Decode(Encode(bytes)) == Some(bytes)
    decreases |bytes|
  {
    if |bytes| > 0 {
      var b, rest := bytes[0], bytes[1..];
      var hi, lo := Digit(b / 16), Digit(b % 16);
      var s, tail := Encode(bytes), Encode(rest);
      assert s == [hi, lo] + tail;
      assert s[0] == hi && s[1] == lo && s[2..] == tail;
      DecodeEncode(rest);
      DigitValue(b / 16);
      DigitValue(b % 16);
      assert Value(hi) * 16 + Value(lo) == b;
      assert Decode(s) == Some([b] + rest);
      assert [b] + rest == bytes;
    }
  }

  /** Every accepted string is the encoding of what it decodes to. */
  lemma {:induction false} EncodeDecode(s: string)
    requires Decode(s).Some?
    ensures Encode(Decode(s).value) == s
    decreases |s|
  {
    if |s| > 0 {
      var rest := Decode(s[2..]).value;
      EncodeDecode(s[2..]);
      var b := Value(s[0]) * 16 + Value(s[1]);
      assert b / 16 == Value(s[0]) && b % 16 == Value(s[1]);
      ValueDigit(s[0]);
      ValueDigit(s[1]);
      assert ([b] + rest)[1..] == rest;
      assert s == [s[0], s[1]] + s[2..];
    }
  }

  /** Known answers: the digit order and the high-nibble-first layout of
      section 8 of RFC 4648, in lowercase. */
  lemma KnownAnswers(a: seq<byte>, b: seq<byte>)
    requires a == [0xde, 0xad, 0x0f] && b == [0x00, 0x7f, 0xff]
    ensures Encode(a) == "dead0f" && Encode(b) == "007fff"
  {
    assert Digit(0) == '0' && Digit(7) == '7' && Digit(10) == 'a' && Digit(13) == 'd';
    assert Digit(14) == 'e' && Digit(15) == 'f';
    assert a[0] / 16 == 13 && a[0] % 16 == 14 && a[1] / 16 == 10 && a[1] % 16 == 13 && a[2] / 16 == 0 && a[2] % 16 == 15;
    assert b[0] / 16 == 0 && b[0] % 16 == 0 && b[1] / 16 == 7 && b[1] % 16 == 15 && b[2] / 16 == 15 && b[2] % 16 == 15;
    assert a[1..][1..] == a[2..] && a[2..][1..] == [];
    assert b[1..][1..] == b[2..] && b[2..][1..] == [];
    assert Encode(a[2..]) == "0f";
    assert Encode(a[1..]) == "ad" + Encode(a[2..]);
    assert Encode(b[2..]) == "ff";
    assert Encode(b[1..]) == "7f" + Encode(b[2..]);
  }
}
