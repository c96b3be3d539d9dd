/** The URL- and filename-safe base64 alphabet of section 5 of RFC 4648,
    without padding: Go's `base64.RawURLEncoding`. Three bytes become four
    characters; a trailing one or two bytes become two or three. */
module Base64Url {
  import opened Prelude

  predicate IsUrlSafe(c: char) {
    'A' <= c <= 'Z' || 'a' <= c <= 'z' || '0' <= c <= '9' || c == '-' || c == '_'
  }

  /** The character for a six-bit value. */
  function Char(v: int): (c: char)
    requires 0 <= v < 64
    ensures IsUrlSafe(c)
  {
    if v < 26 then ('A' as int + v) as char
    else if v < 52 then ('a' as int + (v - 26)) as char
    else if v < 62 then ('0' as int + (v - 52)) as char
    else if v == 62 then '-'
    else '_'
  }

  /** The six-bit value a character stands for. */
  function Index(c: char): (v: int)
    requires IsUrlSafe(c)
    ensures 0 <= v < 64
  {
    if 'A' <= c <= 'Z' then c as int - 'A' as int
    else if 'a' <= c <= 'z' then c as int - 'a' as int + 26
    else if '0' <= c <= '9' then c as int - '0' as int + 52
    else if c == '-' then 62
    else 63
  }

  lemma CharIndex(v: int)
    requires 0 <= v < 64
    ensures Index(Char(v)) == v
  {
  }

  lemma IndexChar(c: char)
    requires IsUrlSafe(c)
    ensures Char(Index(c)) == c
  {
  }

  /** Go's `base64.RawEncoding.EncodedLen`: the unpadded output length. */
  function EncodedLen(n: nat): nat {
    n / 3 * 4 + (n % 3 * 8 + 5) / 6
  }

  /** Go's `base64.RawURLEncoding.EncodeToString`. */
  function Encode(bytes: seq<byte>): (s: string)
    ensures forall i :: 0 <= i < |s| ==> IsUrlSafe(s[i])
  {
    if |bytes| == 0 then []
    else if |bytes| == 1 then
      [Char(bytes[0] / 4), Char(bytes[0] % 4 * 16)]
    else if |bytes| == 2 then
      [Char(bytes[0] / 4), Char(bytes[0] % 4 * 16 + bytes[1] / 16), Char(bytes[1] % 16 * 4)]
    else
      [Char(bytes[0] / 4), Char(bytes[0] % 4 * 16 + bytes[1] / 16),
       Char(bytes[1] % 16 * 4 + bytes[2] / 64), Char(bytes[2] % 64)]
      + Encode(bytes[3..])
  }

  /** The output has Go's unpadded encoded length: 43 characters for the
      32 bytes of a thumbnail name. */
  lemma {:induction false} EncodeLength(bytes: seq<byte>)
    ensures |Encode(bytes)| == EncodedLen(|bytes|)
    decreases |bytes|
  {
    if |bytes| >= 3 {
      EncodeLength(bytes[3..]);
    }
  }

  predicate AllUrlSafe(s: string) {
    forall i :: 0 <= i < |s| ==> IsUrlSafe(s[i])
  }

  /** The length is not 1 modulo 4, and the unused low bits of a final
      partial group are zero. */
  predicate WellEnded(s: string) {
    && |s| % 4 != 1
    && (|s| % 4 == 2 ==> IsUrlSafe(s[|s| - 1]) && Index(s[|s| - 1]) % 16 == 0)
    && (|s| % 4 == 3 ==> IsUrlSafe(s[|s| - 1]) && Index(s[|s| - 1]) % 4 == 0)
  }

  /** The strings `Encode` can produce. */
  predicate IsCanonical(s: string) {
    AllUrlSafe(s) && WellEnded(s)
  }

  /** The inverse of `Encode`. It is stricter than Go's default decoder,
      which ignores the unused bits of a final partial group. */
  function Decode(s: string): Option<seq<byte>>
    decreases |s|
  {
    if |s| == 0 then Some([])
    else if !IsUrlSafe(s[0]) || |s| == 1 || !IsUrlSafe(s[1]) then None
    else if |s| == 2 then
      var a, b := Index(s[0]), Index(s[1]);
      if b % 16 != 0 then None else Some([a * 4 + b / 16])
    else if !IsUrlSafe(s[2]) then None
    else if |s| == 3 then
      var a, b, c := Index(s[0]), Index(s[1]), Index(s[2]);
      if c % 4 != 0 then None else Some([a * 4 + b / 16, b % 16 * 16 + c / 4])
    else if !IsUrlSafe(s[3]) then None
    else
      var a, b, c, d := Index(s[0]), Index(s[1]), Index(s[2]), Index(s[3]);
      match Decode(s[4..])
      case None => None
      case Some(rest) => Some([a * 4 + b / 16, b % 16 * 16 + c / 4, c % 4 * 64 + d] + rest)
  }

  lemma AllUrlSafeSplit(s: string)
    requires |s| >= 4
    ensures AllUrlSafe(s) <==> IsUrlSafe(s[0]) && IsUrlSafe(s[1]) && IsUrlSafe(s[2]) && IsUrlSafe(s[3]) && AllUrlSafe(s[4..])
  {
    var t := s[4..];
    assert forall i :: 0 <= i < |t| ==> t[i] == s[i + 4];
    if IsUrlSafe(s[0]) && IsUrlSafe(s[1]) && IsUrlSafe(s[2]) && IsUrlSafe(s[3]) && AllUrlSafe(t) {
      forall i | 0 <= i < |s| ensures IsUrlSafe(s[i]) {
        if i >= 4 {
          assert s[i] == t[i - 4];
        }
      }
    }
  }

  lemma WellEndedSplit(s: string)
    requires |s| >= 4
    ensures WellEnded(s) <==> WellEnded(s[4..])
  {
    var t := s[4..];
    assert |s| == |t| + 4;
    assert |s| % 4 == |t| % 4;
    if |t| > 0 {
      assert t[|t| - 1] == s[|s| - 1];
    }
  }

  /** `Decode` accepts exactly the canonical strings. */
  lemma {:induction false} DecodeAcceptsCanonical(s: string)
    ensures Decode(s).Some? <==> IsCanonical(s)
    decreases |s|
  {
    if |s| >= 4 {
      DecodeAcceptsCanonical(s[4..]);
      AllUrlSafeSplit(s);
      WellEndedSplit(s);
    } else if |s| > 0 && !IsUrlSafe(s[0]) {
      assert !AllUrlSafe(s);
    } else if |s| > 1 && !IsUrlSafe(s[1]) {
      assert !AllUrlSafe(s);
    } else if |s| > 2 && !IsUrlSafe(s[2]) {
      assert !AllUrlSafe(s);
    }
  }

  /** Splitting three bytes into four six-bit values and joining them again
      is the identity, and so is the other way round. */
  lemma GroupRoundTrip(x: byte, y: byte, z: byte)
    ensures var a, b, c, d := x / 4, x % 4 * 16 + y / 16, y % 16 * 4 + z / 64, z % 64;
      a * 4 + b / 16 == x && b % 16 * 16 + c / 4 == y && c % 4 * 64 + d == z
  {
  }

  lemma ValuesRoundTrip(a: int, b: int, c: int, d: int)
    requires 0 <= a < 64 && 0 <= b < 64 && 0 <= c < 64 && 0 <= d < 64
    ensures var x, y, z := a * 4 + b / 16, b % 16 * 16 + c / 4, c % 4 * 64 + d;
      0 <= x < 256 && 0 <= y < 256 && 0 <= z < 256
      && x / 4 == a && x % 4 * 16 + y / 16 == b && y % 16 * 4 + z / 64 == c && z % 64 == d
  {
  }

  /** One step of `Encode` on a full group. */
  lemma EncodeUnfold(bytes: seq<byte>)
    requires |bytes| >= 3
    ensures var x, y, z := bytes[0], bytes[1], bytes[2];
      Encode(bytes) == [Char(x / 4), Char(x % 4 * 16 + y / 16), Char(y % 16 * 4 + z / 64), Char(z % 64)]
                       + Encode(bytes[3..])
  {
  }

  /** One step of `Decode` on a full group. */
  lemma DecodeUnfold(s: string)
    requires |s| >= 4 && IsUrlSafe(s[0]) && IsUrlSafe(s[1]) && IsUrlSafe(s[2]) && IsUrlSafe(s[3])
    ensures var a, b, c, d := Index(s[0]), Index(s[1]), Index(s[2]), Index(s[3]);
      Decode(s) == match Decode(s[4..])
                   case None => None
                   case Some(rest) => Some([a * 4 + b / 16, b % 16 * 16 + c / 4, c % 4 * 64 + d] + rest)
  {
  }

  lemma DecodeEncodeSingle(x: byte)
    ensures Decode(Encode([x])) == Some([x])
  {
    CharIndex(x / 4);
    CharIndex(x % 4 * 16);
    var s := Encode([x]);
    assert Index(s[0]) == x / 4 && Index(s[1]) == x % 4 * 16;
  }

  lemma DecodeEncodePair(x: byte, y: byte)
    ensures Decode(Encode([x, y])) == Some([x, y])
  {
    CharIndex(x / 4);
    CharIndex(x % 4 * 16 + y / 16);
    CharIndex(y % 16 * 4);
    GroupRoundTrip(x, y, 0);
    var s := Encode([x, y]);
    assert Index(s[0]) == x / 4 && Index(s[1]) == x % 4 * 16 + y / 16 && Index(s[2]) == y % 16 * 4;
  }

  /** The characters of a group, read back as six-bit values. */
  lemma GroupIndices(s: string, a: int, b: int, c: int, d: int, t: string)
    requires 0 <= a < 64 && 0 <= b < 64 && 0 <= c < 64 && 0 <= d < 64
    requires s == [Char(a), Char(b), Char(c), Char(d)] + t
    ensures |s| >= 4 && IsUrlSafe(s[0]) && IsUrlSafe(s[1]) && IsUrlSafe(s[2]) && IsUrlSafe(s[3])
    ensures Index(s[0]) == a && Index(s[1]) == b && Index(s[2]) == c && Index(s[3]) == d
    ensures s[4..] == t
  {
    CharIndex(a);
    CharIndex(b);
    CharIndex(c);
    CharIndex(d);
  }

  /** Decoding a group of four characters in front of an accepted string. */
  lemma DecodeOfGroup(s: string, a: int, b: int, c: int, d: int, t: string, rest: seq<byte>)
    requires 0 <= a < 64 && 0 <= b < 64 && 0 <= c < 64 && 0 <= d < 64
    requires s == [Char(a), Char(b), Char(c), Char(d)] + t && Decode(t) == Some(rest)
    ensures Decode(s) == Some([a * 4 + b / 16, b % 16 * 16 + c / 4, c % 4 * 64 + d] + rest)
  {
    GroupIndices(s, a, b, c, d, t);
    DecodeUnfold(s);
  }

  /** Decoding the four characters `Encode` makes of three bytes gives
      those bytes back. */
  lemma DecodeOfBytes(s: string, x: byte, y: byte, z: byte, t: string, rest: seq<byte>)
    requires s == [Char(x / 4), Char(x % 4 * 16 + y / 16), Char(y % 16 * 4 + z / 64), Char(z % 64)] + t
    requires Decode(t) == Some(rest)
    ensures Decode(s) == Some([x, y, z] + rest)
  {
    GroupRoundTrip(x, y, z);
    DecodeOfGroup(s, x / 4, x % 4 * 16 + y / 16, y % 16 * 4 + z / 64, z % 64, t, rest);
  }

  lemma DecodeEncodeGroup(bytes: seq<byte>, s: string)
    requires |bytes| >= 3 && Decode(Encode(bytes[3..])) == Some(bytes[3..])
    requires s == Encode(bytes)
    ensures Decode(s) == Some(bytes)
  {
    EncodeUnfold(bytes);
    DecodeOfBytes(s, bytes[0], bytes[1], bytes[2], Encode(bytes[3..]), bytes[3..]);
    assert bytes == [bytes[0], bytes[1], bytes[2]] + bytes[3..];
  }

  /** Decoding what was encoded gives the bytes back. */
  lemma {:induction false} DecodeEncode(bytes: seq<byte>)
    ensures Decode(Encode(bytes)) == Some(bytes)
    decreases |bytes|
  {
    if |bytes| == 1 {
      DecodeEncodeSingle(bytes[0]);
      assert bytes == [bytes[0]];
    } else if |bytes| == 2 {
      DecodeEncodePair(bytes[0], bytes[1]);
      assert bytes == [bytes[0], bytes[1]];
    } else if |bytes| >= 3 {
      DecodeEncode(bytes[3..]);
      DecodeEncodeGroup(bytes, Encode(bytes));
    }
  }

  /** What an accepted string of two or three characters decodes to. */
  lemma DecodeShort(s: string)
    requires 2 <= |s| <= 3 && Decode(s).Some?
    ensures IsUrlSafe(s[0]) && IsUrlSafe(s[1]) && (|s| == 3 ==> IsUrlSafe(s[2]))
    ensures |s| == 2 ==> Index(s[1]) % 16 == 0 && Decode(s).value == [Index(s[0]) * 4 + Index(s[1]) / 16]
    ensures |s| == 3 ==> (Index(s[2]) % 4 == 0 && Decode(s).value ==
      [Index(s[0]) * 4 + Index(s[1]) / 16, Index(s[1]) % 16 * 16 + Index(s[2]) / 4])
  {
  }

  lemma EncodeOfPair(s: string, bytes: seq<byte>)
    requires |s| == 2 && IsUrlSafe(s[0]) && IsUrlSafe(s[1]) && Index(s[1]) % 16 == 0
    requires bytes == [Index(s[0]) * 4 + Index(s[1]) / 16]
    ensures Encode(bytes) == s
  {
    var a, b := Index(s[0]), Index(s[1]);
    var x := bytes[0];
    ValuesRoundTrip(a, b, 0, 0);
    assert x / 4 == a && x % 4 * 16 == b;
    assert Encode(bytes) == [Char(a), Char(b)];
    IndexChar(s[0]);
    IndexChar(s[1]);
  }

  lemma TripleChars(a: int, b: int, c: int, x: int, y: int)
    requires 0 <= a < 64 && 0 <= b < 64 && 0 <= c < 64 && c % 4 == 0
    requires x == a * 4 + b / 16 && y == b % 16 * 16 + c / 4
    ensures 0 <= x < 256 && 0 <= y < 256
    ensures [Char(x / 4), Char(x % 4 * 16 + y / 16), Char(y % 16 * 4)] == [Char(a), Char(b), Char(c)]
  {
    ValuesRoundTrip(a, b, c, 0);
  }

  lemma EncodeOfTriple(s: string, bytes: seq<byte>)
    requires |s| == 3 && IsUrlSafe(s[0]) && IsUrlSafe(s[1]) && IsUrlSafe(s[2]) && Index(s[2]) % 4 == 0
    requires bytes == [Index(s[0]) * 4 + Index(s[1]) / 16, Index(s[1]) % 16 * 16 + Index(s[2]) / 4]
    ensures Encode(bytes) == s
  {
    var a, b, c := Index(s[0]), Index(s[1]), Index(s[2]);
    TripleChars(a, b, c, bytes[0], bytes[1]);
    IndexChar(s[0]);
    IndexChar(s[1]);
    IndexChar(s[2]);
    assert [Char(a), Char(b), Char(c)] == s;
  }

  lemma GroupChars(a: int, b: int, c: int, d: int, x: int, y: int, z: int)
    requires 0 <= a < 64 && 0 <= b < 64 && 0 <= c < 64 && 0 <= d < 64
    requires x == a * 4 + b / 16 && y == b % 16 * 16 + c / 4 && z == c % 4 * 64 + d
    ensures 0 <= x < 256 && 0 <= y < 256 && 0 <= z < 256
    ensures [Char(x / 4), Char(x % 4 * 16 + y / 16), Char(y % 16 * 4 + z / 64), Char(z % 64)]
         == [Char(a), Char(b), Char(c), Char(d)]
  {
    ValuesRoundTrip(a, b, c, d);
  }

  lemma EncodeOfDecodedGroup(a: int, b: int, c: int, d: int, bytes: seq<byte>)
    requires 0 <= a < 64 && 0 <= b < 64 && 0 <= c < 64 && 0 <= d < 64
    requires |bytes| >= 3
    requires bytes[0] == a * 4 + b / 16 && bytes[1] == b % 16 * 16 + c / 4 && bytes[2] == c % 4 * 64 + d
    ensures Encode(bytes) == [Char(a), Char(b), Char(c), Char(d)] + Encode(bytes[3..])
  {
    GroupChars(a, b, c, d, bytes[0], bytes[1], bytes[2]);
    EncodeUnfold(bytes);
  }

  /** An accepted string of four or more characters starts with a full
      group, and the rest is accepted too. */
  lemma DecodeGroup(s: string)
    requires |s| >= 4 && Decode(s).Some?
    ensures IsUrlSafe(s[0]) && IsUrlSafe(s[1]) && IsUrlSafe(s[2]) && IsUrlSafe(s[3])
    ensures Decode(s[4..]).Some?
    ensures var a, b, c, d := Index(s[0]), Index(s[1]), Index(s[2]), Index(s[3]);
      Decode(s).value == [a * 4 + b / 16, b % 16 * 16 + c / 4, c % 4 * 64 + d] + Decode(s[4..]).value
  {
  }

  lemma CharsOfIndices(s: string)
    requires |s| >= 4 && IsUrlSafe(s[0]) && IsUrlSafe(s[1]) && IsUrlSafe(s[2]) && IsUrlSafe(s[3])
    ensures [Char(Index(s[0])), Char(Index(s[1])), Char(Index(s[2])), Char(Index(s[3]))] == s[..4]
  {
    IndexChar(s[0]);
    IndexChar(s[1]);
    IndexChar(s[2]);
    IndexChar(s[3]);
  }

  /** Encoding the three bytes a full group decodes to, followed by more
      bytes, gives back the group's four characters first. */
  lemma EncodeOfGroup(s: string, bytes: seq<byte>, rest: seq<byte>)
    requires |s| >= 4 && IsUrlSafe(s[0]) && IsUrlSafe(s[1]) && IsUrlSafe(s[2]) && IsUrlSafe(s[3])
    requires var a, b, c, d := Index(s[0]), Index(s[1]), Index(s[2]), Index(s[3]);
      bytes == [a * 4 + b / 16, b % 16 * 16 + c / 4, c % 4 * 64 + d] + rest
    ensures Encode(bytes) == s[..4] + Encode(rest)
  {
    var a, b, c, d := Index(s[0]), Index(s[1]), Index(s[2]), Index(s[3]);
    assert |bytes| >= 3 && bytes[3..] == rest;
    EncodeOfDecodedGroup(a, b, c, d, bytes);
    CharsOfIndices(s);
  }

  /** Every accepted string is the encoding of what it decodes to. */
  lemma {:induction false} EncodeDecode(s: string)
    requires Decode(s).Some?
    ensures Encode(Decode(s).value) == s
    decreases |s|
  {
    if |s| == 2 || |s| == 3 {
      DecodeShort(s);
      if |s| == 2 {
        EncodeOfPair(s, Decode(s).value);
      } else {
        EncodeOfTriple(s, Decode(s).value);
      }
    } else if |s| >= 4 {
      DecodeGroup(s);
      EncodeOfGroup(s, Decode(s).value, Decode(s[4..]).value);
      EncodeDecode(s[4..]);
      assert s == s[..4] + s[4..];
    }
  }

  /** Known answers: the test vectors of section 10 of RFC 4648 without
      padding, and the two characters where the URL-safe alphabet of
      section 5 differs from the standard one. Each takes its input as a
      parameter so that the encoder is unfolded only as far as the proof
      asks. */
  lemma KnownAnswerShort(f: seq<byte>, fo: seq<byte>, fbff: seq<byte>)
    requires f == [102] && fo == [102, 111] && fbff == [0xfb, 0xff]
    ensures Encode(f) == "Zg" && Encode(fo) == "Zm8" && Encode(fbff) == "-_8"
  {
    assert f[0] / 4 == 25 && f[0] % 4 * 16 == 32;
    assert fo[0] % 4 * 16 + fo[1] / 16 == 38 && fo[1] % 16 * 4 == 60;
    assert fbff[0] / 4 == 62 && fbff[0] % 4 * 16 + fbff[1] / 16 == 63 && fbff[1] % 16 * 4 == 60;
    assert Char(25) == 'Z' && Char(32) == 'g' && Char(38) == 'm' && Char(60) == '8';
    assert Char(62) == '-' && Char(63) == '_';
  }

  lemma KnownAnswerGroup(b: seq<byte>, a0: int, a1: int, a2: int, a3: int)
    requires |b| == 3 && 0 <= a0 < 64 && 0 <= a1 < 64 && 0 <= a2 < 64 && 0 <= a3 < 64
    requires b[0] / 4 == a0 && b[0] % 4 * 16 + b[1] / 16 == a1 && b[1] % 16 * 4 + b[2] / 64 == a2 && b[2] % 64 == a3
    ensures Encode(b) == [Char(a0), Char(a1), Char(a2), Char(a3)]
  {
    EncodeUnfold(b);
    assert b[3..] == [];
  }

  lemma KnownAnswerFoobar(foo: seq<byte>, bar: seq<byte>)
    requires foo == [102, 111, 111] && bar == [98, 97, 114]
    ensures Encode(foo) == "Zm9v" && Encode(foo + bar) == "Zm9vYmFy"
  {
    KnownAnswerGroup(foo, 25, 38, 61, 47);
    KnownAnswerGroup(bar, 24, 38, 5, 50);
    assert Char(25) == 'Z' && Char(38) == 'm' && Char(61) == '9' && Char(47) == 'v';
    assert Char(24) == 'Y' && Char(5) == 'F' && Char(50) == 'y';
    EncodeUnfold(foo + bar);
    assert (foo + bar)[3..] == bar;
    assert (foo + bar)[..3] == foo;
  }
}
