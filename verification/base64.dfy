/** The "base64" encoding of section 4 of RFC 4648 (the alphabet A-Z, a-z,
    0-9, '+', '/', with '=' padding), as `base64.b64encode` produces it,
    and the UTF-8 encoding that `str.encode()` applies first. The decoder
    is the partner the encoder is proved against. */
module Base64 {
  import opened Wrappers

  type byte = x: int | 0 <= x < 256

  // ---------------------------------------------------------------------
  // The alphabet

  /** The character of a 6-bit value: Table 1 of RFC 4648. */
  function SextetChar(v: int): (c: char)
    requires 0 <= v < 64
    ensures c != '='
  {
    if v < 26 then (65 + v) as char
    else if v < 52 then (97 + v - 26) as char
    else if v < 62 then (48 + v - 52) as char
    else if v == 62 then '+'
    else '/'
  }

  /** The value of an alphabet character; `None` for any other character,
      the pad '=' included. */
  function SextetValue(c: char): (r: Option<int>)
    ensures r.Some? ==> 0 <= r.value < 64
  {
    if 'A' <= c <= 'Z' then Some(c as int - 65)
    else if 'a' <= c <= 'z' then Some(c as int - 97 + 26)
    else if '0' <= c <= '9' then Some(c as int - 48 + 52)
    else if c == '+' then Some(62)
    else if c == '/' then Some(63)
    else None
  }

  predicate InAlphabet(c: char) {
    SextetValue(c).Some?
  }

  /** The table read both ways: each value's character decodes to it, and
      each alphabet character is the character of its value. */
  lemma SextetRoundTrip(v: int, c: char)
    requires 0 <= v < 64
    ensures SextetValue(SextetChar(v)) == Some(v)
    ensures InAlphabet(c) ==> SextetChar(SextetValue(c).value) == c
  {}

  // ---------------------------------------------------------------------
  // Groups of three bytes

  /** Three bytes as four characters. */
  function EncodeThree(x: byte, y: byte, z: byte): string {
    [SextetChar(x / 4), SextetChar((x % 4) * 16 + y / 16), SextetChar((y % 16) * 4 + z / 64), SextetChar(z % 64)]
  }

  /** A final single byte: two characters and two pads. */
  function EncodeOne(x: byte): string {
    [SextetChar(x / 4), SextetChar((x % 4) * 16), '=', '=']
  }

  /** A final pair of bytes: three characters and one pad. */
  function EncodeTwo(x: byte, y: byte): string {
    [SextetChar(x / 4), SextetChar((x % 4) * 16 + y / 16), SextetChar((y % 16) * 4), '=']
  }

  lemma GroupChars(x: byte, y: byte, z: byte)
    ensures forall i | 0 <= i < 4 :: InAlphabet(EncodeThree(x, y, z)[i])
    ensures forall i | 0 <= i < 4 :: InAlphabet(EncodeOne(x)[i]) || EncodeOne(x)[i] == '='
    ensures forall i | 0 <= i < 4 :: InAlphabet(EncodeTwo(x, y)[i]) || EncodeTwo(x, y)[i] == '='
  {
    SextetRoundTrip(x / 4, 'A');
    SextetRoundTrip((x % 4) * 16 + y / 16, 'A');
    SextetRoundTrip((y % 16) * 4 + z / 64, 'A');
    SextetRoundTrip(z % 64, 'A');
    SextetRoundTrip((x % 4) * 16, 'A');
    SextetRoundTrip((y % 16) * 4, 'A');
  }

  /** `base64.b64encode`: every full group of three bytes becomes four
      characters, and a final one or two bytes a padded group. */
  function Encode(b: seq<byte>): (r: string)
    ensures |r| == (|b| + 2) / 3 * 4
    ensures forall i | 0 <= i < |r| :: InAlphabet(r[i]) || r[i] == '='
    decreases |b|
  {
    if |b| == 0 then ""
    else if |b| == 1 then GroupChars(b[0], 0, 0); EncodeOne(b[0])
    else if |b| == 2 then GroupChars(b[0], b[1], 0); EncodeTwo(b[0], b[1])
    else GroupChars(b[0], b[1], b[2]); EncodeThree(b[0], b[1], b[2]) + Encode(b[3..])
  }

  /** The bytes of four alphabet values. */
  function DecodeValues(a: int, b: int, c: int, d: int): seq<byte>
    requires 0 <= a < 64 && 0 <= b < 64 && 0 <= c < 64 && 0 <= d < 64
  {
    [a * 4 + b / 16, (b % 16) * 16 + c / 4, (c % 4) * 64 + d]
  }

  /** A group of four characters; a pad is allowed only in the last
      group, as "xx==" or "xxx=". */
  function DecodeGroup(g: string, last: bool): (r: Option<seq<byte>>)
    requires |g| == 4
  {
    var a, b, c, d := SextetValue(g[0]), SextetValue(g[1]), SextetValue(g[2]), SextetValue(g[3]);
    if a.None? || b.None? then None
    else if last && g[2] == '=' && g[3] == '=' then Some(DecodeValues(a.value, b.value, 0, 0)[..1])
    else if c.None? then None
    else if last && g[3] == '=' then Some(DecodeValues(a.value, b.value, c.value, 0)[..2])
    else if d.None? then None
    else Some(DecodeValues(a.value, b.value, c.value, d.value))
  }

  /** The decoder of section 4 of RFC 4648: groups of four characters,
      pads only at the end; anything else is rejected. */
  function Decode(s: string): (r: Option<seq<byte>>)
    decreases |s|
  {
    if |s| == 0 then Some([])
    else if |s| < 4 then None
    else if |s| == 4 then DecodeGroup(s, true)
    else
      var g := DecodeGroup(s[..4], false);
      var rest := Decode(s[4..]);
      if g.Some? && rest.Some? then Some(g.value + rest.value) else None
  }

  /** The arithmetic of a group: the four 6-bit values of three bytes
      give the three bytes back. */
  lemma ValuesOfThree(x: byte, y: byte, z: byte)
    ensures DecodeValues(x / 4, (x % 4) * 16 + y / 16, (y % 16) * 4 + z / 64, z % 64) == [x, y, z]
  {
    var b, c := (x % 4) * 16 + y / 16, (y % 16) * 4 + z / 64;
    assert b / 16 == x % 4 && b % 16 == y / 16;
    assert c / 4 == y % 16 && c % 4 == z / 64;
  }

  lemma ValuesOfOne(x: byte)
    ensures DecodeValues(x / 4, (x % 4) * 16, 0, 0)[..1] == [x]
  {
    assert ((x % 4) * 16) / 16 == x % 4;
  }

  lemma ValuesOfTwo(x: byte, y: byte)
    ensures DecodeValues(x / 4, (x % 4) * 16 + y / 16, (y % 16) * 4, 0)[..2] == [x, y]
  {
    var b, c := (x % 4) * 16 + y / 16, (y % 16) * 4;
    assert b / 16 == x % 4 && b % 16 == y / 16;
    assert c / 4 == y % 16;
  }

  /** A group of four alphabet characters decodes to the bytes of their
      values. */
  lemma GroupOfFour(g: string, last: bool, a: int, b: int, c: int, d: int)
    requires |g| == 4 && 0 <= a < 64 && 0 <= b < 64 && 0 <= c < 64 && 0 <= d < 64
    requires g == [SextetChar(a), SextetChar(b), SextetChar(c), SextetChar(d)]
    ensures DecodeGroup(g, last) == Some(DecodeValues(a, b, c, d))
  {
    SextetRoundTrip(a, g[0]);
    SextetRoundTrip(b, g[1]);
    SextetRoundTrip(c, g[2]);
    SextetRoundTrip(d, g[3]);
  }

  lemma DecodeThree(x: byte, y: byte, z: byte, last: bool)
    ensures DecodeGroup(EncodeThree(x, y, z), last) == Some([x, y, z])
  {
    GroupOfFour(EncodeThree(x, y, z), last, x / 4, (x % 4) * 16 + y / 16, (y % 16) * 4 + z / 64, z % 64);
    ValuesOfThree(x, y, z);
  }

  lemma DecodeOne(x: byte)
    ensures DecodeGroup(EncodeOne(x), true) == Some([x])
  {
    var g := EncodeOne(x);
    SextetRoundTrip(x / 4, g[0]);
    SextetRoundTrip((x % 4) * 16, g[1]);
    ValuesOfOne(x);
  }

  lemma DecodeTwo(x: byte, y: byte)
    ensures DecodeGroup(EncodeTwo(x, y), true) == Some([x, y])
  {
    var g := EncodeTwo(x, y);
    SextetRoundTrip(x / 4, g[0]);
    SextetRoundTrip((x % 4) * 16 + y / 16, g[1]);
    SextetRoundTrip((y % 16) * 4, g[2]);
    ValuesOfTwo(x, y);
  }

  /** A full group followed by more text decodes group by group. */
  lemma DecodeSplit(g: string, rest: string)
    requires |g| == 4 && |rest| > 0
    ensures Decode(g + rest) == if DecodeGroup(g, false).Some? && Decode(rest).Some?
                                then Some(DecodeGroup(g, false).value + Decode(rest).value) else None
  {
    var s := g + rest;
    assert s[..4] == g && s[4..] == rest;
  }

  /** The last group: up to three bytes. */
  lemma {:induction false} DecodeEncodeShort(b: seq<byte>)
    requires |b| <= 3
    ensures Decode(Encode(b)) == Some(b)
  {
    if |b| == 0 {
      assert b == [];
    } else if |b| == 1 {
      DecodeOne(b[0]);
      assert Encode(b) == EncodeOne(b[0]);
      assert b == [b[0]];
    } else if |b| == 2 {
      DecodeTwo(b[0], b[1]);
      assert Encode(b) == EncodeTwo(b[0], b[1]);
      assert b == [b[0], b[1]];
    } else if |b| == 3 {
      DecodeThree(b[0], b[1], b[2], true);
      assert Encode(b[3..]) == "";
      assert Encode(b) == EncodeThree(b[0], b[1], b[2]) + "";
      assert b == [b[0], b[1], b[2]];
    }
  }

  /** Decoding undoes encoding, for every byte sequence. */
  lemma {:induction false} DecodeEncode(b: seq<byte>)
    ensures Decode(Encode(b)) == Some(b)
    decreases |b|
  {
    if |b| <= 3 {
      DecodeEncodeShort(b);
    } else {
      DecodeThree(b[0], b[1], b[2], false);
      DecodeEncode(b[3..]);
      DecodeSplit(EncodeThree(b[0], b[1], b[2]), Encode(b[3..]));
      assert b == [b[0], b[1], b[2]] + b[3..];
    }
  }

  /** The first test vectors of section 10 of RFC 4648: "", "f", "fo", "foo". */
  lemma TestVectors()
    ensures Encode([]) == ""
    ensures Encode([102]) == "Zg=="
    ensures Encode([102, 111]) == "Zm8="
    ensures Encode([102, 111, 111]) == "Zm9v"
  {
    assert Encode([102, 111, 111]) == EncodeThree(102, 111, 111) + Encode([]);
  }

  /** Encoding is injective: different bytes never share a text. */
  lemma EncodeInjective(a: seq<byte>, b: seq<byte>)
    requires Encode(a) == Encode(b)
    ensures a == b
  {
    DecodeEncode(a);
    DecodeEncode(b);
  }

  // ---------------------------------------------------------------------
  // UTF-8

  /** The UTF-8 bytes of one Unicode scalar value (section 3 of RFC 3629). */
  function Utf8Char(c: char): (r: seq<byte>)
    ensures 1 <= |r| <= 4
    ensures (c as int < 128) <==> |r| == 1
    ensures c as int < 128 ==> r == [c as int]
  {
    var n := c as int;
    if n < 0x80 then [n]
    else if n < 0x800 then [0xC0 + n / 64, 0x80 + n % 64]
    else if n < 0x10000 then [0xE0 + n / 4096, 0x80 + (n / 64) % 64, 0x80 + n % 64]
    else [0xF0 + n / 262144, 0x80 + (n / 4096) % 64, 0x80 + (n / 64) % 64, 0x80 + n % 64]
  }

  /** `s.encode()`: the UTF-8 bytes of a string. */
  function Utf8(s: string): (r: seq<byte>)
    ensures |s| <= |r| <= 4 * |s|
  {
    if |s| == 0 then [] else Utf8Char(s[0]) + Utf8(s[1..])
  }

  predicate IsAscii(s: string) {
    forall i | 0 <= i < |s| :: s[i] as int < 128
  }

  /** An ASCII string encodes to its own character codes, one byte each. */
  lemma {:induction false} Utf8OfAscii(s: string)
    requires IsAscii(s)
    ensures |Utf8(s)| == |s|
    ensures forall i | 0 <= i < |s| :: Utf8(s)[i] == s[i] as int
  {
    if |s| > 0 {
      Utf8OfAscii(s[1..]);
      assert forall i | 1 <= i < |s| :: Utf8(s)[i] == Utf8(s[1..])[i - 1];
    }
  }

  lemma {:induction false} Utf8Concat(a: string, b: string)
    ensures Utf8(a + b) == Utf8(a) + Utf8(b)
  {
    if |a| == 0 {
      assert a + b == b;
    } else {
      assert (a + b)[1..] == a[1..] + b;
      Utf8Concat(a[1..], b);
    }
  }
}
