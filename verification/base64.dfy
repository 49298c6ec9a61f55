/** Base64 as defined in section 4 of RFC 4648: the 64-character alphabet
    `A-Z a-z 0-9 + /`, three octets to four characters, and `=` padding for a
    final group of one or two octets. This is the encoding of the `ciphertext`
    field of a payment notification. */
module Base64 {
  import opened Common

  /** The alphabet of Table 1 of RFC 4648. */
  function CharOf(v: nat): (c: char)
    requires v < 64
  {
    if v < 26 then ('A' as int + v) as char
    else if v < 52 then ('a' as int + (v - 26)) as char
    else if v < 62 then ('0' as int + (v - 52)) as char
    else if v == 62 then '+'
    else '/'
  }

  predicate IsAlphabet(c: char) {
    'A' <= c <= 'Z' || 'a' <= c <= 'z' || '0' <= c <= '9' || c == '+' || c == '/'
  }

  /** The inverse of the alphabet table. */
  function ValueOf(c: char): (v: nat)
    requires IsAlphabet(c)
    ensures v < 64 && CharOf(v) == c
  {
    if 'A' <= c <= 'Z' then c as int - 'A' as int
    else if 'a' <= c <= 'z' then c as int - 'a' as int + 26
    else if '0' <= c <= '9' then c as int - '0' as int + 52
    else if c == '+' then 62
    else 63
  }

  lemma ValueOfCharOf(v: nat)
    requires v < 64
    ensures IsAlphabet(CharOf(v)) && ValueOf(CharOf(v)) == v
  {
  }

  /** Four characters for a complete group of three octets. */
  function Quad(b0: byte, b1: byte, b2: byte): (r: string)
    ensures |r| == 4
  {
    [CharOf(b0 / 4), CharOf((b0 % 4) * 16 + b1 / 16), CharOf((b1 % 16) * 4 + b2 / 64), CharOf(b2 % 64)]
  }

  /** `Buffer.toString('base64')`. */
  function Encode(b: seq<byte>): (r: string)
    ensures |r| == (|b| + 2) / 3 * 4
  {
    if |b| == 0 then []
    else if |b| == 1 then [CharOf(b[0] / 4), CharOf((b[0] % 4) * 16), '=', '=']
    else if |b| == 2 then [CharOf(b[0] / 4), CharOf((b[0] % 4) * 16 + b[1] / 16), CharOf((b[1] % 16) * 4), '=']
    else Quad(b[0], b[1], b[2]) + Encode(b[3..])
  }

  /** Decoding of canonical base64 text; `None` for text that is not
      a sequence of complete, correctly padded groups. */
  function Decode(s: string): (r: Option<seq<byte>>)
    decreases |s|
  {
    if |s| == 0 then Some([])
    else if |s| < 4 || !IsAlphabet(s[0]) || !IsAlphabet(s[1]) then None
    else
      var v0, v1 := ValueOf(s[0]), ValueOf(s[1]);
      if |s| == 4 && s[2] == '=' && s[3] == '=' then
        Some([(v0 * 4 + v1 / 16) as byte])
      else if !IsAlphabet(s[2]) then None
      else
        var v2 := ValueOf(s[2]);
        if |s| == 4 && s[3] == '=' then
          Some([(v0 * 4 + v1 / 16) as byte, ((v1 % 16) * 16 + v2 / 4) as byte])
        else if !IsAlphabet(s[3]) then None
        else
          var v3 := ValueOf(s[3]);
          match Decode(s[4..])
          case None => None
          case Some(rest) =>
            Some([(v0 * 4 + v1 / 16) as byte, ((v1 % 16) * 16 + v2 / 4) as byte, ((v2 % 4) * 64 + v3) as byte] + rest)
  }

  lemma SplitByte(b: byte, d: nat)
    requires d == 4 || d == 16 || d == 64
    ensures b == (b / d) * d + b % d
    ensures b / d < 256 / d
  {
  }

  lemma DecodeOneOctet(x: byte)
    ensures Decode(Encode([x])) == Some([x])
  {
    ValueOfCharOf(x / 4);
    ValueOfCharOf((x % 4) * 16);
    SplitByte(x, 4);
    assert ((x % 4) * 16) / 16 == x % 4;
  }

  lemma DecodeTwoOctets(x: byte, y: byte)
    ensures Decode(Encode([x, y])) == Some([x, y])
  {
    var c1 := (x % 4) * 16 + y / 16;
    var c2 := (y % 16) * 4;
    ValueOfCharOf(x / 4);
    ValueOfCharOf(c1);
    ValueOfCharOf(c2);
    SplitByte(x, 4);
    SplitByte(y, 16);
    assert c1 / 16 == x % 4 && c1 % 16 == y / 16;
    assert c2 / 4 == y % 16;
  }

  /** The arithmetic of a complete group: the four six-bit values give the
      three octets back. */
  lemma GroupArithmetic(x: byte, y: byte, z: byte)
    ensures var c1, c2 := (x % 4) * 16 + y / 16, (y % 16) * 4 + z / 64;
      c1 < 64 && c2 < 64 &&
      (x / 4) * 4 + c1 / 16 == x &&
      (c1 % 16) * 16 + c2 / 4 == y &&
      (c2 % 4) * 64 + z % 64 == z
  {
    SplitByte(x, 4);
    SplitByte(y, 16);
    SplitByte(z, 64);
  }

  /** The four characters of a group are in the alphabet and their values
      give the three octets back. */
  lemma QuadValues(x: byte, y: byte, z: byte)
    ensures var q := Quad(x, y, z);
      IsAlphabet(q[0]) && IsAlphabet(q[1]) && IsAlphabet(q[2]) && IsAlphabet(q[3]) &&
      ValueOf(q[0]) * 4 + ValueOf(q[1]) / 16 == x &&
      (ValueOf(q[1]) % 16) * 16 + ValueOf(q[2]) / 4 == y &&
      (ValueOf(q[2]) % 4) * 64 + ValueOf(q[3]) == z
  {
    GroupArithmetic(x, y, z);
    ValueOfCharOf(x / 4);
    ValueOfCharOf((x % 4) * 16 + y / 16);
    ValueOfCharOf((y % 16) * 4 + z / 64);
    ValueOfCharOf(z % 64);
  }

  lemma DecodeQuad(x: byte, y: byte, z: byte, rest: string)
    ensures Decode(Quad(x, y, z) + rest) ==
      (match Decode(rest) case None => None case Some(r) => Some([x, y, z] + r))
  {
    var q := Quad(x, y, z);
    QuadValues(x, y, z);
    var s := q + rest;
    assert s[0] == q[0] && s[1] == q[1] && s[2] == q[2] && s[3] == q[3];
    assert s[4..] == rest;
  }

  /** A complete group is encoded in front of the rest. */
  lemma EncodeGroup(b: seq<byte>)
    requires |b| > 2
    ensures Encode(b) == Quad(b[0], b[1], b[2]) + Encode(b[3..])
  {
  }

  lemma FirstThree(b: seq<byte>)
    requires |b| > 2
    ensures b == [b[0], b[1], b[2]] + b[3..]
  {
    assert b[..3] == [b[0], b[1], b[2]];
    assert b == b[..3] + b[3..];
  }

  /** Decoding inverts encoding: no octet string is lost or altered. */
  lemma {:induction false} DecodeEncode(b: seq<byte>)
    ensures Decode(Encode(b)) == Some(b)
    decreases |b|
  {
    if |b| == 1 {
      DecodeOneOctet(b[0]);
      assert b == [b[0]];
    } else if |b| == 2 {
      DecodeTwoOctets(b[0], b[1]);
      assert b == [b[0], b[1]];
    } else if |b| > 2 {
      DecodeEncode(b[3..]);
      EncodeGroup(b);
      FirstThree(b);
      DecodeQuad(b[0], b[1], b[2], Encode(b[3..]));
    }
  }

  /** Base64 is a homomorphism on whole groups: when the first operand is a
      multiple of three octets long, no group straddles the boundary. */
  lemma {:induction false} EncodeAppend(a: seq<byte>, b: seq<byte>)
    requires |a| % 3 == 0
    ensures Encode(a + b) == Encode(a) + Encode(b)
    decreases |a|
  {
    if |a| > 0 {
      assert (a + b)[3..] == a[3..] + b;
      EncodeAppend(a[3..], b);
    } else {
      assert a + b == b;
    }
  }

  /** A 16-octet authentication tag encodes to exactly 24 characters. */
  lemma TagLength(tag: seq<byte>)
    requires |tag| == 16
    ensures |Encode(tag)| == 24
  {
  }
}
