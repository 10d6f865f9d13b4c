/** Base64 with the URL- and filename-safe alphabet and no padding, as section 5 of RFC 4648
    defines it and Go's `base64.RawURLEncoding` implements it (RFC 7636, appendix A, asks for
    exactly this form for PKCE values). */
module Base64Url {

  import opened Common

  /** The 64 characters of the alphabet: `A-Z a-z 0-9 - _`. */
  predicate IsLetter(c: char)
  {
    'A' <= c <= 'Z' || 'a' <= c <= 'z' || '0' <= c <= '9' || c == '-' || c == '_'
  }

  predicate IsEncoded(s: string)
  {
    forall i :: 0 <= i < |s| ==> IsLetter(s[i])
  }

  /** `=`, the padding character, is not a letter of the alphabet. */
  lemma EncodedHasNoPadding(s: string)
    requires IsEncoded(s)
    ensures '=' !in s
  {
  }

  /** The character that stands for the 6-bit value `i`. */
  function Letter(i: int): (c: char)
    requires 0 <= i < 64
    ensures IsLetter(c)
  {
    if i < 26 then ('A' as int + i) as char
    else if i < 52 then ('a' as int + (i - 26)) as char
    else if i < 62 then ('0' as int + (i - 52)) as char
    else if i == 62 then '-'
    else '_'
  }

  /** The 6-bit value a character of the alphabet stands for. */
  function Value(c: char): (i: int)
    requires IsLetter(c)
    ensures 0 <= i < 64 && Letter(i) == c
  {
    if 'A' <= c <= 'Z' then c as int - 'A' as int
    else if 'a' <= c <= 'z' then c as int - 'a' as int + 26
    else if '0' <= c <= '9' then c as int - '0' as int + 52
    else if c == '-' then 62
    else 63
  }

  lemma ValueOfLetter(i: int)
    requires 0 <= i < 64
    ensures Value(Letter(i)) == i
  {
  }

  /** Three bytes become four characters, six bits each, most significant first. */
  function EncodeGroup(b0: byte, b1: byte, b2: byte): string
  {
    [Letter(b0 / 4), Letter((b0 % 4) * 16 + b1 / 16), Letter((b1 % 16) * 4 + b2 / 64), Letter(b2 % 64)]
  }

  /** The unpadded encoding: whole groups of three bytes first, then a tail of two bytes
      (three characters) or one byte (two characters), with the unused low bits zero. */
  function Encode(b: seq<byte>): (s: string)
    ensures |s| == (4 * |b| + 2) / 3
    ensures IsEncoded(s)
    decreases |b|
  {
    if |b| >= 3 then
      EncodeGroup(b[0], b[1], b[2]) + Encode(b[3..])
    else if |b| == 2 then
      [Letter(b[0] / 4), Letter((b[0] % 4) * 16 + b[1] / 16), Letter((b[1] % 16) * 4)]
    else if |b| == 1 then
      [Letter(b[0] / 4), Letter((b[0] % 4) * 16)]
    else
      []
  }

  /** Go's non-strict decoder: any character outside the alphabet, `=` included, is an
      error, and so is a tail of one character; the unused low bits of a shorter tail are
      ignored. */
  function Decode(s: string): (r: Option<seq<byte>>)
    ensures r.Some? ==> |r.value| == 3 * |s| / 4
    decreases |s|
  {
    if |s| == 0 then
      Some([])
    else if |s| == 1 || !IsLetter(s[0]) || !IsLetter(s[1]) then
      None
    else if |s| == 2 then
      Some([Value(s[0]) * 4 + Value(s[1]) / 16])
    else if !IsLetter(s[2]) then
      None
    else if |s| == 3 then
      Some([Value(s[0]) * 4 + Value(s[1]) / 16, (Value(s[1]) % 16) * 16 + Value(s[2]) / 4])
    else if !IsLetter(s[3]) then
      None
    else
      match Decode(s[4..])
      case None => None
      case Some(rest) =>
        Some([Value(s[0]) * 4 + Value(s[1]) / 16,
              (Value(s[1]) % 16) * 16 + Value(s[2]) / 4,
              (Value(s[2]) % 4) * 64 + Value(s[3])] + rest)
  }

  lemma SplitByte(b: byte, d: int)
    requires d == 4 || d == 16 || d == 64
    ensures (b / d) * d + b % d == b
  {
  }

  /** The first four characters of an encoding decode to the first three bytes. */
  lemma DecodeGroup(b0: byte, b1: byte, b2: byte, rest: string)
    requires IsEncoded(rest)
    ensures var s := EncodeGroup(b0, b1, b2) + rest;
      && Value(s[0]) * 4 + Value(s[1]) / 16 == b0
      && (Value(s[1]) % 16) * 16 + Value(s[2]) / 4 == b1
      && (Value(s[2]) % 4) * 64 + Value(s[3]) == b2
      && s[4..] == rest
  {
    var c0, c1, c2, c3 := b0 / 4, (b0 % 4) * 16 + b1 / 16, (b1 % 16) * 4 + b2 / 64, b2 % 64;
    ValueOfLetter(c0);
    ValueOfLetter(c1);
    ValueOfLetter(c2);
    ValueOfLetter(c3);
    SplitByte(b0, 4);
    SplitByte(b1, 16);
    SplitByte(b2, 64);
    assert c1 / 16 == b0 % 4 && c1 % 16 == b1 / 16;
    assert c2 / 4 == b1 % 16 && c2 % 4 == b2 / 64;
  }

  lemma DecodeTwoBytes(b0: byte, b1: byte)
    ensures Decode(Encode([b0, b1])) == Some([b0, b1])
  {
    var s := Encode([b0, b1]);
    var c0, c1, c2 := b0 / 4, (b0 % 4) * 16 + b1 / 16, (b1 % 16) * 4;
    ValueOfLetter(c0);
    ValueOfLetter(c1);
    ValueOfLetter(c2);
    SplitByte(b0, 4);
    SplitByte(b1, 16);
    assert c1 / 16 == b0 % 4 && c1 % 16 == b1 / 16 && c2 / 4 == b1 % 16;
    assert s == [Letter(c0), Letter(c1), Letter(c2)];
  }

  lemma DecodeOneByte(b0: byte)
    ensures Decode(Encode([b0])) == Some([b0])
  {
    var s := Encode([b0]);
    var c0, c1 := b0 / 4, (b0 % 4) * 16;
    ValueOfLetter(c0);
    ValueOfLetter(c1);
    SplitByte(b0, 4);
    assert c1 / 16 == b0 % 4;
    assert s == [Letter(c0), Letter(c1)];
  }

  /** A group in front of any decodable text decodes to its three bytes in front. */
  lemma DecodeGroupThen(b0: byte, b1: byte, b2: byte, t: string, rest: seq<byte>)
    requires IsEncoded(t) && Decode(t) == Some(rest)
    ensures Decode(EncodeGroup(b0, b1, b2) + t) == Some([b0, b1, b2] + rest)
  {
    var s := EncodeGroup(b0, b1, b2) + t;
    DecodeGroup(b0, b1, b2, t);
    assert IsLetter(s[0]) && IsLetter(s[1]) && IsLetter(s[2]) && IsLetter(s[3]);
  }

  lemma FirstThree(b: seq<byte>)
    requires |b| >= 3
    ensures b == [b[0], b[1], b[2]] + b[3..]
  {
    assert b[..3] == [b[0], b[1], b[2]];
  }

  /** Decoding undoes encoding, for every byte sequence. */
  lemma {:induction false} DecodeEncode(b: seq<byte>)
    ensures Decode(Encode(b)) == Some(b)
    decreases |b|
  {
    if |b| >= 3 {
      DecodeEncode(b[3..]);
      DecodeGroupThen(b[0], b[1], b[2], Encode(b[3..]), b[3..]);
      FirstThree(b);
    } else if |b| == 2 {
      DecodeTwoBytes(b[0], b[1]);
      assert b == [b[0], b[1]];
    } else if |b| == 1 {
      DecodeOneByte(b[0]);
      assert b == [b[0]];
    }
  }

  /** One step of `Encode` taken at position `i`. */
  lemma EncodeFrom(b: seq<byte>, i: nat)
    requires i + 3 <= |b|
    ensures Encode(b[i..]) == EncodeGroup(b[i], b[i + 1], b[i + 2]) + Encode(b[i + 3..])
  {
    assert b[i..][3..] == b[i + 3..];
  }

  /** The last step of `Encode`, on a tail of two bytes. */
  lemma EncodeTail(b: seq<byte>, i: nat)
    requires i + 2 == |b|
    ensures Encode(b[i..]) == [Letter(b[i] / 4), Letter((b[i] % 4) * 16 + b[i + 1] / 16), Letter((b[i + 1] % 16) * 4)]
  {
  }

  /** `Encode` unrolled on 32 bytes, the size of a verifier's entropy and of a digest. */
  lemma EncodeThirtyTwo(b: seq<byte>)
    requires |b| == 32
    ensures Encode(b) == EncodeGroup(b[0], b[1], b[2]) + (EncodeGroup(b[3], b[4], b[5]) + (EncodeGroup(b[6], b[7], b[8]) + (EncodeGroup(b[9], b[10], b[11]) + (EncodeGroup(b[12], b[13], b[14]) + (EncodeGroup(b[15], b[16], b[17]) + (EncodeGroup(b[18], b[19], b[20]) + (EncodeGroup(b[21], b[22], b[23]) + (EncodeGroup(b[24], b[25], b[26]) + (EncodeGroup(b[27], b[28], b[29]) + (Encode(b[30..])))))))))))
  {
    EncodeFrom(b, 0);
    EncodeFrom(b, 3);
    EncodeFrom(b, 6);
    EncodeFrom(b, 9);
    EncodeFrom(b, 12);
    EncodeFrom(b, 15);
    EncodeFrom(b, 18);
    EncodeFrom(b, 21);
    EncodeFrom(b, 24);
    EncodeFrom(b, 27);
    assert b[0..] == b;
  }
}
