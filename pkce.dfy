/** The PKCE generator of RFC 7636: a code verifier made of 32 random bytes (section 4.1) and
    its S256 code challenge (section 4.2), both in unpadded base64url. The random source and
    SHA-256 are parameters: `crypto/rand` and `crypto/sha256` are not part of this model. */
module Pkce {

  import opened Common
  import Base64Url
  import Utf8
  import UrlValues

  /** The number of random bytes in a verifier. */
  const CodeVerifierLength := 32

  /** The bounds section 4.1 of RFC 7636 sets on the length of a verifier. */
  const MinVerifierLength := 43
  const MaxVerifierLength := 128

  /** A SHA-256 digest: 32 bytes. */
  type Digest = d: seq<byte> | |d| == 32 witness seq(32, _ => 0)

  /** What `rand.Read` does with the verifier buffer: it fills all of it, or it fails. */
  datatype RandomRead = Filled(bytes: seq<byte>) | ReadFailed(cause: string)

  /** `RandomPkceGenerator.GenerateCodeVerifier`, given what the random source produced. */
  function GenerateCodeVerifier(read: RandomRead): (r: Outcome<string>)
    requires read.Filled? ==> |read.bytes| == CodeVerifierLength
    ensures read.ReadFailed? ==> r == Outcome("", Some(read.cause))
    ensures read.Filled? ==> r.err == None && r.value == Base64Url.Encode(read.bytes)
    ensures read.Filled? ==> |r.value| == 43 && MinVerifierLength <= |r.value| <= MaxVerifierLength
    ensures read.Filled? ==> Base64Url.IsEncoded(r.value) && '=' !in r.value
    ensures read.Filled? ==> Base64Url.Decode(r.value) == Some(read.bytes)
  {
    match read
    case ReadFailed(cause) => Outcome("", Some(cause))
    case Filled(bytes) =>
      Base64Url.DecodeEncode(bytes);
      Base64Url.EncodedHasNoPadding(Base64Url.Encode(bytes));
      Outcome(Base64Url.Encode(bytes), None)
  }

  /** `RandomPkceGenerator.GenerateCodeChallenge`: the unpadded base64url form of the SHA-256
      digest of the verifier's UTF-8 bytes. It is 43 characters long because the digest has
      32 bytes, and it decodes to that digest. */
  function GenerateCodeChallenge(sha256: seq<byte> -> Digest, verifier: string): (c: string)
    ensures |c| == 43 && Base64Url.IsEncoded(c) && '=' !in c
    ensures Base64Url.Decode(c) == Some(sha256(Utf8.Encode(verifier)))
  {
    var digest := sha256(Utf8.Encode(verifier));
    Base64Url.DecodeEncode(digest);
    Base64Url.EncodedHasNoPadding(Base64Url.Encode(digest));
    Base64Url.Encode(digest)
  }

  /** Every character of the alphabet is one that `url.QueryEscape` leaves alone, so a
      verifier or a challenge travels in a query unchanged. */
  lemma EncodedNeedsNoEscaping(s: string)
    requires Base64Url.IsEncoded(s)
    ensures UrlValues.QueryEscape(s) == s
  {
    assert forall i :: 0 <= i < |s| ==> UrlValues.IsUnreserved(s[i]);
  }

  // ---- The example of appendix B of RFC 7636 ----

  const AppendixBVerifier := "dBjf" + ("tJeZ" + ("4CVP" + ("-mB9" + ("2K27" + ("uhbU" + ("JU1p" + ("1r_w" + ("W1gF" + ("WFOE" + ("jXk"))))))))))
  const AppendixBChallenge := "E9Me" + ("lhoa" + ("2Owv" + ("FrEM" + ("TJgu" + ("CHao" + ("eK1t" + ("8URW" + ("buGJ" + ("Sstw" + ("-cM"))))))))))

  // The two strings of appendix B are written group by group, four characters at a time.
  // Evaluating the encoder on the 32-byte examples goes the same way: the byte values enter
  // as facts about a sequence, and each group of three bytes is evaluated on its own, its
  // four 6-bit values worked out first.

  lemma AppendixBOctetsGroups()
    ensures Base64Url.EncodeGroup(116, 24, 223) == "dBjf"
    ensures Base64Url.EncodeGroup(180, 151, 153) == "tJeZ"
    ensures Base64Url.EncodeGroup(224, 37, 79) == "4CVP"
    ensures Base64Url.EncodeGroup(250, 96, 125) == "-mB9"
    ensures Base64Url.EncodeGroup(216, 173, 187) == "2K27"
    ensures Base64Url.EncodeGroup(186, 22, 212) == "uhbU"
    ensures Base64Url.EncodeGroup(37, 77, 105) == "JU1p"
    ensures Base64Url.EncodeGroup(214, 191, 240) == "1r_w"
    ensures Base64Url.EncodeGroup(91, 88, 5) == "W1gF"
    ensures Base64Url.EncodeGroup(88, 83, 132) == "WFOE"
  {
    assert 116 / 4 == 29 && (116 % 4) * 16 + 24 / 16 == 1 && (24 % 16) * 4 + 223 / 64 == 35 && 223 % 64 == 31;
    assert 180 / 4 == 45 && (180 % 4) * 16 + 151 / 16 == 9 && (151 % 16) * 4 + 153 / 64 == 30 && 153 % 64 == 25;
    assert 224 / 4 == 56 && (224 % 4) * 16 + 37 / 16 == 2 && (37 % 16) * 4 + 79 / 64 == 21 && 79 % 64 == 15;
    assert 250 / 4 == 62 && (250 % 4) * 16 + 96 / 16 == 38 && (96 % 16) * 4 + 125 / 64 == 1 && 125 % 64 == 61;
    assert 216 / 4 == 54 && (216 % 4) * 16 + 173 / 16 == 10 && (173 % 16) * 4 + 187 / 64 == 54 && 187 % 64 == 59;
    assert 186 / 4 == 46 && (186 % 4) * 16 + 22 / 16 == 33 && (22 % 16) * 4 + 212 / 64 == 27 && 212 % 64 == 20;
    assert 37 / 4 == 9 && (37 % 4) * 16 + 77 / 16 == 20 && (77 % 16) * 4 + 105 / 64 == 53 && 105 % 64 == 41;
    assert 214 / 4 == 53 && (214 % 4) * 16 + 191 / 16 == 43 && (191 % 16) * 4 + 240 / 64 == 63 && 240 % 64 == 48;
    assert 91 / 4 == 22 && (91 % 4) * 16 + 88 / 16 == 53 && (88 % 16) * 4 + 5 / 64 == 32 && 5 % 64 == 5;
    assert 88 / 4 == 22 && (88 % 4) * 16 + 83 / 16 == 5 && (83 % 16) * 4 + 132 / 64 == 14 && 132 % 64 == 4;
  }

  /** Any 32 bytes equal to the octets that appendix B lists encode to its verifier. */
  lemma EncodeAppendixBOctets(b: seq<byte>)
    requires |b| == 32
    requires b[0] == 116 && b[1] == 24 && b[2] == 223 && b[3] == 180 && b[4] == 151 && b[5] == 153 && b[6] == 224 && b[7] == 37 && b[8] == 79 && b[9] == 250 && b[10] == 96 && b[11] == 125 && b[12] == 216 && b[13] == 173 && b[14] == 187 && b[15] == 186 && b[16] == 22 && b[17] == 212 && b[18] == 37 && b[19] == 77 && b[20] == 105 && b[21] == 214 && b[22] == 191 && b[23] == 240 && b[24] == 91 && b[25] == 88 && b[26] == 5 && b[27] == 88 && b[28] == 83 && b[29] == 132 && b[30] == 141 && b[31] == 121
    ensures Base64Url.Encode(b) == AppendixBVerifier
  {
    Base64Url.EncodeThirtyTwo(b);
    Base64Url.EncodeTail(b, 30);
    AppendixBOctetsGroups();
  }

  lemma AppendixBDigestGroups()
    ensures Base64Url.EncodeGroup(19, 211, 30) == "E9Me"
    ensures Base64Url.EncodeGroup(150, 26, 26) == "lhoa"
    ensures Base64Url.EncodeGroup(216, 236, 47) == "2Owv"
    ensures Base64Url.EncodeGroup(22, 177, 12) == "FrEM"
    ensures Base64Url.EncodeGroup(76, 152, 46) == "TJgu"
    ensures Base64Url.EncodeGroup(8, 118, 168) == "CHao"
    ensures Base64Url.EncodeGroup(120, 173, 109) == "eK1t"
    ensures Base64Url.EncodeGroup(241, 68, 86) == "8URW"
    ensures Base64Url.EncodeGroup(110, 225, 137) == "buGJ"
    ensures Base64Url.EncodeGroup(74, 203, 112) == "Sstw"
  {
    assert 19 / 4 == 4 && (19 % 4) * 16 + 211 / 16 == 61 && (211 % 16) * 4 + 30 / 64 == 12 && 30 % 64 == 30;
    assert 150 / 4 == 37 && (150 % 4) * 16 + 26 / 16 == 33 && (26 % 16) * 4 + 26 / 64 == 40 && 26 % 64 == 26;
    assert 216 / 4 == 54 && (216 % 4) * 16 + 236 / 16 == 14 && (236 % 16) * 4 + 47 / 64 == 48 && 47 % 64 == 47;
    assert 22 / 4 == 5 && (22 % 4) * 16 + 177 / 16 == 43 && (177 % 16) * 4 + 12 / 64 == 4 && 12 % 64 == 12;
    assert 76 / 4 == 19 && (76 % 4) * 16 + 152 / 16 == 9 && (152 % 16) * 4 + 46 / 64 == 32 && 46 % 64 == 46;
    assert 8 / 4 == 2 && (8 % 4) * 16 + 118 / 16 == 7 && (118 % 16) * 4 + 168 / 64 == 26 && 168 % 64 == 40;
    assert 120 / 4 == 30 && (120 % 4) * 16 + 173 / 16 == 10 && (173 % 16) * 4 + 109 / 64 == 53 && 109 % 64 == 45;
    assert 241 / 4 == 60 && (241 % 4) * 16 + 68 / 16 == 20 && (68 % 16) * 4 + 86 / 64 == 17 && 86 % 64 == 22;
    assert 110 / 4 == 27 && (110 % 4) * 16 + 225 / 16 == 46 && (225 % 16) * 4 + 137 / 64 == 6 && 137 % 64 == 9;
    assert 74 / 4 == 18 && (74 % 4) * 16 + 203 / 16 == 44 && (203 % 16) * 4 + 112 / 64 == 45 && 112 % 64 == 48;
  }

  /** Any 32 bytes equal to the SHA-256 digest that appendix B lists encode to its challenge. */
  lemma EncodeAppendixBDigest(b: seq<byte>)
    requires |b| == 32
    requires b[0] == 19 && b[1] == 211 && b[2] == 30 && b[3] == 150 && b[4] == 26 && b[5] == 26 && b[6] == 216 && b[7] == 236 && b[8] == 47 && b[9] == 22 && b[10] == 177 && b[11] == 12 && b[12] == 76 && b[13] == 152 && b[14] == 46 && b[15] == 8 && b[16] == 118 && b[17] == 168 && b[18] == 120 && b[19] == 173 && b[20] == 109 && b[21] == 241 && b[22] == 68 && b[23] == 86 && b[24] == 110 && b[25] == 225 && b[26] == 137 && b[27] == 74 && b[28] == 203 && b[29] == 112 && b[30] == 249 && b[31] == 195
    ensures Base64Url.Encode(b) == AppendixBChallenge
  {
    Base64Url.EncodeThirtyTwo(b);
    Base64Url.EncodeTail(b, 30);
    AppendixBDigestGroups();
  }

  /** Whenever SHA-256 maps the appendix B verifier to the digest that appendix B lists, the
      challenge is the one that appendix B (and the test of `GenerateCodeChallenge`) expects. */
  lemma AppendixBChallengeValue(sha256: seq<byte> -> Digest)
    requires var d := sha256(Utf8.Encode(AppendixBVerifier)); d[0] == 19 && d[1] == 211 && d[2] == 30 && d[3] == 150 && d[4] == 26 && d[5] == 26 && d[6] == 216 && d[7] == 236 && d[8] == 47 && d[9] == 22 && d[10] == 177 && d[11] == 12 && d[12] == 76 && d[13] == 152 && d[14] == 46 && d[15] == 8 && d[16] == 118 && d[17] == 168 && d[18] == 120 && d[19] == 173 && d[20] == 109 && d[21] == 241 && d[22] == 68 && d[23] == 86 && d[24] == 110 && d[25] == 225 && d[26] == 137 && d[27] == 74 && d[28] == 203 && d[29] == 112 && d[30] == 249 && d[31] == 195
    ensures GenerateCodeChallenge(sha256, AppendixBVerifier) == AppendixBChallenge
  {
    EncodeAppendixBDigest(sha256(Utf8.Encode(AppendixBVerifier)));
  }
}
