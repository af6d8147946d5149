/** Base 64 encoding, RFC 4648 section 4 (the standard alphabet with `=` padding),
    as `btoa` produces it; a decoder for its output. */
module Base64 {
  import opened JsStrings
  import opened Options

  /** The character for a 6-bit value (Table 1 of RFC 4648). */
  function SextetChar(i: int): (c: char)
    requires 0 <= i < 64
    ensures IsBase64Char(c)
  {
    if i < 26 then (65 + i) as char
    else if i < 52 then (97 + i - 26) as char
    else if i < 62 then (48 + i - 52) as char
    else if i == 62 then '+'
    else '/'
  }

  predicate IsBase64Char(c: char) {
    ('A' <= c <= 'Z') || ('a' <= c <= 'z') || ('0' <= c <= '9') || c == '+' || c == '/'
  }

  /** The 6-bit value of an alphabet character. */
  function SextetValue(c: char): (i: int)
    requires IsBase64Char(c)
    ensures 0 <= i < 64 && SextetChar(i) == c
  {
    if 'A' <= c <= 'Z' then c as int - 65
    else if 'a' <= c <= 'z' then c as int - 97 + 26
    else if '0' <= c <= '9' then c as int - 48 + 52
    else if c == '+' then 62
    else 63
  }

  lemma SextetRoundTrip(i: int)
    requires 0 <= i < 64
    ensures SextetValue(SextetChar(i)) == i
  {
  }

  /** The encoding of bs: every 3 input bytes become 4 characters; a final group
      of 1 or 2 bytes is padded with `=`. */
  function Encode(bs: seq<Byte>): string
    decreases |bs|
  {
    if |bs| < 3 then EncodeLast(bs)
    else EncodeGroup(bs[0], bs[1], bs[2]) + Encode(bs[3..])
  }

  /** The final group of fewer than three bytes. */
  function EncodeLast(bs: seq<Byte>): (r: string)
    requires |bs| < 3
    ensures |r| == if |bs| == 0 then 0 else 4
  {
    if |bs| == 0 then ""
    else if |bs| == 1 then [SextetChar(bs[0] / 4), SextetChar((bs[0] % 4) * 16), '=', '=']
    else [SextetChar(bs[0] / 4), SextetChar((bs[0] % 4) * 16 + bs[1] / 16), SextetChar((bs[1] % 16) * 4), '=']
  }

  /** Three bytes as four characters of six bits each. */
  function EncodeGroup(a: Byte, b: Byte, c: Byte): (r: string)
    ensures |r| == 4 && IsBase64Char(r[0]) && IsBase64Char(r[1]) && IsBase64Char(r[2]) && IsBase64Char(r[3])
  {
    [SextetChar(a / 4), SextetChar((a % 4) * 16 + b / 16), SextetChar((b % 16) * 4 + c / 64), SextetChar(c % 64)]
  }

  /** Four characters for every started group of three bytes. */
  lemma {:induction false} EncodeLength(bs: seq<Byte>)
    ensures |Encode(bs)| == 4 * ((|bs| + 2) / 3)
    decreases |bs|
  {
    if |bs| > 2 {
      var rest := bs[3..];
      EncodeLength(rest);
      assert Encode(bs) == EncodeGroup(bs[0], bs[1], bs[2]) + Encode(rest);
      assert (|bs| + 2) / 3 == (|rest| + 2) / 3 + 1;
    }
  }

  /** Only alphabet characters, with `=` at most in the last two positions. */
  lemma {:induction false} EncodeAlphabet(bs: seq<Byte>)
    ensures forall i :: 0 <= i < |Encode(bs)| ==>
      IsBase64Char(Encode(bs)[i]) || (Encode(bs)[i] == '=' && i >= |Encode(bs)| - 2)
    decreases |bs|
  {
    if |bs| > 2 {
      EncodeAlphabet(bs[3..]);
    }
  }

  function DecodeQuad(c0: char, c1: char, c2: char, c3: char): (r: seq<Byte>)
    requires IsBase64Char(c0) && IsBase64Char(c1) && IsBase64Char(c2) && IsBase64Char(c3)
    ensures |r| == 3
  {
    var i0, i1, i2, i3 := SextetValue(c0), SextetValue(c1), SextetValue(c2), SextetValue(c3);
    [i0 * 4 + i1 / 16, (i1 % 16) * 16 + i2 / 4, (i2 % 4) * 64 + i3]
  }

  /** The last group of four characters: one or two `=` stand for missing bytes. */
  function DecodeLast(c0: char, c1: char, c2: char, c3: char): Option<seq<Byte>> {
    if !IsBase64Char(c0) || !IsBase64Char(c1) then None
    else if c2 == '=' && c3 == '=' then Some([SextetValue(c0) * 4 + SextetValue(c1) / 16])
    else if IsBase64Char(c2) && c3 == '=' then Some(DecodeQuad(c0, c1, c2, 'A')[..2])
    else if IsBase64Char(c2) && IsBase64Char(c3) then Some(DecodeQuad(c0, c1, c2, c3))
    else None
  }

  /** Decoding of a padded encoding; None for anything that is not one. */
  function Decode(s: string): Option<seq<Byte>>
    decreases |s|
  {
    if |s| <= 4 then DecodeShort(s)
    else if !IsBase64Char(s[0]) || !IsBase64Char(s[1]) || !IsBase64Char(s[2]) || !IsBase64Char(s[3]) then None
    else match Decode(s[4..])
      case None => None
      case Some(rest) => Some(DecodeQuad(s[0], s[1], s[2], s[3]) + rest)
  }

  /** The empty string, or a single last group. */
  function DecodeShort(s: string): Option<seq<Byte>>
    requires |s| <= 4
  {
    if |s| == 0 then Some([])
    else if |s| < 4 then None
    else DecodeLast(s[0], s[1], s[2], s[3])
  }

  lemma GroupRoundTrip(a: Byte, b: Byte, c: Byte)
    ensures DecodeQuad(SextetChar(a / 4), SextetChar((a % 4) * 16 + b / 16),
                       SextetChar((b % 16) * 4 + c / 64), SextetChar(c % 64)) == [a, b, c]
  {
    var i0, i1, i2, i3 := a / 4, (a % 4) * 16 + b / 16, (b % 16) * 4 + c / 64, c % 64;
    assert i1 / 16 == a % 4 && i1 % 16 == b / 16;
    assert i2 / 4 == b % 16 && i2 % 4 == c / 64;
    assert i0 * 4 + i1 / 16 == a;
    assert (i1 % 16) * 16 + i2 / 4 == b;
    assert (i2 % 4) * 64 + i3 == c;
    SextetRoundTrip(i0);
    SextetRoundTrip(i1);
    SextetRoundTrip(i2);
    SextetRoundTrip(i3);
  }

  /** A full group followed by more input decodes group by group. */
  lemma DecodeCons(g: string, rest: string)
    requires |g| == 4 && IsBase64Char(g[0]) && IsBase64Char(g[1]) && IsBase64Char(g[2]) && IsBase64Char(g[3])
    requires |rest| > 0 && Decode(rest).Some?
    ensures Decode(g + rest) == Some(DecodeQuad(g[0], g[1], g[2], g[3]) + Decode(rest).value)
  {
    var s := g + rest;
    assert s[4..] == rest;
    assert s[0] == g[0] && s[1] == g[1] && s[2] == g[2] && s[3] == g[3];
  }

  lemma LastOne(a: Byte)
    ensures DecodeLast(SextetChar(a / 4), SextetChar((a % 4) * 16), '=', '=') == Some([a])
  {
    SextetRoundTrip(a / 4);
    SextetRoundTrip((a % 4) * 16);
    assert (a / 4) * 4 + ((a % 4) * 16) / 16 == a;
  }

  lemma LastTwo(a: Byte, b: Byte)
    ensures DecodeLast(SextetChar(a / 4), SextetChar((a % 4) * 16 + b / 16), SextetChar((b % 16) * 4), '=')
            == Some([a, b])
  {
    var c0, c1, c2 := SextetChar(a / 4), SextetChar((a % 4) * 16 + b / 16), SextetChar((b % 16) * 4);
    GroupRoundTrip(a, b, 0);
    assert SextetChar(0 % 64) == 'A';
    var q := DecodeQuad(c0, c1, c2, 'A');
    assert q == [a, b, 0];
    assert DecodeLast(c0, c1, c2, '=') == Some(q[..2]);
    assert q[..2] == [a, b];
  }

  lemma LastThree(a: Byte, b: Byte, c: Byte)
    ensures var g := EncodeGroup(a, b, c); DecodeLast(g[0], g[1], g[2], g[3]) == Some([a, b, c])
  {
    GroupRoundTrip(a, b, c);
  }

  /** A full group in front of a decodable string. */
  lemma RoundTripStep(a: Byte, b: Byte, c: Byte, tail: seq<Byte>, rest: string)
    requires |rest| > 0 && Decode(rest) == Some(tail)
    ensures Decode(EncodeGroup(a, b, c) + rest) == Some([a, b, c] + tail)
  {
    var g := EncodeGroup(a, b, c);
    GroupRoundTrip(a, b, c);
    DecodeCons(g, rest);
  }

  /** Decoding undoes encoding. */
  lemma {:induction false} RoundTrip(bs: seq<Byte>)
    ensures Decode(Encode(bs)) == Some(bs)
    decreases |bs|
  {
    if |bs| < 3 {
      RoundTripLast(bs);
    } else {
      var tail := bs[3..];
      var g, rest := EncodeGroup(bs[0], bs[1], bs[2]), Encode(tail);
      assert Encode(bs) == g + rest;
      assert bs == [bs[0], bs[1], bs[2]] + tail;
      if |tail| == 0 {
        assert rest == [] && g + rest == g;
        assert bs == [bs[0], bs[1], bs[2]];
        LastThree(bs[0], bs[1], bs[2]);
        assert Decode(g) == DecodeLast(g[0], g[1], g[2], g[3]);
      } else {
        RoundTrip(tail);
        EncodeLength(tail);
        RoundTripStep(bs[0], bs[1], bs[2], tail, rest);
      }
    }
  }

  /** A final group of fewer than three bytes decodes back. */
  lemma RoundTripLast(bs: seq<Byte>)
    requires |bs| < 3
    ensures Decode(Encode(bs)) == Some(bs)
  {
    if |bs| > 0 {
      var a, b := bs[0], if |bs| > 1 then bs[1] else 0;
      ShortSeq(bs, a, b);
      if |bs| == 1 {
        RoundTripOne(a);
      } else {
        RoundTripTwo(a, b);
      }
    }
  }

  lemma ShortSeq(bs: seq<Byte>, a: Byte, b: Byte)
    requires 1 <= |bs| <= 2 && bs[0] == a && (|bs| > 1 ==> bs[1] == b)
    ensures |bs| == 1 ==> bs == [a]
    ensures |bs| == 2 ==> bs == [a, b]
  {
  }

  lemma RoundTripOne(a: Byte)
    ensures Decode(Encode([a])) == Some([a])
  {
    LastOne(a);
  }

  lemma RoundTripTwo(a: Byte, b: Byte)
    ensures Decode(Encode([a, b])) == Some([a, b])
  {
    var e := Encode([a, b]);
    assert e == [SextetChar(a / 4), SextetChar((a % 4) * 16 + b / 16), SextetChar((b % 16) * 4), '='];
    assert Decode(e) == DecodeLast(e[0], e[1], e[2], e[3]);
    LastTwo(a, b);
  }

  /** The bytes `btoa` encodes: one per character, which must be below 256. */
  function Latin1(s: string): (r: Option<seq<Byte>>)
    ensures r.Some? <==> forall i :: 0 <= i < |s| ==> s[i] as int < 256
    ensures r.Some? ==> |r.value| == |s| && forall i :: 0 <= i < |s| ==> r.value[i] == s[i] as int
  {
    if forall i :: 0 <= i < |s| ==> s[i] as int < 256 then Some(seq(|s|, i requires 0 <= i < |s| => s[i] as int as Byte))
    else None
  }

  /** `btoa(s)`: None where btoa throws (a character above U+00FF). */
  function Btoa(s: string): (r: Option<string>)
    ensures r.Some? <==> Latin1(s).Some?
    ensures r.Some? ==> |r.value| == 4 * ((|s| + 2) / 3)
  {
    match Latin1(s)
    case None => None
    case Some(bs) => EncodeLength(bs); Some(Encode(bs))
  }
}
