/** `encodeURIComponent`: characters outside the unreserved set of section 2.3 of
    RFC 3986 (plus `! * ' ( )`) are written as the `%XX` escapes of their UTF-8 bytes
    (section 2.1 of RFC 3986, upper-case hex digits). A decoder for its output. */
module UriEncoding {
  import opened JsStrings
  import opened Options

  /** The characters `encodeURIComponent` leaves as they are. */
  predicate IsUnreserved(c: char) {
    ('A' <= c <= 'Z') || ('a' <= c <= 'z') || ('0' <= c <= '9')
    || c == '-' || c == '_' || c == '.' || c == '!' || c == '~' || c == '*' || c == '\'' || c == '(' || c == ')'
  }

  /** The UTF-8 bytes of one Unicode scalar value. */
  function Utf8(c: char): (r: seq<Byte>)
    ensures 1 <= |r| <= 4
    ensures (c as int < 128) == (r == [c as int])
  {
    var v := c as int;
    if v < 0x80 then [v]
    else if v < 0x800 then [0xC0 + v / 64, 0x80 + v % 64]
    else if v < 0x10000 then [0xE0 + v / 4096, 0x80 + (v / 64) % 64, 0x80 + v % 64]
    else [0xF0 + v / 262144, 0x80 + (v / 4096) % 64, 0x80 + (v / 64) % 64, 0x80 + v % 64]
  }

  function Utf8Encode(s: string): seq<Byte> {
    if s == [] then [] else Utf8(s[0]) + Utf8Encode(s[1..])
  }

  function HexDigit(i: int): (c: char)
    requires 0 <= i < 16
  {
    if i < 10 then (48 + i) as char else (55 + i) as char
  }

  predicate IsHexDigit(c: char) {
    ('0' <= c <= '9') || ('A' <= c <= 'F') || ('a' <= c <= 'f')
  }

  function HexValue(c: char): (i: int)
    requires IsHexDigit(c)
    ensures 0 <= i < 16
  {
    if '0' <= c <= '9' then c as int - 48 else if 'A' <= c <= 'F' then c as int - 55 else c as int - 87
  }

  lemma HexRoundTrip(i: int)
    requires 0 <= i < 16
    ensures IsHexDigit(HexDigit(i)) && HexValue(HexDigit(i)) == i
  {
  }

  /** `%XX` for every byte. */
  function Escape(bs: seq<Byte>): string {
    if bs == [] then [] else ['%', HexDigit(bs[0] / 16), HexDigit(bs[0] % 16)] + Escape(bs[1..])
  }

  function EncodeChar(c: char): string {
    if IsUnreserved(c) then [c] else Escape(Utf8(c))
  }

  function EncodeURIComponent(s: string): string {
    if s == [] then [] else EncodeChar(s[0]) + EncodeURIComponent(s[1..])
  }

  /** Percent-decoding to bytes; None for anything that cannot be the output above. */
  function PercentDecode(s: string): Option<seq<Byte>>
    decreases |s|
  {
    if s == [] then Some([])
    else if s[0] == '%' then
      if |s| >= 3 && IsHexDigit(s[1]) && IsHexDigit(s[2]) then
        match PercentDecode(s[3..])
        case None => None
        case Some(rest) => Some([HexValue(s[1]) * 16 + HexValue(s[2])] + rest)
      else None
    else if IsUnreserved(s[0]) then
      match PercentDecode(s[1..])
      case None => None
      case Some(rest) => Some([s[0] as int] + rest)
    else None
  }

  /** Output characters: unreserved ones, `%` and upper-case hex digits. */
  predicate IsEncodedChar(c: char) {
    IsUnreserved(c) || c == '%' || ('A' <= c <= 'F')
  }

  lemma {:induction false} EscapeAlphabet(bs: seq<Byte>)
    ensures forall i :: 0 <= i < |Escape(bs)| ==> IsEncodedChar(Escape(bs)[i])
    decreases |bs|
  {
    if bs != [] {
      EscapeAlphabet(bs[1..]);
    }
  }

  lemma {:induction false} EncodedAlphabet(s: string)
    ensures forall i :: 0 <= i < |EncodeURIComponent(s)| ==> IsEncodedChar(EncodeURIComponent(s)[i])
    decreases |s|
  {
    if s != [] {
      EncodedAlphabet(s[1..]);
      if !IsUnreserved(s[0]) {
        EscapeAlphabet(Utf8(s[0]));
      }
    }
  }

  /** Escaped bytes decode back in front of whatever follows. */
  lemma {:induction false} DecodeEscape(bs: seq<Byte>, rest: string)
    requires PercentDecode(rest).Some?
    ensures PercentDecode(Escape(bs) + rest) == Some(bs + PercentDecode(rest).value)
    decreases |bs|
  {
    if bs != [] {
      var hi, lo := bs[0] / 16, bs[0] % 16;
      HexRoundTrip(hi);
      HexRoundTrip(lo);
      DecodeEscape(bs[1..], rest);
      var s := Escape(bs) + rest;
      assert s == ['%', HexDigit(hi), HexDigit(lo)] + (Escape(bs[1..]) + rest);
      assert s[3..] == Escape(bs[1..]) + rest;
      assert s[0] == '%' && s[1] == HexDigit(hi) && s[2] == HexDigit(lo);
      assert HexValue(s[1]) * 16 + HexValue(s[2]) == bs[0];
      var v := PercentDecode(rest).value;
      assert PercentDecode(s) == Some([bs[0]] + (bs[1..] + v));
      assert [bs[0]] + (bs[1..] + v) == bs + v;
    } else {
      assert Escape(bs) + rest == rest;
      assert bs + PercentDecode(rest).value == PercentDecode(rest).value;
    }
  }

  /** Decoding the encoding gives the UTF-8 bytes of the string. */
  lemma {:induction false} RoundTrip(s: string)
    ensures PercentDecode(EncodeURIComponent(s)) == Some(Utf8Encode(s))
    decreases |s|
  {
    if s != [] {
      RoundTrip(s[1..]);
      var rest := EncodeURIComponent(s[1..]);
      var c := s[0];
      if IsUnreserved(c) {
        var t := [c] + rest;
        assert t[1..] == rest;
        assert Utf8(c) == [c as int];
      } else {
        DecodeEscape(Utf8(c), rest);
      }
    }
  }

  lemma {:induction false} Utf8EncodeAscii(s: string)
    requires forall i :: 0 <= i < |s| ==> s[i] as int < 128
    ensures |Utf8Encode(s)| == |s| && forall i :: 0 <= i < |s| ==> Utf8Encode(s)[i] == s[i] as int
    decreases |s|
  {
    if s != [] {
      Utf8EncodeAscii(s[1..]);
    }
  }

  /** A string of unreserved characters is left as it is. */
  lemma {:induction false} EncodeUnreserved(s: string)
    requires forall i :: 0 <= i < |s| ==> IsUnreserved(s[i])
    ensures EncodeURIComponent(s) == s
    decreases |s|
  {
    if s != [] {
      EncodeUnreserved(s[1..]);
    }
  }
}
