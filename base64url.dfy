/**
 * Base64 as in section 4 of RFC 4648, the URL- and filename-safe alphabet
 * of section 5 with the padding dropped, and the browser's forgiving
 * decoder (`atob`) that the session cookie code pads its input for.
 */
module Base64Url {
  import opened Wrappers
  import opened Text

  /** The character for a 6-bit value, in the order A-Z, a-z, 0-9, '+', '/'. */
  function CharOf(v: int): (c: char)
    requires 0 <= v < 64
    ensures IsBase64Char(c)
  {
    if v < 26 then (65 + v) as char
    else if v < 52 then (97 + v - 26) as char
    else if v < 62 then (48 + v - 52) as char
    else if v == 62 then '+'
    else '/'
  }

  predicate IsBase64Char(c: char)
  {
    ('A' <= c <= 'Z') || ('a' <= c <= 'z') || ('0' <= c <= '9') || c == '+' || c == '/'
  }

  /** The 6-bit value a character of the alphabet stands for. */
  function ValueOf(c: char): (v: int)
    requires IsBase64Char(c)
    ensures 0 <= v < 64 && CharOf(v) == c
  {
    if 'A' <= c <= 'Z' then c as int - 65
    else if 'a' <= c <= 'z' then c as int - 97 + 26
    else if '0' <= c <= '9' then c as int - 48 + 52
    else if c == '+' then 62
    else 63
  }

  /** Every 6-bit value has its own character, and reading it back gives the value. */
  lemma CharOfValueOf(v: int)
    requires 0 <= v < 64
    ensures IsBase64Char(CharOf(v)) && ValueOf(CharOf(v)) == v
  {
  }

  predicate AllBase64(s: string)
  {
    forall i :: 0 <= i < |s| ==> IsBase64Char(s[i])
  }

  /** The four characters of a full group of three bytes. */
  function EncodeGroup(x: Byte, y: Byte, z: Byte): (s: string)
    ensures |s| == 4 && AllBase64(s)
  {
    [CharOf(x / 4), CharOf((x % 4) * 16 + y / 16), CharOf((y % 16) * 4 + z / 64), CharOf(z % 64)]
  }

  /** The two or three characters of a final group of one or two bytes, unpadded. */
  function EncodePartial(b: seq<Byte>): (s: string)
    requires 1 <= |b| <= 2
    ensures |s| == |b| + 1 && AllBase64(s)
  {
    if |b| == 1 then [CharOf(b[0] / 4), CharOf((b[0] % 4) * 16)]
    else [CharOf(b[0] / 4), CharOf((b[0] % 4) * 16 + b[1] / 16), CharOf((b[1] % 16) * 4)]
  }

  /** The number of characters n bytes encode to, before padding. */
  function EncodedLength(n: nat): nat
  {
    if n == 0 then 0 else if n < 3 then n + 1 else 4 + EncodedLength(n - 3)
  }

  /** A character count a decoder accepts: groups of four, and a final group of two or three. */
  predicate DecodableLength(n: nat)
  {
    n == 0 || n == 2 || n == 3 || (n >= 4 && DecodableLength(n - 4))
  }

  lemma {:induction false} DecodableLengthMod(n: nat)
    ensures DecodableLength(n) <==> n % 4 != 1
    decreases n
  {
    if n >= 4 {
      DecodableLengthMod(n - 4);
    }
  }

  /** An encoded length is decodable, and it fixes how many '=' the padding adds. */
  lemma {:induction false} EncodedLengthFacts(n: nat)
    ensures DecodableLength(EncodedLength(n))
    ensures EncodedLength(n) % 4 == (if n % 3 == 0 then 0 else n % 3 + 1)
    ensures 3 * EncodedLength(n) == 4 * n + (if n % 3 == 0 then 0 else if n % 3 == 1 then 2 else 1)
    decreases n
  {
    if n >= 3 {
      EncodedLengthFacts(n - 3);
    }
  }

  /** The characters for the bytes, three bytes to four characters, a final partial group unpadded. */
  function EncodeGroups(b: seq<Byte>): (s: string)
    ensures |s| == EncodedLength(|b|)
    decreases |b|
  {
    if |b| == 0 then ""
    else if |b| < 3 then EncodePartial(b)
    else EncodeGroup(b[0], b[1], b[2]) + EncodeGroups(b[3..])
  }

  /** The encoding uses only the 64 characters of the alphabet. */
  lemma {:induction false} EncodeGroupsInAlphabet(b: seq<Byte>)
    ensures AllBase64(EncodeGroups(b))
    decreases |b|
  {
    if |b| >= 3 {
      EncodeGroupsInAlphabet(b[3..]);
      var g, rest := EncodeGroup(b[0], b[1], b[2]), EncodeGroups(b[3..]);
      assert forall i :: 0 <= i < |g + rest| ==> (g + rest)[i] == if i < 4 then g[i] else rest[i - 4];
    }
  }

  /** Base64 with padding: what both `Buffer#toString("base64")` and `btoa` produce for these bytes. */
  function Base64Encode(b: seq<Byte>): (s: string)
    ensures |s| % 4 == 0
  {
    PaddedLength(|b|);
    EncodeGroups(b) + Repeat('=', (3 - |b| % 3) % 3)
  }

  /** The padding brings an encoded length to a multiple of four. */
  lemma PaddedLength(n: nat)
    ensures (EncodedLength(n) + (3 - n % 3) % 3) % 4 == 0
  {
    EncodedLengthFacts(n);
    var m := n % 3;
    if m == 0 {
      assert (3 - m) % 3 == 0;
    } else if m == 1 {
      assert EncodedLength(n) % 4 == 2 && (3 - m) % 3 == 2;
    } else {
      assert EncodedLength(n) % 4 == 3 && (3 - m) % 3 == 1;
    }
  }

  /** The three bytes of a full group of four characters. */
  function DecodeGroup(s: string): (b: seq<Byte>)
    requires |s| == 4 && AllBase64(s)
    ensures |b| == 3
  {
    [ValueOf(s[0]) * 4 + ValueOf(s[1]) / 16, (ValueOf(s[1]) % 16) * 16 + ValueOf(s[2]) / 4,
     (ValueOf(s[2]) % 4) * 64 + ValueOf(s[3])]
  }

  /** The bytes a final group of two or three characters stands for. */
  function DecodePartial(s: string): (b: seq<Byte>)
    requires 2 <= |s| <= 3 && AllBase64(s)
    ensures |b| == |s| - 1
  {
    if |s| == 2 then [ValueOf(s[0]) * 4 + ValueOf(s[1]) / 16]
    else [ValueOf(s[0]) * 4 + ValueOf(s[1]) / 16, (ValueOf(s[1]) % 16) * 16 + ValueOf(s[2]) / 4]
  }

  /** The bytes a string of the alphabet stands for, group by group. */
  function DecodeGroups(s: string): (b: seq<Byte>)
    requires DecodableLength(|s|) && AllBase64(s)
    decreases |s|
  {
    if |s| == 0 then []
    else if |s| < 4 then DecodePartial(s)
    else DecodeGroup(s[..4]) + DecodeGroups(s[4..])
  }

  /** Three bytes split into four 6-bit values and put back together. */
  lemma ThreeBytesRoundTrip(x: Byte, y: Byte, z: Byte)
    ensures var b := (x % 4) * 16 + y / 16;
      var c := (y % 16) * 4 + z / 64;
      && (x / 4) * 4 + b / 16 == x
      && (b % 16) * 16 + c / 4 == y
      && (c % 4) * 64 + z % 64 == z
  {
    var b := (x % 4) * 16 + y / 16;
    var c := (y % 16) * 4 + z / 64;
    assert b / 16 == x % 4 && b % 16 == y / 16;
    assert c / 4 == y % 16 && c % 4 == z / 64;
  }

  /** One full group decodes to its three bytes. */
  lemma GroupRoundTrip(x: Byte, y: Byte, z: Byte)
    ensures DecodeGroup(EncodeGroup(x, y, z)) == [x, y, z]
  {
    var b := (x % 4) * 16 + y / 16;
    var c := (y % 16) * 4 + z / 64;
    CharOfValueOf(x / 4); CharOfValueOf(b); CharOfValueOf(c); CharOfValueOf(z % 64);
    ThreeBytesRoundTrip(x, y, z);
  }

  /** A final group of one or two bytes decodes back to them. */
  lemma PartialRoundTrip(b: seq<Byte>)
    requires 1 <= |b| <= 2
    ensures DecodePartial(EncodePartial(b)) == b
  {
    if |b| == 1 {
      CharOfValueOf(b[0] / 4); CharOfValueOf((b[0] % 4) * 16);
      ThreeBytesRoundTrip(b[0], 0, 0);
    } else {
      CharOfValueOf(b[0] / 4); CharOfValueOf((b[0] % 4) * 16 + b[1] / 16); CharOfValueOf((b[1] % 16) * 4);
      ThreeBytesRoundTrip(b[0], b[1], 0);
    }
  }

  /** A full group in front decodes in front. */
  lemma DecodeGroupsCons(g: string, rest: string)
    requires |g| == 4 && AllBase64(g) && AllBase64(rest) && DecodableLength(|rest|)
    ensures AllBase64(g + rest) && DecodableLength(|g + rest|)
    ensures DecodeGroups(g + rest) == DecodeGroup(g) + DecodeGroups(rest)
  {
    var s := g + rest;
    assert s[..4] == g && s[4..] == rest;
  }

  /** Decoding the characters of some bytes gives the bytes back. */
  lemma {:induction false} DecodeEncodeGroups(b: seq<Byte>)
    ensures AllBase64(EncodeGroups(b)) && DecodableLength(|EncodeGroups(b)|)
    ensures DecodeGroups(EncodeGroups(b)) == b
    decreases |b|
  {
    if |b| == 0 {
    } else if |b| < 3 {
      PartialRoundTrip(b);
    } else {
      DecodeEncodeGroups(b[3..]);
      DecodeEncodeFullGroup(b);
    }
  }

  /** The step of the induction: a full group in front of bytes that round-trip. */
  lemma DecodeEncodeFullGroup(b: seq<Byte>)
    requires |b| >= 3
    requires AllBase64(EncodeGroups(b[3..])) && DecodableLength(|EncodeGroups(b[3..])|)
    requires DecodeGroups(EncodeGroups(b[3..])) == b[3..]
    ensures AllBase64(EncodeGroups(b)) && DecodableLength(|EncodeGroups(b)|)
    ensures DecodeGroups(EncodeGroups(b)) == b
  {
    var g, rest := EncodeGroup(b[0], b[1], b[2]), EncodeGroups(b[3..]);
    assert EncodeGroups(b) == g + rest;
    GroupRoundTrip(b[0], b[1], b[2]);
    DecodeGroupsCons(g, rest);
    assert [b[0], b[1], b[2]] + b[3..] == b;
  }

  /** ASCII white space, which the forgiving decoder skips. */
  predicate IsAsciiWhitespace(c: char)
  {
    c == '\t' || c == '\n' || c == '\U{C}' || c == '\r' || c == ' '
  }

  function RemoveWhitespace(s: string): (r: string)
    ensures |r| <= |s|
    ensures forall i :: 0 <= i < |r| ==> !IsAsciiWhitespace(r[i])
  {
    if |s| == 0 then ""
    else (if IsAsciiWhitespace(s[0]) then "" else [s[0]]) + RemoveWhitespace(s[1..])
  }

  lemma {:induction false} RemoveWhitespaceAbsent(s: string)
    requires forall i :: 0 <= i < |s| ==> !IsAsciiWhitespace(s[i])
    ensures RemoveWhitespace(s) == s
    decreases |s|
  {
    if |s| > 0 {
      RemoveWhitespaceAbsent(s[1..]);
    }
  }

  /**
   * The forgiving base64 decoder of `atob`: white space is skipped, one or
   * two final '=' are dropped from a length that is a multiple of 4, and
   * then a length of 4k + 1 or any character outside the alphabet fails.
   */
  function Atob(s: string): Option<seq<Byte>>
  {
    DecodeCore(StripPadding(RemoveWhitespace(s)))
  }

  /** One or two trailing '=' are dropped, and only from a length that is a multiple of four. */
  function StripPadding(t: string): (r: string)
    ensures |r| <= |t| <= |r| + 2 && t == r + Repeat('=', |t| - |r|)
    ensures |t| % 4 != 0 ==> r == t
  {
    if |t| % 4 != 0 then t
    else if EndsWith(t, "==") then t[..|t| - 2]
    else if EndsWith(t, "=") then t[..|t| - 1]
    else t
  }

  /** What remains is rejected when its length leaves remainder 1 or a character is outside the alphabet. */
  function DecodeCore(core: string): (r: Option<seq<Byte>>)
    ensures r.Some? <==> |core| % 4 != 1 && AllBase64(core)
  {
    if |core| % 4 == 1 || !AllBase64(core) then None
    else
      DecodableLengthMod(|core|);
      Some(DecodeGroups(core))
  }

  /**
   * The RFC 4648 section 5 alphabet with the padding removed: '+' becomes
   * '-', '/' becomes '_', and every '=' goes. The result is the unpadded
   * encoding, each character moved to the section 5 alphabet.
   */
  function Base64UrlEncode(bytes: seq<Byte>): (u: string)
    ensures var e := EncodeGroups(bytes);
      |u| == |e| && forall i :: 0 <= i < |e| ==> u[i] == ToUrlChar(e[i])
  {
    PaddingDropsOff(bytes);
    RemoveAll(ReplaceAll(ReplaceAll(Base64Encode(bytes), '+', '-'), '/', '_'), '=')
  }

  /** After the two swaps, removing '=' leaves exactly the swapped unpadded groups. */
  lemma PaddingDropsOff(bytes: seq<Byte>)
    ensures RemoveAll(ReplaceAll(ReplaceAll(Base64Encode(bytes), '+', '-'), '/', '_'), '=')
         == ReplaceAll(ReplaceAll(EncodeGroups(bytes), '+', '-'), '/', '_')
  {
    var e := EncodeGroups(bytes);
    var pad := Repeat('=', (3 - |bytes| % 3) % 3);
    var swapped := ReplaceAll(ReplaceAll(e, '+', '-'), '/', '_');
    assert ReplaceAll(ReplaceAll(e + pad, '+', '-'), '/', '_') == swapped + pad;
    RemoveAllAppend(swapped, pad, '=');
    SwappedHasNoPad(bytes);
    RemoveAllAbsent(swapped, '=');
    assert RemoveAll(pad, '=') == "";
  }

  /** The unpadded groups, once swapped, hold no '='. */
  lemma SwappedHasNoPad(bytes: seq<Byte>)
    ensures '=' !in ReplaceAll(ReplaceAll(EncodeGroups(bytes), '+', '-'), '/', '_')
  {
    var e := EncodeGroups(bytes);
    EncodeGroupsInAlphabet(bytes);
    var swapped := ReplaceAll(ReplaceAll(e, '+', '-'), '/', '_');
    forall i | 0 <= i < |swapped| ensures swapped[i] != '=' {
      assert IsBase64Char(e[i]);
    }
  }

  /** A character of the RFC 4648 section 5 alphabet. */
  predicate IsBase64UrlChar(c: char)
  {
    ('A' <= c <= 'Z') || ('a' <= c <= 'z') || ('0' <= c <= '9') || c == '-' || c == '_'
  }

  /** The RFC 4648 section 5 character for a section 4 one. */
  function ToUrlChar(c: char): char
  {
    if c == '+' then '-' else if c == '/' then '_' else c
  }

  /** The padding the decoder appends: the last (n + 3) mod 4 characters of "===" are dropped. */
  function PadBase64(s: string): (r: string)
    ensures |r| % 4 == 0
    ensures r == s + Repeat('=', [0, 3, 2, 1][|s| % 4])
  {
    s + "==="[(|s| + 3) % 4..]
  }

  /** Back to the standard alphabet, padded, and decoded as `atob` does. */
  function Base64UrlDecode(value: string): Option<seq<Byte>>
  {
    Atob(PadBase64(ReplaceAll(ReplaceAll(value, '-', '+'), '_', '/')))
  }

  /** The encoding uses only the RFC 4648 section 5 alphabet: no '+', no '/' and no padding. */
  lemma UrlEncodingAlphabet(bytes: seq<Byte>)
    ensures forall i :: 0 <= i < |Base64UrlEncode(bytes)| ==> IsBase64UrlChar(Base64UrlEncode(bytes)[i])
    ensures '+' !in Base64UrlEncode(bytes) && '/' !in Base64UrlEncode(bytes) && '=' !in Base64UrlEncode(bytes)
  {
    EncodeGroupsInAlphabet(bytes);
    var e := EncodeGroups(bytes);
    forall i | 0 <= i < |e| ensures IsBase64UrlChar(Base64UrlEncode(bytes)[i]) {
      assert IsBase64Char(e[i]);
    }
  }

  /** Padding a decodable string of the alphabet and decoding it as `atob` does decodes its groups. */
  lemma AtobOfPadded(e: string)
    requires AllBase64(e) && DecodableLength(|e|)
    ensures Atob(PadBase64(e)) == Some(DecodeGroups(e))
  {
    DecodableLengthMod(|e|);
    PaddedHasNoWhitespace(e);
    StripPaddingOfPadded(e);
  }

  /** Characters of the alphabet and '=' are not whitespace, so `atob` removes nothing. */
  lemma PaddedHasNoWhitespace(e: string)
    requires AllBase64(e)
    ensures RemoveWhitespace(PadBase64(e)) == PadBase64(e)
  {
    var padded := PadBase64(e);
    forall i | 0 <= i < |padded| ensures !IsAsciiWhitespace(padded[i]) {
      if i < |e| {
        assert padded[i] == e[i] && IsBase64Char(e[i]);
      }
    }
    RemoveWhitespaceAbsent(padded);
  }

  /** Stripping the padding the decoder appended gives the unpadded string back. */
  lemma StripPaddingOfPadded(e: string)
    requires AllBase64(e) && |e| % 4 != 1
    ensures StripPadding(PadBase64(e)) == e
  {
    if |e| % 4 == 2 {
      StripTwo(e);
    } else if |e| % 4 == 3 {
      StripOne(e);
    } else {
      StripNone(e);
    }
  }

  lemma StripTwo(e: string)
    requires |e| % 4 == 2
    ensures StripPadding(PadBase64(e)) == e
  {
    var p := PadBase64(e);
    assert p == e + "==";
    assert |p| % 4 == 0 && EndsWith(p, "==");
    assert p[..|p| - 2] == e;
  }

  lemma StripOne(e: string)
    requires |e| % 4 == 3 && IsBase64Char(e[|e| - 1])
    ensures StripPadding(PadBase64(e)) == e
  {
    var p := PadBase64(e);
    assert p == e + "=";
    assert |p| % 4 == 0;
    assert p[|p| - 2] == e[|e| - 1];
    assert !EndsWith(p, "==");
    assert EndsWith(p, "=");
    assert p[..|p| - 1] == e;
  }

  lemma StripNone(e: string)
    requires |e| % 4 == 0 && (|e| > 0 ==> IsBase64Char(e[|e| - 1]))
    ensures StripPadding(PadBase64(e)) == e
  {
    assert PadBase64(e) == e;
    if |e| > 0 {
      assert e[|e| - 1..] != "=";
    }
  }

  /** Decoding an encoding gives the bytes back. */
  lemma DecodeEncode(bytes: seq<Byte>)
    ensures Base64UrlDecode(Base64UrlEncode(bytes)) == Some(bytes)
  {
    var e := EncodeGroups(bytes);
    var u := Base64UrlEncode(bytes);
    DecodeEncodeGroups(bytes);
    var std := ReplaceAll(ReplaceAll(u, '-', '+'), '_', '/');
    assert std == e by {
      forall i | 0 <= i < |e| ensures std[i] == e[i] {
        assert IsBase64Char(e[i]);
      }
    }
    AtobOfPadded(e);
  }

  /** A byte sequence that is not empty encodes to a string that is not empty. */
  lemma EncodeNonEmpty(bytes: seq<Byte>)
    requires |bytes| > 0
    ensures |Base64UrlEncode(bytes)| > 0
  {
  }

  /** A length of 4k + 1 cannot be decoded: the three '=' added leave one that is not in the alphabet. */
  lemma OneCharOverIsRejected(value: string)
    requires |value| % 4 == 1 && AllBase64(value)
    ensures Base64UrlDecode(value) == None
  {
    var std := ReplaceAll(ReplaceAll(value, '-', '+'), '_', '/');
    var padded := PadBase64(std);
    assert padded == std + "===";
    forall i | 0 <= i < |padded| ensures !IsAsciiWhitespace(padded[i]) {
      if i < |std| {
        assert IsBase64Char(value[i]);
      }
    }
    RemoveWhitespaceAbsent(padded);
    var core := padded[..|padded| - 2];
    assert core[|core| - 1] == '=';
    assert !AllBase64(core);
  }

  /** The fallback that builds a binary string of one character per byte, for `btoa`. */
  method BinaryString(bytes: array<Byte>) returns (binary: string)
    ensures |binary| == bytes.Length
    ensures forall i :: 0 <= i < bytes.Length ==> binary[i] as int == bytes[i]
  {
    binary := "";
    for i := 0 to bytes.Length
      invariant |binary| == i
      invariant forall k :: 0 <= k < i ==> binary[k] as int == bytes[k]
    {
      binary := binary + [bytes[i] as char];
    }
  }

  /** The fallback that copies the decoded binary string into a byte array; each code unit is stored modulo 256. */
  method BytesOfBinary(binary: string) returns (bytes: array<Byte>)
    ensures fresh(bytes) && bytes.Length == |binary|
    ensures forall i :: 0 <= i < |binary| ==> bytes[i] == binary[i] as int % 256
  {
    bytes := new Byte[|binary|];
    for i := 0 to |binary|
      invariant forall k :: 0 <= k < i ==> bytes[k] == binary[k] as int % 256
    {
      bytes[i] := binary[i] as int % 256;
    }
  }
}
