/** Base64 with the standard or the URL-safe alphabet (sections 4 and 5 of RFC 4648), padded and with
    the padding stripped, and the strict decoder that refuses anything else. */
module Base64 {
  type Byte = n: nat | n < 256

  predicate IsAscii(text: string) {
    forall i :: 0 <= i < |text| ==> text[i] as int < 128
  }

  datatype Alphabet = Standard | UrlSafe

  function Symbol(a: Alphabet, v: nat): char
    requires v < 64
  {
    if v < 26 then ('A' as int + v) as char
    else if v < 52 then ('a' as int + v - 26) as char
    else if v < 62 then ('0' as int + v - 52) as char
    else if v == 62 then (if a.Standard? then '+' else '-')
    else (if a.Standard? then '/' else '_')
  }

  /** The value of a data character, or -1. With `altchars` the two standard characters stay valid. */
  function SymbolValue(a: Alphabet, c: char): (v: int)
    ensures -1 <= v < 64
  {
    if 'A' <= c <= 'Z' then c as int - 'A' as int
    else if 'a' <= c <= 'z' then c as int - 'a' as int + 26
    else if '0' <= c <= '9' then c as int - '0' as int + 52
    else if c == '+' || (a.UrlSafe? && c == '-') then 62
    else if c == '/' || (a.UrlSafe? && c == '_') then 63
    else -1
  }

  lemma SymbolInverts(a: Alphabet, v: nat)
    requires v < 64
    ensures SymbolValue(a, Symbol(a, v)) == v && Symbol(a, v) != '='
  {
  }

  // ------------------------------------------------------------------- encode

  function One(a: Alphabet, x: Byte): string {
    [Symbol(a, x / 4), Symbol(a, x % 4 * 16)]
  }

  function Two(a: Alphabet, x: Byte, y: Byte): string {
    [Symbol(a, x / 4), Symbol(a, x % 4 * 16 + y / 16), Symbol(a, y % 16 * 4)]
  }

  function Three(a: Alphabet, x: Byte, y: Byte, z: Byte): string {
    [Symbol(a, x / 4), Symbol(a, x % 4 * 16 + y / 16), Symbol(a, y % 16 * 4 + z / 64), Symbol(a, z % 64)]
  }

  /** With padding to a multiple of four characters. */
  function Encode(a: Alphabet, bytes: seq<Byte>): string {
    if |bytes| == 0 then ""
    else if |bytes| == 1 then One(a, bytes[0]) + "=="
    else if |bytes| == 2 then Two(a, bytes[0], bytes[1]) + "="
    else Three(a, bytes[0], bytes[1], bytes[2]) + Encode(a, bytes[3..])
  }

  /** `rstrip("=")`. */
  function Strip(s: string): string {
    if |s| > 0 && s[|s| - 1] == '=' then Strip(s[..|s| - 1]) else s
  }

  function Equals(n: nat): (s: string)
    ensures |s| == n
  {
    if n == 0 then "" else "=" + Equals(n - 1)
  }

  /** `s + "=" * (-len(s) % 4)`. */
  function Pad(s: string): string {
    s + Equals((4 - |s| % 4) % 4)
  }

  // ------------------------------------------------------------------- decode

  datatype Decoded = Refused | Bytes(bytes: seq<Byte>)

  function DecodeOne(p: int, q: int): Decoded {
    if p < 0 || p >= 64 || q < 0 || q >= 64 then Refused else Bytes([p * 4 + q / 16])
  }

  function DecodeTwo(p: int, q: int, r: int): Decoded {
    if p < 0 || p >= 64 || q < 0 || q >= 64 || r < 0 || r >= 64 then Refused
    else Bytes([p * 4 + q / 16, q % 16 * 16 + r / 4])
  }

  function DecodeThree(p: int, q: int, r: int, t: int): Decoded {
    if p < 0 || p >= 64 || q < 0 || q >= 64 || r < 0 || r >= 64 || t < 0 || t >= 64 then Refused
    else Bytes([p * 4 + q / 16, q % 16 * 16 + r / 4, r % 4 * 64 + t])
  }

  /** Whole quads of data characters; only the last may end in one or two `=`. */
  function Decode(a: Alphabet, s: string): Decoded {
    if |s| == 0 then Bytes([])
    else if |s| < 4 then Refused
    else
      var p, q, r, t := SymbolValue(a, s[0]), SymbolValue(a, s[1]), SymbolValue(a, s[2]), SymbolValue(a, s[3]);
      if |s| == 4 && s[3] == '=' then (if s[2] == '=' then DecodeOne(p, q) else DecodeTwo(p, q, r))
      else
        match DecodeThree(p, q, r, t)
        case Refused => Refused
        case Bytes(first) =>
          match Decode(a, s[4..])
          case Refused => Refused
          case Bytes(rest) => Bytes(first + rest)
  }

  // --------------------------------------------------------------- round trips

  lemma DecodeOneInverts(a: Alphabet, x: Byte)
    ensures Decode(a, One(a, x) + "==") == Bytes([x])
  {
    SymbolInverts(a, x / 4);
    SymbolInverts(a, x % 4 * 16);
  }

  lemma TwoInverts(x: Byte, y: Byte)
    ensures DecodeTwo(x / 4, x % 4 * 16 + y / 16, y % 16 * 4) == Bytes([x, y])
  {
  }

  lemma DecodeTwoText(a: Alphabet, s: string)
    requires |s| == 4 && s[3] == '=' && s[2] != '='
    ensures Decode(a, s) == DecodeTwo(SymbolValue(a, s[0]), SymbolValue(a, s[1]), SymbolValue(a, s[2]))
  {
  }

  lemma DecodeTwoInverts(a: Alphabet, x: Byte, y: Byte)
    ensures Decode(a, Two(a, x, y) + "=") == Bytes([x, y])
  {
    TwoInverts(x, y);
    DecodeTwoText(a, Two(a, x, y) + "=");
    SymbolInverts(a, x / 4);
    SymbolInverts(a, x % 4 * 16 + y / 16);
    SymbolInverts(a, y % 16 * 4);
  }

  lemma DecodeThreeInverts(x: Byte, y: Byte, z: Byte)
    ensures DecodeThree(x / 4, x % 4 * 16 + y / 16, y % 16 * 4 + z / 64, z % 64) == Bytes([x, y, z])
  {
  }

  lemma DecodeQuad(a: Alphabet, x: Byte, y: Byte, z: Byte, s: string, rest: seq<Byte>)
    requires Decode(a, s) == Bytes(rest)
    ensures Decode(a, Three(a, x, y, z) + s) == Bytes([x, y, z] + rest)
  {
    SymbolInverts(a, x / 4);
    SymbolInverts(a, x % 4 * 16 + y / 16);
    SymbolInverts(a, y % 16 * 4 + z / 64);
    SymbolInverts(a, z % 64);
    DecodeThreeInverts(x, y, z);
    assert (Three(a, x, y, z) + s)[4..] == s;
  }

  lemma DecodeEncodeShort(a: Alphabet, bytes: seq<Byte>)
    requires |bytes| < 3
    ensures Decode(a, Encode(a, bytes)) == Bytes(bytes)
  {
    if |bytes| == 1 {
      DecodeOneInverts(a, bytes[0]);
      assert bytes == [bytes[0]];
    } else if |bytes| == 2 {
      DecodeTwoInverts(a, bytes[0], bytes[1]);
      assert bytes == [bytes[0], bytes[1]];
    }
  }

  /** Decoding inverts encoding, for every byte string. */
  lemma {:induction false} DecodeEncode(a: Alphabet, bytes: seq<Byte>)
    ensures Decode(a, Encode(a, bytes)) == Bytes(bytes)
    decreases |bytes|
  {
    if |bytes| < 3 {
      DecodeEncodeShort(a, bytes);
    } else {
      DecodeEncode(a, bytes[3..]);
      DecodeQuad(a, bytes[0], bytes[1], bytes[2], Encode(a, bytes[3..]), bytes[3..]);
      assert bytes == [bytes[0], bytes[1], bytes[2]] + bytes[3..];
    }
  }

  lemma {:induction false} StripAppend(front: string, back: string)
    requires Strip(back) != ""
    ensures Strip(front + back) == front + Strip(back)
    decreases |back|
  {
    if |back| > 0 && back[|back| - 1] == '=' {
      assert (front + back)[..|front + back| - 1] == front + back[..|back| - 1];
      StripAppend(front, back[..|back| - 1]);
    }
  }

  lemma StripData(s: string)
    requires |s| > 0 && s[|s| - 1] != '='
    ensures Strip(s) == s && Strip(s + "=") == s && Strip(s + "==") == s
  {
    assert (s + "=")[..|s|] == s;
    assert (s + "==")[..|s| + 1] == s + "=";
  }

  lemma StripQuad(quad: string, rest: string)
    requires |quad| == 4 && quad[3] != '=' && Pad(Strip(rest)) == rest
    ensures Strip(quad + rest) == quad + Strip(rest) && Pad(Strip(quad + rest)) == quad + rest
  {
    if Strip(rest) == "" {
      assert rest == "" by { assert Equals(0) == ""; }
      assert quad + rest == quad;
      StripData(quad);
    } else {
      StripAppend(quad, rest);
    }
    PadQuad(quad, Strip(rest));
  }

  lemma PadQuad(quad: string, s: string)
    requires |quad| == 4
    ensures Pad(quad + s) == quad + Pad(s)
  {
    assert |quad + s| % 4 == |s| % 4;
    assert quad + s + Equals((4 - |s| % 4) % 4) == quad + (s + Equals((4 - |s| % 4) % 4));
  }

  lemma StripTail(a: Alphabet, bytes: seq<Byte>)
    requires 0 < |bytes| < 3
    ensures |Strip(Encode(a, bytes))| == |bytes| + 1 && Pad(Strip(Encode(a, bytes))) == Encode(a, bytes)
  {
    assert Equals(1) == "=" + Equals(0) && Equals(2) == "=" + Equals(1) && Equals(0) == "";
    if |bytes| == 1 {
      var s := One(a, bytes[0]);
      SymbolInverts(a, bytes[0] % 4 * 16);
      StripData(s);
      assert Encode(a, bytes) == s + "==";
    } else {
      var s := Two(a, bytes[0], bytes[1]);
      SymbolInverts(a, bytes[1] % 16 * 4);
      StripData(s);
      assert Encode(a, bytes) == s + "=";
    }
  }

  lemma CeilStep(n: nat)
    requires n >= 3
    ensures (4 * n + 2) / 3 == 4 + (4 * (n - 3) + 2) / 3
  {
  }

  /** Stripped text has ceil(4n/3) characters, and putting the padding back restores it. */
  lemma {:induction false} StripThenPad(a: Alphabet, bytes: seq<Byte>)
    ensures |Strip(Encode(a, bytes))| == (4 * |bytes| + 2) / 3
    ensures Pad(Strip(Encode(a, bytes))) == Encode(a, bytes)
    decreases |bytes|
  {
    if |bytes| == 0 {
      assert Equals(0) == "";
    } else if |bytes| < 3 {
      StripTail(a, bytes);
    } else {
      SymbolInverts(a, bytes[2] % 64);
      StripThenPad(a, bytes[3..]);
      StripQuad(Three(a, bytes[0], bytes[1], bytes[2]), Encode(a, bytes[3..]));
      CeilStep(|bytes|);
    }
  }

  lemma QuadStep(n: nat)
    requires n >= 3
    ensures (n + 2) / 3 * 4 == 4 + (n - 3 + 2) / 3 * 4
  {
  }

  lemma {:induction false} EncodeLength(a: Alphabet, bytes: seq<Byte>)
    ensures |Encode(a, bytes)| == (|bytes| + 2) / 3 * 4
    decreases |bytes|
  {
    if |bytes| > 2 {
      EncodeLength(a, bytes[3..]);
      QuadStep(|bytes|);
    }
  }
}
