/** The output measurement's generated workloads and the check of what was retained of their output. */
module Workload {
  import opened Base64

  // -------------------------------------------------------------------- bytes

  /** UTF-8, for every character (section 3 of RFC 3629). */
  function Utf8Char(c: char): seq<Byte> {
    var n := c as int;
    if n < 0x80 then [n]
    else if n < 0x800 then [0xC0 + n / 64, 0x80 + n % 64]
    else if n < 0x10000 then [0xE0 + n / 4096, 0x80 + n / 64 % 64, 0x80 + n % 64]
    else [0xF0 + n / 262144 % 8, 0x80 + n / 4096 % 64, 0x80 + n / 64 % 64, 0x80 + n % 64]
  }

  function Utf8(s: string): seq<Byte> {
    if |s| == 0 then [] else Utf8Char(s[0]) + Utf8(s[1..])
  }

  lemma Utf8Step(s: string, t: string)
    requires |s| > 0
    ensures Utf8(s + t) == Utf8Char(s[0]) + Utf8(s[1..] + t)
  {
    assert (s + t)[1..] == s[1..] + t;
  }

  lemma Regroup(a: seq<Byte>, b: seq<Byte>, c: seq<Byte>)
    ensures a + (b + c) == a + b + c
  {
  }

  lemma {:induction false} Utf8Append(s: string, t: string)
    ensures Utf8(s + t) == Utf8(s) + Utf8(t)
  {
    if |s| == 0 {
      assert s + t == t;
    } else {
      Utf8Append(s[1..], t);
      Utf8Step(s, t);
      Regroup(Utf8Char(s[0]), Utf8(s[1..]), Utf8(t));
    }
  }

  lemma {:induction false} AsciiLength(s: string)
    requires IsAscii(s)
    ensures |Utf8(s)| == |s|
  {
    if |s| > 0 {
      AsciiLength(s[1..]);
    }
  }

  function Big32(n: nat): seq<Byte>
    requires n < 0x1_0000_0000
  {
    [n / 0x100_0000, n / 0x1_0000 % 256, n / 256 % 256, n % 256]
  }

  predicate OccursAt(body: seq<Byte>, part: seq<Byte>, i: nat) {
    i + |part| <= |body| && body[i..i + |part|] == part
  }

  predicate Contains(body: seq<Byte>, part: seq<Byte>) {
    exists i :: 0 <= i <= |body| && OccursAt(body, part, i)
  }

  // ---------------------------------------------------------- what the cells do

  datatype Shown<T> = Raises | Shows(value: T)

  /** How many random bytes the text workload asks for; a negative number makes it raise. */
  function RandomCount(remaining: int): int {
    if remaining + 3 < 0 then -1 else (remaining + 3) * 3 / 4
  }

  /** `text[:n]`, where a negative `n` counts from the end. */
  function Slice(text: string, n: int): string {
    if n >= |text| then text
    else if n >= 0 then text[..n]
    else if |text| + n <= 0 then ""
    else text[..|text| + n]
  }

  function TextOutput(requested: nat, marker: string, random: seq<Byte>): Shown<string> {
    var prefix := marker + ":";
    var remaining := requested - |prefix|;
    if RandomCount(remaining) < 0 then Raises
    else Shows(prefix + Slice(Encode(Standard, random), remaining))
  }

  const SIGNATURE: seq<Byte> := [0x89, 0x50, 0x4E, 0x47, 0x0D, 0x0A, 0x1A, 0x0A]
  const IHDR: seq<Byte> := [0x49, 0x48, 0x44, 0x52]
  const IDAT: seq<Byte> := [0x49, 0x44, 0x41, 0x54]
  const RUST: seq<Byte> := [0x72, 0x75, 0x53, 0x74]
  const IEND: seq<Byte> := [0x49, 0x45, 0x4E, 0x44]
  /** One pixel, eight bits, true colour. */
  const HEADER: seq<Byte> := [0, 0, 0, 1, 0, 0, 0, 1, 8, 2, 0, 0, 0]

  /** A checksum is any function to 32 bits. */
  type Word = n: nat | n < 0x1_0000_0000

  /** Length, type, data, checksum (section 5.3 of the PNG specification). */
  function Chunk(kind: seq<Byte>, data: seq<Byte>, crc: seq<Byte> -> Word): seq<Byte>
    requires |data| < 0x1_0000_0000
  {
    Big32(|data|) + kind + data + Big32(crc(kind + data))
  }

  /** The bytes before the padding chunk; `pixels` is the compressed image data. */
  function Front(pixels: seq<Byte>, crc: seq<Byte> -> Word): seq<Byte>
    requires |pixels| < 0x1_0000_0000
  {
    SIGNATURE + Chunk(IHDR, HEADER, crc) + Chunk(IDAT, pixels, crc)
  }

  function PaddingSize(requested: nat, pixels: seq<Byte>): int {
    requested - (8 + 25 + (12 + |pixels|) + 12) - 12
  }

  function Png(pixels: seq<Byte>, padding: seq<Byte>, crc: seq<Byte> -> Word): seq<Byte>
    requires |pixels| < 0x1_0000_0000 && |padding| < 0x1_0000_0000
  {
    Front(pixels, crc) + Chunk(RUST, padding, crc) + Chunk(IEND, [], crc)
  }

  /** The workload raises when the marker does not fit, and when a length does not fit 32 bits. */
  function ImageOutput(requested: nat, marker: string, pixels: seq<Byte>, random: seq<Byte>,
                       crc: seq<Byte> -> Word): Shown<seq<Byte>>
    requires |pixels| < 0x1_0000_0000
  {
    var size := PaddingSize(requested, pixels);
    var padding := Utf8(marker) + [0] + random;
    if size < |marker| + 1 || |padding| >= 0x1_0000_0000 then Raises else Shows(Png(pixels, padding, crc))
  }

  // ------------------------------------------------------------------ the check

  /** One retained output; `png` is its `image/png` data, if it has any. */
  datatype Output = Output(kind: string, name: string, text: string, png: Picture)

  datatype Picture = NoPicture | Picture(data: string)

  datatype Kind = TextKind | ImageKind

  datatype Problem = MarkerMissing | NotOnePng | BadBase64 | BadPng | WrongSize | ErrorOutput

  predicate IsStdout(o: Output) {
    o.kind == "stream" && o.name == "stdout"
  }

  /** What was written to standard output, put together. */
  function Stdout(outputs: seq<Output>, n: nat): string
    requires n <= |outputs|
  {
    if n == 0 then "" else Stdout(outputs, n - 1) + if IsStdout(outputs[n - 1]) then outputs[n - 1].text else ""
  }

  function Pictures(outputs: seq<Output>, n: nat): seq<string>
    requires n <= |outputs|
  {
    if n == 0 then []
    else Pictures(outputs, n - 1) + if outputs[n - 1].png.Picture? then [outputs[n - 1].png.data] else []
  }

  predicate ShowsError(outputs: seq<Output>) {
    exists i :: 0 <= i < |outputs| && outputs[i].kind == "error"
  }

  /** The bytes that count as the retained output. */
  function Retained(outputs: seq<Output>, kind: Kind): seq<Byte> {
    match kind
    case TextKind => Utf8(Stdout(outputs, |outputs|))
    case ImageKind =>
      var pictures := Pictures(outputs, |outputs|);
      if |pictures| != 1 then []
      else
        match Decode(Standard, pictures[0])
        case Refused => []
        case Bytes(bytes) => bytes
  }

  /** What an accepted list of outputs is. */
  predicate Accepted(outputs: seq<Output>, kind: Kind, expected: nat, marker: seq<Byte>) {
    var body := Retained(outputs, kind);
    && |body| == expected && !ShowsError(outputs)
    && match kind
       case TextKind => marker + [0x3A] <= body
       case ImageKind =>
         |Pictures(outputs, |outputs|)| == 1 && Decode(Standard, Pictures(outputs, |outputs|)[0]).Bytes?
         && SIGNATURE <= body && Contains(body, marker)
  }

  method JoinStdout(outputs: seq<Output>) returns (text: string)
    ensures text == Stdout(outputs, |outputs|)
  {
    text := "";
    for n := 0 to |outputs|
      invariant text == Stdout(outputs, n)
    {
      if IsStdout(outputs[n]) {
        text := text + outputs[n].text;
      }
    }
  }

  method CollectPictures(outputs: seq<Output>) returns (pictures: seq<string>)
    ensures pictures == Pictures(outputs, |outputs|)
  {
    pictures := [];
    for n := 0 to |outputs|
      invariant pictures == Pictures(outputs, n)
    {
      if outputs[n].png.Picture? {
        pictures := pictures + [outputs[n].png.data];
      }
    }
  }

  /** `validate_workload_output`. */
  method Validate(outputs: seq<Output>, kind: Kind, expected: nat, marker: seq<Byte>)
    returns (errors: seq<Problem>, retained: nat)
    ensures retained == |Retained(outputs, kind)|
    ensures errors == [] <==> Accepted(outputs, kind, expected, marker)
    ensures MarkerMissing in errors <==> kind == TextKind && !(marker + [0x3A] <= Retained(outputs, kind))
    ensures NotOnePng in errors <==> kind == ImageKind && |Pictures(outputs, |outputs|)| != 1
    ensures BadBase64 in errors <==> kind == ImageKind && |Pictures(outputs, |outputs|)| == 1
                                     && Decode(Standard, Pictures(outputs, |outputs|)[0]).Refused?
    ensures BadPng in errors <==> kind == ImageKind && !(SIGNATURE <= Retained(outputs, kind)
                                                         && Contains(Retained(outputs, kind), marker))
    ensures WrongSize in errors <==> retained != expected
    ensures ErrorOutput in errors <==> ShowsError(outputs)
  {
    errors := [];
    var body: seq<Byte> := [];
    if kind == TextKind {
      var text := JoinStdout(outputs);
      body := Utf8(text);
      if !(marker + [0x3A] <= body) {
        errors := errors + [MarkerMissing];
      }
    } else {
      var pictures := CollectPictures(outputs);
      if |pictures| != 1 {
        errors := errors + [NotOnePng];
      } else {
        match Decode(Standard, pictures[0]) {
          case Refused => errors := errors + [BadBase64];
          case Bytes(bytes) => body := bytes;
        }
      }
      if !(SIGNATURE <= body) || !Contains(body, marker) {
        errors := errors + [BadPng];
      }
    }
    if |body| != expected {
      errors := errors + [WrongSize];
    }
    if exists i :: 0 <= i < |outputs| && outputs[i].kind == "error" {
      errors := errors + [ErrorOutput];
    }
    retained := |body|;
  }

  // ------------------------------------------------------------- text workloads

  /** Base64 of the random bytes always covers what is left of the request. */
  lemma PayloadCovers(remaining: nat, random: seq<Byte>)
    requires |random| == RandomCount(remaining)
    ensures |Encode(Standard, random)| >= remaining
  {
    EncodeLength(Standard, random);
  }

  lemma {:induction false} EncodedIsAscii(bytes: seq<Byte>)
    ensures IsAscii(Encode(Standard, bytes))
    decreases |bytes|
  {
    if |bytes| > 2 {
      EncodedIsAscii(bytes[3..]);
    }
  }

  lemma TextBytes(marker: string, payload: string)
    requires IsAscii(marker) && IsAscii(payload)
    ensures var body := Utf8(marker + ":" + payload);
      Utf8(marker) + [0x3A] <= body && |body| == |marker| + 1 + |payload|
  {
    Utf8Append(marker, ":");
    Utf8Append(marker + ":", payload);
    AsciiLength(marker);
    AsciiLength(payload);
    assert Utf8(":"[1..]) == [];
    assert Utf8(":") == [0x3A];
  }

  lemma SliceIsAscii(text: string, n: int)
    requires IsAscii(text)
    ensures IsAscii(Slice(text, n))
  {
  }

  /** Of a text workload that does not raise, however its output was split, the check accepts exactly
      those whose marker leaves room. */
  lemma TextWorkloadPasses(outputs: seq<Output>, requested: nat, marker: string, random: seq<Byte>)
    requires IsAscii(marker) && |random| == RandomCount(requested - |marker| - 1)
    requires TextOutput(requested, marker, random) == Shows(Stdout(outputs, |outputs|))
    requires !ShowsError(outputs)
    ensures Accepted(outputs, TextKind, requested, Utf8(marker)) <==> |marker| < requested
  {
    var remaining := requested - |marker| - 1;
    EncodedIsAscii(random);
    SliceIsAscii(Encode(Standard, random), remaining);
    TextBytes(marker, Slice(Encode(Standard, random), remaining));
    if remaining >= 0 {
      PayloadCovers(remaining, random);
    }
  }

  // ------------------------------------------------------------ image workloads

  lemma ChunkLength(kind: seq<Byte>, data: seq<Byte>, crc: seq<Byte> -> Word)
    requires |data| < 0x1_0000_0000 && |kind| == 4
    ensures |Chunk(kind, data, crc)| == 12 + |data|
  {
  }

  lemma PngLength(pixels: seq<Byte>, padding: seq<Byte>, crc: seq<Byte> -> Word)
    requires |pixels| < 0x1_0000_0000 && |padding| < 0x1_0000_0000
    ensures |Png(pixels, padding, crc)| == 8 + 25 + (12 + |pixels|) + (12 + |padding|) + 12
  {
    ChunkLength(IHDR, HEADER, crc);
    ChunkLength(IDAT, pixels, crc);
    ChunkLength(RUST, padding, crc);
    ChunkLength(IEND, [], crc);
  }

  lemma PngContains(pixels: seq<Byte>, marker: seq<Byte>, rest: seq<Byte>, crc: seq<Byte> -> Word)
    requires |pixels| < 0x1_0000_0000 && |marker + rest| < 0x1_0000_0000
    ensures Contains(Png(pixels, marker + rest, crc), marker)
  {
    var front := Front(pixels, crc) + Big32(|marker + rest|) + RUST;
    var back := rest + Big32(crc(RUST + (marker + rest))) + Chunk(IEND, [], crc);
    assert Png(pixels, marker + rest, crc) == front + marker + back;
    assert OccursAt(front + marker + back, marker, |front|);
  }

  // ------------------------------------------------------------- reading a PNG

  function From32(s: seq<Byte>): nat
    requires |s| == 4
  {
    (s[0] as int) * 0x100_0000 + (s[1] as int) * 0x1_0000 + (s[2] as int) * 256 + s[3] as int
  }

  datatype Read = Unreadable | Read(kind: seq<Byte>, data: seq<Byte>, rest: seq<Byte>)

  /** The first chunk, if its length and checksum are right. */
  function ReadChunk(s: seq<Byte>, crc: seq<Byte> -> Word): (r: Read)
    ensures r.Read? ==> |r.rest| < |s|
  {
    if |s| < 12 || |s| < 12 + From32(s[..4]) then Unreadable
    else
      var end := 8 + From32(s[..4]);
      if From32(s[end..end + 4]) != crc(s[4..8] + s[8..end]) then Unreadable else Read(s[4..8], s[8..end], s[end + 4..])
  }

  /** All chunks of a file, or none of them if one is bad. */
  function ReadChunks(s: seq<Byte>, crc: seq<Byte> -> Word): seq<(seq<Byte>, seq<Byte>)> {
    match ReadChunk(s, crc)
    case Unreadable => []
    case Read(kind, data, rest) =>
      if |rest| == 0 then [(kind, data)]
      else
        var more := ReadChunks(rest, crc);
        if more == [] then [] else [(kind, data)] + more
  }

  lemma From32Inverts(n: nat)
    requires n < 0x1_0000_0000
    ensures From32(Big32(n)) == n
  {
    assert n / 0x1_0000 == n / 256 / 256 && n / 0x100_0000 == n / 0x1_0000 / 256;
  }

  lemma ChunkReads(kind: seq<Byte>, data: seq<Byte>, rest: seq<Byte>, crc: seq<Byte> -> Word)
    requires |kind| == 4 && |data| < 0x1_0000_0000
    ensures ReadChunk(Chunk(kind, data, crc) + rest, crc) == Read(kind, data, rest)
  {
    var s := Chunk(kind, data, crc) + rest;
    From32Inverts(|data|);
    From32Inverts(crc(kind + data));
    assert s[..4] == Big32(|data|) && s[4..8] == kind;
    var end := 8 + |data|;
    assert s[8..end] == data && s[end..end + 4] == Big32(crc(kind + data)) && s[end + 4..] == rest;
  }

  lemma ChunkThenMore(kind: seq<Byte>, data: seq<Byte>, rest: seq<Byte>, crc: seq<Byte> -> Word)
    requires |kind| == 4 && |data| < 0x1_0000_0000 && ReadChunks(rest, crc) != []
    ensures ReadChunks(Chunk(kind, data, crc) + rest, crc) == [(kind, data)] + ReadChunks(rest, crc)
  {
    ChunkReads(kind, data, rest, crc);
  }

  lemma TailReads(padding: seq<Byte>, crc: seq<Byte> -> Word)
    requires |padding| < 0x1_0000_0000
    ensures ReadChunks(Chunk(RUST, padding, crc) + Chunk(IEND, [], crc), crc) == [(RUST, padding), (IEND, [])]
  {
    var end := Chunk(IEND, [], crc);
    ChunkReads(IEND, [], [], crc);
    assert end + [] == end;
    ChunkThenMore(RUST, padding, end, crc);
  }

  lemma BodyReads(pixels: seq<Byte>, padding: seq<Byte>, crc: seq<Byte> -> Word)
    requires |pixels| < 0x1_0000_0000 && |padding| < 0x1_0000_0000
    ensures ReadChunks(Chunk(IDAT, pixels, crc) + (Chunk(RUST, padding, crc) + Chunk(IEND, [], crc)), crc)
            == [(IDAT, pixels), (RUST, padding), (IEND, [])]
  {
    TailReads(padding, crc);
    ChunkThenMore(IDAT, pixels, Chunk(RUST, padding, crc) + Chunk(IEND, [], crc), crc);
  }

  lemma AfterSignature(pixels: seq<Byte>, padding: seq<Byte>, crc: seq<Byte> -> Word)
    requires |pixels| < 0x1_0000_0000 && |padding| < 0x1_0000_0000
    ensures Png(pixels, padding, crc)
            == SIGNATURE + (Chunk(IHDR, HEADER, crc)
                            + (Chunk(IDAT, pixels, crc) + (Chunk(RUST, padding, crc) + Chunk(IEND, [], crc))))
  {
  }

  /** The generated image is a well-formed PNG whose chunks are the four it was made of. */
  lemma PngReadsBack(pixels: seq<Byte>, padding: seq<Byte>, crc: seq<Byte> -> Word)
    requires |pixels| < 0x1_0000_0000 && |padding| < 0x1_0000_0000
    ensures SIGNATURE <= Png(pixels, padding, crc)
    ensures ReadChunks(Png(pixels, padding, crc)[8..], crc)
            == [(IHDR, HEADER), (IDAT, pixels), (RUST, padding), (IEND, [])]
  {
    var all := Chunk(IDAT, pixels, crc) + (Chunk(RUST, padding, crc) + Chunk(IEND, [], crc));
    BodyReads(pixels, padding, crc);
    ChunkThenMore(IHDR, HEADER, all, crc);
    AfterSignature(pixels, padding, crc);
    assert (SIGNATURE + (Chunk(IHDR, HEADER, crc) + all))[8..] == Chunk(IHDR, HEADER, crc) + all;
  }

  /** An image workload that does not raise is accepted, whatever else it printed. */
  lemma ImageWorkloadPasses(outputs: seq<Output>, requested: nat, marker: string, pixels: seq<Byte>,
                            random: seq<Byte>, crc: seq<Byte> -> Word)
    requires |pixels| < 0x1_0000_0000 && IsAscii(marker)
    requires |random| == PaddingSize(requested, pixels) - |marker| - 1
    requires ImageOutput(requested, marker, pixels, random, crc).Shows?
    requires Pictures(outputs, |outputs|)
             == [Encode(Standard, ImageOutput(requested, marker, pixels, random, crc).value)]
    requires !ShowsError(outputs)
    ensures |ImageOutput(requested, marker, pixels, random, crc).value| == requested
    ensures Accepted(outputs, ImageKind, requested, Utf8(marker))
  {
    var png := ImageOutput(requested, marker, pixels, random, crc).value;
    AsciiLength(marker);
    DecodeEncode(Standard, png);
    assert Utf8(marker) + [0] + random == Utf8(marker) + ([0] + random);
    PngLength(pixels, Utf8(marker) + [0] + random, crc);
    PngContains(pixels, Utf8(marker), [0] + random, crc);
    assert SIGNATURE <= png;
  }
}
