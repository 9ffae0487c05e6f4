/** Cursors over (created_at, id): the instant in UTC as ISO 8601 text and the UUID as hyphenated hex. */
module TimeCursor {
  import opened Json
  import opened JsonParser
  import opened JsonRoundTrip
  import opened Calendar
  import opened Cursor

  // ------------------------------------------------------- fixed-width numbers

  function Pow10(w: nat): nat {
    if w == 0 then 1 else 10 * Pow10(w - 1)
  }

  /** `f"{n:0{w}d}"` for a number that fits. */
  function Fixed(n: nat, w: nat): (s: string)
    ensures |s| == w
  {
    if w == 0 then "" else Fixed(n / 10, w - 1) + [Digit(n % 10)]
  }

  predicate AllDigits(s: string) {
    forall i :: 0 <= i < |s| ==> IsDigit(s[i])
  }

  function Number(s: string): int {
    if AllDigits(s) then Value(s) else -1
  }

  lemma {:induction false} NumberOfFixed(n: nat, w: nat)
    requires n < Pow10(w)
    ensures AllDigits(Fixed(n, w)) && Number(Fixed(n, w)) == n
  {
    if w > 0 {
      NumberOfFixed(n / 10, w - 1);
      var s := Fixed(n, w);
      assert s[..|s| - 1] == Fixed(n / 10, w - 1);
      assert forall i :: 0 <= i < w - 1 ==> s[i] == Fixed(n / 10, w - 1)[i];
      assert IsDigit(s[w - 1]);
    }
  }

  // ----------------------------------------------------------------- ISO text

  function DateText(d: Date): string {
    Fixed(d.year, 4) + "-" + Fixed(d.month, 2) + "-" + Fixed(d.day, 2)
  }

  function ClockText(seconds: nat): string {
    Fixed(seconds / 3600, 2) + ":" + Fixed(seconds / 60 % 60, 2) + ":" + Fixed(seconds % 60, 2)
  }

  /** `isoformat()` of a UTC datetime; the fraction is left out when it is zero. */
  function IsoText(d: Date, micros: nat): string {
    DateText(d) + "T" + ClockText(micros / 1_000_000) + FractionText(micros) + "+00:00"
  }

  function ReadDate(s: string): Date
    requires |s| == 10
  {
    var y, m, d := Number(s[0..4]), Number(s[5..7]), Number(s[8..10]);
    if s[4] == '-' && s[7] == '-' && y >= 0 && m >= 0 && d >= 0 then Date(y, m, d) else Date(0, 0, 0)
  }

  /** Seconds since midnight, or -1. */
  function ReadClock(s: string): int
    requires |s| == 8
  {
    var h, m, t := Number(s[0..2]), Number(s[3..5]), Number(s[6..8]);
    if s[2] == ':' && s[5] == ':' && 0 <= h < 24 && 0 <= m < 60 && 0 <= t < 60 then h * 3600 + m * 60 + t else -1
  }

  /** Microseconds of a fraction `.ffffff`, 0 for none, or -1. */
  function ReadFraction(s: string): int {
    if |s| == 0 then 0
    else if |s| == 7 && s[0] == '.' then Number(s[1..])
    else -1
  }

  datatype Offset = NoOffset | BadOffset | Minutes(minutes: int)

  function ReadOffset(s: string): Offset {
    if |s| == 0 then NoOffset
    else if |s| != 6 || (s[0] != '+' && s[0] != '-') || s[3] != ':' then BadOffset
    else
      var h, m := Number(s[1..3]), Number(s[4..6]);
      if 0 <= h < 24 && 0 <= m < 60 then Minutes(if s[0] == '+' then h * 60 + m else -(h * 60 + m)) else BadOffset
  }

  /** Where the UTC offset of the text starts, if it has one. */
  function OffsetStart(s: string): nat
    requires |s| >= 19
  {
    if |s| >= 25 && s[|s| - 6] in {'+', '-'} then |s| - 6 else |s|
  }

  /** `datetime.fromisoformat` for the shapes `isoformat()` writes, with any offset or none. */
  function ReadIso(s: string): Result<Moment> {
    if |s| < 19 || s[10] != 'T' then Err(BadPayload)
    else
      var end := OffsetStart(s);
      var date, clock, fraction := ReadDate(s[..10]), ReadClock(s[11..19]), ReadFraction(s[19..end]);
      match ReadOffset(s[end..])
      case BadOffset => Err(BadPayload)
      case NoOffset => if ValidDate(date) && clock >= 0 && fraction >= 0 then Err(NoTimezone) else Err(BadPayload)
      case Minutes(minutes) =>
        if ValidDate(date) && clock >= 0 && fraction >= 0 then
          Accepted(Moment(date, clock * 1_000_000 + fraction, minutes * 60_000_000))
        else Err(BadPayload)
  }

  lemma ReadDateText(d: Date)
    requires ValidDate(d)
    ensures |DateText(d)| == 10 && ReadDate(DateText(d)) == d
  {
    assert Pow10(2) == 10 * Pow10(1) && Pow10(1) == 10 && Pow10(4) == 100 * Pow10(2);
    NumberOfFixed(d.year, 4);
    NumberOfFixed(d.month, 2);
    NumberOfFixed(d.day, 2);
    var s := DateText(d);
    assert s[0..4] == Fixed(d.year, 4) && s[5..7] == Fixed(d.month, 2) && s[8..10] == Fixed(d.day, 2);
  }

  lemma ReadClockText(seconds: nat)
    requires seconds < 86_400
    ensures |ClockText(seconds)| == 8 && ReadClock(ClockText(seconds)) == seconds
  {
    assert Pow10(2) == 10 * Pow10(1) && Pow10(1) == 10;
    var h, m, t := seconds / 3600, seconds / 60 % 60, seconds % 60;
    assert seconds / 3600 == seconds / 60 / 60;
    NumberOfFixed(h, 2);
    NumberOfFixed(m, 2);
    NumberOfFixed(t, 2);
    var s := ClockText(seconds);
    assert s[0..2] == Fixed(h, 2) && s[3..5] == Fixed(m, 2) && s[6..8] == Fixed(t, 2);
  }

  lemma ReadUtcOffset(s: string)
    requires s == "+00:00"
    ensures ReadOffset(s) == Minutes(0)
  {
    ZeroText(s[1..3]);
    ZeroText(s[4..6]);
  }

  lemma ZeroText(s: string)
    requires s == "00"
    ensures Number(s) == 0
  {
    assert Pow10(2) == 10 * Pow10(1) && Pow10(1) == 10;
    NumberOfFixed(0, 2);
    assert s == Fixed(0, 2);
  }

  function FractionText(micros: nat): string {
    if micros % 1_000_000 == 0 then "" else "." + Fixed(micros % 1_000_000, 6)
  }

  lemma ReadFractionText(micros: nat)
    ensures ReadFraction(FractionText(micros)) == micros % 1_000_000
  {
    var f := micros % 1_000_000;
    if f != 0 {
      assert Pow10(2) == 10 * Pow10(1) && Pow10(1) == 10 && Pow10(4) == 100 * Pow10(2) && Pow10(6) == 100 * Pow10(4);
      NumberOfFixed(f, 6);
      assert FractionText(micros)[1..] == Fixed(f, 6);
    }
  }

  lemma IsoParts(date: string, clock: string, fraction: string)
    requires |date| == 10 && |clock| == 8
    ensures var s := date + "T" + clock + fraction + "+00:00";
      && |s| >= 25 && s[10] == 'T' && OffsetStart(s) == |s| - 6
      && s[..10] == date && s[11..19] == clock && s[19..|s| - 6] == fraction && s[|s| - 6..] == "+00:00"
  {
    var s := date + "T" + clock + fraction + "+00:00";
    assert s[|s| - 6] == '+';
  }

  /** The text of a UTC datetime reads back as the same date and time, at offset zero. */
  lemma ReadIsoText(d: Date, micros: nat)
    requires ValidDate(d) && micros < DAY
    ensures ReadIso(IsoText(d, micros)) == Accepted(Moment(d, micros, 0))
  {
    Seconds(micros);
    ReadDateText(d);
    ReadClockText(micros / 1_000_000);
    ReadFractionText(micros);
    IsoParts(DateText(d), ClockText(micros / 1_000_000), FractionText(micros));
    ReadAssembled(IsoText(d, micros), d, micros / 1_000_000, micros % 1_000_000);
  }

  lemma Seconds(micros: nat)
    ensures micros / 1_000_000 * 1_000_000 + micros % 1_000_000 == micros
  {
  }

  lemma ReadAssembled(s: string, d: Date, clock: nat, fraction: nat)
    requires |s| >= 25 && s[10] == 'T' && OffsetStart(s) == |s| - 6 && s[|s| - 6..] == "+00:00" && ValidDate(d)
    requires ReadDate(s[..10]) == d && ReadClock(s[11..19]) == clock && ReadFraction(s[19..|s| - 6]) == fraction
    ensures ReadIso(s) == Accepted(Moment(d, clock * 1_000_000 + fraction, 0))
  {
    ReadUtcOffset(s[|s| - 6..]);
  }

  // -------------------------------------------------------------------- UUIDs

  /** A UUID as its 32 hex digits. */
  type UuidDigits = u: seq<nat> | |u| == 32 && forall i :: 0 <= i < |u| ==> u[i] < 16 witness seq(32, i => 0)

  function Hex(u: seq<nat>): (s: string)
    requires forall i :: 0 <= i < |u| ==> u[i] < 16
    ensures |s| == |u| && forall i :: 0 <= i < |u| ==> s[i] == HexDigit(u[i])
  {
    seq(|u|, i requires 0 <= i < |u| => HexDigit(u[i]))
  }

  /** `str(uuid)`: 8-4-4-4-12 digits. */
  function UuidText(u: UuidDigits): string {
    Hex(u[..8]) + "-" + (Hex(u[8..12]) + "-" + (Hex(u[12..16]) + "-" + (Hex(u[16..20]) + "-" + Hex(u[20..]))))
  }

  function DropHyphens(s: string): string {
    if |s| == 0 then "" else (if s[0] == '-' then "" else [s[0]]) + DropHyphens(s[1..])
  }

  predicate IsHex(s: string) {
    forall i :: 0 <= i < |s| ==> HexValue(s[i]) >= 0
  }

  function Nibbles(s: string): (u: seq<nat>)
    requires IsHex(s)
    ensures |u| == |s| && forall i :: 0 <= i < |s| ==> u[i] == HexValue(s[i])
  {
    if |s| == 0 then []
    else
      assert HexValue(s[0]) >= 0;
      assert forall i :: 0 <= i < |s| - 1 ==> s[1..][i] == s[i + 1];
      [HexValue(s[0])] + Nibbles(s[1..])
  }

  /** `UUID(text)`: 32 hex digits, hyphens anywhere. */
  function ReadUuid(s: string): Result<UuidDigits> {
    var digits := DropHyphens(s);
    if |digits| != 32 || !IsHex(digits) then Err(BadPayload)
    else
      var u: UuidDigits := Nibbles(digits);
      Accepted(u)
  }

  lemma {:induction false} DropHyphensAppend(a: string, b: string)
    ensures DropHyphens(a + b) == DropHyphens(a) + DropHyphens(b)
    decreases |a|
  {
    if |a| == 0 {
      assert a + b == b;
    } else {
      assert (a + b)[1..] == a[1..] + b;
      DropHyphensAppend(a[1..], b);
    }
  }

  lemma {:induction false} DropNoHyphens(s: string)
    requires forall i :: 0 <= i < |s| ==> s[i] != '-'
    ensures DropHyphens(s) == s
    decreases |s|
  {
    if |s| > 0 {
      DropNoHyphens(s[1..]);
      assert s == [s[0]] + s[1..];
    }
  }

  lemma DropHex(u: seq<nat>, rest: string)
    requires forall i :: 0 <= i < |u| ==> u[i] < 16
    ensures DropHyphens(Hex(u) + "-" + rest) == Hex(u) + DropHyphens(rest)
    ensures DropHyphens(Hex(u)) == Hex(u)
  {
    DropNoHyphens(Hex(u));
    DropHyphensAppend(Hex(u), "-" + rest);
    assert Hex(u) + "-" + rest == Hex(u) + ("-" + rest);
    assert ("-" + rest)[1..] == rest;
  }

  lemma HexAppend(u: seq<nat>, w: seq<nat>)
    requires (forall i :: 0 <= i < |u| ==> u[i] < 16) && (forall i :: 0 <= i < |w| ==> w[i] < 16)
    ensures Hex(u) + Hex(w) == Hex(u + w)
  {
  }

  lemma HexSplit(u: UuidDigits, k: nat, m: nat)
    requires k <= m <= 32
    ensures Hex(u[k..m]) + Hex(u[m..]) == Hex(u[k..])
  {
    HexAppend(u[k..m], u[m..]);
    assert u[k..m] + u[m..] == u[k..];
  }

  lemma UuidTextDigits(u: UuidDigits)
    ensures DropHyphens(UuidText(u)) == Hex(u)
  {
    var fifth := Hex(u[20..]);
    var fourth := Hex(u[16..20]) + "-" + fifth;
    var third := Hex(u[12..16]) + "-" + fourth;
    var second := Hex(u[8..12]) + "-" + third;
    DropHex(u[20..], "");
    DropHex(u[16..20], fifth);
    HexSplit(u, 16, 20);
    DropHex(u[12..16], fourth);
    HexSplit(u, 12, 16);
    DropHex(u[8..12], third);
    HexSplit(u, 8, 12);
    DropHex(u[..8], second);
    HexSplit(u, 0, 8);
    assert u[0..8] == u[..8] && u[0..] == u;
  }

  lemma ReadUuidText(u: UuidDigits)
    ensures ReadUuid(UuidText(u)) == Accepted(u)
  {
    UuidTextDigits(u);
    forall i | 0 <= i < 32 ensures HexValue(Hex(u)[i]) == u[i] {
      HexValueOfDigit(u[i]);
    }
    assert ReadUuid(UuidText(u)).value == u;
  }

  // ------------------------------------------------------------- time cursors

  function TimeFields(kind: string, d: Date, micros: nat, id: UuidDigits): seq<Field> {
    [Field("v", Int(1)), Field("kind", Str(kind)), Field("created_at", Str(IsoText(d, micros))),
     Field("id", Str(UuidText(id)))]
  }

  datatype Encoded = Overflow | Text(cursor: string)

  function EncodeTime(kind: string, at: Moment, id: UuidDigits): Encoded
    requires ValidMoment(at)
  {
    match ToUtc(at)
    case OutOfRange => Overflow
    case Utc(d, micros) => Text(EncodePayload(Obj(TimeFields(kind, d, micros, id))))
  }

  function DecodeTime(cursor: string, kind: string): Result<(Moment, UuidDigits)> {
    match DecodePayload(cursor, kind)
    case Err(reason) => Err(reason)
    case Accepted(payload) =>
      var at := if payload.Obj? then Lookup(payload.fields, "created_at") else Null;
      var id := if payload.Obj? then Lookup(payload.fields, "id") else Null;
      if !at.Str? || !id.Str? then Err(BadPayload)
      else
        match (ReadIso(at.s), ReadUuid(id.s))
        case (Accepted(moment), Accepted(uuid)) => Accepted((moment, uuid))
        case (Err(reason), Accepted(_)) => Err(reason)
        case (_, Err(reason)) => Err(reason)
  }

  lemma TimeLookups(kind: string, d: Date, micros: nat, id: UuidDigits)
    ensures WellFormed(Obj(TimeFields(kind, d, micros, id)))
    ensures var sorted := SortFields(CanonFields(TimeFields(kind, d, micros, id)));
      Lookup(sorted, "created_at") == Str(IsoText(d, micros)) && Lookup(sorted, "id") == Str(UuidText(id))
  {
    var fields := TimeFields(kind, d, micros, id);
    assert fields[2] == Field("created_at", Str(IsoText(d, micros))) && fields[3] == Field("id", Str(UuidText(id)));
    LookupCanon(fields, fields[2]);
    LookupCanon(fields, fields[3]);
  }

  /** A time cursor decodes, for its own collection, to the same instant in UTC and the same id; for
      any other collection, or when its JSON has more than 1536 bytes, it is refused. */
  lemma TimeCursorRoundTrip(made: string, kind: string, at: Moment, id: UuidDigits)
    requires ValidMoment(at) && ToUtc(at).Utc?
    ensures EncodeTime(made, at, id).Text?
    ensures var u := Moment(ToUtc(at).date, ToUtc(at).micros, 0);
      && ValidMoment(u) && Instant(u) == Instant(at)
      && DecodeTime(EncodeTime(made, at, id).cursor, kind)
         == if |Encode(Obj(TimeFields(made, u.date, u.micros, id)))| > 1536 then Err(EmptyOrTooLong)
            else if kind != made then Err(OtherCollection)
            else Accepted((u, id))
  {
    var u := ToUtc(at);
    var fields := TimeFields(made, u.date, u.micros, id);
    ToUtcKeepsInstant(at);
    TimeLookups(made, u.date, u.micros, id);
    assert fields[0] == Field("v", Int(1)) && fields[1] == Field("kind", Str(made));
    DecodeEncodePayload(fields, made, kind);
    ReadIsoText(u.date, u.micros);
    ReadUuidText(id);
  }
}
