/** Opaque cursors: key-sorted JSON, URL-safe base64 without padding, at most 2048 characters. */
module Cursor {
  import opened Json
  import opened JsonCanon
  import opened JsonParser
  import opened JsonRoundTrip
  import Base64

  type Byte = Base64.Byte

  /** Why a cursor is refused, in the order the code looks. */
  datatype Reason =
    | EmptyOrTooLong | NotDecodable | NotAnObject | OtherCollection | BadPosition | BadPayload | NoTimezone

  datatype Result<T> = Accepted(value: T) | Err(reason: Reason)

  const MAX_CURSOR := 2048

  // -------------------------------------------------------------- text as bytes

  function ToBytes(text: string): (bytes: seq<Byte>)
    requires Base64.IsAscii(text)
    ensures |bytes| == |text| && forall i :: 0 <= i < |text| ==> bytes[i] == text[i] as int
  {
    seq(|text|, i requires 0 <= i < |text| => text[i] as int)
  }

  predicate AsciiBytes(bytes: seq<Byte>) {
    forall i :: 0 <= i < |bytes| ==> bytes[i] < 128
  }

  function FromBytes(bytes: seq<Byte>): (text: string)
    requires AsciiBytes(bytes)
    ensures |text| == |bytes| && forall i :: 0 <= i < |bytes| ==> text[i] as int == bytes[i]
  {
    seq(|bytes|, i requires 0 <= i < |bytes| => bytes[i] as char)
  }

  lemma DigitsAscii(n: nat)
    ensures Base64.IsAscii(Digits(n))
  {
    DigitsAreDigits(n);
    forall i | 0 <= i < |Digits(n)| ensures Digits(n)[i] as int < 128 {
      assert IsDigit(Digits(n)[i]);
    }
  }

  lemma QuoteCharAscii(c: char)
    ensures Base64.IsAscii(QuoteChar(c))
  {
  }

  lemma {:induction false} QuoteBodyAscii(s: string)
    ensures Base64.IsAscii(QuoteBody(s))
    decreases |s|
  {
    if |s| > 0 {
      QuoteCharAscii(s[0]);
      QuoteBodyAscii(s[1..]);
    }
  }

  /** `ensure_ascii`: a printed value is ASCII, whatever characters it holds. */
  lemma {:induction false} PrintAscii(v: Json)
    ensures Base64.IsAscii(Print(v))
    decreases v, 0
  {
    match v {
      case Int(n) => DigitsAscii(if n < 0 then -n else n);
      case Str(s) => QuoteBodyAscii(s);
      case Arr(items) => ItemsAscii(items);
      case Obj(fields) => FieldsAscii(fields);
      case _ =>
    }
  }

  lemma {:induction false} ItemsAscii(items: seq<Json>)
    ensures Base64.IsAscii(PrintItems(items))
    decreases items
  {
    if |items| > 0 {
      PrintAscii(items[0]);
      ItemsAscii(items[1..]);
    }
  }

  lemma {:induction false} FieldsAscii(fields: seq<Field>)
    ensures Base64.IsAscii(PrintFields(fields))
    decreases fields
  {
    if |fields| > 0 {
      QuoteBodyAscii(fields[0].key);
      PrintAscii(fields[0].value);
      FieldsAscii(fields[1..]);
    }
  }

  function Raw(payload: Json): seq<Byte> {
    PrintAscii(Canon(payload));
    ToBytes(Encode(payload))
  }

  // ----------------------------------------------------------------- the codec

  /** `_encode`. */
  function EncodePayload(payload: Json): string {
    Base64.Strip(Base64.Encode(Base64.UrlSafe, Raw(payload)))
  }

  /** Python's `value == 1`. */
  predicate EqualsOne(v: Json) {
    v == Int(1) || v == Bool(true)
  }

  /** `_decode`. */
  function DecodePayload(cursor: string, kind: string): Result<Json> {
    if |cursor| == 0 || |cursor| > MAX_CURSOR then Err(EmptyOrTooLong)
    else
      match Base64.Decode(Base64.UrlSafe, Base64.Pad(cursor))
      case Refused => Err(NotDecodable)
      case Bytes(bytes) =>
        if !AsciiBytes(bytes) then Err(NotDecodable)
        else
          match Loads(FromBytes(bytes))
          case Malformed => Err(NotDecodable)
          case Loaded(payload) =>
            if !payload.Obj? then Err(NotAnObject)
            else if !EqualsOne(Lookup(payload.fields, "v")) || Lookup(payload.fields, "kind") != Str(kind) then
              Err(OtherCollection)
            else Accepted(payload)
  }

  /** The text is never empty and has ceil(4n/3) characters for n bytes of JSON. */
  lemma CursorLength(payload: Json)
    ensures |EncodePayload(payload)| == (4 * |Encode(payload)| + 2) / 3
    ensures |EncodePayload(payload)| > 0
    ensures |EncodePayload(payload)| <= MAX_CURSOR <==> |Encode(payload)| <= 1536
  {
    Base64.StripThenPad(Base64.UrlSafe, Raw(payload));
    PrintStart(Canon(payload));
  }

  lemma RawText(payload: Json)
    ensures AsciiBytes(Raw(payload)) && FromBytes(Raw(payload)) == Encode(payload)
  {
    PrintAscii(Canon(payload));
    var text := Encode(payload);
    assert FromBytes(Raw(payload)) == text;
  }

  lemma {:induction false} LookupUnique(fields: seq<Field>, f: Field)
    requires UniqueKeys(fields) && f in fields
    ensures Lookup(fields, f.key) == f.value
    decreases |fields|
  {
    if fields[0].key != f.key {
      assert f in fields[1..];
      LookupUnique(fields[1..], f);
    } else {
      var i :| 0 <= i < |fields| && fields[i] == f;
      assert i == 0;
    }
  }

  /** Sorting does not change what a key looks up. */
  lemma LookupCanon(fields: seq<Field>, f: Field)
    requires WellFormed(Obj(fields)) && f in fields
    ensures Lookup(SortFields(CanonFields(fields)), f.key) == Canon(f.value)
  {
    var i :| 0 <= i < |fields| && fields[i] == f;
    var cf := CanonFields(fields);
    SortMembers(cf, cf[i]);
    CanonWellFormed(Obj(fields));
    LookupUnique(SortFields(cf), cf[i]);
  }

  /** What `_decode` makes of what `_encode` made: the key-sorted payload if it is short enough and was
      made for this collection, and a refusal in all other cases. */
  lemma DecodeEncodePayload(fields: seq<Field>, made: string, kind: string)
    requires WellFormed(Obj(fields)) && Field("v", Int(1)) in fields && Field("kind", Str(made)) in fields
    ensures DecodePayload(EncodePayload(Obj(fields)), kind)
         == if |Encode(Obj(fields))| > 1536 then Err(EmptyOrTooLong)
            else if kind != made then Err(OtherCollection)
            else Accepted(Canon(Obj(fields)))
  {
    var payload := Obj(fields);
    CursorLength(payload);
    Base64.StripThenPad(Base64.UrlSafe, Raw(payload));
    Base64.DecodeEncode(Base64.UrlSafe, Raw(payload));
    RawText(payload);
    LoadsEncode(payload);
    LookupCanon(fields, Field("v", Int(1)));
    LookupCanon(fields, Field("kind", Str(made)));
  }

  // ----------------------------------------------------------- integer cursors

  function IntegerFields(kind: string, value: int): seq<Field> {
    [Field("v", Int(1)), Field("kind", Str(kind)), Field("value", Int(value))]
  }

  function EncodeInteger(kind: string, value: int): string {
    EncodePayload(Obj(IntegerFields(kind, value)))
  }

  function DecodeInteger(cursor: string, kind: string): Result<int> {
    match DecodePayload(cursor, kind)
    case Err(reason) => Err(reason)
    case Accepted(payload) =>
      var value := if payload.Obj? then Lookup(payload.fields, "value") else Null;
      if value.Int? && value.n >= 0 then Accepted(value.n) else Err(BadPosition)
  }

  lemma IntegerWellFormed(kind: string, value: int)
    ensures WellFormed(Obj(IntegerFields(kind, value)))
    ensures Lookup(SortFields(CanonFields(IntegerFields(kind, value))), "value") == Int(value)
  {
    var fields := IntegerFields(kind, value);
    assert fields[2] == Field("value", Int(value));
    LookupCanon(fields, fields[2]);
  }

  /** An integer cursor decodes to the value it was made from exactly when the value is not negative,
      the collection is the same and the JSON has at most 1536 bytes; otherwise it is refused. */
  lemma IntegerCursor(made: string, kind: string, value: int)
    ensures DecodeInteger(EncodeInteger(made, value), kind)
         == if |Encode(Obj(IntegerFields(made, value)))| > 1536 then Err(EmptyOrTooLong)
            else if kind != made then Err(OtherCollection)
            else if value < 0 then Err(BadPosition)
            else Accepted(value)
  {
    var fields := IntegerFields(made, value);
    IntegerWellFormed(made, value);
    assert fields[0] == Field("v", Int(1)) && fields[1] == Field("kind", Str(made));
    DecodeEncodePayload(fields, made, kind);
  }
}
