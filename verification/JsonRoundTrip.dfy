/** Parsing inverts printing, so the canonical encoding is injective. */
module JsonRoundTrip {
  import opened Json
  import opened JsonParser
  import opened JsonCanon

  // ------------------------------------------------------------------ numbers

  lemma DigitsAreDigits(n: nat)
    ensures |Digits(n)| > 0 && forall i :: 0 <= i < |Digits(n)| ==> IsDigit(Digits(n)[i])
    ensures n > 0 ==> Digits(n)[0] != '0'
    ensures n == 0 ==> Digits(n) == "0"
  {
  }

  lemma {:induction false} ValueOfDigits(n: nat)
    ensures forall i :: 0 <= i < |Digits(n)| ==> IsDigit(Digits(n)[i])
    ensures Value(Digits(n)) == n
  {
    DigitsAreDigits(n);
    if n >= 10 {
      ValueOfDigits(n / 10);
      assert Digits(n)[..|Digits(n)| - 1] == Digits(n / 10);
    }
  }

  lemma {:induction false} SpanOf(digits: string, rest: string)
    requires forall i :: 0 <= i < |digits| ==> IsDigit(digits[i])
    requires |rest| == 0 || !IsDigit(rest[0])
    ensures Span(digits + rest) == |digits|
  {
    if |digits| > 0 {
      assert (digits + rest)[1..] == digits[1..] + rest;
      SpanOf(digits[1..], rest);
    } else {
      assert digits + rest == rest;
    }
  }

  lemma ParseNatOfDigits(n: nat, rest: string)
    requires |rest| == 0 || !IsDigit(rest[0])
    ensures ParseNat(Digits(n) + rest) == Ok(n, rest)
  {
    var d := Digits(n);
    DigitsAreDigits(n);
    ValueOfDigits(n);
    SpanOf(d, rest);
    assert (d + rest)[..|d|] == d && (d + rest)[|d|..] == rest;
  }

  /** The text of an integer, whatever delimiter follows it, reads back as that integer. */
  lemma ParseIntOfDecimal(n: int, rest: string)
    requires |rest| == 0 || !IsDigit(rest[0])
    ensures ParseInt(Decimal(n) + rest) == Ok(n, rest)
  {
    if n < 0 {
      ParseNatOfDigits(-n, rest);
      ParseNegative(Digits(-n), -n, rest);
    } else {
      DigitsAreDigits(n);
      ParseNatOfDigits(n, rest);
      ParsePositive(Digits(n) + rest);
    }
  }

  lemma ParseNegative(digits: string, n: int, rest: string)
    requires ParseNat(digits + rest) == Ok(n, rest)
    ensures ParseInt("-" + digits + rest) == Ok(-n, rest)
  {
    assert ("-" + digits + rest)[1..] == digits + rest;
  }

  lemma ParsePositive(s: string)
    requires |s| > 0 && IsDigit(s[0])
    ensures ParseInt(s) == ParseNat(s)
  {
  }

  // ------------------------------------------------------------------ strings

  lemma HexValueOfDigit(d: nat)
    requires d < 16
    ensures HexValue(HexDigit(d)) == d
  {
  }

  lemma NibblesOf(unit: nat)
    requires unit < 0x10000
    ensures 0x1000 * (unit / 0x1000) + 0x100 * (unit / 0x100 % 16) + 16 * (unit / 16 % 16) + unit % 16 == unit
  {
    assert unit / 0x1000 == unit / 0x100 / 16;
    assert unit / 0x100 == unit / 16 / 16;
  }

  lemma UnitAtEscape(unit: nat, rest: string)
    requires unit < 0x10000
    ensures UnitAt(EscapeUnit(unit) + rest) == unit
    ensures |EscapeUnit(unit)| == 6
  {
    var a, b, c, d := unit / 0x1000, unit / 0x100 % 16, unit / 16 % 16, unit % 16;
    NibblesOf(unit);
    HexValueOfDigit(a);
    HexValueOfDigit(b);
    HexValueOfDigit(c);
    HexValueOfDigit(d);
    var s := EscapeUnit(unit) + rest;
    assert s == ['\\', 'u', HexDigit(a), HexDigit(b), HexDigit(c), HexDigit(d)] + rest;
  }

  lemma PairUnits(high: nat, low: nat, rest: string)
    requires high < 0x10000 && low < 0x10000
    ensures var s := EscapeUnit(high) + EscapeUnit(low) + rest;
      && |s| >= 12 && s[0] == '\\' && s[1] == 'u' && s[6] == '\\' && s[7] == 'u'
      && UnitAt(s) == high && UnitAt(s[6..]) == low && s[12..] == rest
  {
    var s := EscapeUnit(high) + EscapeUnit(low) + rest;
    UnitAtEscape(high, EscapeUnit(low) + rest);
    UnitAtEscape(low, rest);
    assert s == EscapeUnit(high) + (EscapeUnit(low) + rest);
    assert s[6..] == EscapeUnit(low) + rest;
    assert s[12..] == rest;
  }

  lemma ReadsPair(s: string, v: nat)
    requires v < 0x10_0000 && |s| >= 12 && s[0] == '\\' && s[1] == 'u'
    requires UnitAt(s) == 0xd800 + v / 0x400 && UnitAt(s[6..]) == 0xdc00 + v % 0x400
    ensures ParseChar(s) == Ok((0x10000 + v) as char, s[12..])
  {
    assert v / 0x400 * 0x400 + v % 0x400 == v;
  }

  lemma ParseCharOfPair(c: char, rest: string)
    requires c as int >= 0x10000
    ensures ParseChar(QuoteChar(c) + rest) == Ok(c, rest)
    ensures |QuoteChar(c)| > 0 && QuoteChar(c)[0] == '\\'
  {
    var v := c as int - 0x10000;
    var high, low := 0xd800 + v / 0x400, 0xdc00 + v % 0x400;
    PairUnits(high, low, rest);
    assert QuoteChar(c) == EscapeUnit(high) + EscapeUnit(low);
    ReadsPair(EscapeUnit(high) + EscapeUnit(low) + rest, v);
  }

  lemma ParseCharOfUnit(c: char, rest: string)
    requires c as int < 0x10000 && QuoteChar(c) == EscapeUnit(c as int)
    ensures ParseChar(QuoteChar(c) + rest) == Ok(c, rest)
    ensures |QuoteChar(c)| > 0 && QuoteChar(c)[0] == '\\'
  {
    var s := QuoteChar(c) + rest;
    UnitAtEscape(c as int, rest);
    assert s[6..] == rest;
    assert s[0] == '\\' && s[1] == 'u';
  }

  lemma ParseCharOfQuote(c: char, rest: string)
    ensures ParseChar(QuoteChar(c) + rest) == Ok(c, rest)
    ensures |QuoteChar(c)| > 0 && QuoteChar(c)[0] != '"'
  {
    var code := c as int;
    var s := QuoteChar(c) + rest;
    if code >= 0x10000 {
      ParseCharOfPair(c, rest);
    } else if code > 126 || (code < 32 && code !in {8, 9, 10, 12, 13}) {
      ParseCharOfUnit(c, rest);
    } else if |QuoteChar(c)| == 2 {
      assert s[0] == '\\' && s[1] == QuoteChar(c)[1];
      assert s[2..] == rest;
    } else {
      assert s[0] == c;
      assert s[1..] == rest;
    }
  }

  lemma {:induction false} ParseBodyOfQuote(s: string, rest: string)
    ensures ParseBody(QuoteBody(s) + "\"" + rest) == Ok(s, rest)
  {
    var text := QuoteBody(s) + "\"" + rest;
    if |s| == 0 {
      assert text == "\"" + rest;
      assert text[1..] == rest;
    } else {
      var more := QuoteBody(s[1..]) + "\"" + rest;
      assert text == QuoteChar(s[0]) + more;
      ParseCharOfQuote(s[0], more);
      assert text[0] == QuoteChar(s[0])[0];
      ParseBodyOfQuote(s[1..], rest);
      assert s == [s[0]] + s[1..];
    }
  }

  // ------------------------------------------------------------------- values

  /** What may follow a printed value: the end of the text or a delimiter. */
  predicate Delimited(rest: string) {
    |rest| == 0 || rest[0] == ',' || rest[0] == ']' || rest[0] == '}'
  }

  lemma PutNew(fields: seq<Field>, f: Field)
    requires forall i :: 0 <= i < |fields| ==> fields[i].key != f.key
    ensures Put(fields, f) == fields + [f]
  {
  }

  lemma {:induction false} ToDictUnique(pairs: seq<Field>)
    requires UniqueKeys(pairs)
    ensures ToDict(pairs) == pairs
  {
    if |pairs| > 0 {
      ToDictUnique(pairs[..|pairs| - 1]);
      PutNew(pairs[..|pairs| - 1], pairs[|pairs| - 1]);
    }
  }

  /** A printed value starts with none of the characters the parser skips or stops at. */
  lemma PrintStart(v: Json)
    ensures |Print(v)| > 0 && !IsSpace(Print(v)[0]) && Print(v)[0] != ']' && Print(v)[0] != '}'
    ensures Print(v)[0] != ',' && Print(v)[0] != ':'
  {
    if v.Int? {
      DigitsAreDigits(if v.n < 0 then -v.n else v.n);
    }
  }

  lemma ParsePrintLiteral(v: Json, rest: string)
    requires v.Null? || v.Bool?
    ensures ParseValue(Print(v) + rest) == Ok(v, rest)
  {
    var s := Print(v) + rest;
    assert s[|Print(v)|..] == rest;
    if v.Null? {
      assert "null" <= s;
    } else if v.b {
      assert "true" <= s;
    } else {
      assert "false" <= s;
    }
  }

  lemma ParsePrintInt(n: int, rest: string)
    requires Delimited(rest)
    ensures ParseValue(Decimal(n) + rest) == Ok(Int(n), rest)
  {
    DigitsAreDigits(if n < 0 then -n else n);
    ParseIntOfDecimal(n, rest);
    var s := Decimal(n) + rest;
    assert s[0] == '-' || IsDigit(s[0]);
    assert "null"[0] == 'n' && "true"[0] == 't' && "false"[0] == 'f';
  }

  lemma ParsePrintStr(body: string, rest: string)
    ensures ParseValue(Quote(body) + rest) == Ok(Str(body), rest)
  {
    var s := Quote(body) + rest;
    var more := QuoteBody(body) + "\"" + rest;
    assert s == "\"" + more;
    assert s[1..] == more;
    ParseBodyOfQuote(body, rest);
  }

  lemma SkipNothing(s: string)
    requires |s| == 0 || !IsSpace(s[0])
    ensures SkipSpace(s) == s
  {
  }

  /** The parser undoes the printer, in front of any delimiter. */
  lemma {:induction false} ParsePrint(v: Json, rest: string)
    requires WellFormed(v) && Delimited(rest)
    ensures ParseValue(Print(v) + rest) == Ok(v, rest)
    decreases v, 1
  {
    if v.Arr? {
      ParsePrintArr(v, rest);
    } else if v.Obj? {
      ParsePrintObj(v.fields, rest);
    } else if v.Int? {
      ParsePrintInt(v.n, rest);
    } else if v.Str? {
      ParsePrintStr(v.s, rest);
    } else {
      ParsePrintLiteral(v, rest);
    }
  }

  lemma {:induction false} ParsePrintArr(v: Json, rest: string)
    requires WellFormed(v) && v.Arr?
    ensures ParseValue(Print(v) + rest) == Ok(v, rest)
    decreases v, 0
  {
    var s := Print(v) + rest;
    var inner := PrintItems(v.items) + "]" + rest;
    assert s == "[" + inner;
    assert s[1..] == inner;
    if |v.items| == 0 {
      assert inner == "]" + rest && inner[1..] == rest;
      SkipNothing(inner);
      assert v.items == [];
    } else {
      PrintStart(v.items[0]);
      assert inner[0] == Print(v.items[0])[0];
      SkipNothing(inner);
      ParsePrintItems(v.items, rest);
    }
  }

  lemma ParseObjStep(inner: string, fields: seq<Field>, rest: string)
    requires SkipSpace(inner) == inner && (|inner| > 0 ==> inner[0] != '}')
    requires ParsePairs(inner) == Ok(fields, rest) && UniqueKeys(fields)
    ensures ParseValue("{" + inner) == Ok(Obj(fields), rest)
  {
    assert ("{" + inner)[1..] == inner;
    ToDictUnique(fields);
  }

  lemma ParseEmptyObj(rest: string)
    ensures ParseValue("{}" + rest) == Ok(Obj([]), rest)
  {
    var inner := "}" + rest;
    assert ("{}" + rest)[1..] == inner && inner[1..] == rest;
    SkipNothing(inner);
  }

  lemma {:induction false} ParsePrintObj(fields: seq<Field>, rest: string)
    requires UniqueKeys(fields) && forall i :: 0 <= i < |fields| ==> WellFormed(fields[i].value)
    ensures ParseValue("{" + PrintFields(fields) + "}" + rest) == Ok(Obj(fields), rest)
    decreases fields, 1
  {
    if |fields| == 0 {
      assert "{" + PrintFields(fields) + "}" + rest == "{}" + rest;
      ParseEmptyObj(rest);
      assert fields == [];
    } else {
      var inner := PrintFields(fields) + "}" + rest;
      assert "{" + PrintFields(fields) + "}" + rest == "{" + inner;
      FieldsStart(fields);
      SkipNothing(inner);
      ParsePrintFields(fields, rest);
      ParseObjStep(inner, fields, rest);
    }
  }

  lemma ParseLastItem(s: string, item: Json, rest: string)
    requires ParseValue(s) == Ok(item, "]" + rest)
    ensures ParseItems(s) == Ok([item], rest)
  {
    SkipNothing("]" + rest);
    assert ("]" + rest)[1..] == rest;
  }

  lemma ParseNextItem(s: string, item: Json, more: string, items: seq<Json>, rest: string)
    requires ParseValue(s) == Ok(item, "," + more) && SkipSpace(more) == more
    requires ParseItems(more) == Ok(items, rest)
    ensures ParseItems(s) == Ok([item] + items, rest)
  {
    SkipNothing("," + more);
    assert ("," + more)[1..] == more;
  }

  lemma ParseLastPair(s: string, f: Field, rest: string)
    requires ParsePair(s) == Ok(f, "}" + rest)
    ensures ParsePairs(s) == Ok([f], rest)
  {
    SkipNothing("}" + rest);
    assert ("}" + rest)[1..] == rest;
  }

  lemma ParseNextPair(s: string, f: Field, more: string, fields: seq<Field>, rest: string)
    requires ParsePair(s) == Ok(f, "," + more) && SkipSpace(more) == more
    requires ParsePairs(more) == Ok(fields, rest)
    ensures ParsePairs(s) == Ok([f] + fields, rest)
  {
    SkipNothing("," + more);
    assert ("," + more)[1..] == more;
  }

  lemma FieldsStart(fields: seq<Field>)
    requires |fields| > 0
    ensures |PrintFields(fields)| > 0 && PrintFields(fields)[0] == '"'
  {
    assert PrintField(fields[0])[0] == '"';
  }

  lemma ItemsStart(items: seq<Json>)
    requires |items| > 0
    ensures |PrintItems(items)| > 0 && PrintItems(items)[0] == Print(items[0])[0] && !IsSpace(PrintItems(items)[0])
  {
    PrintStart(items[0]);
  }

  lemma {:induction false} ParsePrintItems(items: seq<Json>, rest: string)
    requires |items| > 0 && forall i :: 0 <= i < |items| ==> WellFormed(items[i])
    ensures ParseItems(PrintItems(items) + "]" + rest) == Ok(items, rest)
    decreases items
  {
    var s := PrintItems(items) + "]" + rest;
    if |items| == 1 {
      assert s == Print(items[0]) + ("]" + rest);
      ParsePrint(items[0], "]" + rest);
      ParseLastItem(s, items[0], rest);
      assert items == [items[0]];
    } else {
      var more := PrintItems(items[1..]) + "]" + rest;
      assert s == Print(items[0]) + ("," + more);
      ParsePrint(items[0], "," + more);
      ItemsStart(items[1..]);
      SkipNothing(more);
      ParsePrintItems(items[1..], rest);
      ParseNextItem(s, items[0], more, items[1..], rest);
      assert items == [items[0]] + items[1..];
    }
  }

  lemma ParsePairStep(key: string, value: string, v: Json, rest: string)
    requires SkipSpace(value) == value && ParseValue(value) == Ok(v, rest)
    ensures ParsePair("\"" + (QuoteBody(key) + "\"" + (":" + value))) == Ok(Field(key, v), rest)
  {
    var body := QuoteBody(key) + "\"" + (":" + value);
    assert ("\"" + body)[1..] == body;
    ParseBodyOfQuote(key, ":" + value);
    SkipNothing(":" + value);
    assert (":" + value)[1..] == value;
  }

  lemma FieldText(f: Field, rest: string)
    ensures PrintField(f) + rest == "\"" + (QuoteBody(f.key) + "\"" + (":" + (Print(f.value) + rest)))
  {
  }

  lemma {:induction false} ParsePrintField(f: Field, rest: string)
    requires WellFormed(f.value) && Delimited(rest)
    ensures ParsePair(PrintField(f) + rest) == Ok(f, rest)
    decreases f, 1
  {
    FieldText(f, rest);
    PrintStart(f.value);
    SkipNothing(Print(f.value) + rest);
    ParsePrint(f.value, rest);
    ParsePairStep(f.key, Print(f.value) + rest, f.value, rest);
  }

  lemma LastFieldText(f: Field, rest: string)
    ensures PrintFields([f]) + "}" + rest == PrintField(f) + ("}" + rest)
  {
  }

  lemma Regroup(a: string, more: string, rest: string)
    ensures a + "," + more + "}" + rest == a + ("," + (more + "}" + rest))
  {
  }

  lemma MoreFieldsText(fields: seq<Field>, rest: string)
    requires |fields| > 1
    ensures PrintFields(fields) + "}" + rest
            == PrintField(fields[0]) + ("," + (PrintFields(fields[1..]) + "}" + rest))
  {
    Regroup(PrintField(fields[0]), PrintFields(fields[1..]), rest);
  }

  /** One field, then the closing brace. */
  lemma ParseOneField(fields: seq<Field>, rest: string)
    requires |fields| == 1 && ParsePair(PrintField(fields[0]) + ("}" + rest)) == Ok(fields[0], "}" + rest)
    ensures ParsePairs(PrintFields(fields) + "}" + rest) == Ok(fields, rest)
  {
    assert fields == [fields[0]];
    LastFieldText(fields[0], rest);
    ParseLastPair(PrintField(fields[0]) + ("}" + rest), fields[0], rest);
  }

  /** One field, a comma, and the other fields. */
  lemma ParseMoreFields(s: string, first: string, f: Field, more: string, tail: seq<Field>, rest: string)
    requires s == first + ("," + more) && SkipSpace(more) == more
    requires ParsePair(first + ("," + more)) == Ok(f, "," + more) && ParsePairs(more) == Ok(tail, rest)
    ensures ParsePairs(s) == Ok([f] + tail, rest)
  {
    ParseNextPair(s, f, more, tail, rest);
  }

  lemma FieldsSkip(fields: seq<Field>, rest: string)
    requires |fields| > 0
    ensures SkipSpace(PrintFields(fields) + "}" + rest) == PrintFields(fields) + "}" + rest
  {
    FieldsStart(fields);
    SkipNothing(PrintFields(fields) + "}" + rest);
  }

  lemma FirstAndRest(fields: seq<Field>)
    requires |fields| > 0
    ensures fields == [fields[0]] + fields[1..]
  {
  }

  lemma ParseFieldsStep(fields: seq<Field>, more: string, rest: string)
    requires |fields| > 1 && more == PrintFields(fields[1..]) + "}" + rest
    requires ParsePair(PrintField(fields[0]) + ("," + more)) == Ok(fields[0], "," + more)
    requires ParsePairs(more) == Ok(fields[1..], rest)
    ensures ParsePairs(PrintFields(fields) + "}" + rest) == Ok(fields, rest)
  {
    var s := PrintFields(fields) + "}" + rest;
    MoreFieldsText(fields, rest);
    FieldsSkip(fields[1..], rest);
    ParseMoreFields(s, PrintField(fields[0]), fields[0], more, fields[1..], rest);
    FirstAndRest(fields);
  }

  lemma {:induction false} ParsePrintFields(fields: seq<Field>, rest: string)
    requires |fields| > 0 && forall i :: 0 <= i < |fields| ==> WellFormed(fields[i].value)
    ensures ParsePairs(PrintFields(fields) + "}" + rest) == Ok(fields, rest)
    decreases fields, 0
  {
    if |fields| == 1 {
      ParsePrintField(fields[0], "}" + rest);
      ParseOneField(fields, rest);
    } else {
      var more := PrintFields(fields[1..]) + "}" + rest;
      ParsePrintField(fields[0], "," + more);
      ParsePrintFields(fields[1..], rest);
      ParseFieldsStep(fields, more, rest);
    }
  }

  // ------------------------------------------------------------- main results

  /** `json.loads(json.dumps(v, sort_keys=True))` is `v` with its keys sorted. */
  lemma LoadsEncode(v: Json)
    requires WellFormed(v)
    ensures Loads(Encode(v)) == Loaded(Canon(v))
    ensures Same(v, Canon(v))
  {
    CanonWellFormed(v);
    PrintStart(Canon(v));
    ParsePrint(Canon(v), "");
    assert Encode(v) + "" == Encode(v);
    CanonIdempotent(v);
    CanonSame(v, Canon(v));
  }

  /** Two values have the same canonical text exactly when they are equal up to key order. */
  lemma EncodeDecidesSame(a: Json, b: Json)
    requires WellFormed(a) && WellFormed(b)
    ensures Encode(a) == Encode(b) <==> Same(a, b)
  {
    if Encode(a) == Encode(b) {
      LoadsEncode(a);
      LoadsEncode(b);
      CanonSame(a, b);
    }
    if Same(a, b) {
      SameCanon(a, b);
    }
  }

  /** `canonical_sha256` under any digest: requests equal up to key order share a fingerprint, and
      where the digest has no collision between the two texts, only those do. */
  lemma FingerprintDecidesSame(digest: string -> string, a: Json, b: Json)
    requires WellFormed(a) && WellFormed(b)
    requires digest(Encode(a)) == digest(Encode(b)) ==> Encode(a) == Encode(b)
    ensures digest(Encode(a)) == digest(Encode(b)) <==> Same(a, b)
  {
    EncodeDecidesSame(a, b);
  }
}
