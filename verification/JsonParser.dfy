/** `json.loads` on text: the standard grammar with white space anywhere between tokens. A number with
    a fraction or an exponent, NaN, and an escaped lone surrogate are refused (see README). */
module JsonParser {
  import opened Json

  datatype Parsed<T> = Fail | Ok(value: T, rest: string)

  predicate IsSpace(c: char) {
    c == ' ' || c == '\t' || c == '\n' || c == '\r'
  }

  function SkipSpace(s: string): (r: string)
    ensures |r| <= |s|
  {
    if |s| > 0 && IsSpace(s[0]) then SkipSpace(s[1..]) else s
  }

  // ------------------------------------------------------------------ numbers

  predicate IsDigit(c: char) {
    '0' <= c <= '9'
  }

  function Span(s: string): (n: nat)
    ensures n <= |s| && forall i :: 0 <= i < n ==> IsDigit(s[i])
  {
    if |s| > 0 && IsDigit(s[0]) then 1 + Span(s[1..]) else 0
  }

  function Value(digits: string): nat
    requires forall i :: 0 <= i < |digits| ==> IsDigit(digits[i])
  {
    if |digits| == 0 then 0
    else
      assert IsDigit(digits[|digits| - 1]);
      10 * Value(digits[..|digits| - 1]) + (digits[|digits| - 1] as int - '0' as int)
  }

  /** No leading zeros: after a `0` the number is over. */
  function ParseNat(s: string): (r: Parsed<int>)
    ensures r.Ok? ==> |r.rest| < |s|
  {
    var n := Span(s);
    if n == 0 then Fail
    else if s[0] == '0' then Ok(0, s[1..])
    else Ok(Value(s[..n]), s[n..])
  }

  function ParseInt(s: string): (r: Parsed<int>)
    ensures r.Ok? ==> |r.rest| < |s|
  {
    if |s| > 0 && s[0] == '-' then
      match ParseNat(s[1..])
      case Fail => Fail
      case Ok(n, rest) => Ok(-n, rest)
    else ParseNat(s)
  }

  // ------------------------------------------------------------------ strings

  function HexValue(c: char): (d: int)
    ensures -1 <= d < 16
  {
    if '0' <= c <= '9' then c as int - '0' as int
    else if 'a' <= c <= 'f' then c as int - 'a' as int + 10
    else if 'A' <= c <= 'F' then c as int - 'A' as int + 10
    else -1
  }

  /** The UTF-16 unit of a `\uXXXX` at the start of `s`, or -1. */
  function UnitAt(s: string): (u: int)
    ensures -1 <= u < 0x10000
    ensures u >= 0 ==> |s| >= 6
  {
    if |s| < 6 || s[0] != '\\' || s[1] != 'u' then -1 else
      var a, b, c, d := HexValue(s[2]), HexValue(s[3]), HexValue(s[4]), HexValue(s[5]);
      if a < 0 || b < 0 || c < 0 || d < 0 then -1 else 0x1000 * a + 0x100 * b + 16 * c + d
  }

  function Simple(c: char): (r: Parsed<char>) {
    if c == '"' || c == '\\' || c == '/' then Ok(c, "")
    else if c == 'n' then Ok(10 as char, "")
    else if c == 'r' then Ok(13 as char, "")
    else if c == 't' then Ok(9 as char, "")
    else if c == 'f' then Ok(12 as char, "")
    else if c == 'b' then Ok(8 as char, "")
    else Fail
  }

  /** One character of a string body. */
  function ParseChar(s: string): (r: Parsed<char>)
    ensures r.Ok? ==> |r.rest| < |s|
  {
    if |s| == 0 || (s[0] as int) < 32 || s[0] == '"' then Fail
    else if s[0] != '\\' then Ok(s[0], s[1..])
    else if |s| > 1 && s[1] != 'u' then
      match Simple(s[1])
      case Fail => Fail
      case Ok(c, _) => Ok(c, s[2..])
    else
      var unit := UnitAt(s);
      if unit < 0 || 0xdc00 <= unit < 0xe000 then Fail
      else if unit < 0xd800 || 0xe000 <= unit then Ok(unit as char, s[6..])
      else
        var low := UnitAt(s[6..]);
        if 0xdc00 <= low < 0xe000 then
          Ok((0x10000 + (unit - 0xd800) * 0x400 + (low - 0xdc00)) as char, s[12..])
        else Fail
  }

  /** The rest of a string after its opening quote. */
  function ParseBody(s: string): (r: Parsed<string>)
    ensures r.Ok? ==> |r.rest| < |s|
    decreases |s|
  {
    if |s| > 0 && s[0] == '"' then Ok("", s[1..])
    else
      match ParseChar(s)
      case Fail => Fail
      case Ok(c, more) =>
        match ParseBody(more)
        case Fail => Fail
        case Ok(tail, rest) => Ok([c] + tail, rest)
  }

  // ------------------------------------------------------------------- values

  /** Building a dict pair by pair: a repeated key keeps its place and takes the later value. */
  function Put(fields: seq<Field>, f: Field): seq<Field> {
    if |fields| == 0 then [f]
    else if fields[0].key == f.key then [f] + fields[1..]
    else [fields[0]] + Put(fields[1..], f)
  }

  function ToDict(pairs: seq<Field>): seq<Field> {
    if |pairs| == 0 then [] else Put(ToDict(pairs[..|pairs| - 1]), pairs[|pairs| - 1])
  }

  function ParseValue(s: string): (r: Parsed<Json>)
    ensures r.Ok? ==> |r.rest| < |s|
    decreases |s|, 0
  {
    if |s| == 0 then Fail
    else if s[0] == '"' then
      match ParseBody(s[1..])
      case Fail => Fail
      case Ok(body, rest) => Ok(Str(body), rest)
    else if s[0] == '[' then
      var inner := SkipSpace(s[1..]);
      if |inner| > 0 && inner[0] == ']' then Ok(Arr([]), inner[1..])
      else
        match ParseItems(inner)
        case Fail => Fail
        case Ok(items, rest) => Ok(Arr(items), rest)
    else if s[0] == '{' then
      var inner := SkipSpace(s[1..]);
      if |inner| > 0 && inner[0] == '}' then Ok(Obj([]), inner[1..])
      else
        match ParsePairs(inner)
        case Fail => Fail
        case Ok(pairs, rest) => Ok(Obj(ToDict(pairs)), rest)
    else if "null" <= s then Ok(Null, s[4..])
    else if "true" <= s then Ok(Bool(true), s[4..])
    else if "false" <= s then Ok(Bool(false), s[5..])
    else
      match ParseInt(s)
      case Fail => Fail
      case Ok(n, rest) => Ok(Int(n), rest)
  }

  /** One or more array items and the closing bracket. */
  function ParseItems(s: string): (r: Parsed<seq<Json>>)
    ensures r.Ok? ==> |r.rest| < |s|
    decreases |s|, 1
  {
    match ParseValue(s)
    case Fail => Fail
    case Ok(first, after) =>
      var more := SkipSpace(after);
      if |more| == 0 then Fail
      else if more[0] == ']' then Ok([first], more[1..])
      else if more[0] != ',' then Fail
      else
        match ParseItems(SkipSpace(more[1..]))
        case Fail => Fail
        case Ok(tail, rest) => Ok([first] + tail, rest)
  }

  function ParsePair(s: string): (r: Parsed<Field>)
    ensures r.Ok? ==> |r.rest| < |s|
    decreases |s|, 1
  {
    if |s| == 0 || s[0] != '"' then Fail
    else
      match ParseBody(s[1..])
      case Fail => Fail
      case Ok(key, after) =>
        var colon := SkipSpace(after);
        if |colon| == 0 || colon[0] != ':' then Fail
        else
          match ParseValue(SkipSpace(colon[1..]))
          case Fail => Fail
          case Ok(v, rest) => Ok(Field(key, v), rest)
  }

  /** One or more `key: value` pairs and the closing brace. */
  function ParsePairs(s: string): (r: Parsed<seq<Field>>)
    ensures r.Ok? ==> |r.rest| < |s|
    decreases |s|, 2
  {
    match ParsePair(s)
    case Fail => Fail
    case Ok(first, after) =>
      var more := SkipSpace(after);
      if |more| == 0 then Fail
      else if more[0] == '}' then Ok([first], more[1..])
      else if more[0] != ',' then Fail
      else
        match ParsePairs(SkipSpace(more[1..]))
        case Fail => Fail
        case Ok(tail, rest) => Ok([first] + tail, rest)
  }

  datatype Loaded = Malformed | Loaded(value: Json)

  /** `json.loads(text)`: one value, nothing but white space around it. */
  function Loads(text: string): Loaded {
    match ParseValue(SkipSpace(text))
    case Fail => Malformed
    case Ok(v, rest) => if SkipSpace(rest) == "" then Loaded(v) else Malformed
  }
}
