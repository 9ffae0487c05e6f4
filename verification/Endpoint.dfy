/** The one spelling of a Runtime endpoint: scheme and host in lower case, no default port, no trailing
    slashes, no query, fragment or credentials. Splitting follows the standard library's `urlsplit`;
    `literal` stands for its check of an address between brackets. */
module Endpoint {
  import opened Json
  import opened JsonParser
  import opened JsonRoundTrip

  // --------------------------------------------------------------- finding text

  /** The position of the first character in `stops`, or the end. */
  function Cut(s: string, stops: set<char>): (n: nat)
    ensures n <= |s| && (n < |s| ==> s[n] in stops)
    ensures forall i :: 0 <= i < n ==> s[i] !in stops
  {
    if |s| == 0 || s[0] in stops then 0 else 1 + Cut(s[1..], stops)
  }

  predicate Has(s: string, c: char) {
    Cut(s, {c}) < |s|
  }

  predicate Free(s: string, stops: set<char>) {
    forall i :: 0 <= i < |s| ==> s[i] !in stops
  }

  lemma CutOf(a: string, b: string, stops: set<char>)
    requires Free(a, stops) && (|b| > 0 ==> b[0] in stops)
    ensures Cut(a + b, stops) == |a|
  {
    var n := Cut(a + b, stops);
    assert forall i :: 0 <= i < |a| ==> (a + b)[i] == a[i];
    assert |b| > 0 ==> (a + b)[|a|] in stops;
  }

  lemma CutFree(a: string, stops: set<char>)
    requires Free(a, stops)
    ensures Cut(a, stops) == |a|
  {
    assert a + "" == a;
    CutOf(a, "", stops);
  }

  /** The position behind the last `@`. */
  function LastAt(s: string): (n: nat)
    ensures n <= |s| && forall i :: n <= i < |s| ==> s[i] != '@'
    ensures n > 0 ==> s[n - 1] == '@'
  {
    if |s| == 0 || s[|s| - 1] == '@' then |s| else LastAt(s[..|s| - 1])
  }

  function AfterAt(s: string): string {
    s[LastAt(s)..]
  }

  // -------------------------------------------------------------------- pieces

  function LowerChar(c: char): char {
    if 'A' <= c <= 'Z' then (c as int + 32) as char else c
  }

  function Lower(s: string): (r: string)
    ensures |r| == |s| && forall i :: 0 <= i < |s| ==> r[i] == LowerChar(s[i])
  {
    seq(|s|, i requires 0 <= i < |s| => LowerChar(s[i]))
  }

  /** Lower case, except for the zone of a scoped address. */
  function LowerHost(h: string): string {
    var zone := Cut(h, {'%'});
    Lower(h[..zone]) + h[zone..]
  }

  datatype Authority = BadAuthority | Authority(host: string, port: string)

  function AfterFirst(s: string, c: char): string {
    if Has(s, c) then s[Cut(s, {c}) + 1..] else ""
  }

  /** Host and port when the host is an address between brackets; nothing may stand around them. */
  function ReadBracketed(info: string, literal: string -> bool): Authority
    requires Has(info, '[')
  {
    var inner := AfterFirst(info, '[');
    var after := AfterFirst(inner, ']');
    var host := inner[..Cut(inner, {']'})];
    if info[0] != '[' || (|after| > 0 && after[0] != ':') || !literal(host) then BadAuthority
    else Authority(host, AfterFirst(after, ':'))
  }

  /** Host and port of a network location; credentials are passed over. */
  function ReadAuthority(netloc: string, literal: string -> bool): Authority {
    var info := AfterAt(netloc);
    if Has(netloc, '[') != Has(netloc, ']') then BadAuthority
    else if Has(info, '[') then ReadBracketed(info, literal)
    else
      var host := info[..Cut(info, {':'})];
      if Has(netloc, '[') && !literal(host) then BadAuthority else Authority(host, AfterFirst(info, ':'))
  }

  /** A port is absent or a number in range. */
  predicate PortFits(port: string) {
    forall i :: 0 <= i < |port| ==> IsDigit(port[i])
  }

  function DefaultPort(scheme: string): int {
    if scheme == "http" then 80 else if scheme == "https" then 443 else -1
  }

  /** An address with colons goes between brackets. */
  function Named(lower: string): string {
    if Has(lower, ':') then "[" + lower + "]" else lower
  }

  /** The port, unless it is absent or the scheme's own. */
  function PortText(scheme: string, port: string): string
    requires PortFits(port)
  {
    if |port| > 0 && Value(port) != DefaultPort(scheme) then ":" + Digits(Value(port)) else ""
  }

  function TrimSlashes(path: string): (r: string)
    ensures r <= path && (|r| > 0 ==> r[|r| - 1] != '/')
  {
    if |path| > 0 && path[|path| - 1] == '/' then TrimSlashes(path[..|path| - 1]) else path
  }

  /** White space, as `str.strip` has it. */
  predicate IsBlank(c: char) {
    var n := c as int;
    9 <= n <= 13 || 28 <= n <= 32 || n == 0x85 || n == 0xA0 || n == 0x1680 || 0x2000 <= n <= 0x200A
    || n == 0x2028 || n == 0x2029 || n == 0x202F || n == 0x205F || n == 0x3000
  }

  function TrimLeft(s: string): string {
    if |s| > 0 && IsBlank(s[0]) then TrimLeft(s[1..]) else s
  }

  /** How much of the first `n` characters is left when trailing blanks are dropped. */
  function KeptTo(s: string, n: nat): (k: nat)
    requires n <= |s|
    ensures k <= n && (k > 0 ==> !IsBlank(s[k - 1]))
  {
    if n > 0 && IsBlank(s[n - 1]) then KeptTo(s, n - 1) else n
  }

  function TrimRight(s: string): string {
    s[..KeptTo(s, |s|)]
  }

  /** `urlsplit` drops leading control characters and blanks, */
  function DropControls(s: string): string {
    if |s| > 0 && s[0] as int <= 32 then DropControls(s[1..]) else s
  }

  const TABS := {'\t', '\n', '\r'}

  /** and tabs and line breaks anywhere. */
  function Untabbed(s: string): (r: string)
    ensures Free(r, TABS)
  {
    if |s| == 0 then "" else if s[0] in TABS then Untabbed(s[1..]) else [s[0]] + Untabbed(s[1..])
  }

  /** An endpoint as it is split. */
  function Clean(endpoint: string): string {
    Untabbed(DropControls(TrimRight(TrimLeft(endpoint))))
  }

  predicate SchemeChar(c: char) {
    'a' <= c <= 'z' || 'A' <= c <= 'Z' || IsDigit(c) || c == '+' || c == '-' || c == '.'
  }

  /** The scheme and what follows it. */
  function ReadScheme(s: string): (string, string) {
    var n := Cut(s, {':'});
    if 0 < n < |s| && !IsDigit(s[0]) && s[0] != '+' && s[0] != '-' && s[0] != '.'
       && (forall i :: 0 <= i < n ==> SchemeChar(s[i]))
    then (Lower(s[..n]), s[n + 1..]) else ("", s)
  }

  const ENDS := {'/', '?', '#'}

  datatype Normal = Invalid | Normal(text: string)

  function Assemble(scheme: string, netloc: string, tail: string, literal: string -> bool): Normal {
    var authority := ReadAuthority(netloc, literal);
    if authority.BadAuthority? || !PortFits(authority.port) then Invalid
    else if |authority.port| > 0 && Value(authority.port) > 65535 then Invalid
    else Normal(scheme + "://" + (Named(LowerHost(authority.host)) + PortText(scheme, authority.port))
                + TrimSlashes(tail[..Cut(tail, {'?', '#'})]))
  }

  /** The network location behind `//`, and what follows it. */
  function Netloc(rest: string): string
    requires "//" <= rest
  {
    rest[2..][..Cut(rest[2..], ENDS)]
  }

  function Tail(rest: string): string
    requires "//" <= rest
  {
    rest[2..][Cut(rest[2..], ENDS)..]
  }

  function NormalizeText(text: string, literal: string -> bool): Normal {
    var (scheme, rest) := ReadScheme(text);
    if "//" <= rest then Assemble(scheme, Netloc(rest), Tail(rest), literal)
    else Assemble(scheme, "", rest, literal)
  }

  /** `_normalize`; `Invalid` is the ValueError of a malformed endpoint. */
  function Normalize(endpoint: string, literal: string -> bool): Normal {
    NormalizeText(Clean(endpoint), literal)
  }

  // ----------------------------------------------------------- reading it back

  /** An address between brackets stays one in lower case. */
  ghost predicate Addresses(literal: string -> bool) {
    forall h {:trigger LowerHost(h)} :: literal(h) ==> literal(LowerHost(h))
  }

  /** An http or https endpoint with an authority. */
  predicate IsWeb(text: string) {
    var (scheme, rest) := ReadScheme(text);
    (scheme == "http" || scheme == "https") && "//" <= rest
  }

  /** A web endpoint that is well-formed. */
  predicate Readable(endpoint: string, literal: string -> bool) {
    IsWeb(Clean(endpoint)) && Normalize(endpoint, literal).Normal?
  }

  lemma LowerHostTwice(h: string)
    ensures LowerHost(LowerHost(h)) == LowerHost(h)
  {
    var zone := Cut(h, {'%'});
    CutOf(Lower(h[..zone]), h[zone..], {'%'});
    assert LowerHost(h)[..zone] == Lower(h[..zone]);
    assert LowerHost(h)[zone..] == h[zone..];
    assert Lower(Lower(h[..zone])) == Lower(h[..zone]);
  }

  /** Lowering a host moves no delimiter. */
  lemma LowerHostFree(h: string, stops: set<char>)
    requires forall c :: c in stops ==> !('a' <= c <= 'z')
    ensures Free(h, stops) ==> Free(LowerHost(h), stops)
  {
  }

  lemma LowerHostHas(h: string, c: char)
    requires LowerChar(c) == c && !('a' <= c <= 'z')
    ensures Has(LowerHost(h), c) == Has(h, c)
  {
    var l := LowerHost(h);
    assert forall i :: 0 <= i < |h| ==> (l[i] == c <==> h[i] == c);
    assert Has(h, c) ==> l[Cut(h, {c})] == c;
    assert Has(l, c) ==> h[Cut(l, {c})] == c;
  }

  const OUTSIDE := {'/', '?', '#', '@'}
  const DELIMITERS := OUTSIDE + {'[', ']'}

  /** A host without a colon is written without brackets, and then one inside it is out of place. */
  predicate LoneBracket(host: string) {
    !Has(host, ':') && (Has(host, '[') || Has(host, ']'))
  }

  lemma AfterAtFree(netloc: string, stops: set<char>)
    requires Free(netloc, stops)
    ensures Free(AfterAt(netloc), stops + {'@'})
  {
  }

  lemma BracketedHost(info: string, literal: string -> bool)
    requires Free(info, OUTSIDE) && Has(info, '[') && ReadBracketed(info, literal).Authority?
    ensures Free(ReadBracketed(info, literal).host, OUTSIDE + {']'}) && literal(ReadBracketed(info, literal).host)
  {
    var host := ReadBracketed(info, literal).host;
    HasAt(info, '[', 0);
    assert forall i :: 0 <= i < |host| ==> host[i] == info[i + 1];
    assert Free(host, {']'});
  }

  lemma PlainHost(netloc: string, literal: string -> bool)
    requires Free(netloc, ENDS) && !Has(AfterAt(netloc), '[') && ReadAuthority(netloc, literal).Authority?
    ensures Free(ReadAuthority(netloc, literal).host, OUTSIDE + {'[', ':'})
  {
    var info := AfterAt(netloc);
    AfterAtFree(netloc, ENDS);
    assert ReadAuthority(netloc, literal).host == info[..Cut(info, {':'})];
    assert Free(info, {'['});
  }

  /** A host as it can be read: from between brackets, or free of opening brackets and colons. */
  predicate HostRead(host: string, literal: string -> bool) {
    Free(host, OUTSIDE) && ((Free(host, {']'}) && literal(host)) || Free(host, {'[', ':'}))
  }

  lemma AuthorityHost(netloc: string, literal: string -> bool)
    requires Free(netloc, ENDS) && ReadAuthority(netloc, literal).Authority?
    ensures HostRead(ReadAuthority(netloc, literal).host, literal)
  {
    if Has(AfterAt(netloc), '[') {
      AfterAtFree(netloc, ENDS);
      BracketedHost(AfterAt(netloc), literal);
    } else {
      PlainHost(netloc, literal);
    }
  }

  lemma NoDelimiters(s: string)
    requires Free(s, DELIMITERS)
    ensures AfterAt(s) == s && !Has(s, '[') && !Has(s, ']')
  {
    AfterNoAt(s);
    CutFree(s, {'['});
    CutFree(s, {']'});
  }

  lemma PlainReadsBack(host: string, after: string, literal: string -> bool)
    requires Free(host, DELIMITERS) && !Has(host, ':') && Free(after, DELIMITERS) && (|after| > 0 ==> after[0] == ':')
    ensures ReadAuthority(host + after, literal) == Authority(host, if |after| > 0 then after[1..] else "")
  {
    var s := host + after;
    NoDelimiters(s);
    assert Free(host, {':'});
    CutOf(host, after, {':'});
    assert s[..|host|] == host;
    assert |after| > 0 ==> s[|host| + 1..] == after[1..];
  }

  lemma AfterNoAt(s: string)
    requires Free(s, {'@'})
    ensures AfterAt(s) == s
  {
  }

  lemma HasAt(s: string, c: char, i: nat)
    requires i < |s| && s[i] == c
    ensures Has(s, c) && Cut(s, {c}) <= i
  {
  }

  /** Between brackets, then nothing or a port. */
  lemma BracketedReads(host: string, after: string, literal: string -> bool)
    requires Free(host, OUTSIDE + {']'}) && literal(host) && (|after| > 0 ==> after[0] == ':')
    requires Has("[" + host + "]" + after, '[')
    ensures ReadBracketed("[" + host + "]" + after, literal)
            == Authority(host, if |after| > 0 then after[1..] else "")
  {
    var s := "[" + host + "]" + after;
    HasAt(s, '[', 0);
    BracketedInside(host, after);
    if |after| > 0 {
      HasAt(after, ':', 0);
    }
  }

  lemma BracketedReadsBack(host: string, after: string, literal: string -> bool)
    requires Free(host, OUTSIDE + {']'}) && literal(host)
    requires Free(after, DELIMITERS) && (|after| > 0 ==> after[0] == ':')
    ensures ReadAuthority("[" + host + "]" + after, literal) == Authority(host, if |after| > 0 then after[1..] else "")
  {
    var s := "[" + host + "]" + after;
    HasAt(s, '[', 0);
    HasAt(s, ']', |host| + 1);
    AfterNoAt(s);
    BracketedReads(host, after, literal);
  }

  lemma BracketedInside(host: string, after: string)
    requires Free(host, {']'})
    ensures var inner := ("[" + host + "]" + after)[1..];
      Cut(inner, {']'}) == |host| && inner[..|host|] == host && inner[|host| + 1..] == after
  {
    var inner := ("[" + host + "]" + after)[1..];
    assert inner == host + ("]" + after);
    CutOf(host, "]" + after, {']'});
  }

  lemma DigitsArePlain(n: nat)
    ensures Free(Digits(n), DELIMITERS) && PortFits(Digits(n)) && |Digits(n)| > 0 && Value(Digits(n)) == n
  {
    DigitsAreDigits(n);
    ValueOfDigits(n);
  }

  lemma ColonDigits(n: nat)
    ensures Free(":" + Digits(n), DELIMITERS) && (":" + Digits(n))[1..] == Digits(n)
  {
    DigitsArePlain(n);
  }

  lemma NamedFree(lower: string, after: string)
    requires Free(lower, OUTSIDE) && Free(after, DELIMITERS)
    ensures Free(Named(lower) + after, ENDS)
  {
  }

  lemma NoBrackets(host: string)
    requires Free(host, OUTSIDE) && !Has(host, ':') && !LoneBracket(host)
    ensures Free(host, DELIMITERS)
  {
    assert Free(host, {'['}) && Free(host, {']'});
  }

  lemma NamedReadsBack(lower: string, after: string, literal: string -> bool)
    requires Free(lower, OUTSIDE) && !LoneBracket(lower) && (Has(lower, ':') ==> literal(lower) && Free(lower, {']'}))
    requires Free(after, DELIMITERS) && (|after| > 0 ==> after[0] == ':')
    ensures ReadAuthority(Named(lower) + after, literal) == Authority(lower, if |after| > 0 then after[1..] else "")
  {
    if Has(lower, ':') {
      BracketedReadsBack(lower, after, literal);
    } else {
      NoBrackets(lower);
      PlainReadsBack(lower, after, literal);
    }
  }

  lemma HostFree(netloc: string, stops: set<char>, literal: string -> bool)
    requires Free(netloc, stops) && ReadAuthority(netloc, literal).Authority?
    ensures Free(ReadAuthority(netloc, literal).host, stops)
  {
    var info := AfterAt(netloc);
    var host := ReadAuthority(netloc, literal).host;
    if Has(info, '[') {
      assert forall i :: 0 <= i < |host| ==> host[i] == info[i + 1];
    } else {
      assert forall i :: 0 <= i < |host| ==> host[i] == info[i];
    }
  }

  /** A path as a split endpoint has it: absolute or empty, without query, fragment and final slash. */
  predicate ProperPath(path: string) {
    (|path| > 0 ==> path[0] == '/' && path[|path| - 1] != '/') && Free(path, {'?', '#'})
  }

  lemma PathOf(tail: string)
    requires |tail| > 0 ==> tail[0] in ENDS
    ensures var path := TrimSlashes(tail[..Cut(tail, {'?', '#'})]);
      ProperPath(path) && (Free(tail, TABS) ==> Free(path, TABS))
  {
  }

  lemma SchemeReads(scheme: string, rest: string)
    requires scheme == "http" || scheme == "https"
    ensures ReadScheme(scheme + ":" + rest) == (scheme, rest)
  {
    var s := scheme + ":" + rest;
    assert s == scheme + (":" + rest);
    CutOf(scheme, ":" + rest, {':'});
    assert s[..|scheme|] == scheme && s[|scheme| + 1..] == rest;
    assert Lower(scheme) == scheme;
    assert forall i :: 0 <= i < |scheme| ==> SchemeChar(scheme[i]);
  }

  lemma RestReads(host: string, path: string)
    requires Free(host, ENDS) && (|path| > 0 ==> path[0] == '/')
    ensures Netloc("//" + host + path) == host && Tail("//" + host + path) == path
  {
    assert ("//" + host + path)[2..] == host + path;
    CutOf(host, path, ENDS);
  }

  /** Reading a normal form from its pieces. */
  lemma SplitReads(scheme: string, host: string, path: string)
    requires scheme == "http" || scheme == "https"
    requires Free(host, ENDS) && (|path| > 0 ==> path[0] == '/')
    ensures var (found, rest) := ReadScheme(scheme + "://" + host + path);
      found == scheme && "//" <= rest && Netloc(rest) == host && Tail(rest) == path
  {
    var rest := "//" + host + path;
    assert scheme + "://" + host + path == scheme + ":" + rest;
    SchemeReads(scheme, rest);
    RestReads(host, path);
  }

  // ------------------------------------------------------- the service it names

  datatype Service = Service(scheme: string, host: string, port: int, path: string)

  function PortNumber(scheme: string, port: string): int
    requires PortFits(port)
  {
    if |port| > 0 then Value(port) else DefaultPort(scheme)
  }

  /** Scheme and host without regard to case, the port in force, the path without trailing slashes. */
  function ServiceAt(scheme: string, netloc: string, tail: string, literal: string -> bool): Service
    requires Assemble(scheme, netloc, tail, literal).Normal?
  {
    var a := ReadAuthority(netloc, literal);
    Service(scheme, LowerHost(a.host), PortNumber(scheme, a.port), TrimSlashes(tail[..Cut(tail, {'?', '#'})]))
  }

  function ServiceIn(text: string, literal: string -> bool): Service
    requires IsWeb(text) && NormalizeText(text, literal).Normal?
  {
    var (scheme, rest) := ReadScheme(text);
    ServiceAt(scheme, Netloc(rest), Tail(rest), literal)
  }

  ghost predicate ProperHost(host: string, literal: string -> bool) {
    && Free(host, OUTSIDE) && LowerHost(host) == host && Free(host, TABS)
    && (Has(host, ':') ==> literal(host) && Free(host, {']'})) && (Free(host, {'['}) || Free(host, {']'}))
  }

  ghost predicate Proper(s: Service, literal: string -> bool) {
    && (s.scheme == "http" || s.scheme == "https") && 0 <= s.port <= 65535
    && ProperHost(s.host, literal) && ProperPath(s.path) && Free(s.path, TABS)
  }

  function PortSpelling(s: Service): string {
    if s.port >= 0 && s.port != DefaultPort(s.scheme) then ":" + Digits(s.port) else ""
  }

  /** The normal form of a service. */
  function Spelling(s: Service): string {
    s.scheme + "://" + (Named(s.host) + PortSpelling(s)) + s.path
  }

  lemma AssembleSpells(scheme: string, netloc: string, tail: string, literal: string -> bool)
    requires Assemble(scheme, netloc, tail, literal).Normal? && (scheme == "http" || scheme == "https")
    ensures Assemble(scheme, netloc, tail, literal).text == Spelling(ServiceAt(scheme, netloc, tail, literal))
  {
    var a := ReadAuthority(netloc, literal);
    assert PortText(scheme, a.port) == PortSpelling(ServiceAt(scheme, netloc, tail, literal));
  }

  lemma LowerIsProper(host: string, literal: string -> bool)
    requires Addresses(literal) && HostRead(host, literal) && Free(host, TABS)
    ensures ProperHost(LowerHost(host), literal)
  {
    LowerHostHas(host, ':');
    LowerHostFree(host, OUTSIDE);
    LowerHostTwice(host);
    LowerHostFree(host, TABS);
    LowerHostFree(host, {'['});
    LowerHostFree(host, {']'});
    if Free(host, {'[', ':'}) {
      CutFree(host, {':'});
    }
  }

  lemma ServiceIsProper(scheme: string, netloc: string, tail: string, literal: string -> bool)
    requires Addresses(literal) && (scheme == "http" || scheme == "https")
    requires Free(netloc, ENDS) && (|tail| > 0 ==> tail[0] in ENDS) && Free(netloc, TABS) && Free(tail, TABS)
    requires Assemble(scheme, netloc, tail, literal).Normal?
    ensures Proper(ServiceAt(scheme, netloc, tail, literal), literal)
  {
    AuthorityHost(netloc, literal);
    HostFree(netloc, TABS, literal);
    LowerIsProper(ReadAuthority(netloc, literal).host, literal);
    PathOf(tail);
  }

  lemma SplitFree(text: string, stops: set<char>)
    requires IsWeb(text) && Free(text, stops)
    ensures var rest := ReadScheme(text).1; Free(Netloc(rest), stops) && Free(Tail(rest), stops)
  {
    var rest := ReadScheme(text).1;
    assert Free(rest, stops);
    assert forall i :: 0 <= i < |Netloc(rest)| ==> Netloc(rest)[i] == rest[i + 2];
    assert forall i :: 0 <= i < |Tail(rest)| ==> Tail(rest)[i] == rest[i + |rest| - |Tail(rest)|];
  }

  /** The normal form of a text is the spelling of its service. */
  lemma NormalSpells(text: string, literal: string -> bool)
    requires Addresses(literal) && IsWeb(text) && Free(text, TABS) && NormalizeText(text, literal).Normal?
    ensures NormalizeText(text, literal) == Normal(Spelling(ServiceIn(text, literal)))
    ensures Proper(ServiceIn(text, literal), literal)
  {
    var (scheme, rest) := ReadScheme(text);
    SplitFree(text, TABS);
    AssembleSpells(scheme, Netloc(rest), Tail(rest), literal);
    ServiceIsProper(scheme, Netloc(rest), Tail(rest), literal);
  }

  lemma PortSpellingPlain(s: Service)
    ensures Free(PortSpelling(s), DELIMITERS)
    ensures |PortSpelling(s)| > 0 ==> PortSpelling(s)[0] == ':' && PortSpelling(s)[1..] == Digits(s.port)
  {
    if s.port >= 0 {
      ColonDigits(s.port);
    }
  }

  /** The port as read from a spelling. */
  function PortRead(s: Service): string {
    if |PortSpelling(s)| > 0 && s.port >= 0 then Digits(s.port) else ""
  }

  lemma SpellingSplits(s: Service, literal: string -> bool)
    requires Proper(s, literal)
    ensures var (scheme, rest) := ReadScheme(Spelling(s));
      scheme == s.scheme && "//" <= rest && Tail(rest) == s.path && Netloc(rest) == Named(s.host) + PortSpelling(s)
  {
    PortSpellingPlain(s);
    NamedFree(s.host, PortSpelling(s));
    SplitReads(s.scheme, Named(s.host) + PortSpelling(s), s.path);
  }

  lemma PortReadFits(s: Service)
    requires s.port >= 0
    ensures PortFits(PortRead(s)) && PortNumber(s.scheme, PortRead(s)) == s.port
    ensures |PortRead(s)| > 0 ==> Value(PortRead(s)) == s.port
  {
    DigitsArePlain(s.port);
  }

  lemma PathStays(path: string)
    requires ProperPath(path)
    ensures TrimSlashes(path[..Cut(path, {'?', '#'})]) == path
  {
    CutFree(path, {'?', '#'});
    assert path[..|path|] == path;
  }

  lemma ServesAt(s: Service, netloc: string, literal: string -> bool)
    requires Proper(s, literal) && ReadAuthority(netloc, literal) == Authority(s.host, PortRead(s))
    ensures Assemble(s.scheme, netloc, s.path, literal) == Normal(Spelling(s))
  {
    PortReadFits(s);
    PathStays(s.path);
    assert ServiceAt(s.scheme, netloc, s.path, literal) == s;
    AssembleSpells(s.scheme, netloc, s.path, literal);
  }

  lemma HasIn(a: string, b: string, c: char)
    requires Free(b, {c})
    ensures Has(a + b, c) <==> Has(a, c)
  {
    if Has(a, c) {
      HasAt(a + b, c, Cut(a, {c}));
    } else {
      CutFree(a + b, {c});
    }
  }

  /** An authority with brackets of one kind is malformed. */
  lemma LoneBracketBad(host: string, after: string, literal: string -> bool)
    requires LoneBracket(host) && (Free(host, {'['}) || Free(host, {']'})) && Free(after, DELIMITERS)
    ensures ReadAuthority(host + after, literal) == BadAuthority
  {
    HasIn(host, after, '[');
    HasIn(host, after, ']');
    if Free(host, {'['}) {
      CutFree(host, {'['});
    } else {
      CutFree(host, {']'});
    }
  }

  /** A spelling is in normal form, unless a bracket is out of place in it: then it is malformed. */
  lemma SpellingServes(s: Service, literal: string -> bool)
    requires Proper(s, literal)
    ensures NormalizeText(Spelling(s), literal) == if LoneBracket(s.host) then Invalid else Normal(Spelling(s))
  {
    SpellingSplits(s, literal);
    PortSpellingPlain(s);
    if LoneBracket(s.host) {
      LoneBracketBad(s.host, PortSpelling(s), literal);
    } else {
      NamedReadsBack(s.host, PortSpelling(s), literal);
      ServesAt(s, Netloc(ReadScheme(Spelling(s)).1), literal);
    }
  }

  // ------------------------------------------------- what a spelling determines

  lemma BothBracketed(g: string, p: string, h: string, q: string)
    requires Free(g, {']'}) && Free(h, {']'}) && "[" + g + "]" + p == "[" + h + "]" + q
    ensures g == h && p == q
  {
    BracketedInside(g, p);
    BracketedInside(h, q);
  }

  lemma NeitherBracketed(g: string, p: string, h: string, q: string)
    requires Free(g, {':'}) && Free(h, {':'}) && (|p| > 0 ==> p[0] == ':') && (|q| > 0 ==> q[0] == ':')
    requires g + p == h + q
    ensures g == h && p == q
  {
    CutOf(g, p, {':'});
    CutOf(h, q, {':'});
    assert g == (g + p)[..|g|] && p == (g + p)[|g|..];
    assert h == (h + q)[..|h|] && q == (h + q)[|h|..];
  }

  /** What is written between brackets is not written without. */
  lemma OneBracketed(g: string, p: string, h: string, q: string)
    requires (Free(g, {'['}) || Free(g, {']'})) && Free(p, DELIMITERS)
    ensures g + p != "[" + h + "]" + q
  {
    var s := "[" + h + "]" + q;
    assert s[0] == '[' && s[|h| + 1] == ']';
  }

  lemma AuthorityDecides(s: Service, t: Service, literal: string -> bool)
    requires Proper(s, literal) && Proper(t, literal)
    requires Named(s.host) + PortSpelling(s) == Named(t.host) + PortSpelling(t)
    ensures s.host == t.host && PortSpelling(s) == PortSpelling(t)
  {
    PortSpellingPlain(s);
    PortSpellingPlain(t);
    if Has(s.host, ':') && Has(t.host, ':') {
      BothBracketed(s.host, PortSpelling(s), t.host, PortSpelling(t));
    } else if Has(s.host, ':') {
      OneBracketed(t.host, PortSpelling(t), s.host, PortSpelling(s));
    } else if Has(t.host, ':') {
      OneBracketed(s.host, PortSpelling(s), t.host, PortSpelling(t));
    } else {
      assert Free(s.host, {':'}) && Free(t.host, {':'});
      NeitherBracketed(s.host, PortSpelling(s), t.host, PortSpelling(t));
    }
  }

  lemma PortDecides(s: Service, t: Service)
    requires s.port >= 0 && t.port >= 0 && s.scheme == t.scheme && PortSpelling(s) == PortSpelling(t)
    ensures s.port == t.port
  {
    PortSpellingPlain(s);
    PortSpellingPlain(t);
    PortReadFits(s);
    PortReadFits(t);
  }

  lemma SpellingDecides(s: Service, t: Service, literal: string -> bool)
    requires Proper(s, literal) && Proper(t, literal) && Spelling(s) == Spelling(t)
    ensures s == t
  {
    SpellingSplits(s, literal);
    SpellingSplits(t, literal);
    AuthorityDecides(s, t, literal);
    PortDecides(s, t);
  }

  // ------------------------------------------- the standard library's own check

  predicate IsHex(c: char) {
    IsDigit(c) || 'a' <= c <= 'f' || 'A' <= c <= 'F'
  }

  /** `v`, hexadecimal digits, a dot, and something. */
  predicate IsFuture(h: string) {
    exists n :: 1 < n < |h| - 1 && h[0] == 'v' && h[n] == '.' && forall i :: 0 < i < n ==> IsHex(h[i])
  }

  /** What may stand between brackets, if `address` are the IPv6 addresses. */
  predicate Literal(address: string -> bool, h: string) {
    if |h| > 0 && h[0] == 'v' then IsFuture(h) else address(h)
  }

  /** Case is no matter to an IPv6 address, and it does not start with a `v`. */
  lemma LiteralLowers(address: string -> bool)
    requires forall h {:trigger LowerHost(h)} ::
      address(h) ==> address(LowerHost(h)) && (|h| > 0 ==> LowerChar(h[0]) != 'v')
    ensures Addresses(h => Literal(address, h))
  {
    forall h | Literal(address, h) ensures Literal(address, LowerHost(h)) {
      if |h| > 0 && h[0] == 'v' {
        FutureLowers(h);
      } else if |h| > 0 {
        assert LowerHost(h)[0] == LowerChar(h[0]) || LowerHost(h)[0] == h[0];
      }
    }
  }

  lemma FutureLowers(h: string)
    requires IsFuture(h)
    ensures IsFuture(LowerHost(h)) && LowerHost(h)[0] == 'v'
  {
    var n :| 1 < n < |h| - 1 && h[0] == 'v' && h[n] == '.' && forall i :: 0 < i < n ==> IsHex(h[i]);
    var l := LowerHost(h);
    forall i | 0 < i < n ensures IsHex(l[i]) {
      assert IsHex(h[i]) && (l[i] == h[i] || l[i] == LowerChar(h[i]));
    }
    assert l[n] == '.' && l[0] == 'v';
  }
}
