/** What the normal form of an endpoint decides, and when taking it twice changes nothing. */
module EndpointNormal {
  import opened Json
  import opened JsonParser
  import opened JsonRoundTrip
  import opened Endpoint

  // ------------------------------------------------------------------ trimming

  lemma {:induction false} KeptIs(s: string, n: nat, m: nat)
    requires n <= m <= |s| && (n > 0 ==> !IsBlank(s[n - 1])) && forall i :: n <= i < m ==> IsBlank(s[i])
    ensures KeptTo(s, m) == n
  {
    if n < m {
      KeptIs(s, n, m - 1);
    }
  }

  lemma {:induction false} DroppedBlank(s: string, n: nat, i: nat)
    requires n <= |s| && KeptTo(s, n) <= i < n
    ensures IsBlank(s[i])
  {
    if i < n - 1 {
      DroppedBlank(s, n - 1, i);
    }
  }

  /** Trimming stays in the second part, if that is not all blank or follows something that is not. */
  lemma TrimSecond(a: string, b: string)
    requires |TrimRight(b)| > 0 || (|a| > 0 && !IsBlank(a[|a| - 1]))
    ensures TrimRight(a + b) == a + TrimRight(b)
  {
    var s, n := a + b, KeptTo(b, |b|);
    forall i | |a| + n <= i < |s| ensures IsBlank(s[i]) {
      assert s[i] == b[i - |a|];
      DroppedBlank(b, |b|, i - |a|);
    }
    assert n > 0 ==> s[|a| + n - 1] == b[n - 1];
    KeptIs(s, |a| + n, |s|);
  }

  lemma {:induction false} UntabbedStays(s: string)
    requires Free(s, TABS)
    ensures Untabbed(s) == s
  {
    if |s| > 0 {
      UntabbedStays(s[1..]);
    }
  }

  lemma StartStays(s: string)
    requires |s| > 0 && !IsBlank(s[0])
    ensures |TrimRight(s)| > 0 && TrimRight(s)[0] == s[0]
  {
    if KeptTo(s, |s|) == 0 {
      DroppedBlank(s, |s|, 0);
    }
  }

  /** Of a text that starts with a letter and has no tabs, only blanks at the end are lost. */
  lemma CleanTrims(s: string)
    requires |s| > 0 && 'a' <= s[0] <= 'z' && Free(s, TABS)
    ensures Clean(s) == TrimRight(s)
  {
    assert TrimLeft(s) == s;
    var r := TrimRight(s);
    StartStays(s);
    assert DropControls(r) == r;
    UntabbedStays(r);
  }

  lemma CleanStays(s: string)
    requires |s| > 0 && 'a' <= s[0] <= 'z' && Free(s, TABS) && !IsBlank(s[|s| - 1])
    ensures Clean(s) == s
  {
    CleanTrims(s);
    KeptIs(s, |s|, |s|);
  }

  lemma CleanDropsOne(s: string)
    requires |s| > 0 && 'a' <= s[0] <= 'z' && Free(s, TABS) && !IsBlank(s[|s| - 1])
    ensures Clean(s + " ") == s
  {
    CleanTrims(s + " ");
    KeptIs(s + " ", |s|, |s| + 1);
  }

  lemma SpellingTabless(s: Service, literal: string -> bool)
    requires Proper(s, literal)
    ensures Free(Spelling(s), TABS) && |Spelling(s)| > 0 && 'a' <= Spelling(s)[0] <= 'z'
  {
    DigitsAreDigits(s.port);
    assert forall i :: 0 <= i < |Digits(s.port)| ==> IsDigit(Digits(s.port)[i]);
    assert Free(PortSpelling(s), TABS) && Free(Named(s.host), TABS) && Free(s.scheme + "://", TABS);
  }

  /** The service's last written part ends in a blank: its path, or its host if nothing follows that. */
  predicate EndsBlank(s: Service) {
    if |s.path| > 0 then IsBlank(s.path[|s.path| - 1])
    else s.port == DefaultPort(s.scheme) && !Has(s.host, ':') && |s.host| > 0 && IsBlank(s.host[|s.host| - 1])
  }

  lemma DigitsEnd(n: nat)
    ensures |Digits(n)| > 0 && !IsBlank(Digits(n)[|Digits(n)| - 1])
  {
    DigitsAreDigits(n);
    assert IsDigit(Digits(n)[|Digits(n)| - 1]);
  }

  lemma SpellingEnd(s: Service, literal: string -> bool)
    requires Proper(s, literal)
    ensures EndsBlank(s) <==> IsBlank(Spelling(s)[|Spelling(s)| - 1])
  {
    DigitsEnd(s.port);
    var authority := Named(s.host) + PortSpelling(s);
    if |s.path| == 0 && |authority| > 0 {
      assert Spelling(s)[|Spelling(s)| - 1] == authority[|authority| - 1];
    }
  }

  lemma SplitNormal(scheme: string, host: string, path: string, literal: string -> bool)
    requires scheme == "http" || scheme == "https"
    requires Free(host, ENDS) && (|path| > 0 ==> path[0] == '/')
    ensures NormalizeText(scheme + "://" + host + path, literal) == Assemble(scheme, host, path, literal)
  {
    SplitReads(scheme, host, path);
  }

  /** A normal form is no longer than what it is put together from. */
  lemma AssembleBound(scheme: string, netloc: string, tail: string, literal: string -> bool)
    requires Assemble(scheme, netloc, tail, literal).Normal?
    ensures var a := ReadAuthority(netloc, literal);
      |Assemble(scheme, netloc, tail, literal).text|
      <= |scheme| + 3 + |Named(LowerHost(a.host)) + PortText(scheme, a.port)| + |tail|
  {
  }

  lemma PathTrimmed(s: Service, literal: string -> bool)
    requires Proper(s, literal) && |s.path| > 0
    ensures var path := TrimRight(s.path);
      Clean(Spelling(s)) == s.scheme + "://" + (Named(s.host) + PortSpelling(s)) + path && |path| > 0 && path[0] == '/'
  {
    StartStays(s.path);
    SpellingTabless(s, literal);
    CleanTrims(Spelling(s));
    TrimSecond(s.scheme + "://" + (Named(s.host) + PortSpelling(s)), s.path);
  }

  /** A blank at the end of a path is lost. */
  lemma BlankPathShrinks(s: Service, literal: string -> bool)
    requires Proper(s, literal) && |s.path| > 0 && EndsBlank(s) && !LoneBracket(s.host)
    ensures Normalize(Spelling(s), literal) != Normal(Spelling(s))
  {
    var authority, path := Named(s.host) + PortSpelling(s), TrimRight(s.path);
    PathTrimmed(s, literal);
    PortSpellingPlain(s);
    NamedReadsBack(s.host, PortSpelling(s), literal);
    NamedFree(s.host, PortSpelling(s));
    SplitNormal(s.scheme, authority, path, literal);
    PortReadFits(s);
    assert PortText(s.scheme, PortRead(s)) == PortSpelling(s);
    if Assemble(s.scheme, authority, path, literal).Normal? {
      AssembleBound(s.scheme, authority, path, literal);
    }
  }

  lemma BareSpelling(s: Service)
    requires |s.path| == 0 && !Has(s.host, ':') && s.port == DefaultPort(s.scheme)
    ensures Spelling(s) == s.scheme + "://" + s.host
  {
    assert s.host + "" == s.host;
    assert s.path == "";
    assert s.scheme + "://" + s.host + "" == s.scheme + "://" + s.host;
  }

  lemma HostTrimmed(s: Service, literal: string -> bool)
    requires Proper(s, literal) && |s.path| == 0 && EndsBlank(s)
    ensures Clean(Spelling(s)) == s.scheme + "://" + TrimRight(s.host) + "" && Spelling(s) == s.scheme + "://" + s.host
  {
    SpellingTabless(s, literal);
    CleanTrims(Spelling(s));
    BareSpelling(s);
    TrimSecond(s.scheme + "://", s.host);
    assert s.scheme + "://" + TrimRight(s.host) + "" == s.scheme + "://" + TrimRight(s.host);
  }

  lemma PlainAlone(host: string, literal: string -> bool)
    requires Free(host, DELIMITERS + {':'})
    ensures ReadAuthority(host, literal) == Authority(host, "") && Named(LowerHost(host)) == LowerHost(host)
  {
    CutFree(host, {':'});
    PlainReadsBack(host, "", literal);
    assert host + "" == host;
    LowerHostHas(host, ':');
  }

  /** A blank at the end of a bare host is lost. */
  lemma BlankHostShrinks(s: Service, literal: string -> bool)
    requires Proper(s, literal) && |s.path| == 0 && EndsBlank(s) && !LoneBracket(s.host)
    ensures Normalize(Spelling(s), literal) != Normal(Spelling(s))
  {
    var host := TrimRight(s.host);
    HostTrimmed(s, literal);
    NoBrackets(s.host);
    assert Free(s.host, {':'});
    PlainAlone(host, literal);
    SplitNormal(s.scheme, host, "", literal);
    if Assemble(s.scheme, host, "", literal).Normal? {
      AssembleBound(s.scheme, host, "", literal);
    }
  }

  // ---------------------------------------------------- brackets out of place

  lemma TrimKeeps(s: string, c: char)
    requires !IsBlank(c)
    ensures Has(TrimRight(s), c) <==> Has(s, c)
  {
    var r := TrimRight(s);
    if Has(s, c) {
      var i := Cut(s, {c});
      if i >= |r| {
        DroppedBlank(s, |s|, i);
      }
      HasAt(r, c, i);
    }
    if Has(r, c) {
      HasAt(s, c, Cut(r, {c}));
    }
  }

  lemma TrimKeepsLone(host: string)
    requires LoneBracket(host) && (Free(host, {'['}) || Free(host, {']'}))
    ensures LoneBracket(TrimRight(host)) && (Free(TrimRight(host), {'['}) || Free(TrimRight(host), {']'}))
  {
    TrimKeeps(host, '[');
    TrimKeeps(host, ']');
    TrimKeeps(host, ':');
  }

  lemma LoneText(scheme: string, host: string, after: string, path: string, literal: string -> bool)
    requires (scheme == "http" || scheme == "https") && (|path| > 0 ==> path[0] == '/') && Free(host, OUTSIDE)
    requires LoneBracket(host) && (Free(host, {'['}) || Free(host, {']'})) && Free(after, DELIMITERS)
    ensures NormalizeText(scheme + "://" + (host + after) + path, literal) == Invalid
  {
    LoneBracketBad(host, after, literal);
    SplitNormal(scheme, host + after, path, literal);
  }

  /** A host that lost its brackets and still has one inside makes the normal form malformed. */
  lemma LoneBracketRaises(s: Service, literal: string -> bool)
    requires Proper(s, literal) && LoneBracket(s.host)
    ensures Normalize(Spelling(s), literal) == Invalid
  {
    PortSpellingPlain(s);
    if !EndsBlank(s) {
      SpellingEnd(s, literal);
      SpellingTabless(s, literal);
      CleanStays(Spelling(s));
      SpellingServes(s, literal);
    } else if |s.path| > 0 {
      PathTrimmed(s, literal);
      LoneText(s.scheme, s.host, PortSpelling(s), TrimRight(s.path), literal);
    } else {
      HostTrimmed(s, literal);
      TrimKeepsLone(s.host);
      LoneText(s.scheme, TrimRight(s.host), "", "", literal);
      assert TrimRight(s.host) + "" == TrimRight(s.host);
    }
  }

  // -------------------------------------------------------------- main results

  /** The service an endpoint names. */
  function ServiceOf(endpoint: string, literal: string -> bool): Service
    requires Readable(endpoint, literal)
  {
    ServiceIn(Clean(endpoint), literal)
  }

  /** The normal form of the service is read as the service again: it does not end in a blank and has no
      bracket out of place. */
  predicate Stable(s: Service) {
    !EndsBlank(s) && !LoneBracket(s.host)
  }

  /** A normal form is its own normal form, exactly when neither the endpoint's path without trailing
      slashes nor, if there is none, its bare host ends in a blank, and the host does not have a bracket
      but no colon. In the last case the normal form is malformed. */
  lemma NormalizeTwiceIff(endpoint: string, literal: string -> bool)
    requires Addresses(literal)
    ensures Readable(endpoint, literal) ==>
      (Normalize(Normalize(endpoint, literal).text, literal) == Normalize(endpoint, literal)
       <==> Stable(ServiceOf(endpoint, literal)))
    ensures Readable(endpoint, literal) && LoneBracket(ServiceOf(endpoint, literal).host) ==>
      Normalize(Normalize(endpoint, literal).text, literal) == Invalid
  {
    if Readable(endpoint, literal) {
      var s := ServiceOf(endpoint, literal);
      NormalSpells(Clean(endpoint), literal);
      SpellingTwice(s, literal);
    }
  }

  lemma SpellingTwice(s: Service, literal: string -> bool)
    requires Proper(s, literal)
    ensures Normalize(Spelling(s), literal) == Normal(Spelling(s)) <==> Stable(s)
    ensures LoneBracket(s.host) ==> Normalize(Spelling(s), literal) == Invalid
  {
    if LoneBracket(s.host) {
      LoneBracketRaises(s, literal);
    } else if !EndsBlank(s) {
      SpellingEnd(s, literal);
      SpellingTabless(s, literal);
      CleanStays(Spelling(s));
      SpellingServes(s, literal);
    } else if |s.path| > 0 {
      BlankPathShrinks(s, literal);
    } else {
      BlankHostShrinks(s, literal);
    }
  }

  /** Two endpoints have one normal form exactly when they name one service. */
  lemma NormalFormDecidesService(e: string, f: string, literal: string -> bool)
    requires Addresses(literal)
    ensures Readable(e, literal) && Readable(f, literal) ==>
      (Normalize(e, literal) == Normalize(f, literal) <==> ServiceOf(e, literal) == ServiceOf(f, literal))
  {
    if Readable(e, literal) && Readable(f, literal) {
      NormalSpells(Clean(e), literal);
      NormalSpells(Clean(f), literal);
      if Normalize(e, literal) == Normalize(f, literal) {
        SpellingDecides(ServiceOf(e, literal), ServiceOf(f, literal), literal);
      }
    }
  }

  /** A path as it is written, without a trailing slash or blank. */
  predicate TidyPath(path: string) {
    |path| > 0 && path[0] == '/' && path[|path| - 1] != '/' && !IsBlank(path[|path| - 1])
    && Free(path, {'?', '#'}) && Free(path, TABS)
  }

  predicate TidyHost(host: string) {
    Free(host, DELIMITERS + {':'}) && Free(host, TABS) && LowerHost(host) == host
  }

  lemma TidyStart(scheme: string, host: string, path: string)
    requires scheme == "http" || scheme == "https"
    requires TidyHost(host) && Free(path, TABS)
    ensures var s := scheme + "://" + host + path; |s| > 0 && 'a' <= s[0] <= 'z' && Free(s, TABS)
  {
    assert Free(scheme + "://", TABS);
  }

  /** A blank before a trailing slash survives the first pass and not the second. */
  lemma BlankBeforeSlash(scheme: string, host: string, path: string, literal: string -> bool)
    requires (scheme == "http" || scheme == "https") && TidyHost(host) && TidyPath(path)
    ensures Normalize(scheme + "://" + host + (path + " " + "/"), literal)
            == Normal(scheme + "://" + host + (path + " "))
    ensures Normalize(scheme + "://" + host + (path + " "), literal) == Normal(scheme + "://" + host + path)
  {
    var tail, front := path + " " + "/", scheme + "://" + host;
    TidyStart(scheme, host, tail);
    CleanStays(front + tail);
    TidyStart(scheme, host, path);
    CleanDropsOne(front + path);
    assert front + path + " " == front + (path + " ");
    SlashesTrimmed(tail, path);
    PlainText(scheme, host, tail, literal);
    PlainText(scheme, host, path, literal);
  }

  /** For example at `http://h/a /`. */
  lemma BlankBeforeSlashExample(e: string, f: string, g: string, literal: string -> bool)
    requires e == "http://h/a /" && f == "http://h/a " && g == "http://h/a"
    ensures Normalize(e, literal) == Normal(f) && Normalize(f, literal) == Normal(g)
  {
    var scheme, host, path := "http", "h", "/a";
    Spelled(e, f, g, scheme, host, path);
    PlainLower(host);
    BlankBeforeSlash(scheme, host, path, literal);
  }

  /** An address without a colon loses its brackets. If it has another one inside, the first pass accepts
      the endpoint and the second raises. */
  lemma BracketLost(scheme: string, host: string, netloc: string, path: string, literal: string -> bool)
    requires (scheme == "http" || scheme == "https") && netloc == "[" + host + "]" && TidyPath(path)
    requires Free(host, OUTSIDE + {']', ':'}) && Free(host, TABS) && LowerHost(host) == host
    requires Has(host, '[') && literal(host)
    ensures Normalize(scheme + "://" + netloc + path, literal) == Normal(scheme + "://" + host + path)
    ensures Normalize(scheme + "://" + host + path, literal) == Invalid
  {
    InBrackets(host, netloc, TABS + ENDS);
    BracketedAssemble(scheme, host, netloc, path, literal);
    SplitNormal(scheme, netloc, path, literal);
    PlainLone(scheme, host, path, literal);
    WrittenStays(scheme, host, path);
    WrittenStays(scheme, netloc, path);
  }

  lemma InBrackets(host: string, netloc: string, stops: set<char>)
    requires netloc == "[" + host + "]" && Free(host, stops) && '[' !in stops && ']' !in stops
    ensures Free(netloc, stops)
  {
  }

  lemma WrittenStays(scheme: string, authority: string, path: string)
    requires (scheme == "http" || scheme == "https") && Free(authority, TABS) && TidyPath(path)
    ensures Clean(scheme + "://" + authority + path) == scheme + "://" + authority + path
  {
    assert Free(scheme + "://", TABS);
    CleanStays(scheme + "://" + authority + path);
  }

  lemma PlainLone(scheme: string, host: string, path: string, literal: string -> bool)
    requires (scheme == "http" || scheme == "https") && TidyPath(path)
    requires Free(host, OUTSIDE + {']', ':'}) && Has(host, '[')
    ensures NormalizeText(scheme + "://" + host + path, literal) == Invalid
  {
    CutFree(host, {':'});
    assert host + "" == host;
    LoneText(scheme, host, "", path, literal);
  }

  lemma BracketedAssemble(scheme: string, host: string, netloc: string, path: string, literal: string -> bool)
    requires netloc == "[" + host + "]"
    requires Free(host, OUTSIDE + {']', ':'}) && LowerHost(host) == host && literal(host) && TidyPath(path)
    ensures Assemble(scheme, netloc, path, literal) == Normal(scheme + "://" + host + path)
  {
    BracketedReadsBack(host, "", literal);
    assert netloc + "" == netloc;
    WholePath(path);
    CutFree(host, {':'});
    assert host + "" == host;
    assert TrimSlashes(path) == path;
  }

  /** For example at `http://[v1.[x]/a`, as `[v1.[x]` passes for an address of a future version. */
  lemma BracketLostExample(e: string, f: string, host: string, literal: string -> bool)
    requires e == "http://[v1.[x]/a" && f == "http://v1.[x/a" && host == "v1.[x" && literal(host)
    ensures Normalize(e, literal) == Normal(f) && Normalize(f, literal) == Invalid
  {
    var scheme, path := "http", "/a";
    var netloc := "[" + host + "]";
    BracketSpelled(e, f, scheme, host, netloc, path);
    HasAt(host, '[', 3);
    CutFree(host, {'%'});
    assert host[..|host|] == host;
    BracketLost(scheme, host, netloc, path, literal);
  }

  lemma BracketSpelled(e: string, f: string, scheme: string, host: string, netloc: string, path: string)
    requires e == "http://[v1.[x]/a" && f == "http://v1.[x/a"
    requires scheme == "http" && host == "v1.[x" && netloc == "[" + host + "]" && path == "/a"
    ensures e == scheme + "://" + netloc + path && f == scheme + "://" + host + path && TidyPath(path)
    ensures Free(host, OUTSIDE + {']', ':'}) && Free(host, TABS)
  {
  }

  lemma FutureExample(host: string, address: string -> bool)
    requires host == "v1.[x"
    ensures Literal(address, host)
  {
    assert host[2] == '.' && IsHex(host[1]);
  }

  lemma Spelled(e: string, f: string, g: string, scheme: string, host: string, path: string)
    requires e == "http://h/a /" && f == "http://h/a " && g == "http://h/a"
    requires scheme == "http" && host == "h" && path == "/a"
    ensures e == scheme + "://" + host + (path + " " + "/") && f == scheme + "://" + host + (path + " ")
    ensures g == scheme + "://" + host + path && TidyPath(path)
  {
  }

  lemma SlashesTrimmed(tail: string, path: string)
    requires |path| > 0 && path[|path| - 1] != '/' && tail == path + " " + "/"
    ensures TrimSlashes(tail) == path + " " && TrimSlashes(path) == path
  {
    assert tail[..|tail| - 1] == path + " ";
  }

  lemma PlainLower(host: string)
    requires |host| == 1 && 'a' <= host[0] <= 'z'
    ensures TidyHost(host)
  {
    CutFree(host, {'%'});
  }

  lemma WholePath(tail: string)
    requires Free(tail, {'?', '#'})
    ensures tail[..Cut(tail, {'?', '#'})] == tail
  {
    CutFree(tail, {'?', '#'});
  }

  lemma PlainAssemble(scheme: string, host: string, tail: string, literal: string -> bool)
    requires TidyHost(host) && Free(tail, {'?', '#'})
    ensures Assemble(scheme, host, tail, literal) == Normal(scheme + "://" + host + TrimSlashes(tail))
  {
    PlainAlone(host, literal);
    WholePath(tail);
    assert host + "" == host;
  }

  lemma PlainText(scheme: string, host: string, tail: string, literal: string -> bool)
    requires (scheme == "http" || scheme == "https") && TidyHost(host)
    requires |tail| > 0 && tail[0] == '/' && Free(tail, {'?', '#'})
    ensures NormalizeText(scheme + "://" + host + tail, literal) == Normal(scheme + "://" + host + TrimSlashes(tail))
  {
    SplitNormal(scheme, host, tail, literal);
    PlainAssemble(scheme, host, tail, literal);
  }
}
