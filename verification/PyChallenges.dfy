/** Payment challenges through the Python codec: what comes back, alone and joined with challenges of other schemes. */
module PyChallenges {
  import opened Common
  import opened HeaderText
  import opened Texts
  import opened GoHeaders
  import opened GoRecovery
  import opened GoRoundTrip
  import opened GoChallenges
  import opened GoSplitter
  import opened PyHeaders
  import opened PySplitter
  import opened PyRecovery

  // ── Printed challenges are challenge texts ──

  predicate IsAlphabetic(s: string) {
    s != "" && forall i :: 0 <= i < |s| ==> 'a' <= s[i] <= 'z' || 'A' <= s[i] <= 'Z'
  }

  lemma {:induction false} AlphaRunOf(token: string, rest: string, letters: char -> bool)
    requires IsToken(token) && rest != "" && !IsAlpha(rest[0], letters)
    ensures AlphaRun(token + rest, letters) <= |token|
    ensures AlphaRun(token + rest, letters) == |token| <==> IsAlphabetic(token)
  {
    var s := token + rest;
    var n := AlphaRun(s, letters);
    assert s[|token|] == rest[0];
    if n < |token| {
      assert s[n] == token[n];
    } else {
      forall i | 0 <= i < |token| ensures 'a' <= token[i] <= 'z' || 'A' <= token[i] <= 'Z' {
        assert s[i] == token[i];
      }
    }
  }

  lemma {:induction false} SchemeAtItem(item: Item, rest: string, letters: char -> bool)
    requires IsItem(item) && Ends(rest)
    ensures SchemeLength(ItemText(item) + rest, letters)
      == if IsAlphabetic(item.scheme) && item.params != [] then |item.scheme| else 0
  {
    if item.params == [] {
      NoSchemeAtBare(item.scheme, rest, letters);
    } else {
      var tail := ParamsText(item.params) + rest;
      assert ItemText(item) + rest == item.scheme + (" " + tail);
      SchemeBeforeBlank(item.scheme, " " + tail, letters);
    }
  }

  lemma {:induction false} SchemeBeforeBlank(scheme: string, tail: string, letters: char -> bool)
    requires IsToken(scheme) && tail != "" && tail[0] == ' '
    ensures SchemeLength(scheme + tail, letters) == if IsAlphabetic(scheme) then |scheme| else 0
  {
    var s := scheme + tail;
    AlphaRunOf(scheme, tail, letters);
    var n := AlphaRun(s, letters);
    if n < |scheme| {
      assert s[n] == scheme[n];
    } else {
      assert s[n] == ' ';
    }
  }

  lemma {:induction false} NoSchemeAtKey(key: string, tail: string, letters: char -> bool)
    requires IsToken(key)
    ensures SchemeLength(key + "=" + tail, letters) == 0
  {
    var s := key + "=" + tail;
    assert s == key + ("=" + tail);
    AlphaRunOf(key, "=" + tail, letters);
    var n := AlphaRun(s, letters);
    if n < |key| {
      assert s[n] == key[n];
    } else {
      assert s[n] == '=';
    }
  }

  lemma {:induction false} NoSchemeAtBare(t: string, rest: string, letters: char -> bool)
    requires IsParam(Bare(t)) && Ends(rest)
    ensures SchemeLength(t + rest, letters) == 0
  {
    var s := t + rest;
    var n := AlphaRun(s, letters);
    if |t| < |s| {
      assert s[|t|] == rest[0];
    }
    if n < |t| {
      assert s[n] == t[n];
    }
  }

  lemma {:induction false} SchemeAtRecognises(letters: char -> bool)
    ensures Recognises(SchemeAt(letters))
  {
    var at := SchemeAt(letters);
    forall item, rest | IsItem(item) && Ends(rest)
      ensures at(ItemText(item) + rest) == 0 || at(ItemText(item) + rest) == |item.scheme|
    {
      SchemeAtItem(item, rest, letters);
    }
    forall p, rest | IsParam(p) && Ends(rest)
      ensures at(ParamText(p) + rest) == 0
    {
      match p
      case Quoted(key, value) =>
        var v := "\"" + Escape(value) + "\"" + rest;
        assert ParamText(p) + rest == key + "=" + v;
        NoSchemeAtKey(key, v, letters);
      case Token(key, value) =>
        assert ParamText(p) + rest == key + "=" + (value + rest);
        NoSchemeAtKey(key, value + rest, letters);
      case Bare(text) =>
        NoSchemeAtBare(text, rest, letters);
    }
    forall s | s != "" && (s[0] == ',' || IsBlank(s[0]))
      ensures at(s) == 0
    {
    }
  }

  /** A challenge with parameters is one start, and one without is none. */
  lemma {:induction false} ItemStarts(item: Item, letters: char -> bool)
    requires IsItem(item) && IsAlphabetic(item.scheme)
    ensures Starts(ItemText(item), Outside(true), SchemeAt(letters)) == if item.params == [] then [] else [ItemText(item)]
  {
    SchemeAtRecognises(letters);
    SchemeAtItem(item, "", letters);
    ItemSkip(item, "", SchemeAt(letters));
    assert ItemText(item) + "" == ItemText(item);
  }

  lemma {:induction false} QuotesConcat(a: string, b: string, mode: Mode)
    ensures Quotes(a + b, mode) == Quotes(b, Quotes(a, mode))
    decreases a
  {
    if a == "" {
      assert a + b == b;
    } else {
      assert (a + b)[1..] == a[1..] + b;
      QuotesConcat(a[1..], b, Step(mode, a[0]));
    }
  }

  lemma {:induction false} QuotesPlain(t: string, mode: Mode)
    requires mode.Outside? && forall i :: 0 <= i < |t| ==> t[i] != '"'
    ensures Quotes(t, mode).Outside?
    decreases t
  {
    if t != "" {
      QuotesPlain(t[1..], Step(mode, t[0]));
    }
  }

  lemma {:induction false} QuotesEscape(v: string)
    ensures Quotes(Escape(v), Inside) == Inside
  {
    if v != "" {
      QuotesEscape(v[1..]);
      QuotesConcat(EscapeChar(v[0]), Escape(v[1..]), Inside);
      EscapeCharQuotes(v[0]);
    }
  }

  lemma {:induction false} EscapeCharQuotes(c: char)
    ensures Quotes(EscapeChar(c), Inside) == Inside
  {
    var e := EscapeChar(c);
    if |e| == 2 {
      assert e[1..] == [e[1]] && [e[1]][1..] == "";
      assert Quotes([e[1]], Escaped) == Inside;
    } else if |e| == 1 {
      assert e[1..] == "";
    }
  }

  lemma {:induction false} ParamQuotes(p: Param, mode: Mode)
    requires IsParam(p) && mode.Outside?
    ensures Quotes(ParamText(p), mode).Outside?
  {
    if p.Quoted? {
      var key, value := p.key + "=", Escape(p.value);
      QuotesPlain(key, mode);
      QuotesConcat(key, "\"" + (value + "\""), mode);
      assert ("\"" + (value + "\""))[1..] == value + "\"";
      QuotesConcat(value, "\"", Inside);
      QuotesEscape(p.value);
      assert "\""[1..] == "";
      assert ParamText(p) == key + ("\"" + (value + "\""));
    } else {
      QuotesPlain(ParamText(p), mode);
    }
  }

  lemma {:induction false} ParamsQuotes(ps: seq<Param>, mode: Mode)
    requires mode.Outside? && forall i :: 0 <= i < |ps| ==> IsParam(ps[i])
    ensures Quotes(ParamsText(ps), mode).Outside?
    decreases ps
  {
    if ps != [] {
      ParamQuotes(ps[0], mode);
      if |ps| > 1 {
        var after := Quotes(ParamText(ps[0]), mode);
        QuotesPlain(", ", after);
        ParamsQuotes(ps[1..], Quotes(", ", after));
        QuotesConcat(ParamText(ps[0]) + ", ", ParamsText(ps[1..]), mode);
        QuotesConcat(ParamText(ps[0]), ", ", mode);
      }
    }
  }

  lemma {:induction false} ItemIsBalanced(item: Item)
    requires IsItem(item)
    ensures IsBalanced(ItemText(item))
  {
    var name := if item.params == [] then item.scheme else item.scheme + " ";
    QuotesPlain(name, Outside(true));
    if item.params != [] {
      ParamsQuotes(item.params, Quotes(name, Outside(true)));
      QuotesConcat(name, ParamsText(item.params), Outside(true));
    }
  }

  lemma {:induction false} ItemIsText(item: Item, letters: char -> bool)
    requires IsItem(item) && IsAlphabetic(item.scheme)
    ensures IsChallengeText(ItemText(item), letters)
  {
    ItemIsBalanced(item);
    if item.params == [] {
      AllLetters(item.scheme, letters);
    } else {
      SchemeAtItem(item, "", letters);
      assert ItemText(item) + "" == ItemText(item);
    }
  }

  lemma {:induction false} AllLetters(s: string, letters: char -> bool)
    requires forall i :: 0 <= i < |s| ==> 'a' <= s[i] <= 'z' || 'A' <= s[i] <= 'Z'
    ensures AlphaRun(s, letters) == |s|
  {
    if s != "" {
      AllLetters(s[1..], letters);
    }
  }

  lemma {:induction false} FormatIsText(c: Challenge, letters: char -> bool)
    ensures IsChallengeText(Format(c), letters)
    ensures Starts(Format(c), Outside(true), SchemeAt(letters)) == [Format(c)]
  {
    ChallengeIsItem(c);
    ItemIsText(ItemOf(c), letters);
    ItemStarts(ItemOf(c), letters);
  }

  /** A visible character other than a comma. */
  predicate IsVisible(c: char) {
    '!' <= c <= '~' && c != ','
  }

  predicate VisibleEnds(t: string) {
    t != "" && IsVisible(t[0]) && IsVisible(t[|t| - 1])
  }

  lemma {:induction false} ParamsVisible(ps: seq<Param>)
    requires ps != [] && forall i :: 0 <= i < |ps| ==> IsParam(ps[i])
    ensures VisibleEnds(ParamsText(ps))
    decreases ps
  {
    ParamVisible(ps[0]);
    if |ps| > 1 {
      ParamsVisible(ps[1..]);
    }
  }

  lemma {:induction false} ParamVisible(p: Param)
    requires IsParam(p)
    ensures VisibleEnds(ParamText(p))
  {
    if p.Quoted? {
      assert ParamText(p)[|ParamText(p)| - 1] == '"';
    }
  }

  // ── Parsing printed parameters ──

  lemma {:induction false} LooseReadsEscaped(v: string, rest: string)
    ensures ReadLoose(Escape(v) + "\"" + rest) == (Clean(v), rest)
  {
    if v == "" {
      assert (Escape(v) + "\"" + rest)[1..] == rest;
    } else {
      var tail := Escape(v[1..]) + "\"" + rest;
      LooseReadsEscaped(v[1..], rest);
      assert Escape(v) + "\"" + rest == EscapeChar(v[0]) + tail;
      LooseReadsChar(v[0], tail);
    }
  }

  lemma {:induction false} LooseReadsChar(c: char, tail: string)
    ensures ReadLoose(EscapeChar(c) + tail) == ((if IsLineBreak(c) then "" else [c]) + ReadLoose(tail).0, ReadLoose(tail).1)
  {
    var s := EscapeChar(c) + tail;
    if c == '\\' || c == '"' {
      assert s[2..] == tail && s[1] == c;
    } else if IsLineBreak(c) {
      assert s == tail && "" + ReadLoose(tail).0 == ReadLoose(tail).0;
    } else {
      assert s[1..] == tail;
    }
  }

  lemma {:induction false} LooseReadsToken(v: string, tail: string)
    requires IsToken(v) && Ends(tail)
    ensures ReadLooseValue(v + tail) == (v, tail)
  {
    var s := v + tail;
    assert forall i :: 0 <= i < |v| ==> s[i] == v[i];
    TrimLeftAt(s, IsValuePart, |v|);
    assert s[|v|..] == tail && s[..|v|] == v;
  }

  lemma {:induction false} LooseReadsPrinted(p: Param, tail: string)
    requires IsParam(p) && !p.Bare? && Ends(tail)
    ensures ReadLooseValue(ValueText(p) + tail) == (ParamValue(p), tail)
  {
    if p.Quoted? {
      LooseReadsEscaped(p.value, tail);
      assert (ValueText(p) + tail)[1..] == Escape(p.value) + "\"" + tail;
    } else {
      LooseReadsToken(p.value, tail);
    }
  }

  /** The separators and the key of a printed parameter. */
  lemma {:induction false} PyKey(sep: string, key: string, v: string)
    requires AreSeparators(sep) && IsToken(key)
    ensures var t := key + ("=" + v);
      && TrimLeft(sep + t, IsSeparator) == t
      && TrimLeft(t, IsKeyPart) == "=" + v
      && t[..|t| - |"=" + v|] == key
  {
    var u := "=" + v;
    TrimSeparators(sep, key + u);
    KeyEnds(key, u);
  }

  lemma {:induction false} KeyEnds(key: string, u: string)
    requires IsToken(key) && u != "" && u[0] == '='
    ensures var t := key + u; TrimLeft(t, IsKeyPart) == u && t[..|t| - |u|] == key
  {
    var t := key + u;
    forall i | 0 <= i < |key| ensures IsKeyPart(t[i]) {
      assert t[i] == key[i] && IsTokenChar(key[i]);
    }
    TrimLeftAt(t, IsKeyPart, |key|);
    assert t[|key|..] == u;
  }

  lemma {:induction false} PyParamsByKey(sep: string, key: string, v: string, value: string, rest: string, m: map<string, string>)
    requires AreSeparators(sep) && IsToken(key) && v != "" && ReadLooseValue(v) == (value, rest)
    ensures PyParams(sep + (key + ("=" + v)), m) == if key in m then None else PyParams(rest, m[key := value])
  {
    var t, u := key + ("=" + v), "=" + v;
    PyKey(sep, key, v);
    assert u[1..] == v;
    PyParamsStep(sep + t, t, u, m);
  }

  lemma {:induction false} PyParamsOne(input: string, sep: string, p: Param, tail: string, m: map<string, string>)
    requires AreSeparators(sep) && IsParam(p) && !p.Bare? && Ends(tail)
    requires input == sep + (p.key + ("=" + (ValueText(p) + tail)))
    ensures PyParams(input, m) == if p.key in m then None else PyParams(tail, m[p.key := ParamValue(p)])
  {
    var v, value := ValueText(p) + tail, ParamValue(p);
    assert v != "" && ReadLooseValue(v) == (value, tail) by { LooseReadsPrinted(p, tail); }
    PyParamsByKey(sep, p.key, v, value, tail, m);
  }

  lemma {:induction false} KeyAndValue(p: Param, tail: string)
    requires !p.Bare?
    ensures ParamText(p) + tail == p.key + ("=" + (ValueText(p) + tail))
  {
  }

  function PyOutcome(m: map<string, string>, ps: seq<Param>): Option<map<string, string>> {
    if DistinctFrom(m, ps) then Some(Extend(m, ps)) else None
  }

  lemma {:induction false} PyOutcomeStep(m: map<string, string>, ps: seq<Param>)
    requires ps != [] && !ps[0].Bare?
    ensures PyOutcome(m, ps) == if ps[0].key in m then None else PyOutcome(m[ps[0].key := ParamValue(ps[0])], ps[1..])
  {
  }

  /** What stands between two printed parameters. */
  function Between(): (s: string)
    ensures AreSeparators(s)
  {
    ", "
  }

  predicate NoEquals(w: string) {
    forall i :: 0 <= i < |w| ==> w[i] != '='
  }

  lemma {:induction false} SuffixNoEquals(w: string, r: string)
    requires NoEquals(w) && |r| <= |w| && r == w[|w| - |r|..]
    ensures NoEquals(r)
  {
  }

  /** Words without an equals sign are skipped. */
  lemma {:induction false} WordsAreSkipped(w: string, m: map<string, string>)
    requires NoEquals(w)
    ensures PyParams(w, m) == Some(m)
    decreases |w|
  {
    var t := TrimLeft(w, IsSeparator);
    if t != "" {
      var u := TrimLeft(t, IsKeyPart);
      var v := TrimLeft(u, IsValuePart);
      SuffixNoEquals(w, t);
      SuffixNoEquals(t, u);
      SuffixNoEquals(u, v);
      PyParamsStep(w, t, u, m);
      WordsAreSkipped(v, m);
    }
  }

  lemma {:induction false} PyParamsFirst(sep: string, ps: seq<Param>, w: string, m: map<string, string>)
    requires AreSeparators(sep) && |ps| > 1 && IsParam(ps[0]) && !ps[0].Bare?
    ensures PyParams(sep + (ParamsText(ps) + w), m)
      == if ps[0].key in m then None
         else PyParams(Between() + (ParamsText(ps[1..]) + w), m[ps[0].key := ParamValue(ps[0])])
  {
    var tail := Between() + (ParamsText(ps[1..]) + w);
    assert ParamsText(ps) + w == ParamText(ps[0]) + tail;
    KeyAndValue(ps[0], tail);
    PyParamsOne(sep + (ParamsText(ps) + w), sep, ps[0], tail, m);
  }

  lemma {:induction false} PyParamsLast(sep: string, p: Param, w: string, m: map<string, string>)
    requires AreSeparators(sep) && IsParam(p) && !p.Bare? && Ends(w) && NoEquals(w)
    ensures PyParams(sep + (ParamText(p) + w), m) == if p.key in m then None else Some(m[p.key := ParamValue(p)])
  {
    KeyAndValue(p, w);
    PyParamsOne(sep + (ParamText(p) + w), sep, p, w, m);
    WordsAreSkipped(w, m[p.key := ParamValue(p)]);
  }

  /** Printed parameters and words after them: the map of the parameters, unless a key repeats. */
  lemma {:induction false} PyParamsPrinted(sep: string, ps: seq<Param>, w: string, m: map<string, string>)
    requires AreSeparators(sep) && Ends(w) && NoEquals(w)
    requires ps != [] && forall i :: 0 <= i < |ps| ==> IsParam(ps[i]) && !ps[i].Bare?
    ensures PyParams(sep + (ParamsText(ps) + w), m) == PyOutcome(m, ps)
    decreases ps
  {
    PyOutcomeStep(m, ps);
    var m' := m[ps[0].key := ParamValue(ps[0])];
    if |ps| == 1 {
      PyParamsLast(sep, ps[0], w, m);
      assert PyOutcome(m', ps[1..]) == Some(m');
    } else {
      PyParamsFirst(sep, ps, w, m);
      PyParamsPrinted(Between(), ps[1..], w, m');
    }
  }

  // ── Parsing one challenge ──

  lemma {:induction false} StripPaymentText(name: string, text: string)
    requires |name| == 7 && EqualFold(name, SCHEME) && text != "" && IsVisible(text[0])
    ensures StripSchemePy(name + " " + text) == Some(text)
  {
    var h := name + " " + text;
    assert Lower(name[0]) == 'p' && h[0] == name[0];
    NothingToTrimLeft(h, IsPySpace);
    assert h[..7] == name && h[7..] == " " + text;
    assert TrimLeft(h[7..], IsPySpace) == text by { StripBlank(text); }
  }

  lemma {:induction false} StripBlank(text: string)
    requires text != "" && IsVisible(text[0])
    ensures TrimLeft(" " + text, IsPySpace) == text
  {
    var s := " " + text;
    TrimLeftAt(s, IsPySpace, 1);
    assert s[1..] == text;
  }

  predicate AcceptablePy(c: Challenge, lib: PyLibrary) {
    c.id != "" && IsMethodName(c.method_) && lib.validRequest(c.request)
  }

  lemma {:induction false} StrictKept(c: Challenge)
    requires FieldsOneLine(c)
    ensures Clean(c.id) == c.id && Clean(c.realm) == c.realm && Clean(c.method_) == c.method_
    ensures Clean(c.intent) == c.intent && Clean(c.request) == c.request
    ensures Clean(c.expires) == c.expires && Clean(c.digest) == c.digest
    ensures c.opaqueData.Some? ==> Clean(c.opaqueData.value) == c.opaqueData.value
  {
    CleanOneLine(c.id);
    CleanOneLine(c.realm);
    CleanOneLine(c.method_);
    CleanOneLine(c.intent);
    CleanOneLine(c.request);
    CleanOneLine(c.expires);
    CleanOneLine(c.digest);
    if c.opaqueData.Some? {
      CleanOneLine(c.opaqueData.value);
    }
  }

  /** What looking up the fields of a challenge without line breaks yields. */
  predicate HoldsStrict(m: map<string, string>, c: Challenge) {
    && "id" in m && "realm" in m && "method" in m && "intent" in m && "request" in m
    && m["id"] == c.id && m["realm"] == c.realm && m["method"] == c.method_
    && m["intent"] == c.intent && m["request"] == c.request
    && Get(m, "expires") == c.expires && Get(m, "digest") == c.digest && Get(m, "description") == ""
    && ("opaque" in m <==> c.opaqueData.Some?) && ("opaque" in m ==> m["opaque"] == c.opaqueData.value)
  }

  lemma {:induction false} StrictHolds(c: Challenge)
    requires FieldsOneLine(c)
    ensures HoldsStrict(Fields(c), c)
  {
    StrictKept(c);
    FieldsHoldRequired(c);
    FieldsHoldOptional(c);
    RequiredPresent(c);
  }

  lemma {:induction false} RequiredPresent(c: Challenge)
    ensures var m := Fields(c); "id" in m && "realm" in m && "method" in m && "intent" in m && "request" in m
  {
  }

  lemma {:induction false} InterpretStrict(m: map<string, string>, c: Challenge, lib: PyLibrary)
    requires HoldsStrict(m, c)
    ensures if AcceptablePy(c, lib) then InterpretPy(m, lib) == Ok(c.(description := "")) else InterpretPy(m, lib).Err?
  {
  }

  lemma {:induction false} ParsePyStripped(header: string, text: string, m: map<string, string>, lib: PyLibrary)
    requires StripSchemePy(header) == Some(text) && PyParams(text, map[]) == Some(m)
    ensures ParsePy(header, lib) == InterpretPy(m, lib)
  {
  }

  /** A printed challenge with words after it: the parser's demands decide. */
  lemma {:induction false} ParsePrintedPy(c: Challenge, w: string, lib: PyLibrary)
    requires FieldsOneLine(c) && Ends(w) && NoEquals(w)
    ensures var r := ParsePy(Format(c) + w, lib);
      if AcceptablePy(c, lib) then r == Ok(c.(description := "")) else r.Err?
  {
    StripPrinted(c, w);
    PrintedParams(c, w);
    StrictHolds(c);
    ParseStrict(Format(c) + w, ParamsText(Params(c)) + w, Fields(c), c, lib);
  }

  lemma {:induction false} ParseStrict(header: string, text: string, m: map<string, string>, c: Challenge, lib: PyLibrary)
    requires StripSchemePy(header) == Some(text) && PyParams(text, map[]) == Some(m) && HoldsStrict(m, c)
    ensures var r := ParsePy(header, lib); if AcceptablePy(c, lib) then r == Ok(c.(description := "")) else r.Err?
  {
    ParsePyStripped(header, text, m, lib);
    InterpretStrict(m, c, lib);
  }

  lemma {:induction false} StripPrinted(c: Challenge, w: string)
    ensures StripSchemePy(Format(c) + w) == Some(ParamsText(Params(c)) + w)
  {
    ChallengeIsItem(c);
    ItemParams(ItemOf(c));
    StripPaymentText(SCHEME, ParamsText(Params(c)) + w);
    FormatText(c, w);
  }

  lemma {:induction false} PrintedParams(c: Challenge, w: string)
    requires Ends(w) && NoEquals(w)
    ensures PyParams(ParamsText(Params(c)) + w, map[]) == Some(Fields(c))
  {
    var text := ParamsText(Params(c)) + w;
    ChallengeIsItem(c);
    ItemParams(ItemOf(c));
    PyParamsPrinted("", Params(c), w, map[]);
    assert "" + text == text;
    ParamsOutcome(c);
  }

  lemma {:induction false} FormatText(c: Challenge, w: string)
    ensures Format(c) + w == SCHEME + " " + (ParamsText(Params(c)) + w)
  {
  }

  lemma {:induction false} ItemParams(item: Item)
    requires IsItem(item) && item.params != []
    ensures VisibleEnds(ParamsText(item.params))
    ensures forall i :: 0 <= i < |item.params| ==> IsParam(item.params[i])
  {
    ParamsVisible(item.params);
  }

  /** What the Python codec prints it reads back, without the description, exactly when the parser's demands are met. */
  lemma {:induction false} PyRoundTripIff(c: Challenge, lib: PyLibrary)
    requires FormatStrict(c).Some?
    ensures var r := ParsePy(FormatStrict(c).value, lib);
      if AcceptablePy(c, lib) then r == Ok(c.(description := "")) else r.Err?
  {
    assert Format(c) + "" == Format(c);
    ParsePrintedPy(c, "", lib);
  }

  // ── Challenges of other schemes ──

  lemma {:induction false} TrimRightStops(s: string, drop: char -> bool, n: nat)
    requires 0 < n <= |s| && !drop(s[n - 1])
    ensures |TrimRight(s, drop)| >= n
    decreases s
  {
    if drop(s[|s| - 1]) {
      TrimRightStops(s[..|s| - 1], drop, n);
    }
  }

  lemma {:induction false} TrimWords(t: string, w: string) returns (w': string)
    requires VisibleEnds(t)
    ensures TrimRight(t + w, IsPySpace) == t + w' && w' <= w
  {
    var s := t + w;
    TrimRightStops(s, IsPySpace, |t|);
    var r := TrimRight(s, IsPySpace);
    w' := w[..|r| - |t|];
    assert s[..|r|] == t + w';
  }

  /** Tidying a text with words after it leaves the text and some of the words. */
  lemma {:induction false} TidyWords(t: string, w: string) returns (w': string)
    requires VisibleEnds(t)
    ensures TidyPy(t + w) == t + w' && w' <= w
  {
    w' := TrimWords(t, w);
    StripWords(t, w, w');
    if w' != "" && w'[|w'| - 1] == ',' {
      w' := TidyComma(t + w, t, w');
    } else {
      NoComma(t, w');
      TidyStripped(t + w, t + w');
    }
  }

  lemma {:induction false} TidyComma(piece: string, t: string, v: string) returns (w': string)
    requires VisibleEnds(t) && Strip(piece) == t + v && v != "" && v[|v| - 1] == ','
    ensures TidyPy(piece) == t + w' && w' <= v
  {
    var s := t + v;
    CutComma(t, v);
    TidyStripped(piece, s);
    w' := TrimWords(t, v[..|v| - 1]);
  }

  lemma {:induction false} StripWords(t: string, w: string, w': string)
    requires VisibleEnds(t) && TrimRight(t + w, IsPySpace) == t + w'
    ensures Strip(t + w) == t + w'
  {
    NothingToTrimLeft(t + w, IsPySpace);
  }

  lemma {:induction false} TidyStripped(piece: string, r: string)
    requires Strip(piece) == r
    ensures r != "" && r[|r| - 1] == ',' ==> TidyPy(piece) == TrimRight(r[..|r| - 1], IsPySpace)
    ensures r != "" && r[|r| - 1] != ',' ==> TidyPy(piece) == r
  {
  }

  lemma {:induction false} CutComma(t: string, w: string)
    requires w != "" && w[|w| - 1] == ','
    ensures var s := t + w; s[|s| - 1] == ',' && s[..|s| - 1] == t + w[..|w| - 1]
  {
  }

  lemma {:induction false} NoComma(t: string, w: string)
    requires VisibleEnds(t) && (w != "" ==> w[|w| - 1] != ',')
    ensures var s := t + w; s != "" && s[|s| - 1] != ','
  {
    assert w == "" ==> t + w == t;
  }

  lemma {:induction false} PrefixNoEquals(w: string, w': string)
    requires NoEquals(w) && Ends(w) && w' <= w
    ensures NoEquals(w') && Ends(w')
  {
  }

  lemma {:induction false} FormatEnds(c: Challenge)
    ensures VisibleEnds(Format(c)) && StartsWithPayment(Format(c))
  {
    ChallengeIsItem(c);
    ItemParams(ItemOf(c));
    var text := ParamsText(Params(c));
    assert Format(c) == SCHEME + " " + text;
    assert Format(c)[..7] == SCHEME;
  }

  /** What the splitter extracts for a printed challenge parses like the challenge alone. */
  lemma {:induction false} PrintedExtract(c: Challenge, w: string, letters: char -> bool, lib: PyLibrary)
    requires FieldsOneLine(c) && Ends(w) && NoEquals(w)
    requires ChallengeStarts(Format(c) + w, letters) == [Format(c) + w]
    ensures ParseEach(Extract(Format(c) + w, letters), PyParser(lib))
      == if AcceptablePy(c, lib) then [c.(description := "")] else []
  {
    FormatEnds(c);
    var w' := ExtractOne(Format(c), w, letters);
    PrefixNoEquals(w, w');
    ParsePrintedPy(c, w', lib);
    ParseOneValue(Format(c) + w', PyParser(lib));
  }

  lemma {:induction false} ExtractOne(t: string, w: string, letters: char -> bool) returns (w': string)
    requires VisibleEnds(t) && StartsWithPayment(t) && Ends(w) && ChallengeStarts(t + w, letters) == [t + w]
    ensures Extract(t + w, letters) == [t + w'] && w' <= w
  {
    w' := TidyWords(t, w);
    PaymentIsLocal(t, w);
    SelectOne(t + w);
  }

  lemma {:induction false} SelectOne(s: string)
    requires StartsWithPayment(s) && TidyPy(s) != ""
    ensures Select([s]) == [TidyPy(s)]
  {
    SelectCons(s, []);
    assert [s] + [] == [s];
  }

  lemma {:induction false} ParseOneValue(value: string, parse: Parser)
    ensures ParseEach([value], parse) == Kept(parse(value))
  {
    FirstParsed(value, [], parse);
    assert [value] + [] == [value];
  }

  /** A longer scheme name that begins with the letters of ours is selected, and refused by the parser. */
  predicate IsRefused(s: string) {
    StartsWithPayment(s) ==> |s| > 7 && !IsBlank(s[7])
  }

  lemma {:induction false} TidyIsPrefix(piece: string)
    requires piece == "" || !IsPySpace(piece[0])
    ensures TidyPy(piece) <= piece
  {
    NothingToTrimLeft(piece, IsPySpace);
  }

  lemma {:induction false} PieceRefused(s: string, piece: string, lib: PyLibrary)
    requires StartsWithPayment(s) && IsRefused(s) && piece <= s
    ensures ParsePy(TidyPy(piece), lib).Err?
  {
    assert Lower(s[..7][0]) == 'p';
    TidyIsPrefix(piece);
    PrefixRefused(s, TidyPy(piece));
  }

  lemma {:induction false} PrefixRefused(s: string, h: string)
    requires |s| > 7 && !IsBlank(s[7]) && !IsPySpace(s[0]) && h <= s
    ensures StripSchemePy(h).None?
  {
    NothingToTrimLeft(h, IsPySpace);
    assert |h| > 7 ==> h[7] == s[7];
    if |h| >= 7 {
      assert |h[7..]| == |h| - 7;
    }
  }

  lemma {:induction false} PieceIsPrefix(starts: seq<string>)
    requires starts != []
    ensures PieceAt(starts) <= starts[0]
  {
  }

  lemma {:induction false} SelectRefused(starts: seq<string>, lib: PyLibrary)
    requires forall i :: 0 <= i < |starts| ==> IsRefused(starts[i])
    ensures ParseEach(Select(starts), PyParser(lib)) == []
    decreases starts
  {
    if starts != [] {
      SelectRefused(starts[1..], lib);
      if StartsWithPayment(starts[0]) {
        var value := TidyPy(PieceAt(starts));
        PieceIsPrefix(starts);
        PieceRefused(starts[0], PieceAt(starts), lib);
        FirstParsed(value, Select(starts[1..]), PyParser(lib));
        assert Select(starts) == Listed(value) + Select(starts[1..]);
        assert [] + Select(starts[1..]) == Select(starts[1..]);
      }
    }
  }

  /** The suffix begins with letters before a blank. */
  lemma {:induction false} StartsAreNamed(t: string, mode: Mode, letters: char -> bool)
    ensures forall i :: 0 <= i < |Starts(t, mode, SchemeAt(letters))| ==>
      SchemeLength(Starts(t, mode, SchemeAt(letters))[i], letters) > 0
    decreases |t|
  {
    if t == "" {
    } else if mode == Outside(true) && SchemeLength(t, letters) > 0 {
      StartsAreNamed(t[SchemeLength(t, letters)..], Outside(false), letters);
    } else {
      StartsAreNamed(t[1..], Step(mode, t[0]), letters);
    }
  }

  lemma {:induction false} OtherStartRefused(x: string, w: string, letters: char -> bool)
    requires SchemeLength(x, letters) > 0 && PaymentLength(x) == 0 && Ends(w)
    ensures IsRefused(x + w)
  {
    PaymentIsLocal(x, w);
    if StartsWithPayment(x) {
      NameIsUnbroken(x);
      assert IsBlank(x[SchemeLength(x, letters)]);
      assert (x + w)[7] == x[7];
    }
  }

  lemma {:induction false} NameIsUnbroken(x: string)
    requires StartsWithPayment(x)
    ensures forall i :: 0 <= i < 7 ==> !IsBlank(x[i])
  {
    forall i | 0 <= i < 7 ensures !IsBlank(x[i]) {
      assert Lower(x[..7][i]) == Lower(SCHEME[i]) && 'a' <= Lower(SCHEME[i]) <= 'z';
    }
  }

  lemma {:induction false} AppendRefused(xs: seq<string>, w: string, letters: char -> bool)
    requires Ends(w) && forall i :: 0 <= i < |xs| ==> SchemeLength(xs[i], letters) > 0 && PaymentLength(xs[i]) == 0
    ensures forall i :: 0 <= i < |Append(xs, w)| ==> IsRefused(Append(xs, w)[i])
    decreases xs
  {
    if xs != [] {
      OtherStartRefused(xs[0], w, letters);
      AppendRefused(xs[1..], w, letters);
    }
  }

  // ── The main result ──

  /** One of our challenges as printed, or the text of any other challenge. */
  datatype PyEntry = Printed(challenge: Challenge) | Verbatim(text: string)

  /** The text of a challenge of another scheme: outside its quotes, no Payment challenge starts. */
  predicate IsForeign(t: string, letters: char -> bool) {
    var starts := Starts(t, Outside(true), SchemeAt(letters));
    IsChallengeText(t, letters) && forall i :: 0 <= i < |starts| ==> PaymentLength(starts[i]) == 0
  }

  predicate IsPyEntry(e: PyEntry, letters: char -> bool) {
    match e
    case Printed(c) => FieldsOneLine(c)
    case Verbatim(text) => IsForeign(text, letters)
  }

  predicate ArePyEntries(es: seq<PyEntry>, letters: char -> bool) {
    forall i :: 0 <= i < |es| ==> IsPyEntry(es[i], letters)
  }

  function EntryText(e: PyEntry): string {
    match e
    case Printed(c) => Format(c)
    case Verbatim(text) => text
  }

  function EntryTexts(es: seq<PyEntry>): (texts: seq<string>)
    ensures |texts| == |es| && forall i :: 0 <= i < |es| ==> texts[i] == EntryText(es[i])
  {
    if es == [] then [] else [EntryText(es[0])] + EntryTexts(es[1..])
  }

  /** Exactly the acceptable Payment challenges, in order. */
  function RecoveredPy(es: seq<PyEntry>, lib: PyLibrary): seq<Challenge> {
    if es == [] then []
    else if es[0].Printed? && AcceptablePy(es[0].challenge, lib) then
      [es[0].challenge.(description := "")] + RecoveredPy(es[1..], lib)
    else RecoveredPy(es[1..], lib)
  }

  lemma {:induction false} EntryIsText(e: PyEntry, letters: char -> bool)
    requires IsPyEntry(e, letters)
    ensures IsChallengeText(EntryText(e), letters)
  {
    if e.Printed? {
      FormatIsText(e.challenge, letters);
    }
  }

  lemma {:induction false} EntriesAreTexts(es: seq<PyEntry>, letters: char -> bool)
    requires ArePyEntries(es, letters)
    ensures AreChallengeTexts(EntryTexts(es), letters)
  {
    forall i | 0 <= i < |es| ensures IsChallengeText(EntryTexts(es)[i], letters) {
      EntryIsText(es[i], letters);
    }
  }

  lemma {:induction false} WordsNoEquals(texts: seq<string>, blanks: string, letters: char -> bool)
    requires AreBlanks(blanks)
    ensures NoEquals(Words(texts, blanks, letters))
    decreases texts
  {
    if texts != [] && IsName(texts[0], letters) {
      WordsNoEquals(texts[1..], blanks, letters);
      assert forall i :: 0 <= i < |texts[0]| ==> IsAlpha(texts[0][i], letters);
    }
  }

  /** What parsing keeps of one entry with the words after it. */
  lemma {:induction false} EntryParsed(es: seq<PyEntry>, blanks: string, lib: PyLibrary)
    requires es != [] && ArePyEntries(es, lib.letters) && AreBlanks(blanks)
    ensures var texts := EntryTexts(es); var w := Words(texts[1..], blanks, lib.letters);
      ParseEach(Extract(texts[0] + w, lib.letters), PyParser(lib))
      == if es[0].Printed? && AcceptablePy(es[0].challenge, lib) then [es[0].challenge.(description := "")] else []
  {
    var texts := EntryTexts(es);
    var w := Words(texts[1..], blanks, lib.letters);
    EntriesAreTexts(es, lib.letters);
    AloneStarts(texts, blanks, lib.letters);
    WordsNoEquals(texts[1..], blanks, lib.letters);
    if es[0].Printed? {
      FormatIsText(es[0].challenge, lib.letters);
      AppendCons(texts[0], [], w);
      assert [texts[0]] + [] == [texts[0]] && [texts[0] + w] + [] == [texts[0] + w];
      PrintedExtract(es[0].challenge, w, lib.letters, lib);
    } else {
      StartsAreNamed(texts[0], Outside(true), lib.letters);
      var starts := Starts(texts[0], Outside(true), SchemeAt(lib.letters));
      AppendRefused(starts, w, lib.letters);
      SelectRefused(Append(starts, w), lib);
    }
  }

  lemma {:induction false} ParseEachConcat(a: seq<string>, b: seq<string>, parse: Parser)
    ensures ParseEach(a + b, parse) == ParseEach(a, parse) + ParseEach(b, parse)
    decreases a
  {
    if a == [] {
      assert a + b == b;
    } else {
      assert (a + b)[1..] == a[1..] + b;
      ParseEachConcat(a[1..], b, parse);
      Associative(Kept(parse(a[0])), ParseEach(a[1..], parse), ParseEach(b, parse));
    }
  }

  lemma {:induction false} ParseAlone(es: seq<PyEntry>, blanks: string, lib: PyLibrary)
    requires ArePyEntries(es, lib.letters) && AreBlanks(blanks)
    ensures ParseEach(Alone(EntryTexts(es), blanks, lib.letters), PyParser(lib)) == RecoveredPy(es, lib)
    decreases es
  {
    if es != [] {
      var texts := EntryTexts(es);
      assert texts[1..] == EntryTexts(es[1..]);
      ParseAlone(es[1..], blanks, lib);
      EntryParsed(es, blanks, lib);
      ParseAloneStep(texts, blanks, lib.letters, PyParser(lib));
    }
  }

  lemma {:induction false} ParseAloneStep(texts: seq<string>, blanks: string, letters: char -> bool, parse: Parser)
    requires texts != []
    ensures ParseEach(Alone(texts, blanks, letters), parse)
      == ParseEach(Extract(texts[0] + Words(texts[1..], blanks, letters), letters), parse)
         + ParseEach(Alone(texts[1..], blanks, letters), parse)
  {
    var first := Extract(texts[0] + Words(texts[1..], blanks, letters), letters);
    ParseEachConcat(first, Alone(texts[1..], blanks, letters), parse);
  }

  /**
   * Interleaving Payment challenges with the texts of other challenges loses nothing: parsing the joined header returns
   * exactly the acceptable Payment challenges, in order and unchanged but for the description.
   */
  lemma {:induction false} SchemesAreFiltered(es: seq<PyEntry>, blanks: string, lib: PyLibrary)
    requires ArePyEntries(es, lib.letters) && AreBlanks(blanks)
    ensures ParseAllPy([Join(EntryTexts(es), blanks)], lib) == RecoveredPy(es, lib)
  {
    EntriesAreTexts(es, lib.letters);
    ExtractChooses(EntryTexts(es), blanks, lib.letters);
    ParseAlone(es, blanks, lib);
    AllOfOne(Join(EntryTexts(es), blanks), PyExtractor(lib), PyParser(lib));
  }

  /** Every printed challenge of an alphabetic scheme other than ours is such a text. */
  lemma {:induction false} PrintedItemIsForeign(item: Item, letters: char -> bool)
    requires IsItem(item) && IsAlphabetic(item.scheme) && !IsPayment(item)
    ensures IsForeign(ItemText(item), letters)
  {
    ItemIsText(item, letters);
    ItemStarts(item, letters);
    PaymentAtItem(item, "");
    assert ItemText(item) + "" == ItemText(item);
  }
}
