/** Quoted strings and parameter lists of authentication headers: sections 5.6.4 and 11.2 of RFC 9110. */
module HeaderText {
  import opened Common

  predicate IsBlank(c: char) { c == ' ' || c == '\t' }

  predicate IsLineBreak(c: char) { c == '\r' || c == '\n' }

  // ── Escaping ──

  /** Replace every occurrence of one character. */
  function ReplaceAll(s: string, c: char, with: string): string {
    if s == "" then "" else (if s[0] == c then with else [s[0]]) + ReplaceAll(s[1..], c, with)
  }

  function EscapeChar(c: char): string {
    if c == '\\' then "\\\\"
    else if c == '"' then "\\\""
    else if IsLineBreak(c) then ""
    else [c]
  }

  /** The text between the quotes of a quoted string; line breaks are dropped. */
  function Escape(s: string): string {
    if s == "" then "" else EscapeChar(s[0]) + Escape(s[1..])
  }

  /** What survives escaping: everything but line breaks. */
  function Clean(s: string): string {
    if s == "" then "" else (if IsLineBreak(s[0]) then "" else [s[0]]) + Clean(s[1..])
  }

  predicate OneLine(s: string) {
    forall i :: 0 <= i < |s| ==> !IsLineBreak(s[i])
  }

  lemma {:induction false} CleanOneLine(s: string)
    requires OneLine(s)
    ensures Clean(s) == s
  {
    if s != "" {
      CleanOneLine(s[1..]);
      assert [s[0]] + s[1..] == s;
    }
  }

  lemma {:induction false} ReplaceAllConcat(a: string, b: string, c: char, with: string)
    ensures ReplaceAll(a + b, c, with) == ReplaceAll(a, c, with) + ReplaceAll(b, c, with)
  {
    if a == "" {
      assert a + b == b;
    } else {
      assert (a + b)[0] == a[0] && (a + b)[1..] == a[1..] + b;
      ReplaceAllConcat(a[1..], b, c, with);
    }
  }

  function EscapeByReplacing(s: string): string {
    ReplaceAll(ReplaceAll(ReplaceAll(ReplaceAll(s, '\\', "\\\\"), '"', "\\\""), '\r', ""), '\n', "")
  }

  /** The chain of replacements is the character-wise escape. */
  lemma {:induction false} ReplacingEscapes(s: string)
    ensures EscapeByReplacing(s) == Escape(s)
  {
    if s != "" {
      ReplacingEscapes(s[1..]);
      assert s == [s[0]] + s[1..];
      ReplaceAllConcat([s[0]], s[1..], '\\', "\\\\");
      var a, a' := ReplaceAll([s[0]], '\\', "\\\\"), ReplaceAll(s[1..], '\\', "\\\\");
      ReplaceAllConcat(a, a', '"', "\\\"");
      var b, b' := ReplaceAll(a, '"', "\\\""), ReplaceAll(a', '"', "\\\"");
      ReplaceAllConcat(b, b', '\r', "");
      var c, c' := ReplaceAll(b, '\r', ""), ReplaceAll(b', '\r', "");
      ReplaceAllConcat(c, c', '\n', "");
      ReplacingOne(s[0]);
    }
  }

  lemma {:induction false} ReplaceInOne(d: char, c: char, with: string)
    ensures ReplaceAll([d], c, with) == if d == c then with else [d]
  {
    assert [d][1..] == "";
    assert with + "" == with;
    assert [d] + "" == [d];
  }

  lemma {:induction false} ReplaceInTwo(d: char, e: char, c: char, with: string)
    requires d != c && e != c
    ensures ReplaceAll([d, e], c, with) == [d, e]
  {
    assert [d, e] == [d] + [e];
    ReplaceAllConcat([d], [e], c, with);
    ReplaceInOne(d, c, with);
    ReplaceInOne(e, c, with);
  }

  lemma {:induction false} ReplacingOne(d: char)
    ensures EscapeByReplacing([d]) == EscapeChar(d)
  {
    ReplaceInOne(d, '\\', "\\\\");
    ReplaceInOne(d, '"', "\\\"");
    ReplaceInOne(d, '\r', "");
    ReplaceInOne(d, '\n', "");
    if d == '\\' {
      ReplaceInTwo('\\', '\\', '"', "\\\"");
      ReplaceInTwo('\\', '\\', '\r', "");
      ReplaceInTwo('\\', '\\', '\n', "");
    } else if d == '"' {
      ReplaceInTwo('\\', '"', '\r', "");
      ReplaceInTwo('\\', '"', '\n', "");
    }
  }

  /** Read up to the closing quote: the unescaped value and the text after the quote. */
  function ReadQuoted(s: string, escaped: bool): Option<(string, string)> {
    if s == "" then None
    else if !escaped && s[0] == '\\' then ReadQuoted(s[1..], true)
    else if !escaped && s[0] == '"' then Some(("", s[1..]))
    else
      match ReadQuoted(s[1..], false)
      case None => None
      case Some((value, rest)) => Some(([s[0]] + value, rest))
  }

  /** Reading an escaped value gives back the value and leaves the rest. */
  lemma {:induction false} ReadEscaped(v: string, rest: string)
    ensures ReadQuoted(Escape(v) + "\"" + rest, false) == Some((Clean(v), rest))
  {
    if v == "" {
      assert (Escape(v) + "\"" + rest)[1..] == rest;
    } else {
      var tail := Escape(v[1..]) + "\"" + rest;
      ReadEscaped(v[1..], rest);
      assert Escape(v) + "\"" + rest == EscapeChar(v[0]) + tail;
      ReadEscapedChar(v[0], tail, Clean(v[1..]), rest);
    }
  }

  lemma {:induction false} ReadEscapedChar(c: char, tail: string, value: string, rest: string)
    requires ReadQuoted(tail, false) == Some((value, rest))
    ensures ReadQuoted(EscapeChar(c) + tail, false) == Some(((if IsLineBreak(c) then "" else [c]) + value, rest))
  {
    var s := EscapeChar(c) + tail;
    if c == '\\' || c == '"' {
      assert s[1..] == [c] + tail && ([c] + tail)[1..] == tail;
      assert ReadQuoted([c] + tail, true) == Some(([c] + value, rest));
    } else if IsLineBreak(c) {
      assert s == tail && "" + value == value;
    } else {
      assert s[1..] == tail;
    }
  }

  // ── Parameters and challenges ──

  /** An authentication parameter with a quoted or a token value, or the bare token that may stand in its place. */
  datatype Param = Quoted(key: string, value: string) | Token(key: string, value: string) | Bare(text: string)

  /** One challenge: a scheme and its parameters, of which there may be none. */
  datatype Item = Item(scheme: string, params: seq<Param>)

  function ParamText(p: Param): string {
    match p
    case Quoted(key, value) => key + "=" + ("\"" + Escape(value) + "\"")
    case Token(key, value) => key + "=" + value
    case Bare(text) => text
  }

  /** The parameters separated by a comma and a space. */
  function ParamsText(ps: seq<Param>): string {
    if ps == [] then ""
    else if |ps| == 1 then ParamText(ps[0])
    else ParamText(ps[0]) + ", " + ParamsText(ps[1..])
  }

  function ItemText(item: Item): string {
    if item.params == [] then item.scheme else item.scheme + " " + ParamsText(item.params)
  }

  /** Several challenges merged into one header value. */
  function Merged(items: seq<Item>): string {
    if items == [] then ""
    else if |items| == 1 then ItemText(items[0])
    else ItemText(items[0]) + ", " + Merged(items[1..])
  }

  /** The visible characters other than the delimiters the header grammar uses. */
  predicate IsTokenChar(c: char) {
    '!' <= c <= '~' && c != '=' && c != ',' && c != '"'
  }

  predicate IsToken(s: string) {
    s != "" && forall i :: 0 <= i < |s| ==> IsTokenChar(s[i])
  }

  predicate IsParam(p: Param) {
    match p
    case Quoted(key, _) => IsToken(key)
    case Token(key, value) => IsToken(key) && IsToken(value)
    case Bare(text) => text != "" && forall i :: 0 <= i < |text| ==> IsTokenChar(text[i]) || text[i] == '='
  }

  predicate IsItem(item: Item) {
    && IsToken(item.scheme)
    && forall i :: 0 <= i < |item.params| ==> IsParam(item.params[i])
  }

  predicate AreItems(items: seq<Item>) {
    forall i :: 0 <= i < |items| ==> IsItem(items[i])
  }

  function ParamValue(p: Param): string
    requires !p.Bare?
  {
    if p.Quoted? then Clean(p.value) else p.value
  }

  /** The map the parameters build, one after the other. */
  function Extend(m: map<string, string>, ps: seq<Param>): map<string, string>
    decreases ps
  {
    if ps == [] then m
    else if ps[0].Bare? then Extend(m, ps[1..])
    else Extend(m[ps[0].key := ParamValue(ps[0])], ps[1..])
  }

  predicate DistinctFrom(m: map<string, string>, ps: seq<Param>)
    decreases ps
  {
    if ps == [] then true
    else if ps[0].Bare? then DistinctFrom(m, ps[1..])
    else ps[0].key !in m && DistinctFrom(m[ps[0].key := ParamValue(ps[0])], ps[1..])
  }

  // ── Scanning for the start of a challenge ──

  /** Outside quotes, remembering whether only blanks separate us from a comma or from the start; inside; after a backslash. */
  datatype Mode = Outside(ready: bool) | Inside | Escaped

  /** What one character does to the mode. */
  function Step(mode: Mode, c: char): Mode {
    match mode
    case Escaped => Inside
    case Inside => if c == '\\' then Escaped else if c == '"' then Outside(false) else Inside
    case Outside(ready) => if c == '"' then Inside else Outside(c == ',' || (IsBlank(c) && ready))
  }

  /** The suffixes at which a scheme starts, where `at` gives the length of the scheme name, or zero if there is none. */
  function Starts(s: string, mode: Mode, at: string -> nat): seq<string> {
    if s == "" then []
    else if mode == Outside(true) && 0 < at(s) <= |s| then
      [s] + Starts(s[at(s)..], Outside(false), at)
    else Starts(s[1..], Step(mode, s[0]), at)
  }

  /** The merged texts from each challenge on whose scheme `at` recognises. */
  function Heads(items: seq<Item>, at: string -> nat): seq<string> {
    if items == [] then []
    else if at(Merged(items)) != 0 then [Merged(items)] + Heads(items[1..], at)
    else Heads(items[1..], at)
  }

  /** `at` recognises whole scheme names, and nothing at the start of a parameter or of a separator. */
  ghost predicate Recognises(at: string -> nat) {
    && (forall item, rest :: IsItem(item) && Ends(rest) ==>
          at(ItemText(item) + rest) == 0 || at(ItemText(item) + rest) == |item.scheme|)
    && (forall p, rest :: IsParam(p) && Ends(rest) ==> at(ParamText(p) + rest) == 0)
    && (forall s :: s != "" && (s[0] == ',' || IsBlank(s[0])) ==> at(s) == 0)
  }

  /** What may follow a parameter: nothing, or a comma. */
  predicate Ends(rest: string) {
    rest == "" || rest[0] == ','
  }

  predicate IsDull(c: char) {
    c != '"' && c != ',' && !IsBlank(c)
  }

  /** A run of ordinary characters holds no start after its first character. */
  lemma {:induction false} RunSkip(t: string, rest: string, ready: bool, at: string -> nat)
    requires t != "" && forall i :: 0 <= i < |t| ==> IsDull(t[i])
    requires ready ==> at(t + rest) == 0
    ensures Starts(t + rest, Outside(ready), at) == Starts(rest, Outside(false), at)
    decreases t
  {
    assert (t + rest)[1..] == t[1..] + rest;
    if |t| == 1 {
      assert t[1..] + rest == rest;
    } else {
      RunSkip(t[1..], rest, false, at);
    }
  }

  /** A quoted value holds no start, whatever commas, quotes or scheme names occur in it. */
  lemma {:induction false} QuotedSkip(v: string, rest: string, at: string -> nat)
    ensures Starts(Escape(v) + "\"" + rest, Inside, at) == Starts(rest, Outside(false), at)
  {
    if v == "" {
      assert (Escape(v) + "\"" + rest)[1..] == rest;
    } else {
      var tail := Escape(v[1..]) + "\"" + rest;
      QuotedSkip(v[1..], rest, at);
      assert Escape(v) + "\"" + rest == EscapeChar(v[0]) + tail;
      EscapedSkip(v[0], tail, at);
    }
  }

  lemma {:induction false} EscapedSkip(c: char, tail: string, at: string -> nat)
    ensures Starts(EscapeChar(c) + tail, Inside, at) == Starts(tail, Inside, at)
  {
    var s := EscapeChar(c) + tail;
    if c == '\\' || c == '"' {
      assert s[1..] == [c] + tail && ([c] + tail)[1..] == tail;
      assert Starts([c] + tail, Escaped, at) == Starts(tail, Inside, at);
    } else if IsLineBreak(c) {
      assert s == tail;
    } else {
      assert s[1..] == tail;
    }
  }

  lemma {:induction false} QuotedTextSkip(value: string, rest: string, at: string -> nat)
    ensures Starts("\"" + Escape(value) + "\"" + rest, Outside(false), at) == Starts(rest, Outside(false), at)
  {
    QuotedSkip(value, rest, at);
    assert ("\"" + Escape(value) + "\"" + rest)[1..] == Escape(value) + "\"" + rest;
  }

  lemma {:induction false} ParamSkip(p: Param, rest: string, ready: bool, at: string -> nat)
    requires IsParam(p)
    requires ready ==> at(ParamText(p) + rest) == 0
    ensures Starts(ParamText(p) + rest, Outside(ready), at) == Starts(rest, Outside(false), at)
  {
    match p
    case Quoted(key, value) =>
      var t, u := key + "=", "\"" + Escape(value) + "\"" + rest;
      assert ParamText(p) + rest == t + u;
      RunSkip(t, u, ready, at);
      QuotedTextSkip(value, rest, at);
    case Token(key, value) =>
      RunSkip(key + "=" + value, rest, ready, at);
    case Bare(text) =>
      RunSkip(text, rest, ready, at);
  }

  lemma {:induction false} SeparatorSkip(rest: string, at: string -> nat)
    requires Recognises(at)
    ensures Starts(", " + rest, Outside(false), at) == Starts(rest, Outside(true), at)
  {
    assert (", " + rest)[1..] == " " + rest;
    assert (" " + rest)[1..] == rest;
    assert at(" " + rest) == 0;
  }

  /** A parameter and the separator after it. */
  lemma {:induction false} LeadingParamSkip(p: Param, tail: string, ready: bool, at: string -> nat)
    requires IsParam(p) && Recognises(at)
    ensures Starts(ParamText(p) + ", " + tail, Outside(ready), at) == Starts(tail, Outside(true), at)
  {
    var rest := ", " + tail;
    assert Ends(rest);
    assert at(ParamText(p) + rest) == 0;
    ParamSkip(p, rest, ready, at);
    SeparatorSkip(tail, at);
    assert ParamText(p) + ", " + tail == ParamText(p) + rest;
  }

  lemma {:induction false} LastParamSkip(p: Param, rest: string, ready: bool, at: string -> nat)
    requires IsParam(p) && Ends(rest) && Recognises(at)
    ensures Starts(ParamText(p) + rest, Outside(ready), at) == Starts(rest, Outside(false), at)
  {
    assert at(ParamText(p) + rest) == 0;
    ParamSkip(p, rest, ready, at);
  }

  lemma {:induction false} ParamsSkip(ps: seq<Param>, rest: string, ready: bool, at: string -> nat)
    requires ps != [] && forall i :: 0 <= i < |ps| ==> IsParam(ps[i])
    requires Ends(rest) && Recognises(at)
    ensures Starts(ParamsText(ps) + rest, Outside(ready), at) == Starts(rest, Outside(false), at)
    decreases ps
  {
    if |ps| == 1 {
      LastParamSkip(ps[0], rest, ready, at);
    } else {
      LeadingParamSkip(ps[0], ParamsText(ps[1..]) + rest, ready, at);
      ParamsSkip(ps[1..], rest, true, at);
      assert ParamsText(ps) + rest == ParamText(ps[0]) + ", " + (ParamsText(ps[1..]) + rest);
    }
  }

  /** What follows the first challenge in the merged text. */
  function Rest(items: seq<Item>): (r: string)
    requires items != []
    ensures Ends(r)
    ensures Merged(items) == ItemText(items[0]) + r
  {
    if |items| == 1 then "" else ", " + Merged(items[1..])
  }

  /** The text after a scheme name holds no start up to the end of the parameters. */
  lemma {:induction false} TailSkip(ps: seq<Param>, rest: string, at: string -> nat)
    requires ps != [] && forall i :: 0 <= i < |ps| ==> IsParam(ps[i])
    requires Ends(rest) && Recognises(at)
    ensures Starts(" " + (ParamsText(ps) + rest), Outside(false), at) == Starts(rest, Outside(false), at)
  {
    ParamsSkip(ps, rest, false, at);
    var tail := ParamsText(ps) + rest;
    assert (" " + tail)[1..] == tail;
  }

  lemma {:induction false} SchemeSkip(scheme: string, tail: string, at: string -> nat)
    requires IsToken(scheme)
    requires at(scheme + tail) == 0 || at(scheme + tail) == |scheme|
    ensures Starts(scheme + tail, Outside(true), at)
      == (if at(scheme + tail) != 0 then [scheme + tail] else []) + Starts(tail, Outside(false), at)
  {
    var s := scheme + tail;
    if at(s) == 0 {
      RunSkip(scheme, tail, true, at);
    } else {
      assert s[0] == scheme[0];
      assert s[|scheme|..] == tail;
    }
  }

  lemma {:induction false} ItemSkip(item: Item, rest: string, at: string -> nat)
    requires IsItem(item) && Ends(rest) && Recognises(at)
    ensures var s := ItemText(item) + rest;
      Starts(s, Outside(true), at) == (if at(s) != 0 then [s] else []) + Starts(rest, Outside(false), at)
  {
    if item.params == [] {
      SchemeSkip(item.scheme, rest, at);
    } else {
      var tail := " " + (ParamsText(item.params) + rest);
      assert ItemText(item) + rest == item.scheme + tail;
      SchemeSkip(item.scheme, tail, at);
      TailSkip(item.params, rest, at);
    }
  }

  /** In merged challenges the scan finds exactly the heads. */
  lemma {:induction false} StartsAreHeads(items: seq<Item>, at: string -> nat)
    requires AreItems(items) && Recognises(at)
    ensures Starts(Merged(items), Outside(true), at) == Heads(items, at)
    decreases items
  {
    if items != [] {
      ItemSkip(items[0], Rest(items), at);
      if |items| > 1 {
        SeparatorSkip(Merged(items[1..]), at);
        StartsAreHeads(items[1..], at);
      } else {
        assert Heads(items[1..], at) == [];
      }
    }
  }
}
