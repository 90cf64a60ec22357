/** The Python codec of Payment challenges: its own parameter parser and its splitter, which sees every scheme. */
module PyHeaders {
  import opened Common
  import opened HeaderText
  import opened Texts
  import opened GoHeaders

  /** Library behaviour: which characters outside ASCII are letters, and whether a request decodes as base64 JSON. */
  datatype PyLibrary = PyLibrary(letters: char -> bool, validRequest: string -> bool)

  // ── Printing ──

  predicate FieldsOneLine(c: Challenge) {
    && OneLine(c.id) && OneLine(c.realm) && OneLine(c.method_) && OneLine(c.intent) && OneLine(c.request)
    && OneLine(c.expires) && OneLine(c.digest) && (c.opaqueData.Some? ==> OneLine(c.opaqueData.value))
  }

  /** Printing refuses fields with line breaks. */
  function FormatStrict(c: Challenge): Option<string> {
    if FieldsOneLine(c) then Some(Format(c)) else None
  }

  function EscapeTwice(s: string): string {
    ReplaceAll(ReplaceAll(s, '\\', "\\\\"), '"', "\\\"")
  }

  lemma {:induction false} NothingToReplace(s: string, c: char, with: string)
    requires forall i :: 0 <= i < |s| ==> s[i] != c
    ensures ReplaceAll(s, c, with) == s
  {
    if s != "" {
      NothingToReplace(s[1..], c, with);
      assert [s[0]] + s[1..] == s;
    }
  }

  lemma {:induction false} OneLineReplaced(s: string, c: char, with: string)
    requires OneLine(s) && OneLine(with)
    ensures OneLine(ReplaceAll(s, c, with))
  {
    if s != "" {
      OneLineReplaced(s[1..], c, with);
    }
  }

  /** On text without line breaks the two replacements are the escape of the Go codec. */
  lemma {:induction false} EscapesAgree(s: string)
    requires OneLine(s)
    ensures EscapeTwice(s) == Escape(s)
  {
    ReplacingEscapes(s);
    OneLineReplaced(s, '\\', "\\\\");
    OneLineReplaced(ReplaceAll(s, '\\', "\\\\"), '"', "\\\"");
    NothingToReplace(EscapeTwice(s), '\r', "");
    NothingToReplace(EscapeTwice(s), '\n', "");
  }

  // ── Parsing parameters ──

  predicate IsKeyPart(c: char) { c != '=' && !IsBlank(c) }

  predicate IsValuePart(c: char) { !IsSeparator(c) }

  /** Read a quoted value; a missing closing quote is tolerated, and so is a final backslash. */
  function ReadLoose(s: string): (r: (string, string))
    ensures |r.1| <= |s|
  {
    if s == "" then ("", "")
    else if s[0] == '"' then ("", s[1..])
    else if s[0] == '\\' && |s| > 1 then
      var r := ReadLoose(s[2..]);
      ([s[1]] + r.0, r.1)
    else
      var r := ReadLoose(s[1..]);
      ([s[0]] + r.0, r.1)
  }

  /** The value after an equals sign and the text that follows it. */
  function ReadLooseValue(s: string): (r: (string, string))
    ensures |r.1| <= |s|
  {
    if s != "" && s[0] == '"' then ReadLoose(s[1..])
    else
      var rest := TrimLeft(s, IsValuePart);
      (s[..|s| - |rest|], rest)
  }

  /** Parse a parameter list, skipping what has no equals sign; `None` means that a key occurs twice. */
  function PyParams(s: string, m: map<string, string>): Option<map<string, string>>
    decreases |s|
  {
    var t := TrimLeft(s, IsSeparator);
    if t == "" then Some(m)
    else
      var u := TrimLeft(t, IsKeyPart);
      if u == "" || u[0] != '=' then
        assert |u| < |t|;
        PyParams(TrimLeft(u, IsValuePart), m)
      else if u[1..] == "" then Some(m)
      else
        var key, read := t[..|t| - |u|], ReadLooseValue(u[1..]);
        if key in m then None else PyParams(read.1, m[key := read.0])
  }

  /** A loop that advances over characters of one kind. */
  method SkipWhile(text: string, start: nat, pred: char -> bool) returns (i: nat)
    requires start <= |text|
    ensures start <= i <= |text|
    ensures text[i..] == TrimLeft(text[start..], pred)
  {
    i := start;
    while i < |text| && pred(text[i])
      invariant start <= i <= |text|
      invariant SkippedTo(text, start, i, pred)
    {
      SkipStep(text, start, i, pred);
      i := i + 1;
    }
    SkipEnd(text, start, i, pred);
  }

  /** One turn of the loop that reads a quoted value. */
  lemma {:induction false} LooseStep(text: string, i: nat)
    requires i < |text| && text[i] != '"'
    ensures var escaped := text[i] == '\\' && i + 1 < |text|;
      var rest := ReadLoose(if escaped then text[i + 2..] else text[i + 1..]);
      ReadLoose(text[i..]) == ([if escaped then text[i + 1] else text[i]] + rest.0, rest.1)
  {
    var s := text[i..];
    assert s[1..] == text[i + 1..];
    assert i + 1 < |text| ==> s[2..] == text[i + 2..];
  }

  lemma {:induction false} PushChar(value: string, c: char, rest: string)
    ensures value + ([c] + rest) == value + [c] + rest
  {
  }

  method ReadQuotedLoop(text: string, start: nat) returns (value: string, i: nat)
    requires start <= |text|
    ensures start <= i <= |text|
    ensures ReadLoose(text[start..]) == (value, text[i..])
  {
    value, i := "", start;
    ghost var whole := ReadLoose(text[start..]);
    assert "" + whole.0 == whole.0;
    while i < |text| && text[i] != '"'
      invariant start <= i <= |text|
      invariant whole == (value + ReadLoose(text[i..]).0, ReadLoose(text[i..]).1)
    {
      LooseStep(text, i);
      if text[i] == '\\' && i + 1 < |text| {
        i := i + 1;
        PushChar(value, text[i], ReadLoose(text[i + 1..]).0);
        value := value + [text[i]];
      } else {
        PushChar(value, text[i], ReadLoose(text[i + 1..]).0);
        value := value + [text[i]];
      }
      i := i + 1;
    }
    assert value + "" == value;
    if i < |text| {
      assert text[i..][1..] == text[i + 1..];
      i := i + 1;
    }
  }

  method ReadValueLoop(text: string, start: nat) returns (value: string, i: nat)
    requires start < |text|
    ensures start <= i <= |text|
    ensures ReadLooseValue(text[start..]) == (value, text[i..])
  {
    if text[start] == '"' {
      assert text[start..][1..] == text[start + 1..];
      value, i := ReadQuotedLoop(text, start + 1);
    } else {
      i := SkipWhile(text, start, IsValuePart);
      value := text[start..i];
      assert text[start..][..i - start] == text[start..i];
    }
  }

  /** How parsing goes on after the separators were skipped and the key characters read. */
  lemma {:induction false} PyParamsStep(s: string, t: string, u: string, m: map<string, string>)
    requires t == TrimLeft(s, IsSeparator) && t != "" && u == TrimLeft(t, IsKeyPart)
    ensures u == "" || u[0] != '=' ==> PyParams(s, m) == PyParams(TrimLeft(u, IsValuePart), m)
    ensures u != "" && u[0] == '=' && u[1..] == "" ==> PyParams(s, m) == Some(m)
    ensures u != "" && u[0] == '=' && u[1..] != "" ==>
      var key, read := t[..|t| - |u|], ReadLooseValue(u[1..]);
      PyParams(s, m) == if key in m then None else PyParams(read.1, m[key := read.0])
  {
  }

  lemma {:induction false} Slices(text: string, start: nat, i: nat)
    requires start <= i <= |text|
    ensures text[start..i] == text[start..][..|text| - start - |text[i..]|]
    ensures i < |text| ==> text[i..][0] == text[i] && text[i..][1..] == text[i + 1..]
  {
  }

  lemma {:induction false} WordAdvances(text: string, start: nat, i: nat)
    requires start <= i <= |text| && start < |text| && !IsSeparator(text[start])
    requires text[i..] == TrimLeft(text[start..], IsKeyPart)
    requires i < |text| ==> text[i] != '='
    ensures start < i
  {
  }

  /** One key and the position after it; `found` is false where no equals sign follows and the word was skipped. */
  method ReadKey(text: string, start: nat) returns (found: bool, key: string, i: nat)
    requires start < |text| && !IsSeparator(text[start])
    ensures start < i <= |text|
    ensures var u := TrimLeft(text[start..], IsKeyPart);
      if found then u != "" && u[0] == '=' && key == text[start..][..|text| - start - |u|] && text[i..] == u[1..]
      else (u == "" || u[0] != '=') && text[i..] == TrimLeft(u, IsValuePart)
  {
    var end := SkipWhile(text, start, IsKeyPart);
    key := text[start..end];
    Slices(text, start, end);
    found := end < |text| && text[end] == '=';
    if found {
      i := end + 1;
    } else {
      WordAdvances(text, start, end);
      i := SkipWhile(text, end, IsValuePart);
    }
  }

  /** One turn of the parsing loop from position `start`: it ends the parsing, or goes on at `next` with `more`. */
  method ParseOnePair(text: string, start: nat, params: map<string, string>)
      returns (r: Option<Option<map<string, string>>>, more: map<string, string>, next: nat)
    requires start < |text|
    ensures start <= next <= |text|
    ensures if r.Some? then r.value == PyParams(text[start..], params)
      else start < next && PyParams(text[start..], params) == PyParams(text[next..], more)
  {
    next := SkipWhile(text, start, IsSeparator);
    if next >= |text| {
      return Some(Some(params)), params, next;
    }
    r, more, next := ParsePairAt(text, text[start..], next, params);
  }

  /** The same from the position after the separators in front of `input`. */
  method ParsePairAt(text: string, ghost input: string, start: nat, params: map<string, string>)
      returns (r: Option<Option<map<string, string>>>, more: map<string, string>, next: nat)
    requires start < |text| && TrimLeft(input, IsSeparator) == text[start..]
    ensures start <= next <= |text|
    ensures if r.Some? then r.value == PyParams(input, params)
      else start < next && PyParams(input, params) == PyParams(text[next..], more)
  {
    r, more := None, params;
    assert text[start..][0] == text[start];
    PyParamsStep(input, text[start..], TrimLeft(text[start..], IsKeyPart), params);
    var found, key, i := ReadKey(text, start);
    next := i;
    if !found {
      return;
    }
    if i >= |text| {
      return Some(Some(params)), more, next;
    }
    var value;
    value, next := ReadValueLoop(text, i);
    if key in params {
      return Some(None), more, next;
    }
    more := params[key := value];
  }

  method ParsePyParams(text: string) returns (r: Option<map<string, string>>)
    ensures r == PyParams(text, map[])
  {
    var params: map<string, string> := map[];
    var i := 0;
    assert text[0..] == text;
    while i < |text|
      invariant 0 <= i <= |text|
      invariant PyParams(text, map[]) == PyParams(text[i..], params)
    {
      var done, more, next := ParseOnePair(text, i, params);
      if done.Some? {
        return done.value;
      }
      params, i := more, next;
    }
    assert text[i..] == "";
    r := Some(params);
  }
}
