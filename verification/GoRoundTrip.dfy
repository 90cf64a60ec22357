/** Parsing what was printed: parameter lists, single challenges, and challenges merged with those of other schemes. */
module GoRoundTrip {
  import opened Common
  import opened HeaderText
  import opened Texts
  import opened GoHeaders
  import opened GoRecovery

  // ── Parameter lists ──

  /** Text before an equals sign: a key, possibly with what the parser takes to be part of it. */
  predicate IsKeyText(k: string) {
    k != "" && IsEdge(k[0]) && forall i :: 0 <= i < |k| ==> k[i] != '='
  }

  /** An unquoted value, which may be empty. */
  predicate IsPlain(v: string) {
    forall i :: 0 <= i < |v| ==> IsEdge(v[i]) && v[i] != '"'
  }

  /** What may stand between two separators of a value: a parameter whose key may have a scheme name in front, or a word. */
  predicate IsPart(p: Param) {
    match p
    case Quoted(key, _) => IsKeyText(key)
    case Token(key, value) => IsKeyText(key) && IsPlain(value)
    case Bare(text) => text != "" && IsEdge(text[0]) && (HasEquals(p) ==> IsPlain(text[IndexOf(text, '=') + 1..]))
  }

  predicate AreParts(ps: seq<Param>) {
    forall i :: 0 <= i < |ps| ==> IsPart(ps[i])
  }

  /** The part contains an equals sign outside quotes. */
  predicate HasEquals(p: Param) {
    p.Bare? ==> IndexOf(p.text, '=') >= 0
  }

  /** The text before the first equals sign. */
  function KeyPart(p: Param): string
    requires HasEquals(p)
  {
    if p.Bare? then p.text[..IndexOf(p.text, '=')] else p.key
  }

  /** The part with another key. */
  function Rekeyed(key: string, p: Param): Param
    requires HasEquals(p)
  {
    match p
    case Quoted(_, value) => Quoted(key, value)
    case Token(_, value) => Token(key, value)
    case Bare(text) => Token(key, text[IndexOf(text, '=') + 1..])
  }

  /**
   * The parameters that the parser reads: a word without an equals sign becomes part of the next key. There are none if
   * no equals sign follows a word, or if an equals sign has no key before it.
   */
  function Glue(before: string, ps: seq<Param>): Option<seq<Param>>
    decreases ps
  {
    if ps == [] then if before == "" then Some([]) else None
    else if !HasEquals(ps[0]) then Glue(before + ps[0].text + ", ", ps[1..])
    else if before + KeyPart(ps[0]) == "" then None
    else
      match Glue("", ps[1..])
      case None => None
      case Some(more) => Some([Rekeyed(TrimSpace(before + KeyPart(ps[0])), ps[0])] + more)
  }

  lemma {:induction false} NotAllSpace(s: string, i: nat)
    requires i < |s| && !IsSpace(s[i])
    ensures TrimSpace(s) != ""
    decreases s
  {
    TrimLeftKeeps(s, i);
    var t := TrimLeft(s, IsSpace);
    TrimRightKeeps(t, i - (|s| - |t|));
  }

  lemma {:induction false} TrimLeftKeeps(s: string, i: nat)
    requires i < |s| && !IsSpace(s[i])
    ensures |s| - |TrimLeft(s, IsSpace)| <= i
    ensures TrimLeft(s, IsSpace)[i - (|s| - |TrimLeft(s, IsSpace)|)] == s[i]
    decreases s
  {
    if IsSpace(s[0]) {
      TrimLeftKeeps(s[1..], i - 1);
    }
  }

  lemma {:induction false} TrimRightKeeps(s: string, i: nat)
    requires i < |s| && !IsSpace(s[i])
    ensures i < |TrimRight(s, IsSpace)|
    decreases s
  {
    if IsSpace(s[|s| - 1]) {
      TrimRightKeeps(s[..|s| - 1], i);
    }
  }

  predicate AreSeparators(s: string) {
    forall i :: 0 <= i < |s| ==> s[i] == ' ' || s[i] == '\t' || s[i] == ','
  }

  lemma {:induction false} TrimSeparators(sep: string, t: string)
    requires AreSeparators(sep) && t != "" && !IsSeparator(t[0])
    ensures TrimLeft(sep + t, IsSeparator) == t
    decreases sep
  {
    if sep == "" {
      assert sep + t == t;
    } else {
      assert (sep + t)[1..] == sep[1..] + t;
      TrimSeparators(sep[1..], t);
    }
  }

  lemma {:induction false} FirstEquals(key: string, u: string)
    requires forall i :: 0 <= i < |key| ==> key[i] != '='
    ensures IndexOf(key + "=" + u, '=') == |key|
  {
    var s := key + "=" + u;
    assert s[|key|] == '=';
    assert forall j :: 0 <= j < |key| ==> s[j] == key[j];
  }

  /** The text of a parameter after its equals sign. */
  function ValueText(p: Param): string
    requires !p.Bare?
  {
    if p.Quoted? then "\"" + Escape(p.value) + "\"" else p.value
  }

  /** What the parser has left after a parameter followed by `tail`: a token value takes the comma with it. */
  function After(p: Param, tail: string): string {
    if p.Quoted? || tail == "" then tail else tail[1..]
  }

  lemma {:induction false} ReadPrinted(p: Param, tail: string)
    requires !p.Bare? && (p.Token? ==> IsPlain(p.value)) && Ends(tail)
    ensures ReadValue(ValueText(p) + tail) == Ok((ParamValue(p), After(p, tail)))
  {
    if p.Quoted? {
      ReadEscaped(p.value, tail);
      assert (ValueText(p) + tail)[1..] == Escape(p.value) + "\"" + tail;
    } else {
      ReadPlain(p.value, tail);
    }
  }

  lemma {:induction false} ReadPlain(v: string, tail: string)
    requires IsPlain(v) && Ends(tail)
    ensures ReadValue(v + tail) == Ok((v, if tail == "" then "" else tail[1..]))
  {
    var s := v + tail;
    assert TrimSpace(v) == v by { TrimNothing(v); }
    if tail == "" {
      assert s == v;
      ReadToEnd(v);
    } else {
      FirstComma(v, tail);
      assert s[..|v|] == v && s[|v| + 1..] == tail[1..];
      ReadToComma(s, |v|);
    }
  }

  lemma {:induction false} ReadToEnd(v: string)
    requires IsPlain(v)
    ensures ReadValue(v) == Ok((TrimSpace(v), ""))
  {
    assert IndexOf(v, ',') == -1;
  }

  lemma {:induction false} FirstComma(v: string, tail: string)
    requires IsPlain(v) && tail != "" && tail[0] == ','
    ensures IndexOf(v + tail, ',') == |v|
    ensures (v + tail)[0] != '"'
  {
    var s := v + tail;
    assert s[|v|] == ',';
    assert forall j :: 0 <= j < |v| ==> s[j] == v[j];
  }

  lemma {:induction false} ReadToComma(s: string, comma: nat)
    requires comma < |s| && s[0] != '"' && IndexOf(s, ',') == comma
    ensures ReadValue(s) == Ok((TrimSpace(s[..comma]), s[comma + 1..]))
  {
  }

  /** The parameter that a key text and a value are read as. */
  lemma {:induction false} FirstPrinted(key: string, u: string, value: string, rest: string)
    requires IsKeyText(key) && ReadValue(u) == Ok((value, rest))
    ensures FirstParam(key + "=" + u) == Ok((TrimSpace(key), value, rest))
  {
    var t := key + "=" + u;
    assert IndexOf(t, '=') == |key| by { FirstEquals(key, u); }
    assert t[..|key|] == key && t[|key| + 1..] == u;
  }

  /** One turn of the parsing loop, from the parameter it reads. */
  lemma {:induction false} ParseStep(input: string, t: string, p: (string, string, string), m: map<string, string>)
    requires TrimSpace(input) != "" && TrimLeft(input, IsSeparator) == t && t != "" && FirstParam(t) == Ok(p)
    ensures ParseParams(input, m) == if p.0 in m then Err(Duplicate) else ParseParams(p.2, m[p.0 := p.1])
  {
  }

  lemma {:induction false} SeparatedText(sep: string, t: string)
    requires AreSeparators(sep) && t != "" && IsEdge(t[0])
    ensures TrimSpace(sep + t) != "" && TrimLeft(sep + t, IsSeparator) == t
  {
    NotAllSpace(sep + t, |sep|);
    TrimSeparators(sep, t);
  }

  /** A part that is read as parameter `p` under the key text `key`. */
  lemma {:induction false} ParseOne(sep: string, key: string, p: Param, tail: string, m: map<string, string>)
    requires AreSeparators(sep) && IsKeyText(key) && !p.Bare? && (p.Token? ==> IsPlain(p.value)) && Ends(tail)
    requires p.key == TrimSpace(key)
    ensures ParseParams(sep + (key + "=" + (ValueText(p) + tail)), m)
      == if p.key in m then Err(Duplicate) else ParseParams(After(p, tail), m[p.key := ParamValue(p)])
  {
    var u, value, rest := ValueText(p) + tail, ParamValue(p), After(p, tail);
    var t := key + "=" + u;
    assert FirstParam(t) == Ok((p.key, value, rest)) by {
      ReadPrinted(p, tail);
      FirstPrinted(key, u, value, rest);
    }
    SeparatedText(sep, t);
    ParseStep(sep + t, t, (p.key, value, rest), m);
  }

  /** Text without a key before its first equals sign is refused. */
  lemma {:induction false} ParseUnnamed(sep: string, t: string, m: map<string, string>)
    requires AreSeparators(sep) && t != "" && IsEdge(t[0]) && IndexOf(t, '=') <= 0
    ensures ParseParams(sep + t, m) == Err(BadParameter)
  {
    SeparatedText(sep, t);
  }

  /** The result of parsing a list: the map it builds, unless a key occurs twice. */
  function Outcome(m: map<string, string>, ps: seq<Param>): Result<map<string, string>, ParseError> {
    if DistinctFrom(m, ps) then Ok(Extend(m, ps)) else Err(Duplicate)
  }

  lemma {:induction false} OutcomeStep(m: map<string, string>, p: Param, more: seq<Param>)
    requires !p.Bare?
    ensures Outcome(m, [p] + more) == if p.key in m then Err(Duplicate) else Outcome(m[p.key := ParamValue(p)], more)
  {
    assert ([p] + more)[1..] == more;
  }

  /** The text after the first parameter, as the parser sees it next. */
  function Separator(p: Param): (sep: string)
    ensures AreSeparators(sep)
  {
    if p.Quoted? then ", " else " "
  }

  lemma {:induction false} ParseNothing(sep: string, m: map<string, string>)
    requires AreSeparators(sep)
    ensures ParseParams(sep, m) == Ok(m)
    decreases sep
  {
    AllTrimmed(sep);
  }

  lemma {:induction false} AllTrimmed(sep: string)
    requires AreSeparators(sep)
    ensures TrimLeft(sep, IsSeparator) == ""
    decreases sep
  {
    if sep != "" {
      AllTrimmed(sep[1..]);
    }
  }

  /** Words that the parser takes to be the beginning of a key. */
  predicate IsBefore(before: string) {
    before != "" ==> IsKeyText(before)
  }

  /** The parser's result on a list of parts, after the words `before` were read. */
  predicate ReadsAs(r: Result<map<string, string>, ParseError>, m: map<string, string>, glued: Option<seq<Param>>) {
    match glued
    case None => r.Err?
    case Some(ps) => r == Outcome(m, ps)
  }

  /** The text of a part with an equals sign, around that sign. */
  lemma {:induction false} PartText(p: Param, key: string, tail: string)
    requires HasEquals(p)
    ensures !Rekeyed(key, p).Bare?
    ensures ParamText(p) + tail == KeyPart(p) + "=" + (ValueText(Rekeyed(key, p)) + tail)
  {
    if p.Bare? {
      var i := IndexOf(p.text, '=');
      assert p.text == p.text[..i] + "=" + p.text[i + 1..];
    }
  }

  lemma {:induction false} KeyTextConcat(before: string, p: Param)
    requires IsBefore(before) && IsPart(p) && HasEquals(p) && before + KeyPart(p) != ""
    ensures IsKeyText(before + KeyPart(p))
  {
  }

  /** One part with an equals sign: the parser reads it and goes on after it. */
  lemma {:induction false} ParsePart(sep: string, before: string, p: Param, tail: string, m: map<string, string>)
    requires AreSeparators(sep) && IsBefore(before) && IsPart(p) && HasEquals(p) && Ends(tail)
    requires before + KeyPart(p) != ""
    ensures var k := Rekeyed(TrimSpace(before + KeyPart(p)), p);
      && !k.Bare?
      && ParseParams(sep + (before + (ParamText(p) + tail)), m)
         == if k.key in m then Err(Duplicate) else ParseParams(After(k, tail), m[k.key := ParamValue(k)])
  {
    var key := before + KeyPart(p);
    var k := Rekeyed(TrimSpace(key), p);
    assert IsKeyText(key) by { KeyTextConcat(before, p); }
    RekeyedIsPlain(p, TrimSpace(key));
    ParseOne(sep, key, k, tail, m);
    PartText(p, TrimSpace(key), tail);
    KeyJoins(before, KeyPart(p), ValueText(k) + tail);
  }

  lemma {:induction false} KeyJoins(before: string, key: string, u: string)
    ensures before + (key + "=" + u) == (before + key) + "=" + u
  {
  }

  lemma {:induction false} RekeyedIsPlain(p: Param, key: string)
    requires IsPart(p) && HasEquals(p)
    ensures var k := Rekeyed(key, p); !k.Bare? && k.key == key && (k.Token? ==> IsPlain(k.value))
  {
  }

  /** What follows the first part. */
  function PartsRest(ps: seq<Param>): (tail: string)
    requires ps != []
    ensures Ends(tail)
    ensures ParamsText(ps) == ParamText(ps[0]) + tail
  {
    if |ps| == 1 then "" else ", " + ParamsText(ps[1..])
  }

  lemma {:induction false} AfterPart(k: Param, ps: seq<Param>)
    requires ps != [] && !k.Bare?
    ensures exists sep :: AreSeparators(sep) && After(k, PartsRest(ps)) == sep + ParamsText(ps[1..])
  {
    if |ps| == 1 {
      assert After(k, PartsRest(ps)) == "" + ParamsText(ps[1..]);
    } else {
      var rest := ParamsText(ps[1..]);
      assert (", " + rest)[1..] == " " + rest;
      assert After(k, PartsRest(ps)) == Separator(k) + rest;
    }
  }

  lemma {:induction false} ReadsAsStep(m: map<string, string>, k: Param, glued: Option<seq<Param>>, r: Result<map<string, string>, ParseError>)
    requires !k.Bare? && k.key !in m && ReadsAs(r, m[k.key := ParamValue(k)], glued)
    ensures ReadsAs(r, m, match glued case None => None case Some(more) => Some([k] + more))
  {
    if glued.Some? {
      OutcomeStep(m, k, glued.value);
    }
  }

  lemma {:induction false} ReadsAsDuplicate(m: map<string, string>, k: Param, glued: Option<seq<Param>>)
    requires !k.Bare? && k.key in m
    ensures ReadsAs(Err(Duplicate), m, match glued case None => None case Some(more) => Some([k] + more))
  {
    if glued.Some? {
      OutcomeStep(m, k, glued.value);
    }
  }

  lemma {:induction false} ReadsAsNext(m: map<string, string>, k: Param, glued: Option<seq<Param>>, r: Result<map<string, string>, ParseError>)
    requires !k.Bare? && ReadsAs(r, m[k.key := ParamValue(k)], glued)
    ensures ReadsAs(if k.key in m then Err(Duplicate) else r, m, match glued case None => None case Some(more) => Some([k] + more))
  {
    if k.key in m {
      ReadsAsDuplicate(m, k, glued);
    } else {
      ReadsAsStep(m, k, glued, r);
    }
  }

  /** The words before, another word, and the rest of the list. */
  lemma {:induction false} WordText(before: string, ps: seq<Param>)
    requires IsBefore(before) && |ps| > 1 && IsPart(ps[0]) && !HasEquals(ps[0])
    ensures IsKeyText(before + ps[0].text + ", ")
    ensures before + ParamsText(ps) == (before + ps[0].text + ", ") + ParamsText(ps[1..])
  {
    assert forall i :: 0 <= i < |ps[0].text| ==> ps[0].text[i] != '=';
  }

  lemma {:induction false} LastWordText(before: string, p: Param)
    requires IsBefore(before) && IsPart(p) && !HasEquals(p)
    ensures IsKeyText(before + p.text) && IndexOf(before + p.text, '=') == -1
  {
    assert forall i :: 0 <= i < |p.text| ==> p.text[i] != '=';
  }

  /** Parsing a printed list of parts yields exactly the parameters they glue to. */
  lemma {:induction false} ParsePrinted(sep: string, before: string, ps: seq<Param>, m: map<string, string>)
    requires AreSeparators(sep) && IsBefore(before) && AreParts(ps)
    requires before != "" ==> ps != []
    ensures ReadsAs(ParseParams(sep + (before + ParamsText(ps)), m), m, Glue(before, ps))
    decreases |ps|, 2
  {
    if ps == [] {
      assert sep + ("" + "") == sep;
      ParseNothing(sep, m);
    } else if !HasEquals(ps[0]) {
      if |ps| == 1 {
        ParseLastWord(sep, before, ps, m);
      } else {
        ParseWord(sep, before, ps, m);
      }
    } else if before + KeyPart(ps[0]) == "" {
      ParseKeyless(sep, before, ps, m);
    } else {
      ParseKeyed(sep, before, ps, m);
    }
  }

  lemma {:induction false} ParseWord(sep: string, before: string, ps: seq<Param>, m: map<string, string>)
    requires AreSeparators(sep) && IsBefore(before) && AreParts(ps) && |ps| > 1 && !HasEquals(ps[0])
    ensures ReadsAs(ParseParams(sep + (before + ParamsText(ps)), m), m, Glue(before, ps))
    decreases |ps|, 0
  {
    WordText(before, ps);
    ParsePrinted(sep, before + ps[0].text + ", ", ps[1..], m);
  }

  lemma {:induction false} ParseKeyed(sep: string, before: string, ps: seq<Param>, m: map<string, string>)
    requires AreSeparators(sep) && IsBefore(before) && AreParts(ps)
    requires ps != [] && HasEquals(ps[0]) && before + KeyPart(ps[0]) != ""
    ensures ReadsAs(ParseParams(sep + (before + ParamsText(ps)), m), m, Glue(before, ps))
    decreases |ps|, 1
  {
    var k := Rekeyed(TrimSpace(before + KeyPart(ps[0])), ps[0]);
    var rest := ParseParams(After(k, PartsRest(ps)), m[k.key := ParamValue(k)]);
    ParsePrintedPart(sep, before, ps, m);
    assert ReadsAs(rest, m[k.key := ParamValue(k)], Glue("", ps[1..])) by { ParseMore(k, ps, m[k.key := ParamValue(k)]); }
    ReadsAsGlued(before, ps, k, m, rest);
  }

  lemma {:induction false} ReadsAsGlued(before: string, ps: seq<Param>, k: Param, m: map<string, string>, r: Result<map<string, string>, ParseError>)
    requires ps != [] && HasEquals(ps[0]) && before + KeyPart(ps[0]) != ""
    requires k == Rekeyed(TrimSpace(before + KeyPart(ps[0])), ps[0]) && !k.Bare?
    requires ReadsAs(r, m[k.key := ParamValue(k)], Glue("", ps[1..]))
    ensures ReadsAs(if k.key in m then Err(Duplicate) else r, m, Glue(before, ps))
  {
    ReadsAsNext(m, k, Glue("", ps[1..]), r);
    GlueStep(before, ps);
  }

  lemma {:induction false} ParseMore(k: Param, ps: seq<Param>, m: map<string, string>)
    requires AreParts(ps) && ps != [] && !k.Bare?
    ensures ReadsAs(ParseParams(After(k, PartsRest(ps)), m), m, Glue("", ps[1..]))
    decreases |ps|, 0
  {
    var sep := PartSeparator(k, ps);
    ParseSeparated(sep, ps[1..], m);
  }

  lemma {:induction false} ParseSeparated(sep: string, ps: seq<Param>, m: map<string, string>)
    requires AreSeparators(sep) && AreParts(ps)
    ensures ReadsAs(ParseParams(sep + ParamsText(ps), m), m, Glue("", ps))
    decreases |ps|, 3
  {
    var text := ParamsText(ps);
    ParsePrinted(sep, "", ps, m);
    assert sep + ("" + text) == sep + text;
  }

  lemma {:induction false} PartSeparator(k: Param, ps: seq<Param>) returns (sep: string)
    requires ps != [] && !k.Bare?
    ensures AreSeparators(sep) && After(k, PartsRest(ps)) == sep + ParamsText(ps[1..])
  {
    AfterPart(k, ps);
    sep :| AreSeparators(sep) && After(k, PartsRest(ps)) == sep + ParamsText(ps[1..]);
  }

  lemma {:induction false} GlueStep(before: string, ps: seq<Param>)
    requires ps != [] && HasEquals(ps[0]) && before + KeyPart(ps[0]) != ""
    ensures Glue(before, ps) == match Glue("", ps[1..])
      case None => None
      case Some(more) => Some([Rekeyed(TrimSpace(before + KeyPart(ps[0])), ps[0])] + more)
  {
  }

  lemma {:induction false} ParseLastWord(sep: string, before: string, ps: seq<Param>, m: map<string, string>)
    requires AreSeparators(sep) && IsBefore(before) && |ps| == 1 && IsPart(ps[0]) && !HasEquals(ps[0])
    ensures Glue(before, ps) == None && ParseParams(sep + (before + ParamsText(ps)), m).Err?
  {
    LastWordText(before, ps[0]);
    ParseUnnamed(sep, before + ps[0].text, m);
    assert Glue(before + ps[0].text + ", ", ps[1..]) == None;
  }

  lemma {:induction false} ParseKeyless(sep: string, before: string, ps: seq<Param>, m: map<string, string>)
    requires AreSeparators(sep) && ps != [] && IsPart(ps[0]) && HasEquals(ps[0]) && before + KeyPart(ps[0]) == ""
    ensures Glue(before, ps) == None && ParseParams(sep + (before + ParamsText(ps)), m).Err?
  {
    var t := before + ParamsText(ps);
    assert t != "" && t[0] == '=' by { PartText(ps[0], "", PartsRest(ps)); }
    ParseUnnamed(sep, t, m);
  }

  lemma {:induction false} ParsePrintedPart(sep: string, before: string, ps: seq<Param>, m: map<string, string>)
    requires AreSeparators(sep) && IsBefore(before) && ps != [] && IsPart(ps[0]) && HasEquals(ps[0])
    requires before + KeyPart(ps[0]) != ""
    ensures var k := Rekeyed(TrimSpace(before + KeyPart(ps[0])), ps[0]);
      && !k.Bare?
      && ParseParams(sep + (before + ParamsText(ps)), m)
         == if k.key in m then Err(Duplicate) else ParseParams(After(k, PartsRest(ps)), m[k.key := ParamValue(k)])
  {
    ParsePart(sep, before, ps[0], PartsRest(ps), m);
  }

  // ── One value of the splitter ──

  /** The parts of a challenge as a preceding challenge absorbs them: the scheme name is a word, or goes before one. */
  function Absorbed(item: Item): (ps: seq<Param>)
    ensures ps != []
  {
    if item.params == [] then [Bare(item.scheme)]
    else
      var p := item.params[0];
      var first := match p
        case Quoted(key, value) => Quoted(item.scheme + " " + key, value)
        case Token(key, value) => Token(item.scheme + " " + key, value)
        case Bare(text) => Bare(item.scheme + " " + text);
      [first] + item.params[1..]
  }

  function AllAbsorbed(items: seq<Item>): seq<Param> {
    if items == [] then [] else Absorbed(items[0]) + AllAbsorbed(items[1..])
  }

  lemma {:induction false} ParamsTextConcat(a: seq<Param>, b: seq<Param>)
    requires a != [] && b != []
    ensures ParamsText(a + b) == ParamsText(a) + ", " + ParamsText(b)
    decreases a
  {
    assert (a + b)[1..] == a[1..] + b;
    if |a| > 1 {
      ParamsTextConcat(a[1..], b);
    } else {
      assert a[1..] + b == b;
    }
  }

  lemma {:induction false} AbsorbedText(item: Item)
    ensures ParamsText(Absorbed(item)) == ItemText(item)
  {
    if item.params != [] {
      var ps := Absorbed(item);
      assert ps[1..] == item.params[1..];
      assert ParamText(ps[0]) == item.scheme + " " + ParamText(item.params[0]);
    }
  }

  lemma {:induction false} AllAbsorbedText(items: seq<Item>)
    requires items != [] && AreItems(items)
    ensures AllAbsorbed(items) != [] && ParamsText(AllAbsorbed(items)) == Merged(items)
    decreases items
  {
    AbsorbedText(items[0]);
    if |items| == 1 {
      assert AllAbsorbed(items[1..]) == [];
      assert Absorbed(items[0]) + [] == Absorbed(items[0]);
    } else {
      AllAbsorbedText(items[1..]);
      ParamsTextConcat(Absorbed(items[0]), AllAbsorbed(items[1..]));
    }
  }

  /** All parts the parser sees in the value of a group. */
  function Seen(group: seq<Item>): seq<Param>
    requires group != []
  {
    group[0].params + AllAbsorbed(group[1..])
  }

  lemma {:induction false} SeenText(group: seq<Item>)
    requires group != [] && AreItems(group) && group[0].params != []
    ensures Merged(group) == group[0].scheme + " " + ParamsText(Seen(group))
  {
    var ps := group[0].params;
    if |group| == 1 {
      assert AllAbsorbed(group[1..]) == [];
      assert ps + [] == ps;
    } else {
      AllAbsorbedText(group[1..]);
      ParamsTextConcat(ps, AllAbsorbed(group[1..]));
    }
  }

  lemma {:induction false} ParamIsPart(p: Param)
    requires IsParam(p)
    ensures IsPart(p)
  {
    if p.Bare? {
      assert forall i :: 0 <= i < |p.text| ==> IsEdge(p.text[i]) && p.text[i] != '"';
    }
  }

  /** A scheme name, a blank and a word. */
  lemma {:induction false} PrefixedWord(scheme: string, text: string)
    requires IsToken(scheme) && IsParam(Bare(text))
    ensures IsPart(Bare(scheme + " " + text))
  {
    var t := scheme + " " + text;
    var e := IndexOf(t, '=');
    TokenCharIsEdge(scheme[0]);
    if e >= 0 {
      assert e > |scheme| by {
        assert forall i :: 0 <= i < |scheme| ==> t[i] == scheme[i] && IsTokenChar(scheme[i]);
        assert t[|scheme|] == ' ';
      }
      var v := t[e + 1..];
      forall j | 0 <= j < |v| ensures IsEdge(v[j]) && v[j] != '"' {
        assert v[j] == text[e + j - |scheme|];
        TokenCharIsEdge(v[j]);
      }
    }
  }

  lemma {:induction false} TokenCharIsEdge(c: char)
    requires IsTokenChar(c) || c == '='
    ensures IsEdge(c) && c != '"'
  {
  }

  lemma {:induction false} LetterIsNoSpace(c: char)
    requires 'a' <= Lower(c) <= 'z'
    ensures !IsSpace(c)
  {
  }

  lemma {:induction false} TrimAfterBlank(text: string)
    requires text != "" && !IsSpace(text[0]) && !IsSpace(text[|text| - 1])
    ensures TrimSpace(" " + text) == text
  {
    var s := " " + text;
    assert s[1..] == text;
    NothingToTrimLeft(text, IsSpace);
    TrimNothing(text);
  }

  lemma {:induction false} AbsorbedParts(item: Item)
    requires IsItem(item)
    ensures AreParts(Absorbed(item))
  {
    var ps := Absorbed(item);
    forall i | 0 <= i < |ps| ensures IsPart(ps[i]) {
      if item.params == [] {
        ParamIsPart(Bare(item.scheme));
      } else if i > 0 {
        assert ps[i] == item.params[i];
        ParamIsPart(item.params[i]);
      } else if item.params[0].Bare? {
        PrefixedWord(item.scheme, item.params[0].text);
      }
    }
  }

  lemma {:induction false} AllAbsorbedParts(items: seq<Item>)
    requires AreItems(items)
    ensures AreParts(AllAbsorbed(items))
    decreases items
  {
    if items != [] {
      AbsorbedParts(items[0]);
      AllAbsorbedParts(items[1..]);
    }
  }

  lemma {:induction false} SeenParts(group: seq<Item>)
    requires group != [] && AreItems(group)
    ensures AreParts(Seen(group))
  {
    AllAbsorbedParts(group[1..]);
    forall i | 0 <= i < |group[0].params| ensures IsPart(group[0].params[i]) {
      ParamIsPart(group[0].params[i]);
    }
  }

  function Read(ps: seq<Param>, lib: Library): Result<Challenge, ParseError> {
    if DistinctFrom(map[], ps) then Interpret(Extend(map[], ps), lib) else Err(Duplicate)
  }

  lemma {:induction false} StripPrinted(scheme: string, text: string)
    requires EqualFold(scheme, SCHEME)
    requires text != "" && IsEdge(text[0]) && IsEdge(text[|text| - 1])
    ensures StripScheme(scheme + " " + text) == Some(text)
  {
    var s := scheme + " " + text;
    assert Lower(scheme[0]) == 'p';
    LetterIsNoSpace(scheme[0]);
    TrimNothing(s);
    assert s[..7] == scheme && s[7..] == " " + text;
    TrimAfterBlank(text);
  }

  /** The parser reads the value of a group as one challenge with all the parameters that the parts of the group glue to. */
  lemma {:induction false} ParseGroup(group: seq<Item>, lib: Library)
    requires group != [] && AreItems(group) && IsHead(group[0])
    ensures match Glue("", Seen(group))
      case None => Parse(Merged(group), lib).Err?
      case Some(ps) => Parse(Merged(group), lib) == Read(ps, lib)
  {
    SeenEdges(group);
    GroupReads(group);
    GroupStrips(group);
    ParseReads(Merged(group), ParamsText(Seen(group)), Glue("", Seen(group)), lib);
  }

  lemma {:induction false} GroupReads(group: seq<Item>)
    requires group != [] && AreItems(group)
    ensures ReadsAs(ParseParams(ParamsText(Seen(group)), map[]), map[], Glue("", Seen(group)))
  {
    SeenParts(group);
    ParseSeparated("", Seen(group), map[]);
    assert "" + ParamsText(Seen(group)) == ParamsText(Seen(group));
  }

  lemma {:induction false} GroupStrips(group: seq<Item>)
    requires group != [] && AreItems(group) && IsHead(group[0])
    ensures StripScheme(Merged(group)) == Some(ParamsText(Seen(group)))
  {
    var text := ParamsText(Seen(group));
    assert Merged(group) == group[0].scheme + " " + text by { SeenText(group); }
    assert text != "" && IsEdge(text[0]) && IsEdge(text[|text| - 1]) by { SeenEdges(group); }
    StripPrinted(group[0].scheme, text);
  }

  lemma {:induction false} ParseReads(header: string, text: string, glued: Option<seq<Param>>, lib: Library)
    requires StripScheme(header) == Some(text) && text != "" && IsEdge(text[0]) && IsEdge(text[|text| - 1])
    requires ReadsAs(ParseParams(text, map[]), map[], glued)
    ensures glued.None? ==> Parse(header, lib).Err?
    ensures glued.Some? ==> Parse(header, lib) == Read(glued.value, lib)
  {
    ParseStripped(header, text, lib);
    ReadGlued(ParseParams(text, map[]), glued, lib);
  }

  function Interpreted(parsed: Result<map<string, string>, ParseError>, lib: Library): Result<Challenge, ParseError> {
    match parsed
    case Err(error) => Err(error)
    case Ok(m) => Interpret(m, lib)
  }

  lemma {:induction false} ParseStripped(header: string, text: string, lib: Library)
    requires StripScheme(header) == Some(text) && text != "" && IsEdge(text[0]) && IsEdge(text[|text| - 1])
    ensures Parse(header, lib) == Interpreted(ParseParams(text, map[]), lib)
  {
    TrimNothing(text);
  }

  lemma {:induction false} ReadGlued(parsed: Result<map<string, string>, ParseError>, glued: Option<seq<Param>>, lib: Library)
    requires ReadsAs(parsed, map[], glued)
    ensures glued.None? ==> Interpreted(parsed, lib).Err?
    ensures glued.Some? ==> Interpreted(parsed, lib) == Read(glued.value, lib)
  {
  }

  lemma {:induction false} SeenEdges(group: seq<Item>)
    requires group != [] && AreItems(group) && group[0].params != []
    ensures var t := ParamsText(Seen(group)); t != "" && IsEdge(t[0]) && IsEdge(t[|t| - 1])
  {
    MergedEdges(group);
    SeenText(group);
    ParamsEdges(group[0].params);
    if |group| == 1 {
      assert AllAbsorbed(group[1..]) == [];
      assert group[0].params + [] == group[0].params;
    } else {
      AllAbsorbedText(group[1..]);
      ParamsTextConcat(group[0].params, AllAbsorbed(group[1..]));
    }
  }
}
