/** The Go codec of Payment challenges: printing, parsing, and splitting merged WWW-Authenticate values. */
module GoHeaders {
  import opened Common
  import opened HeaderText
  import opened Texts

  const SCHEME: string := "Payment"

  /** Library behaviour the codec relies on: Unicode lower-casing, and whether a request decodes as base64 JSON. */
  datatype Library = Library(toLower: string -> string, validRequest: string -> bool)

  datatype Challenge = Challenge(
    id: string, realm: string, method_: string, intent: string, request: string,
    expires: string, description: string, digest: string, opaqueData: Option<string>)

  datatype ParseError = BadScheme | BadParameter | Unterminated | Duplicate | BadRequest | BadMethod | MissingField

  // ── Printing ──

  function Optional(key: string, value: string): seq<Param> {
    if value != "" then [Quoted(key, value)] else []
  }

  function OptionalOpaque(o: Option<string>): seq<Param> {
    if o.Some? then [Quoted("opaque", o.value)] else []
  }

  function Required(c: Challenge): seq<Param> {
    [Quoted("id", c.id), Quoted("realm", c.realm), Quoted("method", c.method_), Quoted("intent", c.intent),
     Quoted("request", c.request)]
  }

  /** The printed parameters; the description travels inside the request and is not printed. */
  function Params(c: Challenge): seq<Param> {
    Required(c) + (Optional("expires", c.expires) + (Optional("digest", c.digest) + OptionalOpaque(c.opaqueData)))
  }

  function Format(c: Challenge): string {
    ItemText(Item(SCHEME, Params(c)))
  }

  // ── Parsing parameters ──

  predicate IsSeparator(c: char) { c == ' ' || c == '\t' || c == ',' }

  lemma {:induction false} ReadQuotedShrinks(s: string, escaped: bool)
    ensures ReadQuoted(s, escaped).Some? ==> |ReadQuoted(s, escaped).value.1| < |s|
  {
    if s != "" {
      if !escaped && s[0] == '\\' { ReadQuotedShrinks(s[1..], true); }
      else if escaped || s[0] != '"' { ReadQuotedShrinks(s[1..], false); }
    }
  }

  /** The value after the equals sign and the text that follows it. */
  function ReadValue(s: string): (r: Result<(string, string), ParseError>)
    ensures r.Ok? ==> |r.value.1| <= |s|
  {
    if s != "" && s[0] == '"' then
      ReadQuotedShrinks(s[1..], false);
      match ReadQuoted(s[1..], false)
      case None => Err(Unterminated)
      case Some(r) => Ok(r)
    else
      var comma := IndexOf(s, ',');
      if comma < 0 then Ok((TrimSpace(s), "")) else Ok((TrimSpace(s[..comma]), s[comma + 1..]))
  }

  function Prepend(built: string, r: Option<(string, string)>): Option<(string, string)> {
    match r
    case None => None
    case Some(read) => Some((built + read.0, read.1))
  }

  lemma {:induction false} PrependOne(built: string, c: char, r: Option<(string, string)>)
    ensures Prepend(built, Prepend([c], r)) == Prepend(built + [c], r)
  {
    if r.Some? {
      assert built + ([c] + r.value.0) == built + [c] + r.value.0;
    }
  }

  lemma {:induction false} PrependNothing(r: Option<(string, string)>)
    ensures Prepend("", r) == r
  {
    if r.Some? {
      assert "" + r.value.0 == r.value.0;
    }
  }

  /** One character of the reading loop. */
  lemma {:induction false} ReadQuotedStep(s: string, escaped: bool)
    requires s != ""
    ensures escaped || (s[0] != '\\' && s[0] != '"')
      ==> ReadQuoted(s, escaped) == Prepend([s[0]], ReadQuoted(s[1..], false))
    ensures !escaped && s[0] == '\\' ==> ReadQuoted(s, escaped) == ReadQuoted(s[1..], true)
    ensures !escaped && s[0] == '"' ==> ReadQuoted(s, escaped) == Some(("", s[1..]))
  {
  }

  method ReadQuotedValue(input: string) returns (value: string, consumed: int)
    ensures consumed == -1 <==> ReadQuoted(input, false) == None
    ensures consumed != -1 ==> 0 <= consumed <= |input| && ReadQuoted(input, false) == Some((value, input[consumed..]))
  {
    var builder, escaped, i := "", false, 0;
    value, consumed := "", -1;
    PrependNothing(ReadQuoted(input, false));
    assert input[0..] == input;
    while i < |input|
      invariant 0 <= i <= |input|
      invariant ReadQuoted(input, false) == Prepend(builder, ReadQuoted(input[i..], escaped))
    {
      var c := input[i];
      assert input[i..][0] == c && input[i..][1..] == input[i + 1..];
      ReadQuotedStep(input[i..], escaped);
      PrependOne(builder, c, ReadQuoted(input[i + 1..], false));
      if escaped {
        builder := builder + [c];
        escaped := false;
      } else if c == '\\' {
        escaped := true;
      } else if c == '"' {
        assert builder + "" == builder;
        return builder, i + 1;
      } else {
        builder := builder + [c];
      }
      i := i + 1;
    }
  }

  /** The value after an equals sign, and the text after it. */
  method ReadParamValue(text: string) returns (r: Result<(string, string), ParseError>)
    ensures r == ReadValue(text)
  {
    if text != "" && text[0] == '"' {
      var value, consumed := ReadQuotedValue(text[1..]);
      if consumed == -1 {
        return Err(Unterminated);
      }
      return Ok((value, text[1..][consumed..]));
    }
    var next := IndexOf(text, ',');
    if next == -1 {
      return Ok((TrimSpace(text), ""));
    }
    r := Ok((TrimSpace(text[..next]), text[next + 1..]));
  }

  /** The first parameter of a text without leading separators, or why there is none. */
  function FirstParam(t: string): (r: Result<(string, string, string), ParseError>)
    requires t != ""
    ensures r.Ok? ==> |r.value.2| < |t|
  {
    var eq := IndexOf(t, '=');
    if eq <= 0 then Err(BadParameter) else Keyed(TrimSpace(t[..eq]), ReadValue(t[eq + 1..]))
  }

  /** A key with the value and the rest that were read after it. */
  function Keyed(key: string, read: Result<(string, string), ParseError>): Result<(string, string, string), ParseError> {
    match read
    case Err(error) => Err(error)
    case Ok(r) => Ok((key, r.0, r.1))
  }

  method ReadParam(t: string) returns (r: Result<(string, string, string), ParseError>)
    requires t != ""
    ensures r == FirstParam(t)
  {
    var eq := IndexOf(t, '=');
    if eq <= 0 {
      return Err(BadParameter);
    }
    var read := ReadParamValue(t[eq + 1..]);
    r := Keyed(TrimSpace(t[..eq]), read);
  }

  /** Parse the parameters of the input on top of those already parsed. */
  function ParseParams(input: string, params: map<string, string>): Result<map<string, string>, ParseError>
    decreases |input|
  {
    var t := TrimLeft(input, IsSeparator);
    if TrimSpace(input) == "" || t == "" then Ok(params)
    else
      match FirstParam(t)
      case Err(error) => Err(error)
      case Ok(p) => if p.0 in params then Err(Duplicate) else ParseParams(p.2, params[p.0 := p.1])
  }

  method ParseAuthParams(text: string) returns (r: Result<map<string, string>, ParseError>)
    ensures r == ParseParams(text, map[])
  {
    var params: map<string, string> := map[];
    var input := text;
    while TrimSpace(input) != ""
      invariant ParseParams(text, map[]) == ParseParams(input, params)
      decreases |input|
    {
      var t := TrimLeft(input, IsSeparator);
      if t == "" {
        return Ok(params);
      }
      var p := ReadParam(t);
      if p.Err? {
        return Err(p.error);
      }
      if p.value.0 in params {
        return Err(Duplicate);
      }
      params := params[p.value.0 := p.value.1];
      input := p.value.2;
    }
    r := Ok(params);
  }

  // ── Parsing one challenge ──

  function Lower(c: char): char {
    if 'A' <= c <= 'Z' then (c as int + 32) as char else c
  }

  /** Case-insensitive equality; no letter of the scheme name folds to a character outside ASCII. */
  predicate EqualFold(a: string, b: string) {
    |a| == |b| && forall i :: 0 <= i < |a| ==> Lower(a[i]) == Lower(b[i])
  }

  function StripScheme(header: string): Option<string> {
    var h := TrimSpace(header);
    if |h| < 7 || !EqualFold(h[..7], SCHEME) then None else Some(TrimSpace(h[7..]))
  }

  function Get(m: map<string, string>, key: string): string {
    if key in m then m[key] else ""
  }

  predicate IsMethodName(s: string) {
    s != "" && forall i :: 0 <= i < |s| ==> 'a' <= s[i] <= 'z'
  }

  /** The challenge that parsed parameters stand for. */
  function Interpret(m: map<string, string>, lib: Library): Result<Challenge, ParseError> {
    var request := Get(m, "request");
    if request == "" || !lib.validRequest(request) then Err(BadRequest)
    else if !IsMethodName(lib.toLower(Get(m, "method"))) then Err(BadMethod)
    else
      var c := Challenge(
        Get(m, "id"), Get(m, "realm"), lib.toLower(Get(m, "method")), lib.toLower(Get(m, "intent")), request,
        Get(m, "expires"), Get(m, "description"), Get(m, "digest"),
        if "opaque" in m then Some(m["opaque"]) else None);
      if c.id == "" || c.realm == "" || c.intent == "" then Err(MissingField) else Ok(c)
  }

  /** The challenge that the text after the scheme name stands for. */
  function ParseText(text: Option<string>, lib: Library): Result<Challenge, ParseError> {
    match text
    case None => Err(BadScheme)
    case Some(rest) =>
      match ParseParams(TrimSpace(rest), map[])
      case Err(error) => Err(error)
      case Ok(m) => Interpret(m, lib)
  }

  function Parse(header: string, lib: Library): Result<Challenge, ParseError> {
    ParseText(StripScheme(header), lib)
  }

  method ParseWWWAuthenticate(header: string, lib: Library) returns (r: Result<Challenge, ParseError>)
    ensures r == Parse(header, lib)
  {
    var rest := StripScheme(header);
    if rest.None? {
      return Err(BadScheme);
    }
    var parsed := ParseAuthParams(TrimSpace(rest.value));
    if parsed.Err? {
      return Err(parsed.error);
    }
    r := Interpret(parsed.value, lib);
  }

  // ── Splitting merged challenges ──

  /** The length of the scheme name if the text starts with it and a blank follows. */
  function PaymentLength(s: string): nat {
    if |s| > 7 && EqualFold(s[..7], SCHEME) && IsBlank(s[7]) then 7 else 0
  }

  /** The length of the prefix that holds no blank, comma or equals sign. */
  function TokenRun(s: string): (n: nat)
    ensures n <= |s|
    ensures n < |s| ==> s[n] == '=' || IsSeparator(s[n])
    ensures forall i :: 0 <= i < n ==> s[i] != '=' && !IsSeparator(s[i])
  {
    if s == "" || s[0] == '=' || IsSeparator(s[0]) then 0 else 1 + TokenRun(s[1..])
  }

  /** The length of the leading token if a blank follows it. */
  function AuthLength(s: string): nat {
    var n := TokenRun(s);
    if n < |s| && IsBlank(s[n]) then n else 0
  }

  predicate IsComma(c: char) { c == ',' }

  /** The text of one challenge without the separator to the next. */
  function Tidy(piece: string): string {
    TrimSpace(TrimRight(TrimSpace(piece), IsComma))
  }

  function Listed(value: string): seq<string> {
    if value != "" then [value] else []
  }

  /** The piece that begins at the first start: up to the next Payment start or, for the last, the next scheme. */
  function Piece(starts: seq<string>): string
    requires starts != []
  {
    var s := starts[0];
    if |starts| > 1 then (if |starts[1]| <= |s| then s[..|s| - |starts[1]|] else s)
    else if |s| < 7 then s
    else
      var next := Starts(s[7..], Outside(false), AuthLength);
      if next != [] && |next[0]| <= |s| then s[..|s| - |next[0]|] else s
  }

  function Values(starts: seq<string>): seq<string> {
    if starts == [] then [] else Listed(Tidy(Piece(starts))) + Values(starts[1..])
  }

  function SplitValues(header: string): seq<string> {
    Values(Starts(header, Outside(true), PaymentLength))
  }

  function Kept(r: Result<Challenge, ParseError>): seq<Challenge> {
    if r.Ok? then [r.value] else []
  }

  /** A parser of one challenge, and a splitter of a header into the texts of single challenges. */
  type Parser = string -> Result<Challenge, ParseError>

  type Splitter = string -> seq<string>

  /** The challenges of the values that parse, in order. */
  function ParseEach(values: seq<string>, parse: Parser): seq<Challenge> {
    if values == [] then [] else Kept(parse(values[0])) + ParseEach(values[1..], parse)
  }

  /** The challenges of all headers, in order. */
  function ParseHeaders(headers: seq<string>, split: Splitter, parse: Parser): seq<Challenge> {
    if headers == [] then [] else ParseEach(split(headers[0]), parse) + ParseHeaders(headers[1..], split, parse)
  }

  function GoParser(lib: Library): Parser {
    header => Parse(header, lib)
  }

  function ParseAll(headers: seq<string>, lib: Library): seq<Challenge> {
    ParseHeaders(headers, SplitValues, GoParser(lib))
  }
}
