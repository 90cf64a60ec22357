/** The text of a printed Payment challenge, and which parsed parameters make up a challenge, spelled out. */
module GoPrinted {
  import opened Common
  import opened HeaderText
  import opened Texts
  import opened GoHeaders
  import opened GoRoundTrip

  // ── Printing ──

  /** A backslash before quotes and backslashes; line breaks are dropped. */
  function Guarded(v: string): string {
    if v == "" then ""
    else if v[0] == '"' || v[0] == '\\' then ['\\', v[0]] + Guarded(v[1..])
    else if v[0] == '\r' || v[0] == '\n' then Guarded(v[1..])
    else [v[0]] + Guarded(v[1..])
  }

  function Quote(v: string): string {
    "\"" + Guarded(v) + "\""
  }

  lemma {:induction false} GuardedIsEscaped(v: string)
    ensures Guarded(v) == Escape(v)
  {
    if v != "" {
      GuardedIsEscaped(v[1..]);
    }
  }

  /** A field with its name. */
  datatype Named = Named(name: string, value: string)

  function Shown(fields: seq<Named>): string {
    if fields == [] then ""
    else
      fields[0].name + "=" + Quote(fields[0].value) + if |fields| == 1 then "" else ", " + Shown(fields[1..])
  }

  function IfAny(name: string, value: string): seq<Named> {
    if |value| == 0 then [] else [Named(name, value)]
  }

  /** The fields that are shown, in this order; the description is not among them. */
  function FieldsOf(c: Challenge): seq<Named> {
    [Named("id", c.id), Named("realm", c.realm), Named("method", c.method_), Named("intent", c.intent), Named("request", c.request)]
    + (IfAny("expires", c.expires)
       + (IfAny("digest", c.digest) + match c.opaqueData case None => [] case Some(value) => [Named("opaque", value)]))
  }

  function AsParams(fields: seq<Named>): seq<Param> {
    seq(|fields|, i requires 0 <= i < |fields| => Quoted(fields[i].name, fields[i].value))
  }

  lemma {:induction false} ShownIs(fields: seq<Named>)
    ensures ParamsText(AsParams(fields)) == Shown(fields)
    decreases fields
  {
    if fields != [] {
      assert AsParams(fields)[1..] == AsParams(fields[1..]);
      ShownIs(fields[1..]);
      ShownOne(fields[0]);
    }
  }

  lemma {:induction false} ShownOne(field: Named)
    ensures ParamText(Quoted(field.name, field.value)) == field.name + "=" + Quote(field.value)
  {
    GuardedIsEscaped(field.value);
  }

  lemma {:induction false} AsParamsConcat(a: seq<Named>, b: seq<Named>)
    ensures AsParams(a + b) == AsParams(a) + AsParams(b)
  {
  }

  lemma {:induction false} ParamsAre(c: Challenge)
    ensures Params(c) == AsParams(FieldsOf(c))
  {
    var required :=
      [Named("id", c.id), Named("realm", c.realm), Named("method", c.method_), Named("intent", c.intent), Named("request", c.request)];
    var expires, digest := IfAny("expires", c.expires), IfAny("digest", c.digest);
    var last := match c.opaqueData case None => [] case Some(value) => [Named("opaque", value)];
    assert AsParams(required) == Required(c);
    OptionalIs("expires", c.expires);
    OptionalIs("digest", c.digest);
    assert AsParams(last) == OptionalOpaque(c.opaqueData);
    AsParamsConcat(digest, last);
    AsParamsConcat(expires, digest + last);
    AsParamsConcat(required, expires + (digest + last));
  }

  lemma {:induction false} OptionalIs(name: string, value: string)
    ensures AsParams(IfAny(name, value)) == Optional(name, value)
  {
  }

  /** The printed challenge, character by character. */
  lemma {:induction false} FormatIs(c: Challenge)
    ensures Format(c) == "Payment " + Shown(FieldsOf(c))
  {
    ParamsAre(c);
    ShownIs(FieldsOf(c));
  }

  // ── Names ──

  /** The scheme name in any case. */
  predicate IsPaymentName(s: string) {
    && |s| == 7
    && (s[0] == 'P' || s[0] == 'p') && (s[1] == 'A' || s[1] == 'a') && (s[2] == 'Y' || s[2] == 'y')
    && (s[3] == 'M' || s[3] == 'm') && (s[4] == 'E' || s[4] == 'e') && (s[5] == 'N' || s[5] == 'n')
    && (s[6] == 'T' || s[6] == 't')
  }

  lemma {:induction false} PaymentNames(s: string)
    ensures EqualFold(s, SCHEME) <==> IsPaymentName(s)
  {
    if |s| == 7 {
      assert SCHEME[0] == 'P' && SCHEME[1] == 'a' && SCHEME[2] == 'y' && SCHEME[3] == 'm';
      assert SCHEME[4] == 'e' && SCHEME[5] == 'n' && SCHEME[6] == 't';
      LowerIs(s[0], 'p');
      LowerIs(s[1], 'a');
      LowerIs(s[2], 'y');
      LowerIs(s[3], 'm');
      LowerIs(s[4], 'e');
      LowerIs(s[5], 'n');
      LowerIs(s[6], 't');
    }
  }

  lemma {:induction false} LowerIs(c: char, l: char)
    requires 'a' <= l <= 'z'
    ensures Lower(c) == l <==> c == l || c as int + 32 == l as int
  {
  }

  // ── Interpreting ──

  function Field(m: map<string, string>, name: string): string {
    if name in m then m[name] else ""
  }

  predicate IsLowerCaseName(s: string) {
    s != "" && forall i :: 0 <= i < |s| ==> s[i] in "abcdefghijklmnopqrstuvwxyz"
  }

  /** What parsed parameters stand for, and which of them are missing or wrong otherwise. */
  lemma {:induction false} InterpretIs(m: map<string, string>, lib: Library)
    ensures Interpret(m, lib) ==
            if Field(m, "request") == "" || !lib.validRequest(Field(m, "request")) then Err(BadRequest)
            else if !IsLowerCaseName(lib.toLower(Field(m, "method"))) then Err(BadMethod)
            else if Field(m, "id") == "" || Field(m, "realm") == "" || lib.toLower(Field(m, "intent")) == "" then Err(MissingField)
            else
              Ok(Challenge(
                   Field(m, "id"), Field(m, "realm"), lib.toLower(Field(m, "method")), lib.toLower(Field(m, "intent")),
                   Field(m, "request"), Field(m, "expires"), Field(m, "description"), Field(m, "digest"),
                   if "opaque" in m then Some(m["opaque"]) else None))
  {
    MethodNameIs(lib.toLower(Field(m, "method")));
  }

  lemma {:induction false} MethodNameIs(s: string)
    ensures IsMethodName(s) <==> IsLowerCaseName(s)
  {
    assert forall c: char :: 'a' <= c <= 'z' <==> c in "abcdefghijklmnopqrstuvwxyz" by {
      LowerCaseLetters();
    }
  }

  lemma {:induction false} LowerCaseLetters()
    ensures forall c: char :: 'a' <= c <= 'z' <==> c in "abcdefghijklmnopqrstuvwxyz"
  {
    var letters := "abcdefghijklmnopqrstuvwxyz";
    assert forall i :: 0 <= i < 26 ==> letters[i] as int == 'a' as int + i;
    forall c: char | 'a' <= c <= 'z' ensures c in letters {
      assert letters[c as int - 'a' as int] == c;
    }
  }

  // ── Refusals ──

  /** A header is one of ours exactly when the name of the scheme comes first, after white space; the rest is the parameters. */
  lemma {:induction false} SchemeIs(header: string, lib: Library)
    ensures StripScheme(header).Some? <==> |TrimSpace(header)| >= 7 && IsPaymentName(TrimSpace(header)[..7])
    ensures StripScheme(header).Some? ==> StripScheme(header).value == TrimSpace(TrimSpace(header)[7..])
    ensures StripScheme(header).None? ==> Parse(header, lib) == Err(BadScheme)
  {
    if |TrimSpace(header)| >= 7 {
      PaymentNames(TrimSpace(header)[..7]);
    }
  }

  lemma {:induction false} NoClosingQuote(v: string)
    ensures ReadQuoted(Guarded(v), false) == None
  {
    if v != "" {
      NoClosingQuote(v[1..]);
      var rest := Guarded(v[1..]);
      if v[0] == '"' || v[0] == '\\' {
        var s := ['\\', v[0]] + rest;
        assert s[1..] == [v[0]] + rest && ([v[0]] + rest)[1..] == rest;
        assert ReadQuoted([v[0]] + rest, true) == None;
      } else if v[0] != '\r' && v[0] != '\n' {
        assert ([v[0]] + rest)[1..] == rest;
      }
    }
  }

  /** A quoted value that is not closed is refused as such. */
  lemma {:induction false} OpenQuoteIsRefused(key: string, v: string, m: map<string, string>)
    requires IsKeyText(key)
    ensures ParseParams(key + "=\"" + Guarded(v), m) == Err(Unterminated)
  {
    var value := "\"" + Guarded(v);
    var t := key + "=" + value;
    assert key + "=\"" + Guarded(v) == t;
    NoClosingQuote(v);
    assert value[1..] == Guarded(v);
    assert ReadValue(value) == Err(Unterminated);
    FirstEquals(key, value);
    assert t[|key| + 1..] == value;
    assert t[0] == key[0];
    NothingToTrimLeft(t, IsSeparator);
    NotAllSpace(t, 0);
  }
}
