/** Payment challenges through the Go codec: what comes back, alone and merged with challenges of other schemes. */
module GoChallenges {
  import opened Common
  import opened HeaderText
  import opened Texts
  import opened GoHeaders
  import opened GoRecovery
  import opened GoRoundTrip

  /** What the parser can return for a printed challenge. */
  function Normalize(c: Challenge, lib: Library): Challenge {
    Challenge(
      Clean(c.id), Clean(c.realm), lib.toLower(Clean(c.method_)), lib.toLower(Clean(c.intent)), Clean(c.request),
      Clean(c.expires), "", Clean(c.digest), if c.opaqueData.Some? then Some(Clean(c.opaqueData.value)) else None)
  }

  /** One or more lower-case letters. */
  predicate IsMethodText(s: string) {
    |s| > 0 && forall i :: 0 <= i < |s| ==> 'a' <= s[i] <= 'z'
  }

  /** The fields the parser demands. */
  predicate Acceptable(c: Challenge, lib: Library) {
    && Clean(c.request) != "" && lib.validRequest(Clean(c.request))
    && IsMethodText(lib.toLower(Clean(c.method_)))
    && Clean(c.id) != "" && Clean(c.realm) != "" && lib.toLower(Clean(c.intent)) != ""
  }

  /** A challenge as this codec prints it, without line breaks and with names in lower case. */
  predicate Canonical(c: Challenge, lib: Library) {
    && OneLine(c.id) && OneLine(c.realm) && OneLine(c.method_) && OneLine(c.intent) && OneLine(c.request)
    && OneLine(c.expires) && OneLine(c.digest) && (c.opaqueData.Some? ==> OneLine(c.opaqueData.value))
    && lib.toLower(c.method_) == c.method_ && lib.toLower(c.intent) == c.intent
  }

  lemma {:induction false} CanonicalKept(c: Challenge, lib: Library)
    requires Canonical(c, lib)
    ensures Normalize(c, lib) == c.(description := "")
  {
    CleanOneLine(c.id);
    CleanOneLine(c.realm);
    CleanOneLine(c.method_);
    CleanOneLine(c.intent);
    CleanOneLine(c.request);
    CleanOneLine(c.expires);
    CleanOneLine(c.digest);
    if c.opaqueData.Some? {
      CleanOneLine(c.opaqueData.value);
    }
  }

  // ── The map of one challenge ──

  lemma {:induction false} ExtendConcat(m: map<string, string>, a: seq<Param>, b: seq<Param>)
    ensures Extend(m, a + b) == Extend(Extend(m, a), b)
    ensures DistinctFrom(m, a + b) <==> DistinctFrom(m, a) && DistinctFrom(Extend(m, a), b)
    decreases a
  {
    if a == [] {
      assert a + b == b;
    } else {
      assert (a + b)[1..] == a[1..] + b;
      ExtendConcat(if a[0].Bare? then m else m[a[0].key := ParamValue(a[0])], a[1..], b);
    }
  }

  lemma {:induction false} ExtendOne(m: map<string, string>, p: Param)
    requires !p.Bare?
    ensures Extend(m, [p]) == m[p.key := ParamValue(p)]
    ensures DistinctFrom(m, [p]) <==> p.key !in m
  {
    assert [p][1..] == [];
  }

  /** Fields with line breaks removed. */
  function RequiredFields(c: Challenge): map<string, string> {
    map["id" := Clean(c.id), "realm" := Clean(c.realm), "method" := Clean(c.method_), "intent" := Clean(c.intent),
        "request" := Clean(c.request)]
  }

  function With(m: map<string, string>, key: string, value: string): map<string, string> {
    if value != "" then m[key := Clean(value)] else m
  }

  function WithOpaque(m: map<string, string>, o: Option<string>): map<string, string> {
    if o.Some? then m["opaque" := Clean(o.value)] else m
  }

  /** The map that parsing a printed challenge yields. */
  function Fields(c: Challenge): map<string, string> {
    WithOpaque(With(With(RequiredFields(c), "expires", c.expires), "digest", c.digest), c.opaqueData)
  }

  lemma {:induction false} RequiredOutcome(c: Challenge)
    ensures Extend(map[], Required(c)) == RequiredFields(c)
    ensures DistinctFrom(map[], Required(c))
  {
    var p0, p1, p2 := Quoted("id", c.id), Quoted("realm", c.realm), Quoted("method", c.method_);
    var p3, p4 := Quoted("intent", c.intent), Quoted("request", c.request);
    assert Required(c) == [p0] + ([p1] + ([p2] + ([p3] + [p4])));
    var m0: map<string, string> := map[];
    var m1 := m0["id" := Clean(c.id)];
    var m2 := m1["realm" := Clean(c.realm)];
    var m3 := m2["method" := Clean(c.method_)];
    var m4 := m3["intent" := Clean(c.intent)];
    AddOne(m0, p0, [p1] + ([p2] + ([p3] + [p4])));
    AddOne(m1, p1, [p2] + ([p3] + [p4]));
    AddOne(m2, p2, [p3] + [p4]);
    AddOne(m3, p3, [p4]);
    ExtendOne(m4, p4);
  }

  lemma {:induction false} AddOne(m: map<string, string>, p: Param, more: seq<Param>)
    requires !p.Bare? && p.key !in m
    ensures Extend(m, [p] + more) == Extend(m[p.key := ParamValue(p)], more)
    ensures DistinctFrom(m, [p] + more) <==> DistinctFrom(m[p.key := ParamValue(p)], more)
  {
    ExtendConcat(m, [p], more);
    ExtendOne(m, p);
  }

  lemma {:induction false} AddOptional(m: map<string, string>, key: string, value: string, more: seq<Param>)
    requires key !in m
    ensures Extend(m, Optional(key, value) + more) == Extend(With(m, key, value), more)
    ensures DistinctFrom(m, Optional(key, value) + more) <==> DistinctFrom(With(m, key, value), more)
  {
    if value != "" {
      AddOne(m, Quoted(key, value), more);
    } else {
      assert Optional(key, value) + more == more;
    }
  }

  lemma {:induction false} AddOpaque(m: map<string, string>, o: Option<string>)
    requires "opaque" !in m
    ensures Extend(m, OptionalOpaque(o)) == WithOpaque(m, o)
    ensures DistinctFrom(m, OptionalOpaque(o))
  {
    if o.Some? {
      ExtendOne(m, Quoted("opaque", o.value));
    }
  }

  lemma {:induction false} ParamsOutcome(c: Challenge)
    ensures Extend(map[], Params(c)) == Fields(c)
    ensures DistinctFrom(map[], Params(c))
  {
    var a := RequiredFields(c);
    var b := With(a, "expires", c.expires);
    RequiredOutcome(c);
    var more := Optional("digest", c.digest) + OptionalOpaque(c.opaqueData);
    ExtendConcat(map[], Required(c), Optional("expires", c.expires) + more);
    AddOptional(a, "expires", c.expires, more);
    AddOptional(b, "digest", c.digest, OptionalOpaque(c.opaqueData));
    AddOpaque(With(b, "digest", c.digest), c.opaqueData);
  }

  /** What looking up the fields in a map yields. */
  predicate HoldsRequired(m: map<string, string>, c: Challenge) {
    && Get(m, "id") == Clean(c.id) && Get(m, "realm") == Clean(c.realm) && Get(m, "method") == Clean(c.method_)
    && Get(m, "intent") == Clean(c.intent) && Get(m, "request") == Clean(c.request)
  }

  predicate HoldsOptional(m: map<string, string>, c: Challenge) {
    && Get(m, "expires") == Clean(c.expires) && Get(m, "digest") == Clean(c.digest) && Get(m, "description") == ""
    && ("opaque" in m <==> c.opaqueData.Some?) && ("opaque" in m ==> m["opaque"] == Clean(c.opaqueData.value))
  }

  lemma {:induction false} FieldsHoldRequired(c: Challenge)
    ensures HoldsRequired(Fields(c), c)
  {
  }

  lemma {:induction false} FieldsHoldOptional(c: Challenge)
    ensures HoldsOptional(Fields(c), c)
  {
  }

  lemma {:induction false} InterpretHolding(m: map<string, string>, c: Challenge, lib: Library)
    requires HoldsRequired(m, c) && HoldsOptional(m, c)
    ensures if Acceptable(c, lib) then Interpret(m, lib) == Ok(Normalize(c, lib)) else Interpret(m, lib).Err?
  {
  }

  lemma {:induction false} InterpretFields(c: Challenge, lib: Library)
    ensures var r := Interpret(Fields(c), lib);
      if Acceptable(c, lib) then r == Ok(Normalize(c, lib)) else r.Err?
  {
    FieldsHoldRequired(c);
    FieldsHoldOptional(c);
    InterpretHolding(Fields(c), c, lib);
  }

  // ── Absorbing the challenges of other schemes ──

  /** What a Payment challenge takes over from the challenges after it, if that can be parsed. */
  function Extras(gap: seq<Item>): Option<seq<Param>> {
    Glue("", AllAbsorbed(gap))
  }

  /** The parameters a Payment challenge takes over from the challenges after it leave its optional fields alone. */
  predicate Neutral(p: Param) {
    !p.Bare? && p.key != "opaque" && (p.key == "expires" || p.key == "digest" || p.key == "description" ==> ParamValue(p) == "")
  }

  predicate Harmless(c: Challenge, extra: seq<Param>) {
    DistinctFrom(Fields(c), extra) && forall i :: 0 <= i < |extra| ==> Neutral(extra[i])
  }

  /** The challenges that the splitter leaves attached to ours can be parsed with it and do not change it. */
  predicate HarmlessGap(c: Challenge, gap: seq<Item>) {
    Extras(gap).Some? && Harmless(c, Extras(gap).value)
  }

  lemma {:induction false} ExtendKeeps(m: map<string, string>, ps: seq<Param>, key: string)
    requires key in m && DistinctFrom(m, ps)
    ensures key in Extend(m, ps) && Extend(m, ps)[key] == m[key]
    decreases ps
  {
    if ps != [] {
      ExtendKeeps(if ps[0].Bare? then m else m[ps[0].key := ParamValue(ps[0])], ps[1..], key);
    }
  }

  lemma {:induction false} ExtendAdds(m: map<string, string>, ps: seq<Param>, i: nat)
    requires i < |ps| && !ps[i].Bare? && DistinctFrom(m, ps)
    ensures ps[i].key !in m
    ensures ps[i].key in Extend(m, ps) && Extend(m, ps)[ps[i].key] == ParamValue(ps[i])
    decreases ps
  {
    var m' := if ps[0].Bare? then m else m[ps[0].key := ParamValue(ps[0])];
    if i == 0 {
      ExtendKeeps(m', ps[1..], ps[0].key);
    } else {
      ExtendAdds(m', ps[1..], i - 1);
    }
  }

  /** A key that parsing added comes from one of the parameters. */
  lemma {:induction false} ExtendSource(m: map<string, string>, ps: seq<Param>, key: string) returns (i: nat)
    requires key in Extend(m, ps) && key !in m
    ensures i < |ps| && !ps[i].Bare? && ps[i].key == key
    decreases ps
  {
    if !ps[0].Bare? && ps[0].key == key {
      i := 0;
    } else {
      i := ExtendSource(if ps[0].Bare? then m else m[ps[0].key := ParamValue(ps[0])], ps[1..], key);
      i := i + 1;
    }
  }

  /** Neutral parameters do not change what is read for a key of the challenge. */
  lemma {:induction false} NeutralKey(m: map<string, string>, ps: seq<Param>, key: string)
    requires DistinctFrom(m, ps)
    requires forall i :: 0 <= i < |ps| ==> Neutral(ps[i])
    requires key in m || key == "expires" || key == "digest" || key == "description"
    ensures Get(Extend(m, ps), key) == Get(m, key)
  {
    if key in m {
      ExtendKeeps(m, ps, key);
    } else if key in Extend(m, ps) {
      var i := ExtendSource(m, ps, key);
      ExtendAdds(m, ps, i);
    }
  }

  lemma {:induction false} NeutralOpaque(m: map<string, string>, ps: seq<Param>)
    requires DistinctFrom(m, ps)
    requires forall i :: 0 <= i < |ps| ==> Neutral(ps[i])
    ensures "opaque" in Extend(m, ps) <==> "opaque" in m
    ensures "opaque" in m ==> Extend(m, ps)["opaque"] == m["opaque"]
  {
    if "opaque" in m {
      ExtendKeeps(m, ps, "opaque");
    } else if "opaque" in Extend(m, ps) {
      var i := ExtendSource(m, ps, "opaque");
      assert false;
    }
  }

  /** The two maps agree on what the parser asks of every challenge. */
  predicate SameRequired(m: map<string, string>, m': map<string, string>) {
    && Get(m, "id") == Get(m', "id") && Get(m, "realm") == Get(m', "realm") && Get(m, "method") == Get(m', "method")
    && Get(m, "intent") == Get(m', "intent") && Get(m, "request") == Get(m', "request")
  }

  predicate SameOptional(m: map<string, string>, m': map<string, string>) {
    && Get(m, "expires") == Get(m', "expires") && Get(m, "digest") == Get(m', "digest")
    && Get(m, "description") == Get(m', "description")
    && ("opaque" in m <==> "opaque" in m') && ("opaque" in m ==> m["opaque"] == m'["opaque"])
  }

  lemma {:induction false} InterpretSame(m: map<string, string>, m': map<string, string>, lib: Library)
    requires SameRequired(m, m')
    ensures Interpret(m, lib).Ok? <==> Interpret(m', lib).Ok?
    ensures Interpret(m, lib).Ok? ==> (Interpret(m, lib) == Interpret(m', lib) <==> SameOptional(m, m'))
  {
  }

  lemma {:induction false} RequiredKept(c: Challenge, extra: seq<Param>)
    requires DistinctFrom(Fields(c), extra)
    ensures SameRequired(Fields(c), Extend(Fields(c), extra))
  {
    ExtendKeeps(Fields(c), extra, "id");
    ExtendKeeps(Fields(c), extra, "realm");
    ExtendKeeps(Fields(c), extra, "method");
    ExtendKeeps(Fields(c), extra, "intent");
    ExtendKeeps(Fields(c), extra, "request");
  }

  lemma {:induction false} OptionalKeptIff(c: Challenge, extra: seq<Param>)
    requires forall i :: 0 <= i < |extra| ==> !extra[i].Bare?
    requires DistinctFrom(Fields(c), extra)
    ensures SameOptional(Fields(c), Extend(Fields(c), extra)) <==> forall i :: 0 <= i < |extra| ==> Neutral(extra[i])
  {
    var m := Fields(c);
    if forall i :: 0 <= i < |extra| ==> Neutral(extra[i]) {
      NeutralKey(m, extra, "expires");
      NeutralKey(m, extra, "digest");
      NeutralKey(m, extra, "description");
      NeutralOpaque(m, extra);
    } else {
      var i :| 0 <= i < |extra| && !Neutral(extra[i]);
      ExtendAdds(m, extra, i);
    }
  }

  // ── The main results ──

  function ItemOf(c: Challenge): Item {
    Item(SCHEME, Params(c))
  }

  predicate AreNamed(ps: seq<Param>) {
    forall i :: 0 <= i < |ps| ==> IsParam(ps[i]) && IsNamed(ps[i])
  }

  lemma {:induction false} QuotedIsNamed(key: string, value: string)
    requires IsToken(key)
    ensures IsParam(Quoted(key, value)) && IsNamed(Quoted(key, value))
  {
  }

  lemma {:induction false} OptionalAreNamed(c: Challenge)
    ensures AreNamed(Optional("expires", c.expires)) && AreNamed(Optional("digest", c.digest))
    ensures AreNamed(OptionalOpaque(c.opaqueData))
  {
    QuotedIsNamed("expires", c.expires);
    QuotedIsNamed("digest", c.digest);
    if c.opaqueData.Some? {
      QuotedIsNamed("opaque", c.opaqueData.value);
    }
  }

  lemma {:induction false} RequiredAreNamed(c: Challenge)
    ensures AreNamed(Required(c))
  {
    QuotedIsNamed("id", c.id);
    QuotedIsNamed("realm", c.realm);
    QuotedIsNamed("method", c.method_);
    QuotedIsNamed("intent", c.intent);
    QuotedIsNamed("request", c.request);
  }

  lemma {:induction false} NamedConcat(a: seq<Param>, b: seq<Param>)
    requires AreNamed(a) && AreNamed(b)
    ensures AreNamed(a + b)
  {
  }

  lemma {:induction false} ChallengeIsItem(c: Challenge)
    ensures IsItem(ItemOf(c)) && IsHead(ItemOf(c))
    ensures AreNamed(Params(c))
  {
    var a, b, d, e := Required(c), Optional("expires", c.expires), Optional("digest", c.digest), OptionalOpaque(c.opaqueData);
    RequiredAreNamed(c);
    OptionalAreNamed(c);
    NamedConcat(d, e);
    NamedConcat(b, d + e);
    NamedConcat(a, b + (d + e));
  }

  /** A parameter that keeps its key. */
  predicate IsNamed(p: Param) {
    !p.Bare? && p.key != "" && IsEdge(p.key[0]) && IsEdge(p.key[|p.key| - 1])
  }

  lemma {:induction false} NamedKeyPart(p: Param)
    requires IsNamed(p)
    ensures HasEquals(p) && KeyPart(p) == p.key && Rekeyed(TrimSpace("" + p.key), p) == p
  {
    assert "" + p.key == p.key;
    TrimNothing(p.key);
  }

  /** No word is left before named parameters or after them, so what follows them is glued on its own. */
  lemma {:induction false} GlueConcat(a: seq<Param>, b: seq<Param>)
    requires forall i :: 0 <= i < |a| ==> IsNamed(a[i])
    ensures Glue("", a + b) == match Glue("", b) case None => None case Some(more) => Some(a + more)
    decreases a
  {
    if a == [] {
      assert a + b == b;
      NothingBefore(Glue("", b));
    } else {
      assert (a + b)[1..] == a[1..] + b;
      GlueConcat(a[1..], b);
      NamedKeyPart(a[0]);
      GlueStep("", a + b);
      OneBefore(a, Glue("", b));
    }
  }

  lemma {:induction false} NothingBefore(glued: Option<seq<Param>>)
    ensures glued == match glued case None => None case Some(more) => Some([] + more)
  {
    if glued.Some? {
      assert [] + glued.value == glued.value;
    }
  }

  lemma {:induction false} OneBefore(a: seq<Param>, glued: Option<seq<Param>>)
    requires a != []
    ensures glued.Some? ==> [a[0]] + (a[1..] + glued.value) == a + glued.value
  {
  }

  lemma {:induction false} GluedAreNamed(before: string, ps: seq<Param>)
    ensures var glued := Glue(before, ps); glued.Some? ==> forall i :: 0 <= i < |glued.value| ==> !glued.value[i].Bare?
    decreases ps
  {
    if ps != [] {
      if !HasEquals(ps[0]) {
        GluedAreNamed(before + ps[0].text + ", ", ps[1..]);
      } else {
        GluedAreNamed("", ps[1..]);
      }
    }
  }

  /** Every word without an equals sign is followed by a later part with one, and every equals sign has text before it. */
  predicate Readable(word: bool, ps: seq<Param>)
    decreases ps
  {
    if ps == [] then !word
    else if !HasEquals(ps[0]) then Readable(true, ps[1..])
    else (word || KeyPart(ps[0]) != "") && Readable(false, ps[1..])
  }

  /** The parser fails on a list exactly when a word is left at its end or an equals sign has nothing before it. */
  lemma {:induction false} GluesIff(before: string, ps: seq<Param>)
    ensures Glue(before, ps).Some? <==> Readable(before != "", ps)
    decreases ps
  {
    if ps != [] {
      if !HasEquals(ps[0]) {
        GluesIff(before + ps[0].text + ", ", ps[1..]);
      } else {
        GluesIff("", ps[1..]);
      }
    }
  }

  lemma {:induction false} ReadAbsorbing(c: Challenge, extra: seq<Param>, lib: Library)
    requires forall i :: 0 <= i < |extra| ==> !extra[i].Bare?
    ensures Read(Params(c) + extra, lib) == Ok(Normalize(c, lib)) <==> Acceptable(c, lib) && Harmless(c, extra)
    ensures Read(Params(c) + extra, lib).Err? <==> !Acceptable(c, lib) || !DistinctFrom(Fields(c), extra)
  {
    ExtendConcat(map[], Params(c), extra);
    ParamsOutcome(c);
    InterpretFields(c, lib);
    if DistinctFrom(Fields(c), extra) {
      RequiredKept(c, extra);
      OptionalKeptIff(c, extra);
      InterpretSame(Fields(c), Extend(Fields(c), extra), lib);
    }
  }

  /**
   * A Payment challenge that the splitter leaves together with the challenges `gap` is read back exactly when it is
   * acceptable, the parts of `gap` can be parsed after its own parameters, and the result does not interfere with those;
   * it is refused when one of the first two fails or a key repeats, and otherwise comes back changed.
   */
  lemma {:induction false} AbsorbingIff(c: Challenge, gap: seq<Item>, lib: Library)
    requires AreItems(gap)
    ensures var r := Parse(Merged([ItemOf(c)] + gap), lib);
      && (r == Ok(Normalize(c, lib)) <==> Acceptable(c, lib) && HarmlessGap(c, gap))
      && (r.Err? <==> !Acceptable(c, lib) || Extras(gap).None? || !DistinctFrom(Fields(c), Extras(gap).value))
  {
    var group := [ItemOf(c)] + gap;
    ChallengeIsItem(c);
    assert group[1..] == gap && AreItems(group);
    ParseGroup(group, lib);
    GlueConcat(Params(c), AllAbsorbed(gap));
    GluedAreNamed("", AllAbsorbed(gap));
    if Extras(gap).Some? {
      ReadAbsorbing(c, Extras(gap).value, lib);
    }
  }

  /** A printed challenge is read back, up to case, line breaks and the description, exactly when it is acceptable. */
  lemma {:induction false} RoundTripIff(c: Challenge, lib: Library)
    ensures Parse(Format(c), lib) == Ok(Normalize(c, lib)) <==> Acceptable(c, lib)
    ensures !Acceptable(c, lib) ==> Parse(Format(c), lib).Err?
  {
    AbsorbingIff(c, [], lib);
    assert [ItemOf(c)] + [] == [ItemOf(c)];
    assert Extras([]) == Some([]);
  }

  /** One challenge of a merged header: one of ours, or one that the splitter does not take for one. */
  datatype Entry = Ours(challenge: Challenge) | Other(item: Item)

  function EntryItem(e: Entry): Item {
    match e
    case Ours(c) => ItemOf(c)
    case Other(item) => item
  }

  function EntryItems(es: seq<Entry>): (items: seq<Item>)
    ensures |items| == |es| && forall i :: 0 <= i < |es| ==> items[i] == EntryItem(es[i])
  {
    if es == [] then [] else [EntryItem(es[0])] + EntryItems(es[1..])
  }

  predicate AreEntries(es: seq<Entry>) {
    forall i :: 0 <= i < |es| ==> es[i].Other? ==> IsItem(es[i].item) && !IsHead(es[i].item)
  }

  /** The challenges of other schemes between the first entry and the next Payment challenge, if there is one. */
  function Gap(es: seq<Entry>): seq<Item>
    requires es != []
  {
    Group(EntryItems(es))[1..]
  }

  /** No acceptable Payment challenge is followed by parts that interfere with it. */
  predicate NoInterference(es: seq<Entry>, lib: Library) {
    if es == [] then true
    else
      && (es[0].Ours? && Acceptable(es[0].challenge, lib) ==> HarmlessGap(es[0].challenge, Gap(es)))
      && NoInterference(es[1..], lib)
  }

  /** The acceptable Payment challenges among the entries, in order. */
  function Recovered(es: seq<Entry>, lib: Library): seq<Challenge> {
    if es == [] then []
    else if es[0].Ours? && Acceptable(es[0].challenge, lib) then
      [Normalize(es[0].challenge, lib)] + Recovered(es[1..], lib)
    else Recovered(es[1..], lib)
  }

  lemma {:induction false} EntriesAreItems(es: seq<Entry>)
    requires AreEntries(es)
    ensures AreItems(EntryItems(es))
    ensures forall i :: 0 <= i < |es| ==> (IsHead(EntryItems(es)[i]) <==> es[i].Ours?)
  {
    forall i | 0 <= i < |es|
      ensures IsItem(EntryItems(es)[i]) && (IsHead(EntryItems(es)[i]) <==> es[i].Ours?)
    {
      if es[i].Ours? {
        ChallengeIsItem(es[i].challenge);
      }
    }
  }

  lemma {:induction false} GapIsForeign(es: seq<Entry>)
    requires es != [] && AreEntries(es) && es[0].Ours?
    ensures Group(EntryItems(es)) == [ItemOf(es[0].challenge)] + Gap(es)
    ensures AreItems(Gap(es))
  {
    EntriesAreItems(es);
    var g := Group(EntryItems(es));
    assert g[0] == EntryItems(es)[0];
    assert g == [g[0]] + g[1..];
    forall i | 0 <= i < |Gap(es)| ensures IsItem(Gap(es)[i]) {
      assert Gap(es)[i] == EntryItems(es)[i + 1];
    }
  }

  /** Each text yields at most one challenge, and none for a challenge that is not acceptable. */
  lemma {:induction false} ParseGroupTexts(es: seq<Entry>, lib: Library)
    requires AreEntries(es)
    ensures var parsed := ParseEach(GroupTexts(EntryItems(es)), GoParser(lib));
      && |parsed| <= |Recovered(es, lib)|
      && (parsed == Recovered(es, lib) <==> NoInterference(es, lib))
    decreases es
  {
    if es != [] {
      EntriesAreItems(es);
      ParseGroupTexts(es[1..], lib);
      assert EntryItems(es)[1..] == EntryItems(es[1..]);
      if es[0].Ours? {
        var c := es[0].challenge;
        var more := ParseEach(GroupTexts(EntryItems(es[1..])), GoParser(lib));
        GapIsForeign(es);
        AbsorbingIff(c, Gap(es), lib);
        FirstParsed(Merged(Group(EntryItems(es))), GroupTexts(EntryItems(es[1..])), GoParser(lib));
        if Acceptable(c, lib) {
          KeptFirst(Parse(Merged(Group(EntryItems(es))), lib), Normalize(c, lib), more, Recovered(es[1..], lib));
        }
      }
    }
  }

  lemma {:induction false} KeptFirst(r: Result<Challenge, ParseError>, c: Challenge, more: seq<Challenge>, rest: seq<Challenge>)
    requires |more| <= |rest|
    ensures |Kept(r) + more| <= |[c] + rest|
    ensures Kept(r) + more == [c] + rest <==> r == Ok(c) && more == rest
  {
    if Kept(r) + more == [c] + rest {
      assert |Kept(r)| == 1;
      assert (Kept(r) + more)[0] == ([c] + rest)[0] == c;
      assert (Kept(r) + more)[1..] == more && ([c] + rest)[1..] == rest;
    }
  }

  lemma {:induction false} FirstParsed(text: string, more: seq<string>, parse: Parser)
    ensures ParseEach([text] + more, parse) == Kept(parse(text)) + ParseEach(more, parse)
  {
    assert ([text] + more)[1..] == more;
  }

  /**
   * Merging formatted Payment challenges with challenges of other schemes loses and changes none of them exactly when
   * none interferes: then parsing the merged header returns the acceptable Payment challenges, in order.
   */
  lemma {:induction false} MergedRecovery(es: seq<Entry>, lib: Library)
    requires AreEntries(es)
    ensures ParseAll([Merged(EntryItems(es))], lib) == Recovered(es, lib) <==> NoInterference(es, lib)
  {
    EntriesAreItems(es);
    SplitRecovers(EntryItems(es));
    ParseGroupTexts(es, lib);
    AllOfOne(Merged(EntryItems(es)), SplitValues, GoParser(lib));
  }

  lemma {:induction false} AllOfOne(header: string, split: Splitter, parse: Parser)
    ensures ParseHeaders([header], split, parse) == ParseEach(split(header), parse)
  {
    assert [header][1..] == [];
    assert ParseHeaders([], split, parse) == [];
  }

  /** Payment challenges alone never interfere. */
  lemma {:induction false} OursNeverInterfere(es: seq<Entry>, lib: Library)
    requires forall i :: 0 <= i < |es| ==> es[i].Ours?
    ensures NoInterference(es, lib)
    decreases es
  {
    if es != [] {
      OursNeverInterfere(es[1..], lib);
      EntriesAreItems(es);
      var items := EntryItems(es);
      if |items| > 1 {
        assert items[1..][0] == items[1];
      }
      assert Foreign(items[1..]) == 0 && Bald(items[1..]) == 0;
      assert Gap(es) == [];
      assert Extras([]) == Some([]);
    }
  }

  lemma {:induction false} RecoversAll(es: seq<Entry>, lib: Library)
    requires forall i :: 0 <= i < |es| ==>
      es[i].Ours? && Canonical(es[i].challenge, lib) && Acceptable(es[i].challenge, lib)
    ensures |Recovered(es, lib)| == |es|
    ensures forall i :: 0 <= i < |es| ==> Recovered(es, lib)[i] == es[i].challenge.(description := "")
    decreases es
  {
    if es != [] {
      RecoversAll(es[1..], lib);
      CanonicalKept(es[0].challenge, lib);
    }
  }

  /** Canonical Payment challenges merged into one header all come back, in order, without their descriptions. */
  lemma {:induction false} MergedPaymentsComeBack(es: seq<Entry>, lib: Library)
    requires forall i :: 0 <= i < |es| ==>
      es[i].Ours? && Canonical(es[i].challenge, lib) && Acceptable(es[i].challenge, lib)
    ensures var parsed := ParseAll([Merged(EntryItems(es))], lib);
      && |parsed| == |es|
      && forall i :: 0 <= i < |es| ==> parsed[i] == es[i].challenge.(description := "")
  {
    OursNeverInterfere(es, lib);
    MergedRecovery(es, lib);
    RecoversAll(es, lib);
  }
}
