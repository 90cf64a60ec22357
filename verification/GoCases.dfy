/** Merged headers on which the Go codec loses a Payment challenge, and one kind on which it does not. */
module GoCases {
  import opened Common
  import opened HeaderText
  import opened Texts
  import opened GoHeaders
  import opened GoRecovery
  import opened GoRoundTrip
  import opened GoChallenges

  lemma {:induction false} ParseTwo(first: string, second: string, parse: Parser)
    ensures ParseEach([first, second], parse) == Kept(parse(first)) + Kept(parse(second))
  {
    assert [first, second][1..] == [second] && [second][1..] == [];
    assert ParseEach([second], parse) == Kept(parse(second)) + ParseEach([], parse);
  }

  lemma {:induction false} BetweenGroups(a: Item, item: Item, b: Item)
    requires IsHead(a) && !IsHead(item) && IsHead(b)
    ensures GroupTexts([a, item, b]) == [Merged([a] + [item]), ItemText(b)]
  {
    var items := [a, item, b];
    assert items[1..] == [item, b] && [item, b][1..] == [b] && [b][1..] == [];
    assert Foreign([b]) == 0 && Foreign([item, b]) == 1;
    assert Group(items) == [a] + [item];
    assert Group([b]) == [b];
    assert GroupTexts([b]) == [ItemText(b)];
  }

  lemma {:induction false} SplitBetween(a: Item, item: Item, b: Item, parse: Parser)
    requires IsItem(a) && IsItem(item) && IsItem(b)
    requires IsHead(a) && !IsHead(item) && IsHead(b)
    ensures ParseHeaders([Merged([a, item, b])], SplitValues, parse)
      == Kept(parse(Merged([a] + [item]))) + Kept(parse(ItemText(b)))
  {
    var items := [a, item, b];
    SplitRecovers(items);
    BetweenGroups(a, item, b);
    AllOfOne(Merged(items), SplitValues, parse);
    ParseTwo(Merged([a] + [item]), ItemText(b), parse);
  }

  /** A challenge between two of ours decides about the first of them, and the second one is read on its own. */
  lemma {:induction false} Between(c: Challenge, item: Item, d: Challenge, lib: Library)
    requires IsItem(item) && !IsHead(item)
    ensures ParseAll([Merged(EntryItems([Ours(c), Other(item), Ours(d)]))], lib)
      == Kept(Parse(Merged([ItemOf(c)] + [item]), lib)) + Recovered([Ours(d)], lib)
  {
    assert EntryItems([Ours(c), Other(item), Ours(d)]) == [ItemOf(c), item, ItemOf(d)];
    ChallengeIsItem(c);
    ChallengeIsItem(d);
    SplitBetween(ItemOf(c), item, ItemOf(d), GoParser(lib));
    LastRecovered(d, lib);
  }

  lemma {:induction false} LastRecovered(d: Challenge, lib: Library)
    ensures Recovered([Ours(d)], lib) == Kept(Parse(ItemText(ItemOf(d)), lib))
  {
    RoundTripIff(d, lib);
    assert [Ours(d)][1..] == [];
  }

  /** A challenge between two of ours that cannot be parsed after the first, or that repeats one of its keys, drops it. */
  lemma {:induction false} RepeatBetweenDrops(c: Challenge, item: Item, d: Challenge, lib: Library)
    requires IsItem(item) && !IsHead(item)
    requires Extras([item]).None? || !DistinctFrom(Fields(c), Extras([item]).value)
    ensures ParseAll([Merged(EntryItems([Ours(c), Other(item), Ours(d)]))], lib) == Recovered([Ours(d)], lib)
  {
    assert Kept(Parse(Merged([ItemOf(c)] + [item]), lib)) == [] by { AbsorbingIff(c, [item], lib); }
    Between(c, item, d, lib);
    NoneBefore(Recovered([Ours(d)], lib));
  }

  lemma {:induction false} NoneBefore(cs: seq<Challenge>)
    ensures [] + cs == cs
  {
  }

  const DIGEST: Item := Item("Digest", [Quoted("qop", "auth"), Quoted("realm", "api")])

  lemma {:induction false} NamedExtras(scheme: string, p: Param, q: Param)
    requires IsToken(scheme) && p.Quoted? && q.Quoted? && IsToken(p.key) && IsToken(q.key)
    ensures Extras([Item(scheme, [p, q])]) == Some([Quoted(scheme + " " + p.key, p.value), q])
  {
    var item, ps := Item(scheme, [p, q]), [Quoted(scheme + " " + p.key, p.value), q];
    assert [item][1..] == [] && [p, q][1..] == [q];
    assert AllAbsorbed([item]) == ps;
    GlueConcat(ps, []);
    assert ps + [] == ps;
  }

  lemma {:induction false} RepeatsSecond(m: map<string, string>, p: Param, q: Param)
    requires !p.Bare? && !q.Bare? && q.key in m
    ensures !DistinctFrom(m, [p, q])
  {
    assert [p, q][1..] == [q];
  }

  lemma {:induction false} DigestIsItem()
    ensures IsItem(DIGEST) && !IsHead(DIGEST)
    ensures IsToken("Digest") && IsToken("qop") && IsToken("realm")
  {
    assert DIGEST.params[0].key == "qop" && DIGEST.params[1].key == "realm";
  }

  /** For instance a Digest challenge that names its realm second. */
  lemma {:induction false} DigestBetweenDrops(c: Challenge, d: Challenge, lib: Library)
    ensures ParseAll([Merged(EntryItems([Ours(c), Other(DIGEST), Ours(d)]))], lib) == Recovered([Ours(d)], lib)
  {
    DigestIsItem();
    SecondRepeats(c, "Digest", DIGEST.params[0], DIGEST.params[1]);
    RepeatBetweenDrops(c, DIGEST, d, lib);
  }

  lemma {:induction false} SecondRepeats(c: Challenge, scheme: string, p: Param, q: Param)
    requires IsToken(scheme) && p.Quoted? && q.Quoted? && IsToken(p.key) && IsToken(q.key) && q.key in Fields(c)
    ensures var extras := Extras([Item(scheme, [p, q])]); extras.Some? && !DistinctFrom(Fields(c), extras.value)
  {
    NamedExtras(scheme, p, q);
    RepeatsSecond(Fields(c), Quoted(scheme + " " + p.key, p.value), q);
  }

  // ── Schemes without parameters ──

  lemma {:induction false} LoneGroup(a: Item, n: Item)
    requires IsHead(a) && n.params == []
    ensures GroupTexts([a] + [n]) == [Merged([a] + [n])]
  {
    var items := [a] + [n];
    assert items[1..] == [n] && [n][1..] == [];
    assert Foreign([n]) == 1 && Bald([n]) == 1;
    assert Group(items) == items;
    assert GroupTexts([n]) == [];
  }

  lemma {:induction false} SplitLone(a: Item, n: Item, parse: Parser)
    requires IsItem(a) && IsItem(n) && IsHead(a) && n.params == []
    ensures ParseHeaders([Merged([a] + [n])], SplitValues, parse) == Kept(parse(Merged([a] + [n])))
  {
    var text := Merged([a] + [n]);
    SplitRecovers([a] + [n]);
    LoneGroup(a, n);
    AllOfOne(text, SplitValues, parse);
    FirstParsed(text, [], parse);
    assert [text] + [] == [text];
  }

  lemma {:induction false} WordIsNotGlued(n: Item)
    requires IsItem(n) && n.params == []
    ensures Extras([n]) == None
  {
    var p := Bare(n.scheme);
    assert [n][1..] == [] && [p][1..] == [];
    assert AllAbsorbed([n]) == [p] by {
      assert Absorbed(n) + [] == [p];
    }
    assert forall i :: 0 <= i < |p.text| ==> p.text[i] != '=';
    GluesIff("", [p]);
  }

  lemma {:induction false} TwoMerged(a: Item, n: Item)
    requires n.params == []
    ensures Merged([a] + [n]) == ItemText(a) + ", " + n.scheme
  {
    assert ([a] + [n])[1..] == [n];
  }

  /** A scheme name alone after a Payment challenge is left attached to it, and the challenge is lost. */
  lemma {:induction false} BareSchemeDrops(c: Challenge, scheme: string, lib: Library)
    requires IsToken(scheme)
    ensures ParseAll([Format(c) + ", " + scheme], lib) == []
  {
    var n := Item(scheme, []);
    assert Parse(Merged([ItemOf(c)] + [n]), lib).Err? by {
      WordIsNotGlued(n);
      AbsorbingIff(c, [n], lib);
    }
    ChallengeIsItem(c);
    TwoMerged(ItemOf(c), n);
    SplitLone(ItemOf(c), n, GoParser(lib));
  }

  // ── Padded tokens ──

  /** A scheme followed by a single token with padding, as `Negotiate` uses it. */
  function PaddedItem(scheme: string, body: string, pad: string): Item {
    Item(scheme, [Bare(body + "=" + pad)])
  }

  lemma {:induction false} WordParts(key: string, value: string)
    requires key != "" && forall i :: 0 <= i < |key| ==> key[i] != '='
    ensures var p := Bare(key + "=" + value); HasEquals(p) && KeyPart(p) == key && Rekeyed(key, p) == Token(key, value)
  {
    var t := key + "=" + value;
    FirstEquals(key, value);
    assert t[..|key|] == key && t[|key| + 1..] == value;
  }

  lemma {:induction false} EdgesStay(key: string)
    requires key != "" && IsEdge(key[0]) && IsEdge(key[|key| - 1])
    ensures TrimSpace("" + key) == key
  {
    assert "" + key == key;
    TrimNothing(key);
  }

  lemma {:induction false} GlueOne(p: Param)
    requires HasEquals(p) && KeyPart(p) != ""
    ensures Glue("", [p]) == Some([Rekeyed(TrimSpace("" + KeyPart(p)), p)])
  {
    assert |"" + KeyPart(p)| == |KeyPart(p)|;
    assert [p][1..] == [];
    var nothing: seq<Param> := [];
    assert Glue("", nothing) == Some(nothing);
    GlueStep("", [p]);
    var one := [Rekeyed(TrimSpace("" + KeyPart(p)), p)];
    assert one + nothing == one;
  }

  lemma {:induction false} GlueWord(key: string, value: string)
    requires IsNamed(Token(key, value)) && forall i :: 0 <= i < |key| ==> key[i] != '='
    ensures Glue("", [Bare(key + "=" + value)]) == Some([Token(key, value)])
  {
    WordParts(key, value);
    EdgesStay(key);
    GlueOne(Bare(key + "=" + value));
  }

  lemma {:induction false} PaddedExtras(scheme: string, body: string, pad: string)
    requires IsToken(scheme) && IsToken(body)
    ensures Extras([PaddedItem(scheme, body, pad)]) == Some([Token(scheme + " " + body, pad)])
  {
    var item, key := PaddedItem(scheme, body, pad), scheme + " " + body;
    var p := Bare(key + "=" + pad);
    assert scheme + " " + (body + "=" + pad) == key + "=" + pad;
    assert [item][1..] == [] && item.params[1..] == [];
    assert AllAbsorbed([item]) == [p];
    GlueWord(key, pad);
  }

  lemma {:induction false} NoFieldHasBlank(c: Challenge, key: string, i: nat)
    requires i < |key| && key[i] == ' '
    ensures key !in Fields(c)
    ensures key != "opaque" && key != "expires" && key != "digest" && key != "description"
  {
  }

  lemma {:induction false} PaddedIsHarmless(c: Challenge, scheme: string, body: string, pad: string)
    requires IsToken(scheme) && IsToken(body)
    ensures HarmlessGap(c, [PaddedItem(scheme, body, pad)])
  {
    var p := Token(scheme + " " + body, pad);
    PaddedExtras(scheme, body, pad);
    NoFieldHasBlank(c, p.key, |scheme|);
    OneIsHarmless(c, p);
  }

  /** Between two Payment challenges, a challenge with one padded token is read as one more parameter and does no harm. */
  lemma {:induction false} PaddedTokenKeeps(c: Challenge, scheme: string, body: string, pad: string, d: Challenge, lib: Library)
    requires IsToken(scheme) && !EqualFold(scheme, SCHEME) && IsToken(body) && IsParam(Bare(body + "=" + pad))
    ensures ParseAll([Merged(EntryItems([Ours(c), Other(PaddedItem(scheme, body, pad)), Ours(d)]))], lib)
      == Recovered([Ours(c), Ours(d)], lib)
  {
    PaddedIsHarmless(c, scheme, body, pad);
    HarmlessBetweenKeeps(c, PaddedItem(scheme, body, pad), d, lib);
  }

  lemma {:induction false} HarmlessBetweenKeeps(c: Challenge, item: Item, d: Challenge, lib: Library)
    requires IsItem(item) && !IsHead(item) && HarmlessGap(c, [item])
    ensures ParseAll([Merged(EntryItems([Ours(c), Other(item), Ours(d)]))], lib) == Recovered([Ours(c), Ours(d)], lib)
  {
    var text := Merged([ItemOf(c)] + [item]);
    assert Recovered([Ours(c), Ours(d)], lib) == Kept(Parse(text, lib)) + Recovered([Ours(d)], lib) by {
      HarmlessParse(c, [item], lib);
      FirstKept(c, Parse(text, lib), [Ours(d)], lib);
      assert [Ours(c)] + [Ours(d)] == [Ours(c), Ours(d)];
    }
    Between(c, item, d, lib);
  }

  lemma {:induction false} HarmlessParse(c: Challenge, gap: seq<Item>, lib: Library)
    requires AreItems(gap) && HarmlessGap(c, gap)
    ensures Kept(Parse(Merged([ItemOf(c)] + gap), lib)) == if Acceptable(c, lib) then [Normalize(c, lib)] else []
  {
    AbsorbingIff(c, gap, lib);
  }

  lemma {:induction false} OneIsHarmless(c: Challenge, p: Param)
    requires Neutral(p) && p.key !in Fields(c)
    ensures Harmless(c, [p])
  {
    assert [p][1..] == [];
  }

  lemma {:induction false} FirstKept(c: Challenge, r: Result<Challenge, ParseError>, es: seq<Entry>, lib: Library)
    requires Kept(r) == if Acceptable(c, lib) then [Normalize(c, lib)] else []
    ensures Recovered([Ours(c)] + es, lib) == Kept(r) + Recovered(es, lib)
  {
    assert ([Ours(c)] + es)[1..] == es;
  }
}
