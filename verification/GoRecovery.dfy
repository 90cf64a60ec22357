/** What the Go codec recovers from challenges merged into one header value. */
module GoRecovery {
  import opened Common
  import opened HeaderText
  import opened Texts
  import opened GoHeaders

  // ── What the two start checks recognise ──

  predicate IsPayment(item: Item) {
    EqualFold(item.scheme, SCHEME)
  }

  /** The splitter recognises a Payment challenge by the blank after its name. */
  predicate IsHead(item: Item) {
    IsPayment(item) && item.params != []
  }

  lemma {:induction false} PaymentHead(token: string, c: char, rest: string)
    requires IsToken(token) && !('a' <= Lower(c) <= 'z')
    ensures PaymentLength(token + [c] + rest) == if EqualFold(token, SCHEME) && IsBlank(c) then 7 else 0
  {
    var s := token + [c] + rest;
    if |token| < 7 {
      if |s| > 7 {
        assert s[..7][|token|] == c;
      }
    } else if |token| == 7 {
      if |s| > 7 {
        assert s[..7] == token;
        assert s[7] == c;
      }
    } else {
      assert s[7] == token[7];
    }
  }

  lemma {:induction false} NotPayment(s: string)
    requires s != "" && !('a' <= Lower(s[0]) <= 'z')
    ensures PaymentLength(s) == 0
  {
    if |s| > 7 {
      assert s[..7][0] == s[0];
    }
  }

  /** A bare parameter is followed by a comma or by nothing. */
  lemma {:induction false} BareIsNotPayment(t: string, rest: string)
    requires IsParam(Bare(t)) && Ends(rest)
    ensures PaymentLength(t + rest) == 0
  {
    var s := t + rest;
    if |s| > 7 && IsBlank(s[7]) && |t| < 7 {
      assert s[..7][|t|] == rest[0];
      assert Lower(rest[0]) == rest[0];
      assert 'a' <= Lower(SCHEME[|t|]) <= 'z';
    }
  }

  lemma {:induction false} PaymentAtItem(item: Item, rest: string)
    requires IsItem(item) && Ends(rest)
    ensures PaymentLength(ItemText(item) + rest) == if IsHead(item) then |item.scheme| else 0
  {
    if item.params == [] {
      BareIsNotPayment(item.scheme, rest);
    } else {
      var tail := ParamsText(item.params) + rest;
      assert ItemText(item) + rest == item.scheme + [' '] + tail;
      PaymentHead(item.scheme, ' ', tail);
    }
  }

  lemma {:induction false} PaymentAtParam(p: Param, rest: string)
    requires IsParam(p) && Ends(rest)
    ensures PaymentLength(ParamText(p) + rest) == 0
  {
    match p
    case Quoted(key, value) =>
      var tail := "\"" + Escape(value) + "\"" + rest;
      assert ParamText(p) + rest == key + ['='] + tail;
      PaymentHead(key, '=', tail);
    case Token(key, value) =>
      assert ParamText(p) + rest == key + ['='] + (value + rest);
      PaymentHead(key, '=', value + rest);
    case Bare(text) =>
      BareIsNotPayment(text, rest);
  }

  lemma {:induction false} PaymentRecognises()
    ensures Recognises(PaymentLength)
  {
    forall item, rest | IsItem(item) && Ends(rest)
      ensures PaymentLength(ItemText(item) + rest) == 0 || PaymentLength(ItemText(item) + rest) == |item.scheme|
    {
      PaymentAtItem(item, rest);
    }
    forall p, rest | IsParam(p) && Ends(rest)
      ensures PaymentLength(ParamText(p) + rest) == 0
    {
      PaymentAtParam(p, rest);
    }
    forall s | s != "" && (s[0] == ',' || IsBlank(s[0]))
      ensures PaymentLength(s) == 0
    {
      NotPayment(s);
    }
  }

  lemma {:induction false} TokenRunOf(token: string, rest: string)
    requires forall i :: 0 <= i < |token| ==> IsTokenChar(token[i])
    requires rest == "" || rest[0] == '=' || IsSeparator(rest[0])
    ensures TokenRun(token + rest) == |token|
    decreases token
  {
    if token == "" {
      assert token + rest == rest;
    } else {
      assert (token + rest)[1..] == token[1..] + rest;
      TokenRunOf(token[1..], rest);
    }
  }

  lemma {:induction false} AuthAtItem(item: Item, rest: string)
    requires IsItem(item) && Ends(rest)
    ensures AuthLength(ItemText(item) + rest) == if item.params == [] then 0 else |item.scheme|
  {
    if item.params == [] {
      AuthAtRun(item.scheme, rest);
    } else {
      var tail := " " + ParamsText(item.params) + rest;
      assert ItemText(item) + rest == item.scheme + tail;
      TokenRunOf(item.scheme, tail);
    }
  }

  /** A run of token and equals characters followed by a comma or nothing is not a scheme. */
  lemma {:induction false} AuthAtRun(t: string, rest: string)
    requires forall i :: 0 <= i < |t| ==> IsTokenChar(t[i]) || t[i] == '='
    requires Ends(rest) || rest[0] == '"'
    requires Ends(rest) || (t != "" && t[|t| - 1] == '=')
    ensures AuthLength(t + rest) == 0
    decreases t
  {
    if t == "" {
      assert t + rest == rest;
    } else if t[0] != '=' {
      assert (t + rest)[1..] == t[1..] + rest;
      AuthAtRun(t[1..], rest);
      AuthLengthStep(t + rest);
    }
  }

  lemma {:induction false} AuthLengthStep(s: string)
    requires s != "" && s[0] != '=' && !IsSeparator(s[0])
    requires AuthLength(s[1..]) == 0
    requires TokenRun(s[1..]) > 0 || s[1..] == "" || !IsBlank(s[1])
    ensures AuthLength(s) == 0
  {
  }

  lemma {:induction false} AuthAtParam(p: Param, rest: string)
    requires IsParam(p) && Ends(rest)
    ensures AuthLength(ParamText(p) + rest) == 0
  {
    match p
    case Quoted(key, value) =>
      var tail := "\"" + Escape(value) + "\"" + rest;
      assert ParamText(p) + rest == key + "=" + tail;
      AuthAtRun(key + "=", tail);
    case Token(key, value) =>
      AuthAtRun(key + "=" + value, rest);
    case Bare(text) =>
      AuthAtRun(text, rest);
  }

  lemma {:induction false} AuthRecognises()
    ensures Recognises(AuthLength)
  {
    forall item, rest | IsItem(item) && Ends(rest)
      ensures AuthLength(ItemText(item) + rest) == 0 || AuthLength(ItemText(item) + rest) == |item.scheme|
    {
      AuthAtItem(item, rest);
    }
    forall p, rest | IsParam(p) && Ends(rest)
      ensures AuthLength(ParamText(p) + rest) == 0
    {
      AuthAtParam(p, rest);
    }
  }

  // ── Splitting ──

  lemma {:induction false} AuthAtMerged(items: seq<Item>)
    requires items != [] && AreItems(items)
    ensures Heads(items, AuthLength)
      == if items[0].params != [] then [Merged(items)] + Heads(items[1..], AuthLength) else Heads(items[1..], AuthLength)
  {
    AuthAtItem(items[0], Rest(items));
  }

  lemma {:induction false} PaymentAtMerged(items: seq<Item>)
    requires items != [] && AreItems(items)
    ensures PaymentLength(Merged(items)) == if IsHead(items[0]) then |items[0].scheme| else 0
    ensures Heads(items, PaymentLength)
      == if IsHead(items[0]) then [Merged(items)] + Heads(items[1..], PaymentLength) else Heads(items[1..], PaymentLength)
  {
    PaymentAtItem(items[0], Rest(items));
  }

  /** How many challenges come before the next Payment challenge that the splitter recognises. */
  function Foreign(items: seq<Item>): (n: nat)
    ensures n <= |items|
    ensures forall i :: 0 <= i < n ==> !IsHead(items[i])
    ensures n < |items| ==> IsHead(items[n])
  {
    if items == [] || IsHead(items[0]) then 0 else 1 + Foreign(items[1..])
  }

  /** How many challenges without parameters come first: their schemes are not recognised either. */
  function Bald(items: seq<Item>): (n: nat)
    ensures n <= |items|
    ensures forall i :: 0 <= i < n ==> items[i].params == []
    ensures n < |items| ==> items[n].params != []
  {
    if items == [] || items[0].params != [] then 0 else 1 + Bald(items[1..])
  }

  /**
   * What the splitter takes to be the first challenge: it carries everything up to the next Payment challenge, and only
   * the last Payment challenge is cut off before another scheme, namely before the first one with parameters.
   */
  function Group(items: seq<Item>): (g: seq<Item>)
    requires items != []
    ensures g != [] && g <= items
  {
    var n := 1 + Foreign(items[1..]);
    if n == |items| then items[..1 + Bald(items[1..])] else items[..n]
  }

  function GroupTexts(items: seq<Item>): seq<string> {
    if items == [] then []
    else if IsHead(items[0]) then [Merged(Group(items))] + GroupTexts(items[1..])
    else GroupTexts(items[1..])
  }

  lemma {:induction false} HeadsAfterForeign(items: seq<Item>)
    requires AreItems(items)
    ensures var n := Foreign(items); var heads := Heads(items, PaymentLength);
      if n == |items| then heads == [] else heads != [] && heads[0] == Merged(items[n..])
  {
    if items != [] {
      PaymentAtMerged(items);
      if !IsHead(items[0]) {
        HeadsAfterForeign(items[1..]);
        var n := Foreign(items[1..]);
        assert items[1..][n..] == items[n + 1..];
      }
    }
  }

  lemma {:induction false} HeadsAfterBald(items: seq<Item>)
    requires AreItems(items)
    ensures var n := Bald(items); var heads := Heads(items, AuthLength);
      if n == |items| then heads == [] else heads != [] && heads[0] == Merged(items[n..])
  {
    if items != [] {
      AuthAtMerged(items);
      if items[0].params == [] {
        HeadsAfterBald(items[1..]);
        var n := Bald(items[1..]);
        assert items[1..][n..] == items[n + 1..];
      }
    }
  }

  lemma {:induction false} MergedSplit(items: seq<Item>, n: nat)
    requires 0 < n < |items|
    ensures Merged(items) == Merged(items[..n]) + (", " + Merged(items[n..]))
  {
    if n == 1 {
      assert items[..1] == [items[0]];
      Regroup(ItemText(items[0]), "", Merged(items[1..]));
    } else {
      MergedSplit(items[1..], n - 1);
      assert items[1..][..n - 1] == items[..n][1..];
      assert items[1..][n - 1..] == items[n..];
      MergedCons(items);
      MergedCons(items[..n]);
      Regroup(ItemText(items[0]) + ", ", Merged(items[..n][1..]), ", " + Merged(items[n..]));
    }
  }

  lemma {:induction false} MergedCons(items: seq<Item>)
    requires |items| > 1
    ensures Merged(items) == ItemText(items[0]) + ", " + Merged(items[1..])
  {
  }

  lemma {:induction false} Regroup(a: string, b: string, c: string)
    ensures a + (b + c) == (a + b) + c
    ensures a + ", " + c == a + (", " + c)
  {
  }

  predicate IsEdge(c: char) {
    !IsSpace(c) && c != ','
  }

  lemma {:induction false} ParamEdges(p: Param)
    requires IsParam(p)
    ensures var t := ParamText(p); t != "" && IsEdge(t[0]) && IsEdge(t[|t| - 1])
  {
    if p.Quoted? {
      assert ParamText(p)[|ParamText(p)| - 1] == '"';
    }
  }

  lemma {:induction false} ParamsEdges(ps: seq<Param>)
    requires ps != [] && forall i :: 0 <= i < |ps| ==> IsParam(ps[i])
    ensures var t := ParamsText(ps); t != "" && IsEdge(t[0]) && IsEdge(t[|t| - 1])
    decreases ps
  {
    ParamEdges(ps[0]);
    if |ps| > 1 {
      ParamsEdges(ps[1..]);
    }
  }

  lemma {:induction false} ItemEdges(item: Item)
    requires IsItem(item)
    ensures var t := ItemText(item); t != "" && IsEdge(t[0]) && IsEdge(t[|t| - 1])
  {
    if item.params != [] {
      ParamsEdges(item.params);
    }
  }

  lemma {:induction false} MergedEdges(items: seq<Item>)
    requires items != [] && AreItems(items)
    ensures var t := Merged(items); t != "" && IsEdge(t[0]) && IsEdge(t[|t| - 1])
    decreases items
  {
    ItemEdges(items[0]);
    if |items| > 1 {
      MergedEdges(items[1..]);
    }
  }

  lemma {:induction false} TrimSeparator(text: string)
    requires text != "" && IsEdge(text[0])
    ensures TrimSpace(text + ", ") == text + ","
  {
    var t, u := text + ", ", text + ",";
    assert TrimLeft(t, IsSpace) == t;
    assert t[..|t| - 1] == u;
    assert TrimRight(u, IsSpace) == u;
  }

  lemma {:induction false} TidyPiece(text: string)
    requires text != "" && IsEdge(text[0]) && IsEdge(text[|text| - 1])
    ensures Tidy(text) == text
    ensures Tidy(text + ", ") == text
  {
    TrimNothing(text);
    assert TrimRight(text, IsComma) == text;
    TrimSeparator(text);
    assert (text + ",")[..|text|] == text;
    assert TrimRight(text + ",", IsComma) == text;
  }

  lemma {:induction false} CutSuffix(a: string, b: string)
    ensures (a + b)[..|a + b| - |b|] == a
  {
  }

  /** What follows the scheme name of the first challenge leads the scan to the second. */
  lemma {:induction false} NextAfterFirst(items: seq<Item>)
    requires items != [] && AreItems(items) && items[0].params != []
    ensures Starts(" " + (ParamsText(items[0].params) + Rest(items)), Outside(false), AuthLength)
      == Heads(items[1..], AuthLength)
  {
    AuthRecognises();
    TailSkip(items[0].params, Rest(items), AuthLength);
    if |items| > 1 {
      SeparatorSkip(Merged(items[1..]), AuthLength);
      StartsAreHeads(items[1..], AuthLength);
    }
  }

  /** The last Payment challenge ends before the next challenge with parameters. */
  lemma {:induction false} LastPiece(items: seq<Item>)
    requires items != [] && AreItems(items) && IsHead(items[0])
    ensures var text := Merged(items[..1 + Bald(items[1..])]); var piece := Piece([Merged(items)]);
      piece == text || piece == text + ", "
  {
    var n := 1 + Bald(items[1..]);
    HeadsAfterBald(items[1..]);
    if n == |items| {
      WholePiece(items);
      assert items[..n] == items;
    } else {
      assert items[1..][n - 1..] == items[n..];
      CutPiece(items, n);
    }
  }

  lemma {:induction false} WholePiece(items: seq<Item>)
    requires items != [] && AreItems(items) && IsHead(items[0]) && Heads(items[1..], AuthLength) == []
    ensures Piece([Merged(items)]) == Merged(items)
  {
    LastScan(items);
    OnePiece(Merged(items), []);
  }

  lemma {:induction false} CutPiece(items: seq<Item>, n: nat)
    requires 0 < n < |items| && AreItems(items) && IsHead(items[0])
    requires Heads(items[1..], AuthLength) != [] && Heads(items[1..], AuthLength)[0] == Merged(items[n..])
    ensures Piece([Merged(items)]) == Merged(items[..n]) + ", "
  {
    LastScan(items);
    OnePiece(Merged(items), Heads(items[1..], AuthLength));
    CutAt(items, n);
  }

  /** After the name of the last Payment challenge, the scan finds the challenges with parameters that follow it. */
  lemma {:induction false} LastScan(items: seq<Item>)
    requires items != [] && AreItems(items) && IsHead(items[0])
    ensures |Merged(items)| >= 7
    ensures Starts(Merged(items)[7..], Outside(false), AuthLength) == Heads(items[1..], AuthLength)
  {
    NextAfterFirst(items);
    AfterName(items[0], Rest(items));
  }

  /** The piece at a lone start. */
  lemma {:induction false} OnePiece(s: string, next: seq<string>)
    requires |s| >= 7 && next == Starts(s[7..], Outside(false), AuthLength)
    ensures Piece([s]) == if next != [] && |next[0]| <= |s| then s[..|s| - |next[0]|] else s
  {
  }

  lemma {:induction false} CutAt(items: seq<Item>, n: nat)
    requires 0 < n < |items|
    ensures var s, t := Merged(items), Merged(items[n..]); |t| <= |s| && s[..|s| - |t|] == Merged(items[..n]) + ", "
  {
    MergedSplit(items, n);
    CutSeparator(Merged(items), Merged(items[..n]), Merged(items[n..]));
  }

  lemma {:induction false} CutSeparator(s: string, a: string, b: string)
    requires s == a + (", " + b)
    ensures |b| <= |s| && s[..|s| - |b|] == a + ", "
  {
    assert s == (a + ", ") + b;
    CutSuffix(a + ", ", b);
  }

  lemma {:induction false} AfterName(item: Item, rest: string)
    requires |item.scheme| == 7 && item.params != []
    ensures |ItemText(item) + rest| >= 7
    ensures (ItemText(item) + rest)[7..] == " " + (ParamsText(item.params) + rest)
  {
  }

  /** A Payment challenge followed by another one ends where the other starts. */
  lemma {:induction false} MiddlePiece(items: seq<Item>, n: nat, more: seq<string>)
    requires 0 < n < |items|
    requires more != [] && more[0] == Merged(items[n..])
    ensures Piece([Merged(items)] + more) == Merged(items[..n]) + ", "
  {
    CutAt(items, n);
  }

  /** The first piece is the text of the first group, with or without a separator. */
  lemma {:induction false} FirstPiece(items: seq<Item>)
    requires items != [] && AreItems(items) && IsHead(items[0])
    ensures var text := Merged(Group(items)); var piece := Piece(Heads(items, PaymentLength));
      piece == text || piece == text + ", "
  {
    PaymentAtMerged(items);
    HeadsAfterForeign(items[1..]);
    var n := 1 + Foreign(items[1..]);
    if n < |items| {
      assert items[1..][n - 1..] == items[n..];
      MiddlePiece(items, n, Heads(items[1..], PaymentLength));
    } else {
      assert Heads(items, PaymentLength) == [Merged(items)];
      LastPiece(items);
    }
  }

  lemma {:induction false} FirstValue(items: seq<Item>)
    requires items != [] && AreItems(items) && IsHead(items[0])
    ensures Listed(Tidy(Piece(Heads(items, PaymentLength)))) == [Merged(Group(items))]
  {
    FirstPiece(items);
    MergedEdges(Group(items));
    TidyPiece(Merged(Group(items)));
  }

  lemma {:induction false} ValuesCons(head: string, more: seq<string>)
    ensures Values([head] + more) == Listed(Tidy(Piece([head] + more))) + Values(more)
  {
    assert ([head] + more)[1..] == more;
  }

  lemma {:induction false} PaymentValues(items: seq<Item>)
    requires items != [] && AreItems(items) && IsHead(items[0])
    ensures Values(Heads(items, PaymentLength))
      == [Merged(Group(items))] + Values(Heads(items[1..], PaymentLength))
  {
    PaymentAtMerged(items);
    FirstValue(items);
    ValuesCons(Merged(items), Heads(items[1..], PaymentLength));
  }

  lemma {:induction false} ValuesAreGroups(items: seq<Item>)
    requires AreItems(items)
    ensures Values(Heads(items, PaymentLength)) == GroupTexts(items)
    decreases items
  {
    if items != [] {
      ValuesAreGroups(items[1..]);
      if IsHead(items[0]) {
        PaymentValues(items);
      } else {
        PaymentAtMerged(items);
      }
    }
  }

  /** The splitter cuts merged challenges exactly at the groups, whatever their quoted values contain. */
  lemma {:induction false} SplitRecovers(items: seq<Item>)
    requires AreItems(items)
    ensures SplitValues(Merged(items)) == GroupTexts(items)
  {
    PaymentRecognises();
    StartsAreHeads(items, PaymentLength);
    ValuesAreGroups(items);
  }
}
