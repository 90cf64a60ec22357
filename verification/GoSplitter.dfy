/** The loops of the Go header splitter, each tied to the scan it performs. */
module GoSplitter {
  import opened Common
  import opened HeaderText
  import opened Texts
  import opened GoHeaders

  /** Only blanks separate position `i` from a comma or from the start of the header. */
  predicate Boundary(header: string, i: nat)
    requires i <= |header|
  {
    i == 0 || header[i - 1] == ',' || (IsBlank(header[i - 1]) && Boundary(header, i - 1))
  }

  method IsPaymentSchemeStart(header: string, index: nat) returns (b: bool)
    requires index <= |header|
    ensures b <==> PaymentLength(header[index..]) > 0 && Boundary(header, index)
  {
    var end := index + |SCHEME|;
    if end >= |header| {
      return false;
    }
    assert header[index..][..7] == header[index..end] && header[index..][7] == header[end];
    if !EqualFold(header[index..end], SCHEME) {
      return false;
    }
    if header[end] != ' ' && header[end] != '\t' {
      return false;
    }
    var previous := index;
    while previous > 0 && (header[previous - 1] == ' ' || header[previous - 1] == '\t')
      invariant 0 <= previous <= index
      invariant Boundary(header, index) == Boundary(header, previous)
    {
      previous := previous - 1;
    }
    return previous == 0 || header[previous - 1] == ',';
  }

  method IsAuthSchemeStart(header: string, index: nat) returns (b: bool)
    requires index <= |header|
    ensures b <==> AuthLength(header[index..]) > 0
  {
    if index >= |header| {
      return false;
    }
    ghost var s := header[index..];
    var tokenEnd := index;
    while tokenEnd < |header|
      invariant index <= tokenEnd <= |header|
      invariant forall k :: 0 <= k < tokenEnd - index ==> s[k] != '=' && !IsSeparator(s[k])
    {
      var ch := header[tokenEnd];
      if ch == ' ' || ch == '\t' || ch == ',' || ch == '=' {
        break;
      }
      assert s[tokenEnd - index] == ch;
      tokenEnd := tokenEnd + 1;
    }
    RunEnds(s, tokenEnd - index);
    if tokenEnd == index || tokenEnd >= |header| {
      return false;
    }
    return header[tokenEnd] == ' ' || header[tokenEnd] == '\t';
  }

  lemma {:induction false} RunEnds(s: string, n: nat)
    requires n <= |s|
    requires forall k :: 0 <= k < n ==> s[k] != '=' && !IsSeparator(s[k])
    requires n < |s| ==> s[n] == '=' || IsSeparator(s[n])
    ensures TokenRun(s) == n
  {
  }

  /** After a comma only the first character past the blanks can start a scheme. */
  lemma {:induction false} SkippingBlanks(s: string)
    ensures var t := TrimLeft(s, IsBlank);
      Starts(s, Outside(true), AuthLength)
        == if AuthLength(t) > 0 then Starts(t, Outside(true), AuthLength) else Starts(s, Outside(false), AuthLength)
  {
    if s != "" && IsBlank(s[0]) {
      SkippingBlanks(s[1..]);
      BlankStep(s);
    } else if s != "" {
      NothingToTrimLeft(s, IsBlank);
    }
  }

  lemma {:induction false} BlankStep(s: string)
    requires s != "" && IsBlank(s[0])
    ensures Starts(s, Outside(true), AuthLength) == Starts(s[1..], Outside(true), AuthLength)
    ensures Starts(s, Outside(false), AuthLength) == Starts(s[1..], Outside(false), AuthLength)
    ensures TrimLeft(s, IsBlank) == TrimLeft(s[1..], IsBlank)
  {
    assert AuthLength(s) == 0;
  }

  /** The mode a pair of scanner flags stands for. */
  function ModeOf(inQuote: bool, escaped: bool, ready: bool): Mode {
    if inQuote then (if escaped then Escaped else Inside) else Outside(ready)
  }

  /** What the scan does at a position where it records no start. */
  lemma {:induction false} ScanStep(header: string, i: nat, mode: Mode, at: string -> nat)
    requires i < |header|
    requires mode == Outside(true) ==> at(header[i..]) == 0
    ensures Starts(header[i..], mode, at) == Starts(header[i + 1..], Step(mode, header[i]), at)
  {
    assert header[i..][1..] == header[i + 1..];
  }

  method SkipBlanks(header: string, from: nat) returns (next: nat)
    requires from <= |header|
    ensures from <= next <= |header|
    ensures header[next..] == TrimLeft(header[from..], IsBlank)
  {
    next := from;
    while next < |header| && IsBlank(header[next])
      invariant from <= next <= |header|
      invariant SkippedTo(header, from, next, IsBlank)
    {
      SkipStep(header, from, next, IsBlank);
      next := next + 1;
    }
    SkipEnd(header, from, next, IsBlank);
  }

  /** The position of the first start, or -1. */
  function FirstAt(length: nat, starts: seq<string>): int {
    if starts == [] then -1 else length - |starts[0]|
  }

  lemma {:induction false} FirstIsHere(s: string)
    requires AuthLength(s) > 0
    ensures Starts(s, Outside(true), AuthLength) != [] && Starts(s, Outside(true), AuthLength)[0] == s
  {
  }

  /** The scan from `index` goes on at `i` without having found a start. */
  ghost predicate Pending(header: string, index: nat, i: nat, mode: Mode) {
    && index <= i <= |header|
    && Starts(header[index..], Outside(false), AuthLength) == Starts(header[i..], mode, AuthLength)
  }

  lemma {:induction false} PendingStep(header: string, index: nat, i: nat, mode: Mode)
    requires i < |header| && Pending(header, index, i, mode) && mode != Outside(true)
    ensures Pending(header, index, i + 1, Step(mode, header[i]))
  {
    ScanStep(header, i, mode, AuthLength);
  }

  /** The flags after one character. */
  lemma {:induction false} PendingFlags(header: string, index: nat, i: nat, inQuote: bool, escaped: bool)
    requires i < |header| && (escaped ==> inQuote) && Pending(header, index, i, ModeOf(inQuote, escaped, false))
    ensures inQuote && (escaped || (header[i] != '\\' && header[i] != '"')) ==> Pending(header, index, i + 1, Inside)
    ensures inQuote && !escaped && header[i] == '\\' ==> Pending(header, index, i + 1, Escaped)
    ensures inQuote && !escaped && header[i] == '"' ==> Pending(header, index, i + 1, Outside(false))
    ensures !inQuote && header[i] == '"' ==> Pending(header, index, i + 1, Inside)
    ensures !inQuote && header[i] != '"' ==> Pending(header, index, i + 1, Outside(header[i] == ','))
  {
    PendingStep(header, index, i, ModeOf(inQuote, escaped, false));
  }

  lemma {:induction false} PendingAfterComma(header: string, index: nat, i: nat)
    requires Pending(header, index, i, Outside(true))
    ensures var t := TrimLeft(header[i..], IsBlank);
      if AuthLength(t) > 0 then FirstAt(|header|, Starts(header[index..], Outside(false), AuthLength)) == |header| - |t|
      else Pending(header, index, i, Outside(false))
  {
    SkippingBlanks(header[i..]);
    var t := TrimLeft(header[i..], IsBlank);
    if AuthLength(t) > 0 {
      FirstIsHere(t);
    }
  }

  /** The check after a comma: whether a scheme starts after the blanks at `from`, and where. */
  method SchemeAfterComma(header: string, ghost index: nat, from: nat) returns (found: bool, next: nat)
    requires Pending(header, index, from, Outside(true))
    ensures found ==> next == FirstAt(|header|, Starts(header[index..], Outside(false), AuthLength))
    ensures !found ==> Pending(header, index, from, Outside(false))
  {
    next := SkipBlanks(header, from);
    PendingAfterComma(header, index, from);
    found := IsAuthSchemeStart(header, next);
  }

  method NextAuthSchemeStart(header: string, index: nat) returns (next: int)
    requires index <= |header|
    ensures next == FirstAt(|header|, Starts(header[index..], Outside(false), AuthLength))
  {
    var inQuote, escaped, i := false, false, index;
    while i < |header|
      invariant escaped ==> inQuote
      invariant Pending(header, index, i, ModeOf(inQuote, escaped, false))
    {
      var c := header[i];
      PendingFlags(header, index, i, inQuote, escaped);
      if inQuote {
        if escaped {
          escaped := false;
        } else if c == '\\' {
          escaped := true;
        } else if c == '"' {
          inQuote := false;
        }
      } else if c == '"' {
        inQuote := true;
      } else if c == ',' {
        var found;
        found, next := SchemeAfterComma(header, index, i + 1);
        if found {
          return;
        }
      }
      i := i + 1;
    }
    next := -1;
  }

  /** The suffixes of a header at the given positions. */
  function Suffixes(header: string, at: seq<nat>): seq<string>
    requires forall k :: 0 <= k < |at| ==> at[k] <= |header|
  {
    if at == [] then [] else [header[at[0]..]] + Suffixes(header, at[1..])
  }

  lemma {:induction false} SuffixesAppend(header: string, at: seq<nat>, i: nat)
    requires i <= |header|
    requires forall k :: 0 <= k < |at| ==> at[k] <= |header|
    ensures Suffixes(header, at + [i]) == Suffixes(header, at) + [header[i..]]
  {
    if at != [] {
      assert (at + [i])[1..] == at[1..] + [i];
      SuffixesAppend(header, at[1..], i);
    }
  }

  predicate Ascending(header: string, at: seq<nat>, bound: nat) {
    && (forall k :: 0 <= k < |at| ==> at[k] < bound && at[k] + 7 < |header|)
    && forall j, k :: 0 <= j < k < |at| ==> at[j] <= at[k]
  }

  /** What the scanning loop has found so far and what remains to be found. */
  ghost predicate Scanned(header: string, starts: seq<nat>, i: nat, mode: Mode) {
    && i <= |header|
    && Ascending(header, starts, i)
    && Starts(header, Outside(true), PaymentLength)
       == Suffixes(header, starts) + Starts(header[i..], mode, PaymentLength)
  }

  lemma {:induction false} ScannedStep(header: string, starts: seq<nat>, i: nat, mode: Mode)
    requires i < |header| && Scanned(header, starts, i, mode)
    requires mode == Outside(true) ==> PaymentLength(header[i..]) == 0
    ensures Scanned(header, starts, i + 1, Step(mode, header[i]))
  {
    ScanStep(header, i, mode, PaymentLength);
  }

  lemma {:induction false} ScannedStart(header: string, starts: seq<nat>, i: nat)
    requires Scanned(header, starts, i, Outside(true))
    requires PaymentLength(header[i..]) > 0
    ensures Scanned(header, starts + [i], i + 7, Outside(false))
    ensures i + 7 < |header| && !Boundary(header, i + 7)
  {
    AfterScheme(header, i);
    SuffixesAppend(header, starts, i);
    var s := header[i..];
    var later := Starts(header[i + 7..], Outside(false), PaymentLength);
    assert Starts(s, Outside(true), PaymentLength) == [s] + later;
    assert Suffixes(header, starts) + ([s] + later) == Suffixes(header, starts) + [s] + later;
  }

  /** The same in terms of the loop's flags. */
  ghost predicate ScannedAt(header: string, starts: seq<nat>, i: nat, inQuote: bool, escaped: bool) {
    && i <= |header| && (escaped ==> inQuote)
    && Scanned(header, starts, i, ModeOf(inQuote, escaped, !inQuote && Boundary(header, i)))
  }

  /** One character inside quotes. */
  lemma {:induction false} ScannedInQuote(header: string, starts: seq<nat>, i: nat, escaped: bool)
    requires i < |header| && ScannedAt(header, starts, i, true, escaped)
    ensures var c := header[i];
      ScannedAt(header, starts, i + 1, escaped || c != '"', !escaped && c == '\\')
  {
    ScannedStep(header, starts, i, if escaped then Escaped else Inside);
  }

  lemma {:induction false} ScannedOpening(header: string, starts: seq<nat>, i: nat)
    requires i < |header| && header[i] == '"' && ScannedAt(header, starts, i, false, false)
    ensures ScannedAt(header, starts, i + 1, true, false)
  {
    NoPaymentAt(header[i..]);
    ScannedStep(header, starts, i, Outside(Boundary(header, i)));
  }

  /** One character outside quotes at which no Payment challenge starts. */
  lemma {:induction false} ScannedOutside(header: string, starts: seq<nat>, i: nat)
    requires i < |header| && header[i] != '"' && ScannedAt(header, starts, i, false, false)
    requires Boundary(header, i) ==> PaymentLength(header[i..]) == 0
    ensures ScannedAt(header, starts, i + 1, false, false)
  {
    ScannedStep(header, starts, i, Outside(Boundary(header, i)));
  }

  /** A Payment challenge starts here. */
  lemma {:induction false} ScannedFound(header: string, starts: seq<nat>, i: nat)
    requires ScannedAt(header, starts, i, false, false) && Boundary(header, i) && PaymentLength(header[i..]) > 0
    ensures ScannedAt(header, starts + [i], i + |SCHEME|, false, false)
  {
    ScannedStart(header, starts, i);
  }

  lemma {:induction false} ScannedNothing(header: string)
    ensures ScannedAt(header, [], 0, false, false)
  {
    assert header[0..] == header;
  }

  lemma {:induction false} ScannedAll(header: string, starts: seq<nat>, inQuote: bool, escaped: bool)
    requires ScannedAt(header, starts, |header|, inQuote, escaped)
    ensures Ascending(header, starts, |header|)
    ensures Suffixes(header, starts) == Starts(header, Outside(true), PaymentLength)
  {
    assert Suffixes(header, starts) + [] == Suffixes(header, starts);
  }

  /** The flags after one character inside quotes. */
  method AdvanceInQuote(c: char, escaped: bool) returns (inQuote: bool, escaped': bool)
    ensures inQuote <==> escaped || c != '"'
    ensures escaped' <==> !escaped && c == '\\'
  {
    inQuote, escaped' := true, false;
    if escaped {
      escaped' := false;
    } else if c == '\\' {
      escaped' := true;
    } else if c == '"' {
      inQuote := false;
    }
  }

  /** The scanning loop: where Payment challenges start. */
  method FindPaymentStarts(header: string) returns (starts: seq<nat>)
    ensures Ascending(header, starts, |header|)
    ensures Suffixes(header, starts) == Starts(header, Outside(true), PaymentLength)
  {
    starts := [];
    var inQuote, escaped, i := false, false, 0;
    ScannedNothing(header);
    while i < |header|
      invariant ScannedAt(header, starts, i, inQuote, escaped)
    {
      var c := header[i];
      if inQuote {
        ScannedInQuote(header, starts, i, escaped);
        inQuote, escaped := AdvanceInQuote(c, escaped);
      } else if c == '"' {
        ScannedOpening(header, starts, i);
        inQuote := true;
      } else {
        var start := IsPaymentSchemeStart(header, i);
        if start {
          ScannedFound(header, starts, i);
          starts := starts + [i];
          i := i + |SCHEME| - 1;
        } else {
          ScannedOutside(header, starts, i);
        }
      }
      i := i + 1;
    }
    ScannedAll(header, starts, inQuote, escaped);
  }

  lemma {:induction false} NoPaymentAt(s: string)
    requires s != "" && Lower(s[0]) != 'p'
    ensures PaymentLength(s) == 0
  {
    if |s| > 7 {
      assert s[..7][0] == s[0] && Lower(SCHEME[0]) == 'p';
    }
  }

  lemma {:induction false} AfterScheme(header: string, i: nat)
    requires i <= |header| && PaymentLength(header[i..]) > 0
    ensures i + 7 < |header|
    ensures !Boundary(header, i + 7)
    ensures header[i..][7..] == header[i + 7..]
  {
    var s := header[i..];
    assert s[..7][6] == header[i + 6];
    assert Lower(SCHEME[6]) == 't';
  }

  /** A middle piece ends where the next one starts; the last ends at the next scheme of any kind. */
  lemma {:induction false} PieceIsSlice(header: string, at: seq<nat>, end: int)
    requires at != [] && Ascending(header, at, |header|)
    requires |at| > 1 ==> end == at[1]
    requires |at| == 1 ==>
      var next := FirstAt(|header|, Starts(header[at[0] + 7..], Outside(false), AuthLength));
      end == if next != -1 then next else |header|
    ensures at[0] <= end <= |header|
    ensures Piece(Suffixes(header, at)) == header[at[0]..end]
  {
    var starts := Suffixes(header, at);
    var s := header[at[0]..];
    if |at| > 1 {
      assert at[0] <= at[1];
      assert starts[1] == header[at[1]..];
      assert s[..|s| - |starts[1]|] == header[at[0]..end];
    } else {
      assert |starts| == 1;
      assert s[7..] == header[at[0] + 7..];
      StartsShrink(s[7..], Outside(false), AuthLength);
      if end < |header| {
        assert s[..|s| - (|header| - end)] == header[at[0]..end];
      }
    }
  }

  lemma {:induction false} StartsShrink(s: string, mode: Mode, at: string -> nat)
    ensures forall t :: t in Starts(s, mode, at) ==> 0 < |t| <= |s|
  {
    if s != "" {
      if mode == Outside(true) && 0 < at(s) <= |s| {
        StartsShrink(s[at(s)..], Outside(false), at);
      } else {
        StartsShrink(s[1..], Step(mode, s[0]), at);
      }
    }
  }

  ghost predicate IsEnd(header: string, starts: seq<nat>, i: nat, end: int)
    requires i < |starts| && Ascending(header, starts, |header|)
  {
    if i + 1 < |starts| then end == starts[i + 1]
    else
      var next := FirstAt(|header|, Starts(header[starts[i] + 7..], Outside(false), AuthLength));
      end == if next != -1 then next else |header|
  }

  /** The values from the `i`-th start on. */
  function ValuesFrom(header: string, starts: seq<nat>, i: nat): seq<string>
    requires i <= |starts| && Ascending(header, starts, |header|)
  {
    Values(Suffixes(header, starts[i..]))
  }

  lemma {:induction false} ValuesStep(header: string, starts: seq<nat>, i: nat, end: int)
    requires i < |starts| && Ascending(header, starts, |header|)
    requires IsEnd(header, starts, i, end)
    ensures starts[i] <= end <= |header|
    ensures ValuesFrom(header, starts, i) == Listed(Tidy(header[starts[i]..end])) + ValuesFrom(header, starts, i + 1)
  {
    var at := starts[i..];
    PieceIsSlice(header, at, end);
    assert at[1..] == starts[i + 1..];
    assert Suffixes(header, at)[1..] == Suffixes(header, at[1..]);
  }

  method SplitPaymentChallengeValues(header: string) returns (values: seq<string>)
    ensures values == SplitValues(header)
  {
    var starts := FindPaymentStarts(header);
    values := [];
    var i := 0;
    assert starts[0..] == starts;
    while i < |starts|
      invariant 0 <= i <= |starts|
      invariant values + ValuesFrom(header, starts, i) == ValuesFrom(header, starts, 0)
    {
      var end := EndOfChallenge(header, starts, i);
      ValuesStep(header, starts, i, end);
      var value := Tidy(header[starts[i]..end]);
      AppendListed(values, value, ValuesFrom(header, starts, i + 1));
      if value != "" {
        values := values + [value];
      }
      i := i + 1;
    }
  }

  lemma {:induction false} AppendListed(values: seq<string>, value: string, more: seq<string>)
    ensures values + (Listed(value) + more) == (if value != "" then values + [value] else values) + more
  {
  }

  method EndOfChallenge(header: string, starts: seq<nat>, i: nat) returns (end: int)
    requires i < |starts| && Ascending(header, starts, |header|)
    ensures IsEnd(header, starts, i, end)
  {
    end := |header|;
    if i + 1 < |starts| {
      end := starts[i + 1];
    } else {
      var next := NextAuthSchemeStart(header, starts[i] + |SCHEME|);
      if next != -1 {
        end := next;
      }
    }
  }

  /** Parsing the values from `v` on, after `done` was obtained from those before. */
  ghost predicate ParsedUpTo(done: seq<Challenge>, values: seq<string>, v: nat, parse: Parser) {
    v <= |values| && done + ParseEach(values[v..], parse) == ParseEach(values, parse)
  }

  lemma {:induction false} KeepOne(done: seq<Challenge>, values: seq<string>, v: nat, parse: Parser)
    requires v < |values| && ParsedUpTo(done, values, v, parse)
    ensures ParsedUpTo(done + Kept(parse(values[v])), values, v + 1, parse)
  {
    assert values[v..][1..] == values[v + 1..];
    Associative(done, Kept(parse(values[v])), ParseEach(values[v + 1..], parse));
  }

  lemma {:induction false} Associative<T>(a: seq<T>, b: seq<T>, c: seq<T>)
    ensures a + (b + c) == a + b + c
  {
  }

  /** Parse the values in order and keep those that parse. */
  method ParseValues(values: seq<string>, lib: Library) returns (challenges: seq<Challenge>)
    ensures challenges == ParseEach(values, GoParser(lib))
  {
    challenges := [];
    var v := 0;
    assert values[0..] == values;
    while v < |values|
      invariant v <= |values|
      invariant ParsedUpTo(challenges, values, v, GoParser(lib))
    {
      KeepOne(challenges, values, v, GoParser(lib));
      var parsed := ParseWWWAuthenticate(values[v], lib);
      if parsed.Ok? {
        challenges := challenges + [parsed.value];
      } else {
        assert challenges + [] == challenges;
      }
      v := v + 1;
    }
    assert values[v..] == [];
  }

  ghost predicate HeadersUpTo(done: seq<Challenge>, headers: seq<string>, h: nat, split: Splitter, parse: Parser) {
    h <= |headers| && done + ParseHeaders(headers[h..], split, parse) == ParseHeaders(headers, split, parse)
  }

  lemma {:induction false} HeadersStep(done: seq<Challenge>, headers: seq<string>, h: nat, split: Splitter, parse: Parser)
    requires h < |headers| && HeadersUpTo(done, headers, h, split, parse)
    ensures HeadersUpTo(done + ParseEach(split(headers[h]), parse), headers, h + 1, split, parse)
  {
    assert headers[h..][1..] == headers[h + 1..];
    Associative(done, ParseEach(split(headers[h]), parse), ParseHeaders(headers[h + 1..], split, parse));
  }

  method ParseWWWAuthenticateAll(headers: seq<string>, lib: Library) returns (challenges: seq<Challenge>)
    ensures challenges == ParseAll(headers, lib)
  {
    challenges := [];
    var h := 0;
    assert headers[0..] == headers;
    while h < |headers|
      invariant h <= |headers|
      invariant HeadersUpTo(challenges, headers, h, SplitValues, GoParser(lib))
    {
      HeadersStep(challenges, headers, h, SplitValues, GoParser(lib));
      var values := SplitPaymentChallengeValues(headers[h]);
      var parsed := ParseValues(values, lib);
      challenges := challenges + parsed;
      h := h + 1;
    }
    assert headers[h..] == [];
  }
}
