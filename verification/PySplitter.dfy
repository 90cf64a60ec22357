/** The Python splitter: it finds the start of every challenge and keeps the Payment challenges. */
module PySplitter {
  import opened Common
  import opened HeaderText
  import opened Texts
  import opened GoHeaders
  import opened GoSplitter
  import opened PyHeaders

  /** A letter; outside ASCII the library decides. */
  predicate IsAlpha(c: char, letters: char -> bool) {
    'a' <= c <= 'z' || 'A' <= c <= 'Z' || (c >= '\U{0080}' && letters(c))
  }

  function AlphaTest(letters: char -> bool): char -> bool {
    c => IsAlpha(c, letters)
  }

  /** The length of the leading run of letters. */
  function AlphaRun(s: string, letters: char -> bool): (n: nat)
    ensures n <= |s|
    ensures n < |s| ==> !IsAlpha(s[n], letters)
    ensures forall i :: 0 <= i < n ==> IsAlpha(s[i], letters)
  {
    if s == "" || !IsAlpha(s[0], letters) then 0 else 1 + AlphaRun(s[1..], letters)
  }

  /** The length of the leading run of letters if a blank follows it. */
  function SchemeLength(s: string, letters: char -> bool): nat {
    var n := AlphaRun(s, letters);
    if n < |s| && IsBlank(s[n]) then n else 0
  }

  function SchemeAt(letters: char -> bool): string -> nat {
    s => SchemeLength(s, letters)
  }

  /** A header that begins with a blank has no challenge before its first comma. */
  function InitialMode(header: string): Mode {
    Outside(header == "" || !IsBlank(header[0]))
  }

  function ChallengeStarts(header: string, letters: char -> bool): seq<string> {
    Starts(header, InitialMode(header), SchemeAt(letters))
  }

  /** The scheme check looks at the first characters only, so `Paymentx` passes it too. */
  predicate StartsWithPayment(s: string) {
    |s| >= 7 && EqualFold(s[..7], SCHEME)
  }

  function PieceAt(starts: seq<string>): string
    requires starts != []
  {
    var s := starts[0];
    if |starts| > 1 && |starts[1]| <= |s| then s[..|s| - |starts[1]|] else s
  }

  /** The text of one challenge without white space around it and without one trailing comma. */
  function TidyPy(piece: string): string {
    var s := Strip(piece);
    if s != "" && s[|s| - 1] == ',' then TrimRight(s[..|s| - 1], IsPySpace) else s
  }

  function Select(starts: seq<string>): seq<string> {
    if starts == [] then []
    else if StartsWithPayment(starts[0]) then Listed(TidyPy(PieceAt(starts))) + Select(starts[1..])
    else Select(starts[1..])
  }

  function Extract(header: string, letters: char -> bool): seq<string> {
    Select(ChallengeStarts(header, letters))
  }

  // ── Parsing one challenge ──

  function InterpretPy(m: map<string, string>, lib: PyLibrary): Result<Challenge, ParseError> {
    if "id" !in m || m["id"] == "" || "realm" !in m || "method" !in m then Err(MissingField)
    else if !IsMethodName(m["method"]) then Err(BadMethod)
    else if "intent" !in m || "request" !in m then Err(MissingField)
    else if !lib.validRequest(m["request"]) then Err(BadRequest)
    else Ok(Challenge(
      m["id"], m["realm"], m["method"], m["intent"], m["request"],
      Get(m, "expires"), Get(m, "description"), Get(m, "digest"),
      if "opaque" in m then Some(m["opaque"]) else None))
  }

  /** The text after the scheme name; unlike the Go parser this one demands a blank in between. */
  function StripSchemePy(header: string): Option<string> {
    var h := TrimLeft(header, IsPySpace);
    if !StartsWithPayment(h) || h[7..] == "" || !IsBlank(h[7..][0]) then None else Some(TrimLeft(h[7..], IsPySpace))
  }

  /** The challenge that the text after the scheme name stands for. */
  function ParseTextPy(text: Option<string>, lib: PyLibrary): Result<Challenge, ParseError> {
    match text
    case None => Err(BadScheme)
    case Some(t) =>
      match PyParams(t, map[])
      case None => Err(Duplicate)
      case Some(m) => InterpretPy(m, lib)
  }

  function ParsePy(header: string, lib: PyLibrary): Result<Challenge, ParseError> {
    ParseTextPy(StripSchemePy(header), lib)
  }

  method ParseWWWAuthenticatePy(header: string, lib: PyLibrary) returns (r: Result<Challenge, ParseError>)
    ensures r == ParsePy(header, lib)
  {
    var rest := StripSchemePy(header);
    if rest.None? {
      return Err(BadScheme);
    }
    var params := ParsePyParams(rest.value);
    if params.None? {
      return Err(Duplicate);
    }
    r := InterpretPy(params.value, lib);
  }

  function PyParser(lib: PyLibrary): Parser {
    header => ParsePy(header, lib)
  }

  function PyExtractor(lib: PyLibrary): Splitter {
    header => Extract(header, lib.letters)
  }

  function ParseAllPy(headers: seq<string>, lib: PyLibrary): seq<Challenge> {
    ParseHeaders(headers, PyExtractor(lib), PyParser(lib))
  }

  // ── The scanning loops ──

  /** Position `i` is the first, or only blanks separate it from a comma before it. */
  predicate AfterComma(header: string, i: nat)
    requires i <= |header|
  {
    i > 0 && (header[i - 1] == ',' || (IsBlank(header[i - 1]) && AfterComma(header, i - 1)))
  }

  /** The run of letters at `index` ends before a blank. */
  method NameBeforeBlank(header: string, index: nat, letters: char -> bool) returns (b: bool)
    requires index <= |header|
    ensures b <==> SchemeLength(header[index..], letters) > 0
  {
    if index >= |header| || !IsAlpha(header[index], letters) {
      return false;
    }
    var next := SkipWhile(header, index, AlphaTest(letters));
    RunIsTrim(header[index..], letters);
    b := next != index && next < |header| && (header[next] == ' ' || header[next] == '\t');
  }

  method AuthSchemeStartsAt(header: string, index: nat, letters: char -> bool) returns (b: bool)
    requires index <= |header|
    ensures b <==> StartsAt(header, index, letters)
  {
    var named := NameBeforeBlank(header, index, letters);
    if !named {
      return false;
    }
    if index == 0 {
      return true;
    }
    var previous := index - 1;
    while previous >= 0 && (header[previous] == ' ' || header[previous] == '\t')
      invariant -1 <= previous < index
      invariant AfterComma(header, index) == AfterComma(header, previous + 1)
    {
      previous := previous - 1;
    }
    return previous >= 0 && header[previous] == ',';
  }

  lemma {:induction false} RunIsTrim(s: string, letters: char -> bool)
    ensures |TrimLeft(s, AlphaTest(letters))| == |s| - AlphaRun(s, letters)
  {
    if s != "" && IsAlpha(s[0], letters) {
      RunIsTrim(s[1..], letters);
    }
  }

  /** The scanner's mode outside quotes at position `i`. */
  function OutsideAt(header: string, i: nat): Mode
    requires i <= |header|
  {
    if i == 0 then InitialMode(header) else Outside(AfterComma(header, i))
  }

  ghost predicate InOrder(header: string, at: seq<nat>, bound: nat) {
    && (forall k :: 0 <= k < |at| ==> at[k] < bound && at[k] < |header|)
    && forall j, k :: 0 <= j < k < |at| ==> at[j] <= at[k]
  }

  /** What the scanning loop has found so far and what remains to be found. */
  ghost predicate ScannedPy(header: string, starts: seq<nat>, i: nat, mode: Mode, letters: char -> bool) {
    && i <= |header|
    && InOrder(header, starts, i)
    && ChallengeStarts(header, letters) == Suffixes(header, starts) + Starts(header[i..], mode, SchemeAt(letters))
  }

  lemma {:induction false} ScannedPyStep(header: string, starts: seq<nat>, i: nat, mode: Mode, letters: char -> bool)
    requires i < |header| && ScannedPy(header, starts, i, mode, letters)
    requires mode == Outside(true) ==> SchemeLength(header[i..], letters) == 0
    ensures ScannedPy(header, starts, i + 1, Step(mode, header[i]), letters)
  {
    ScanStep(header, i, mode, SchemeAt(letters));
  }

  predicate IsNotBlank(c: char) { !IsBlank(c) }

  lemma {:induction false} TrimLeftAt(s: string, drop: char -> bool, n: nat)
    requires n <= |s| && (forall i :: 0 <= i < n ==> drop(s[i])) && (n < |s| ==> !drop(s[n]))
    ensures TrimLeft(s, drop) == s[n..]
  {
    if n > 0 {
      TrimLeftAt(s[1..], drop, n - 1);
      assert s[1..][n - 1..] == s[n..];
    }
  }

  lemma {:induction false} NameIsNotBlank(s: string, letters: char -> bool)
    requires SchemeLength(s, letters) > 0
    ensures TrimLeft(s, IsNotBlank) == s[SchemeLength(s, letters)..]
    ensures IsAlpha(s[SchemeLength(s, letters) - 1], letters)
  {
    var n := AlphaRun(s, letters);
    forall k | 0 <= k < n ensures IsNotBlank(s[k]) {
      assert IsAlpha(s[k], letters);
    }
    TrimLeftAt(s, IsNotBlank, n);
  }

  /** The position after the scheme name at `i`. */
  lemma {:induction false} PastName(header: string, i: nat, next: nat, letters: char -> bool)
    requires i <= |header| && SchemeLength(header[i..], letters) > 0
    requires i <= next <= |header| && header[next..] == TrimLeft(header[i..], IsNotBlank)
    ensures next == i + SchemeLength(header[i..], letters) && !AfterComma(header, next)
  {
    var n := SchemeLength(header[i..], letters);
    NameIsNotBlank(header[i..], letters);
    assert header[i + n - 1] == header[i..][n - 1];
  }

  lemma {:induction false} ScannedPyStart(header: string, starts: seq<nat>, i: nat, n: nat, letters: char -> bool)
    requires ScannedPy(header, starts, i, Outside(true), letters)
    requires n == SchemeLength(header[i..], letters) && n > 0
    ensures ScannedPy(header, starts + [i], i + n, Outside(false), letters)
  {
    var s := header[i..];
    assert s[n..] == header[i + n..];
    var later := Starts(header[i + n..], Outside(false), SchemeAt(letters));
    assert Starts(s, Outside(true), SchemeAt(letters)) == [s] + later;
    SuffixesAppend(header, starts, i);
    Associative(Suffixes(header, starts), [s], later);
  }

  /** The scanner's mode at position `i`, from its flags. */
  function FlagMode(header: string, i: nat, inQuote: bool, escaped: bool): Mode
    requires i <= |header|
  {
    if inQuote then (if escaped then Escaped else Inside) else OutsideAt(header, i)
  }

  /** The scan's memory of commas and blanks is the backward look of the source. */
  lemma {:induction false} OutsideStep(header: string, i: nat)
    requires i < |header| && header[i] != '"'
    ensures Step(OutsideAt(header, i), header[i]) == OutsideAt(header, i + 1)
  {
    assert !AfterComma(header, 0);
  }

  /** The flags after one character at which no challenge starts. */
  function NextFlags(c: char, inQuote: bool, escaped: bool): (bool, bool) {
    if escaped then (inQuote, false)
    else if c == '\\' && inQuote then (inQuote, true)
    else if c == '"' then (!inQuote, false)
    else (inQuote, false)
  }

  lemma {:induction false} FlagStep(header: string, i: nat, inQuote: bool, escaped: bool)
    requires i < |header| && (escaped ==> inQuote)
    ensures var next := NextFlags(header[i], inQuote, escaped);
      Step(FlagMode(header, i, inQuote, escaped), header[i]) == FlagMode(header, i + 1, next.0, next.1)
  {
    if !inQuote && header[i] != '"' {
      OutsideStep(header, i);
    }
  }

  /** Whether the scan records a start at position `i` outside quotes. */
  predicate StartsAt(header: string, i: nat, letters: char -> bool)
    requires i <= |header|
  {
    SchemeLength(header[i..], letters) > 0 && (i == 0 || AfterComma(header, i))
  }

  lemma {:induction false} ScannedPyQuiet(
      header: string, starts: seq<nat>, i: nat, inQuote: bool, escaped: bool, letters: char -> bool)
    requires i < |header| && (escaped ==> inQuote)
    requires ScannedPy(header, starts, i, FlagMode(header, i, inQuote, escaped), letters)
    requires inQuote || header[i] == '"' || !StartsAt(header, i, letters)
    ensures var next := NextFlags(header[i], inQuote, escaped);
      ScannedPy(header, starts, i + 1, FlagMode(header, i + 1, next.0, next.1), letters)
  {
    FlagStep(header, i, inQuote, escaped);
    ScannedPyStep(header, starts, i, FlagMode(header, i, inQuote, escaped), letters);
  }

  lemma {:induction false} ScannedPyFound(header: string, starts: seq<nat>, i: nat, n: nat, letters: char -> bool)
    requires i < |header| && StartsAt(header, i, letters) && n == SchemeLength(header[i..], letters)
    requires ScannedPy(header, starts, i, FlagMode(header, i, false, false), letters)
    requires i + n <= |header| && !AfterComma(header, i + n)
    ensures ScannedPy(header, starts + [i], i + n, FlagMode(header, i + n, false, false), letters)
  {
    StartIsReady(header, i, letters);
    ScannedPyStart(header, starts, i, n, letters);
    NotReady(header, i + n);
  }

  lemma {:induction false} StartIsReady(header: string, i: nat, letters: char -> bool)
    requires i < |header| && StartsAt(header, i, letters)
    ensures OutsideAt(header, i) == Outside(true)
  {
    assert IsAlpha(header[i..][0], letters);
  }

  lemma {:induction false} NotReady(header: string, i: nat)
    requires 0 < i <= |header| && !AfterComma(header, i)
    ensures OutsideAt(header, i) == Outside(false)
  {
  }

  /** The loop that moves past the scheme name to the blank after it. */
  method SkipName(header: string, i: nat, letters: char -> bool) returns (next: nat)
    requires i <= |header| && SchemeLength(header[i..], letters) > 0
    ensures next == i + SchemeLength(header[i..], letters) && next <= |header| && !AfterComma(header, next)
  {
    next := SkipWhile(header, i, IsNotBlank);
    PastName(header, i, next, letters);
  }

  lemma {:induction false} ScannedPyNothing(header: string, letters: char -> bool)
    ensures ScannedPy(header, [], 0, FlagMode(header, 0, false, false), letters)
  {
    assert header[0..] == header;
  }

  lemma {:induction false} ScannedPyAll(header: string, starts: seq<nat>, mode: Mode, letters: char -> bool)
    requires ScannedPy(header, starts, |header|, mode, letters)
    ensures InOrder(header, starts, |header|)
    ensures Suffixes(header, starts) == ChallengeStarts(header, letters)
  {
    assert Suffixes(header, starts) + [] == Suffixes(header, starts);
  }

  /** Whether a challenge starts at a position that is not inside quotes. */
  method StartsOutside(header: string, i: nat, inQuote: bool, letters: char -> bool) returns (start: bool)
    requires i < |header|
    ensures start <==> !inQuote && header[i] != '"' && StartsAt(header, i, letters)
  {
    start := false;
    if !inQuote && header[i] != '"' {
      start := AuthSchemeStartsAt(header, i, letters);
    }
  }

  /** The flags of the scanning loop after one character. */
  method AdvanceFlags(c: char, inQuote: bool, escaped: bool) returns (inQuote': bool, escaped': bool)
    ensures (inQuote', escaped') == NextFlags(c, inQuote, escaped)
  {
    inQuote', escaped' := inQuote, escaped;
    if escaped {
      escaped' := false;
    } else if c == '\\' && inQuote {
      escaped' := true;
    } else if c == '"' {
      inQuote' := !inQuote;
    }
  }

  method FindChallengeStarts(header: string, letters: char -> bool) returns (starts: seq<nat>)
    ensures InOrder(header, starts, |header|)
    ensures Suffixes(header, starts) == ChallengeStarts(header, letters)
  {
    starts := [];
    var inQuote, escaped, i := false, false, 0;
    ScannedPyNothing(header, letters);
    while i < |header|
      invariant i <= |header| && (escaped ==> inQuote)
      invariant ScannedPy(header, starts, i, FlagMode(header, i, inQuote, escaped), letters)
    {
      var start := StartsOutside(header, i, inQuote, letters);
      if start {
        var next := SkipName(header, i, letters);
        ScannedPyFound(header, starts, i, next - i, letters);
        starts := starts + [i];
        i := next;
      } else {
        ScannedPyQuiet(header, starts, i, inQuote, escaped, letters);
        inQuote, escaped := AdvanceFlags(header[i], inQuote, escaped);
        i := i + 1;
      }
    }
    ScannedPyAll(header, starts, FlagMode(header, i, inQuote, escaped), letters);
  }

  /** The values from the `i`-th start on. */
  function SelectFrom(header: string, starts: seq<nat>, i: nat): seq<string>
    requires i <= |starts| && forall k :: 0 <= k < |starts| ==> starts[k] <= |header|
  {
    Select(Suffixes(header, starts[i..]))
  }

  lemma {:induction false} SelectStep(header: string, starts: seq<nat>, i: nat, end: nat)
    requires i < |starts| && InOrder(header, starts, |header|)
    requires end == if i + 1 < |starts| then starts[i + 1] else |header|
    ensures starts[i] <= end <= |header|
    ensures SelectFrom(header, starts, i)
      == (if StartsWithPayment(header[starts[i]..]) then Listed(TidyPy(header[starts[i]..end])) else [])
         + SelectFrom(header, starts, i + 1)
  {
    var at := starts[i..];
    var s := header[starts[i]..];
    assert at[1..] == starts[i + 1..];
    assert Suffixes(header, at)[1..] == Suffixes(header, at[1..]);
    if i + 1 < |starts| {
      assert starts[i] <= starts[i + 1];
      assert Suffixes(header, at)[1] == header[end..];
      assert s[..|s| - |header[end..]|] == header[starts[i]..end];
    } else {
      assert s == header[starts[i]..end];
    }
  }

  ghost predicate SelectedUpTo(done: seq<string>, header: string, starts: seq<nat>, i: nat) {
    && i <= |starts| && InOrder(header, starts, |header|)
    && done + SelectFrom(header, starts, i) == SelectFrom(header, starts, 0)
  }

  function SelectedOne(s: string, value: string): seq<string> {
    if StartsWithPayment(s) then Listed(value) else []
  }

  lemma {:induction false} SelectOne(done: seq<string>, header: string, starts: seq<nat>, i: nat, end: nat)
    requires i < |starts| && SelectedUpTo(done, header, starts, i)
    requires end == if i + 1 < |starts| then starts[i + 1] else |header|
    ensures starts[i] <= end <= |header|
    ensures SelectedUpTo(done + SelectedOne(header[starts[i]..], TidyPy(header[starts[i]..end])), header, starts, i + 1)
  {
    SelectStep(header, starts, i, end);
    Associative(done, SelectedOne(header[starts[i]..], TidyPy(header[starts[i]..end])), SelectFrom(header, starts, i + 1));
  }

  method ExtractChallenges(header: string, letters: char -> bool) returns (challenges: seq<string>)
    ensures challenges == Extract(header, letters)
  {
    var starts := FindChallengeStarts(header, letters);
    challenges := [];
    var i := 0;
    assert starts[0..] == starts;
    while i < |starts|
      invariant i <= |starts|
      invariant SelectedUpTo(challenges, header, starts, i)
    {
      var end := if i + 1 < |starts| then starts[i + 1] else |header|;
      SelectOne(challenges, header, starts, i, end);
      var challenge := TidyPy(header[starts[i]..end]);
      if StartsWithPayment(header[starts[i]..]) && challenge != "" {
        challenges := challenges + [challenge];
      } else {
        assert challenges + [] == challenges;
      }
      i := i + 1;
    }
    assert starts[i..] == [];
  }

  method ParseAllWWWAuthenticatePy(headers: seq<string>, lib: PyLibrary) returns (challenges: seq<Challenge>)
    ensures challenges == ParseAllPy(headers, lib)
  {
    challenges := [];
    var h := 0;
    assert headers[0..] == headers;
    while h < |headers|
      invariant h <= |headers|
      invariant HeadersUpTo(challenges, headers, h, PyExtractor(lib), PyParser(lib))
    {
      HeadersStep(challenges, headers, h, PyExtractor(lib), PyParser(lib));
      var values := ExtractChallenges(headers[h], lib.letters);
      var parsed := ParseValuesPy(values, lib);
      challenges := challenges + parsed;
      h := h + 1;
    }
    assert headers[h..] == [];
  }

  method ParseValuesPy(values: seq<string>, lib: PyLibrary) returns (challenges: seq<Challenge>)
    ensures challenges == ParseEach(values, PyParser(lib))
  {
    challenges := [];
    var v := 0;
    assert values[0..] == values;
    while v < |values|
      invariant v <= |values|
      invariant ParsedUpTo(challenges, values, v, PyParser(lib))
    {
      KeepOne(challenges, values, v, PyParser(lib));
      var parsed := ParseWWWAuthenticatePy(values[v], lib);
      if parsed.Ok? {
        challenges := challenges + [parsed.value];
      } else {
        assert challenges + [] == challenges;
      }
      v := v + 1;
    }
    assert values[v..] == [];
  }
}
