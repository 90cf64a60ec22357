/** What the Python splitter extracts from challenge texts of any schemes joined into one header value. */
module PyRecovery {
  import opened Common
  import opened HeaderText
  import opened Texts
  import opened GoHeaders
  import opened GoSplitter
  import opened PyHeaders
  import opened PySplitter

  // ── Challenge texts and their join ──

  /** The quotes of a text, whatever its schemes: the mode after it. */
  function Quotes(t: string, mode: Mode): Mode {
    if t == "" then mode else Quotes(t[1..], Step(mode, t[0]))
  }

  /** Every quote is closed, where a backslash inside quotes takes the next character with it. */
  predicate IsBalanced(t: string) {
    Quotes(t, Outside(true)).Outside?
  }

  /** A text of any scheme: it begins with letters, which are the whole text or precede a blank, and closes its quotes. */
  predicate IsChallengeText(t: string, letters: char -> bool) {
    var n := AlphaRun(t, letters);
    n > 0 && (n == |t| || IsBlank(t[n])) && IsBalanced(t)
  }

  predicate AreChallengeTexts(texts: seq<string>, letters: char -> bool) {
    forall i :: 0 <= i < |texts| ==> IsChallengeText(texts[i], letters)
  }

  /** A scheme without parameters. */
  predicate IsName(t: string, letters: char -> bool) {
    AlphaRun(t, letters) == |t|
  }

  predicate AreBlanks(s: string) {
    forall i :: 0 <= i < |s| ==> IsBlank(s[i])
  }

  /** One header value: the texts with a comma and the given blanks between them. */
  function Join(texts: seq<string>, blanks: string): string
    decreases |texts|, 0
  {
    if texts == [] then "" else texts[0] + After(texts[1..], blanks)
  }

  /** What follows a text in the header. */
  function After(texts: seq<string>, blanks: string): (r: string)
    ensures Ends(r)
    decreases |texts|, 1
  {
    if texts == [] then "" else "," + blanks + Join(texts, blanks)
  }

  /** The part of `After` up to the next text with a blank after its scheme: the schemes without parameters. */
  function Words(texts: seq<string>, blanks: string, letters: char -> bool): (w: string)
    ensures Ends(w)
  {
    if texts == [] then ""
    else "," + blanks + (if IsName(texts[0], letters) then texts[0] + Words(texts[1..], blanks, letters) else "")
  }

  // ── The scan is local ──

  lemma {:induction false} AlphaRunIsLocal(s: string, rest: string, letters: char -> bool)
    requires Ends(rest)
    ensures AlphaRun(s + rest, letters) == AlphaRun(s, letters)
  {
    if s == "" {
      assert s + rest == rest;
    } else {
      assert (s + rest)[1..] == s[1..] + rest;
      AlphaRunIsLocal(s[1..], rest, letters);
    }
  }

  lemma {:induction false} SchemeIsLocal(s: string, rest: string, letters: char -> bool)
    requires Ends(rest)
    ensures SchemeLength(s + rest, letters) == SchemeLength(s, letters)
  {
    AlphaRunIsLocal(s, rest, letters);
  }

  /** The suffixes with more text after them. */
  function Append(starts: seq<string>, rest: string): seq<string> {
    if starts == [] then [] else [starts[0] + rest] + Append(starts[1..], rest)
  }

  lemma {:induction false} AppendCons(s: string, more: seq<string>, rest: string)
    ensures Append([s] + more, rest) == [s + rest] + Append(more, rest)
  {
    assert ([s] + more)[1..] == more;
  }

  /** The scanner's mode after a text. */
  function EndMode(t: string, mode: Mode, letters: char -> bool): Mode
    decreases |t|
  {
    var n := SchemeLength(t, letters);
    if t == "" then mode
    else if mode == Outside(true) && n > 0 then EndMode(t[n..], Outside(false), letters)
    else EndMode(t[1..], Step(mode, t[0]), letters)
  }

  /** The starts in a text do not depend on what follows, as long as that begins with a comma. */
  lemma {:induction false} StartsConcat(t: string, rest: string, mode: Mode, letters: char -> bool)
    requires Ends(rest)
    ensures Starts(t + rest, mode, SchemeAt(letters))
      == Append(Starts(t, mode, SchemeAt(letters)), rest) + Starts(rest, EndMode(t, mode, letters), SchemeAt(letters))
    decreases |t|
  {
    if t == "" {
      assert t + rest == rest;
      NothingAppended(Starts(rest, mode, SchemeAt(letters)), rest);
    } else if mode == Outside(true) && SchemeLength(t, letters) > 0 {
      var n := SchemeLength(t, letters);
      var more := Starts(t[n..], Outside(false), SchemeAt(letters));
      StartFound(t, rest, letters);
      StartsConcat(t[n..], rest, Outside(false), letters);
      AppendCons(t, more, rest);
      Associative([t + rest], Append(more, rest), Starts(rest, EndMode(t[n..], Outside(false), letters), SchemeAt(letters)));
    } else {
      NoStartFound(t, rest, mode, letters);
      StartsConcat(t[1..], rest, Step(mode, t[0]), letters);
    }
  }

  lemma {:induction false} NothingAppended(starts: seq<string>, rest: string)
    ensures Append([], rest) + starts == starts
  {
  }

  lemma {:induction false} StartFound(t: string, rest: string, letters: char -> bool)
    requires Ends(rest) && SchemeLength(t, letters) > 0
    ensures var n := SchemeLength(t, letters);
      Starts(t + rest, Outside(true), SchemeAt(letters))
      == [t + rest] + Starts(t[n..] + rest, Outside(false), SchemeAt(letters))
  {
    var n := SchemeLength(t, letters);
    SchemeIsLocal(t, rest, letters);
    assert (t + rest)[n..] == t[n..] + rest;
  }

  lemma {:induction false} NoStartFound(t: string, rest: string, mode: Mode, letters: char -> bool)
    requires Ends(rest) && t != "" && (mode == Outside(true) ==> SchemeLength(t, letters) == 0)
    ensures Starts(t + rest, mode, SchemeAt(letters)) == Starts(t[1..] + rest, Step(mode, t[0]), SchemeAt(letters))
  {
    SchemeIsLocal(t, rest, letters);
    assert (t + rest)[1..] == t[1..] + rest;
  }

  predicate SameQuotes(a: Mode, b: Mode) {
    a == b || (a.Outside? && b.Outside?)
  }

  lemma {:induction false} NameQuotes(t: string, n: nat, mode: Mode, letters: char -> bool)
    requires n <= |t| && mode.Outside? && forall i :: 0 <= i < n ==> IsAlpha(t[i], letters)
    ensures Quotes(t, mode) == Quotes(t[n..], if n == 0 then mode else Outside(false))
  {
    if n > 0 {
      NameQuotes(t[1..], n - 1, Outside(false), letters);
      assert t[1..][n - 1..] == t[n..];
    }
  }

  /** The scan and the quotes alone agree on where quotes are open. */
  lemma {:induction false} ScanQuotes(t: string, a: Mode, b: Mode, letters: char -> bool)
    requires SameQuotes(a, b)
    ensures SameQuotes(EndMode(t, a, letters), Quotes(t, b))
    decreases |t|
  {
    var n := SchemeLength(t, letters);
    if t == "" {
    } else if a == Outside(true) && n > 0 {
      NameQuotes(t, n, b, letters);
      ScanQuotes(t[n..], Outside(false), Outside(false), letters);
    } else {
      ScanQuotes(t[1..], Step(a, t[0]), Step(b, t[0]), letters);
    }
  }

  /** After a challenge text the scan is outside quotes. */
  lemma {:induction false} TextStarts(t: string, rest: string, letters: char -> bool) returns (ready: bool)
    requires IsChallengeText(t, letters) && Ends(rest)
    ensures Starts(t + rest, Outside(true), SchemeAt(letters))
      == Append(Starts(t, Outside(true), SchemeAt(letters)), rest) + Starts(rest, Outside(ready), SchemeAt(letters))
  {
    ScanQuotes(t, Outside(true), Outside(true), letters);
    ready := EndMode(t, Outside(true), letters).ready;
    StartsConcat(t, rest, Outside(true), letters);
  }

  lemma {:induction false} BlanksSkip(blanks: string, rest: string, letters: char -> bool)
    requires AreBlanks(blanks)
    ensures Starts(blanks + rest, Outside(true), SchemeAt(letters)) == Starts(rest, Outside(true), SchemeAt(letters))
  {
    if blanks == "" {
      assert blanks + rest == rest;
    } else {
      assert (blanks + rest)[1..] == blanks[1..] + rest;
      BlanksSkip(blanks[1..], rest, letters);
    }
  }

  lemma {:induction false} CommaSkip(blanks: string, rest: string, ready: bool, letters: char -> bool)
    requires AreBlanks(blanks)
    ensures Starts("," + blanks + rest, Outside(ready), SchemeAt(letters)) == Starts(rest, Outside(true), SchemeAt(letters))
  {
    var s := "," + blanks + rest;
    assert s[1..] == blanks + rest;
    BlanksSkip(blanks, rest, letters);
  }

  // ── The starts of a joined header ──

  function JoinStarts(texts: seq<string>, blanks: string, letters: char -> bool): seq<string> {
    Starts(Join(texts, blanks), Outside(true), SchemeAt(letters))
  }

  lemma {:induction false} AfterStarts(texts: seq<string>, blanks: string, ready: bool, letters: char -> bool)
    requires AreBlanks(blanks)
    ensures Starts(After(texts, blanks), Outside(ready), SchemeAt(letters)) == JoinStarts(texts, blanks, letters)
  {
    if texts != [] {
      CommaSkip(blanks, Join(texts, blanks), ready, letters);
    }
  }

  /** The starts of the first text, and those of the texts after it. */
  lemma {:induction false} JoinStartsStep(texts: seq<string>, blanks: string, letters: char -> bool)
    requires texts != [] && AreChallengeTexts(texts, letters) && AreBlanks(blanks)
    ensures JoinStarts(texts, blanks, letters)
      == Append(Starts(texts[0], Outside(true), SchemeAt(letters)), After(texts[1..], blanks))
         + JoinStarts(texts[1..], blanks, letters)
  {
    var ready := TextStarts(texts[0], After(texts[1..], blanks), letters);
    AfterStarts(texts[1..], blanks, ready, letters);
  }

  lemma {:induction false} LettersSkip(t: string, letters: char -> bool)
    requires forall i :: 0 <= i < |t| ==> IsAlpha(t[i], letters)
    ensures Starts(t, Outside(false), SchemeAt(letters)) == []
  {
    if t != "" {
      LettersSkip(t[1..], letters);
    }
  }

  lemma {:induction false} NameHasNoStart(t: string, letters: char -> bool)
    requires IsName(t, letters)
    ensures Starts(t, Outside(true), SchemeAt(letters)) == []
  {
    if t != "" {
      LettersSkip(t[1..], letters);
    }
  }

  /** Where a text with a blank after its scheme begins, a challenge starts. */
  lemma {:induction false} FirstStart(texts: seq<string>, blanks: string, letters: char -> bool)
    requires texts != [] && AreChallengeTexts(texts, letters) && !IsName(texts[0], letters)
    ensures JoinStarts(texts, blanks, letters) != [] && JoinStarts(texts, blanks, letters)[0] == Join(texts, blanks)
  {
    SchemeIsLocal(texts[0], After(texts[1..], blanks), letters);
  }

  function FirstOf(starts: seq<string>): string {
    if starts == [] then "" else starts[0]
  }

  /** Schemes without parameters stand between a text and the next start. */
  lemma {:induction false} WordsThenStart(texts: seq<string>, blanks: string, letters: char -> bool)
    requires AreChallengeTexts(texts, letters) && AreBlanks(blanks)
    ensures After(texts, blanks) == Words(texts, blanks, letters) + FirstOf(JoinStarts(texts, blanks, letters))
    decreases texts
  {
    if texts == [] {
    } else if IsName(texts[0], letters) {
      WordsThenStart(texts[1..], blanks, letters);
      JoinStartsStep(texts, blanks, letters);
      NameHasNoStart(texts[0], letters);
      NothingAppended(JoinStarts(texts[1..], blanks, letters), After(texts[1..], blanks));
      WordsJoin(blanks, texts[0], Words(texts[1..], blanks, letters), FirstOf(JoinStarts(texts[1..], blanks, letters)));
    } else {
      FirstStart(texts, blanks, letters);
      assert "," + blanks + "" == "," + blanks;
    }
  }

  lemma {:induction false} WordsJoin(blanks: string, t: string, w: string, rest: string)
    ensures "," + blanks + (t + (w + rest)) == "," + blanks + (t + w) + rest
  {
  }

  /** The words hold no start. */
  lemma {:induction false} WordsHaveNoStart(texts: seq<string>, blanks: string, ready: bool, letters: char -> bool)
    requires AreChallengeTexts(texts, letters) && AreBlanks(blanks)
    ensures Starts(Words(texts, blanks, letters), Outside(ready), SchemeAt(letters)) == []
    decreases texts
  {
    if texts != [] {
      if IsName(texts[0], letters) {
        var w := Words(texts[1..], blanks, letters);
        CommaSkip(blanks, texts[0] + w, ready, letters);
        var ready' := TextStarts(texts[0], w, letters);
        NameHasNoStart(texts[0], letters);
        WordsHaveNoStart(texts[1..], blanks, ready', letters);
      } else {
        CommaSkip(blanks, "", ready, letters);
      }
    }
  }

  // ── Selecting ──

  predicate Shrinks(starts: seq<string>, bound: nat) {
    if starts == [] then true else |starts[0]| <= bound && Shrinks(starts[1..], |starts[0]|)
  }

  lemma {:induction false} ShrinksMore(starts: seq<string>, bound: nat, bound': nat)
    requires Shrinks(starts, bound) && bound <= bound'
    ensures Shrinks(starts, bound')
  {
  }

  lemma {:induction false} StartsShrink(t: string, mode: Mode, letters: char -> bool)
    ensures Shrinks(Starts(t, mode, SchemeAt(letters)), |t|)
    decreases |t|
  {
    var at := SchemeAt(letters);
    if t == "" {
    } else if mode == Outside(true) && SchemeLength(t, letters) > 0 {
      var n := SchemeLength(t, letters);
      var more := Starts(t[n..], Outside(false), at);
      StartsShrink(t[n..], Outside(false), letters);
      ShrinksMore(more, |t[n..]|, |t|);
      assert ([t] + more)[1..] == more;
    } else {
      StartsShrink(t[1..], Step(mode, t[0]), letters);
      ShrinksMore(Starts(t[1..], Step(mode, t[0]), at), |t[1..]|, |t|);
    }
  }

  lemma {:induction false} PaymentIsLocal(s: string, rest: string)
    requires Ends(rest)
    ensures StartsWithPayment(s + rest) <==> StartsWithPayment(s)
  {
    var t := s + rest;
    if |s| >= 7 {
      assert t[..7] == s[..7];
    } else if |t| >= 7 {
      assert t[..7][|s|] == ',' && Lower(',') == ',';
      assert 'a' <= Lower(SCHEME[|s|]) <= 'z';
    }
  }

  lemma {:induction false} SelectCons(head: string, more: seq<string>)
    ensures Select([head] + more)
      == if StartsWithPayment(head) then Listed(TidyPy(PieceAt([head] + more))) + Select(more) else Select(more)
  {
    assert ([head] + more)[1..] == more;
  }

  /** The piece at a start ends before the next start, or before the first start of what follows. */
  lemma {:induction false} PieceApart(x: string, xs: seq<string>, w: string, more: seq<string>)
    requires Shrinks(xs, |x|)
    ensures PieceAt([x + (w + FirstOf(more))] + (Append(xs, w + FirstOf(more)) + more))
      == PieceAt([x + w] + Append(xs, w))
  {
    var rest := w + FirstOf(more);
    if xs != [] {
      assert (Append(xs, rest) + more)[0] == xs[0] + rest;
      PieceBefore(x + rest, Append(xs, rest) + more);
      PieceBefore(x + w, Append(xs, w));
      CutInner(x, xs[0], rest);
      CutInner(x, xs[0], w);
    } else if more != [] {
      NothingAppended(more, rest);
      PieceBefore(x + rest, more);
      CutLast(x, w, more[0]);
    } else {
      assert w + "" == w;
      NothingAppended(more, rest);
    }
  }

  lemma {:induction false} PieceBefore(x: string, more: seq<string>)
    requires more != []
    ensures PieceAt([x] + more) == if |more[0]| <= |x| then x[..|x| - |more[0]|] else x
  {
  }

  lemma {:induction false} CutLast(x: string, w: string, next: string)
    ensures var s := x + (w + next); |next| <= |s| && s[..|s| - |next|] == x + w
  {
  }

  lemma {:induction false} CutInner(x: string, y: string, rest: string)
    requires |y| <= |x|
    ensures (x + rest)[..|x + rest| - |y + rest|] == x[..|x| - |y|]
  {
  }

  /** Each text is selected and cut as if it stood alone with the words after it. */
  lemma {:induction false} SelectApart(xs: seq<string>, bound: nat, w: string, more: seq<string>)
    requires Shrinks(xs, bound) && Ends(w) && (w == "" ==> more == [])
    ensures Select(Append(xs, w + FirstOf(more)) + more) == Select(Append(xs, w)) + Select(more)
    decreases xs
  {
    if xs == [] {
      NothingAppended(more, w + FirstOf(more));
      assert Select([]) + Select(more) == Select(more);
    } else {
      SelectApart(xs[1..], |xs[0]|, w, more);
      PieceApart(xs[0], xs[1..], w, more);
      SelectApartStep(xs[0], Append(xs[1..], w + FirstOf(more)) + more, Append(xs[1..], w), w, more);
      Associative([xs[0] + (w + FirstOf(more))], Append(xs[1..], w + FirstOf(more)), more);
    }
  }

  /** One start in front of both lists, whose pieces there agree. */
  lemma {:induction false} SelectApartStep(x: string, a: seq<string>, b: seq<string>, w: string, more: seq<string>)
    requires Ends(w) && (w == "" ==> more == [])
    requires PieceAt([x + (w + FirstOf(more))] + a) == PieceAt([x + w] + b)
    requires Select(a) == Select(b) + Select(more)
    ensures Select([x + (w + FirstOf(more))] + a) == Select([x + w] + b) + Select(more)
  {
    PaymentIsLocal(x, w + FirstOf(more));
    PaymentIsLocal(x, w);
    SelectCons(x + (w + FirstOf(more)), a);
    SelectCons(x + w, b);
    Associative(Listed(TidyPy(PieceAt([x + w] + b))), Select(b), Select(more));
  }

  /** What is extracted from each text with the words after it. */
  function Alone(texts: seq<string>, blanks: string, letters: char -> bool): seq<string> {
    if texts == [] then []
    else Extract(texts[0] + Words(texts[1..], blanks, letters), letters) + Alone(texts[1..], blanks, letters)
  }

  lemma {:induction false} TextInitial(t: string, rest: string, letters: char -> bool)
    requires AlphaRun(t, letters) > 0
    ensures InitialMode(t + rest) == Outside(true)
  {
    assert (t + rest)[0] == t[0] && IsAlpha(t[0], letters);
  }

  /** The starts of one text with the words after it. */
  lemma {:induction false} AloneStarts(texts: seq<string>, blanks: string, letters: char -> bool)
    requires texts != [] && AreChallengeTexts(texts, letters) && AreBlanks(blanks)
    ensures ChallengeStarts(texts[0] + Words(texts[1..], blanks, letters), letters)
      == Append(Starts(texts[0], Outside(true), SchemeAt(letters)), Words(texts[1..], blanks, letters))
  {
    var w := Words(texts[1..], blanks, letters);
    TextInitial(texts[0], w, letters);
    var ready := TextStarts(texts[0], w, letters);
    WordsHaveNoStart(texts[1..], blanks, ready, letters);
  }

  lemma {:induction false} SelectJoined(texts: seq<string>, blanks: string, letters: char -> bool)
    requires AreChallengeTexts(texts, letters) && AreBlanks(blanks)
    ensures Select(JoinStarts(texts, blanks, letters)) == Alone(texts, blanks, letters)
    decreases texts
  {
    if texts != [] {
      var xs, w := Starts(texts[0], Outside(true), SchemeAt(letters)), Words(texts[1..], blanks, letters);
      SelectJoined(texts[1..], blanks, letters);
      JoinStartsStep(texts, blanks, letters);
      WordsThenStart(texts[1..], blanks, letters);
      StartsShrink(texts[0], Outside(true), letters);
      SelectApart(xs, |texts[0]|, w, JoinStarts(texts[1..], blanks, letters));
      AloneStarts(texts, blanks, letters);
    }
  }

  /**
   * From joined challenge texts of any schemes the splitter extracts what it would extract from each text alone, with the
   * schemes without parameters that follow it.
   */
  lemma {:induction false} ExtractChooses(texts: seq<string>, blanks: string, letters: char -> bool)
    requires AreChallengeTexts(texts, letters) && AreBlanks(blanks)
    ensures Extract(Join(texts, blanks), letters) == Alone(texts, blanks, letters)
  {
    SelectJoined(texts, blanks, letters);
    if texts != [] {
      TextInitial(texts[0], After(texts[1..], blanks), letters);
    }
  }
}
