/** String operations shared by the header codecs, the stream and the amount conversion. */
module Texts {

  /** Unicode white space, as Go's `unicode.IsSpace` and Rust's `char::is_whitespace` define it. */
  predicate IsSpace(c: char) {
    || '\t' <= c <= '\r'
    || c == ' '
    || c == '\U{0085}' || c == '\U{00A0}' || c == '\U{1680}'
    || '\U{2000}' <= c <= '\U{200A}'
    || c == '\U{2028}' || c == '\U{2029}' || c == '\U{202F}' || c == '\U{205F}' || c == '\U{3000}'
  }

  /** The position of the first occurrence of a character, or -1. */
  function IndexOf(s: string, c: char): (i: int)
    ensures -1 <= i < |s|
    ensures i >= 0 ==> s[i] == c && forall j :: 0 <= j < i ==> s[j] != c
    ensures i == -1 ==> forall j :: 0 <= j < |s| ==> s[j] != c
  {
    if s == "" then -1
    else if s[0] == c then 0
    else
      var i := IndexOf(s[1..], c);
      if i < 0 then -1 else i + 1
  }

  function TrimLeft(s: string, drop: char -> bool): (r: string)
    ensures |r| <= |s| && r == s[|s| - |r|..]
    ensures r != "" ==> !drop(r[0])
  {
    if s != "" && drop(s[0]) then TrimLeft(s[1..], drop) else s
  }

  function TrimRight(s: string, drop: char -> bool): (r: string)
    ensures |r| <= |s| && r == s[..|r|]
    ensures r != "" ==> !drop(r[|r| - 1])
  {
    if s != "" && drop(s[|s| - 1]) then TrimRight(s[..|s| - 1], drop) else s
  }

  function TrimSpace(s: string): string {
    TrimRight(TrimLeft(s, IsSpace), IsSpace)
  }

  /** White space as Python's `str.isspace` defines it. */
  predicate IsPySpace(c: char) {
    IsSpace(c) || '\U{001C}' <= c <= '\U{001F}'
  }

  /** Python's `str.strip`. */
  function Strip(s: string): string {
    TrimRight(TrimLeft(s, IsPySpace), IsPySpace)
  }

  lemma {:induction false} NothingToTrimLeft(s: string, drop: char -> bool)
    requires s == "" || !drop(s[0])
    ensures TrimLeft(s, drop) == s
  {
  }

  /** A loop that advances over characters to be dropped has come from `start` to `i`. */
  ghost predicate SkippedTo(s: string, start: nat, i: nat, drop: char -> bool) {
    start <= i <= |s| && TrimLeft(s[start..], drop) == TrimLeft(s[i..], drop)
  }

  lemma {:induction false} SkipStep(s: string, start: nat, i: nat, drop: char -> bool)
    requires SkippedTo(s, start, i, drop) && i < |s| && drop(s[i])
    ensures SkippedTo(s, start, i + 1, drop)
  {
    assert s[i..][1..] == s[i + 1..];
  }

  lemma {:induction false} SkipEnd(s: string, start: nat, i: nat, drop: char -> bool)
    requires SkippedTo(s, start, i, drop) && (i < |s| ==> !drop(s[i]))
    ensures s[i..] == TrimLeft(s[start..], drop)
  {
    NothingToTrimLeft(s[i..], drop);
  }

  /** Text that starts and ends with something else is not trimmed. */
  lemma {:induction false} TrimNothing(s: string)
    requires s == "" || (!IsSpace(s[0]) && !IsSpace(s[|s| - 1]))
    ensures TrimSpace(s) == s
  {
  }

  // ── What trimming removes ──

  lemma {:induction false} TrimmedLeft(s: string, drop: char -> bool)
    ensures forall i :: 0 <= i < |s| - |TrimLeft(s, drop)| ==> drop(s[i])
  {
    if s != "" && drop(s[0]) {
      TrimmedLeft(s[1..], drop);
      forall i | 0 <= i < |s| - |TrimLeft(s, drop)| ensures drop(s[i]) {
        if i > 0 {
          assert s[1..][i - 1] == s[i];
        }
      }
    }
  }

  lemma {:induction false} TrimmedRight(s: string, drop: char -> bool)
    ensures forall i :: |TrimRight(s, drop)| <= i < |s| ==> drop(s[i])
  {
    if s != "" && drop(s[|s| - 1]) {
      TrimmedRight(s[..|s| - 1], drop);
    }
  }

  lemma {:induction false} TrimsLeft(s: string, n: nat, drop: char -> bool)
    requires n < |s| && !drop(s[n]) && forall i :: 0 <= i < n ==> drop(s[i])
    ensures TrimLeft(s, drop) == s[n..]
    decreases n
  {
    if n > 0 {
      assert s[1..][n - 1] == s[n];
      TrimsLeft(s[1..], n - 1, drop);
      assert s[1..][n - 1..] == s[n..];
    }
  }

  lemma {:induction false} TrimsRight(s: string, n: nat, drop: char -> bool)
    requires 0 < n <= |s| && !drop(s[n - 1]) && forall i :: n <= i < |s| ==> drop(s[i])
    ensures TrimRight(s, drop) == s[..n]
    decreases |s|
  {
    if n < |s| {
      TrimsRight(s[..|s| - 1], n, drop);
      assert s[..|s| - 1][..n] == s[..n];
    } else {
      assert s[..n] == s;
    }
  }

  /** The code points that count as white space. */
  lemma {:induction false} SpaceCodes(c: char)
    ensures IsSpace(c) <==>
            c as int in {9, 10, 11, 12, 13, 32, 133, 160, 5760, 8192, 8193, 8194, 8195, 8196, 8197, 8198, 8199, 8200, 8201, 8202,
                         8232, 8233, 8239, 8287, 12288}
    ensures IsPySpace(c) <==> IsSpace(c) || c as int in {28, 29, 30, 31}
  {
  }
}
