/** Decimal text and the unsigned 64-bit numbers it denotes. */
module Numbers {
  import opened Common

  predicate IsDigit(c: char) { '0' <= c <= '9' }

  predicate AllDigits(s: string) {
    forall i :: 0 <= i < |s| ==> IsDigit(s[i])
  }

  /** The number a digit string denotes. */
  function DigitsValue(s: string): nat
    requires AllDigits(s)
  {
    if s == "" then 0 else DigitsValue(s[..|s| - 1]) * 10 + (s[|s| - 1] as int - '0' as int)
  }

  /** Rust's `str::parse::<u64>`: an optional plus sign, at least one digit, no overflow. */
  function ParseU64(s: string): Option<u64> {
    var digits := if s != "" && s[0] == '+' then s[1..] else s;
    if digits == "" || !AllDigits(digits) || DigitsValue(digits) >= TWO_64 then None
    else Some(DigitsValue(digits))
  }

  /** Digits read as the number they denote if it fits in 64 bits, a plus sign in front is skipped, all else is refused. */
  lemma {:induction false} ParseU64Iff(s: string, n: u64)
    ensures ParseU64(s) == Some(n)
      <==> exists digits ::
             digits != "" && AllDigits(digits) && DigitsValue(digits) == n && (s == digits || s == "+" + digits)
  {
    if ParseU64(s) == Some(n) {
      var digits := if s[0] == '+' then s[1..] else s;
      assert s == digits || s == "+" + digits;
    } else if digits :|
        digits != "" && AllDigits(digits) && DigitsValue(digits) == n && (s == digits || s == "+" + digits) {
      assert IsDigit(digits[0]);
      assert s == "+" + digits ==> s[1..] == digits;
    }
  }

  /** The shortest decimal text of a number. */
  function ToText(n: nat): (s: string)
    ensures s != "" && AllDigits(s)
  {
    if n < 10 then [n as char + '0'] else ToText(n / 10) + [(n % 10) as char + '0']
  }

  lemma {:induction false} TextValue(n: nat)
    ensures DigitsValue(ToText(n)) == n
  {
    if n >= 10 {
      TextValue(n / 10);
      assert ToText(n)[..|ToText(n)| - 1] == ToText(n / 10);
    } else {
      assert DigitsValue(ToText(n)[..0]) == 0;
    }
  }

  /** The text has no leading zero, and nothing but a zero starts with one. */
  lemma {:induction false} TextIsShortest(n: nat)
    ensures ToText(n)[0] == '0' <==> n == 0
    ensures n < 10 <==> |ToText(n)| == 1
  {
    if n >= 10 {
      TextIsShortest(n / 10);
    }
  }

  lemma {:induction false} DigitsAre(c: char)
    ensures IsDigit(c) <==> c in "0123456789"
  {
    if IsDigit(c) {
      assert "0123456789"[c as int - '0' as int] == c;
    }
  }

  /** Printing and parsing a 64-bit number gives it back. */
  lemma {:induction false} ParseToText(n: u64)
    ensures ParseU64(ToText(n)) == Some(n)
  {
    TextValue(n);
    assert IsDigit(ToText(n)[0]);
  }
}
