/** Human-readable decimal amounts to base units, in Go and in Python, and back to 64-bit numbers. */
module Units {
  import opened Common
  import opened Numbers
  import opened Texts

  datatype UnitsError = Empty | Negative | Invalid | TooManyDecimals

  // ── Text ──

  /** The pieces of a text between the occurrences of a character, as `strings.Split` returns them. */
  function Split(s: string, c: char): (parts: seq<string>)
    ensures parts != []
  {
    if s == "" then [""]
    else
      var rest := Split(s[1..], c);
      if s[0] == c then [""] + rest else [[s[0]] + rest[0]] + rest[1..]
  }

  function Zeros(n: nat): (s: string)
    ensures |s| == n && AllDigits(s)
  {
    if n == 0 then "" else "0" + Zeros(n - 1)
  }

  predicate IsZero(c: char) { c == '0' }

  /** `big.Int.SetString` in base ten: an optional sign and at least one digit. */
  function BigInt(s: string): Option<int> {
    var signed := s != "" && (s[0] == '+' || s[0] == '-');
    var digits := if signed then s[1..] else s;
    if digits == "" || !AllDigits(digits) then None
    else
      var n: int := DigitsValue(digits);
      if signed && s[0] == '-' then Some(-n) else Some(n)
  }

  function BigText(n: int): string {
    if n < 0 then "-" + ToText(-n) else ToText(n)
  }

  /** The whole and the fractional part of a trimmed amount, or why it has none. */
  function Parts(text: string, decimals: nat): (r: Result<(string, string), UnitsError>)
    ensures r.Ok? ==> |r.value.1| <= decimals
  {
    if text == "" then Err(Empty)
    else if text[0] == '-' then Err(Negative)
    else
      var parts := Split(text, '.');
      if |parts| > 2 then Err(Invalid)
      else
        var whole := if parts[0] == "" then "0" else parts[0];
        var fractional := if |parts| == 2 then parts[1] else "";
        if |fractional| > decimals then Err(TooManyDecimals) else Ok((whole, fractional))
  }

  /** The digits of the amount moved left by `decimals` places, without leading zeros. */
  function Shifted(whole: string, fractional: string, decimals: nat): string
    requires |fractional| <= decimals
  {
    TrimLeft(whole + fractional + Zeros(decimals - |fractional|), IsZero)
  }

  /** The canonical text of the shifted digits. */
  function Render(value: string): Result<string, UnitsError> {
    if value == "" then Ok("0")
    else
      match BigInt(value)
      case None => Err(Invalid)
      case Some(n) => Ok(BigText(n))
  }

  function ParseUnits(amount: string, decimals: nat): Result<string, UnitsError> {
    match Parts(TrimSpace(amount), decimals)
    case Err(error) => Err(error)
    case Ok(parts) => Render(Shifted(parts.0, parts.1, decimals))
  }

  /** Reading an amount of base units; `None` when it is no unsigned 64-bit number. */
  function ParseAmount(amount: string): Option<u64> {
    match BigInt(amount)
    case None => None
    case Some(n) => if 0 <= n < TWO_64 then Some(n) else None
  }

  // ── Values of digit strings ──

  lemma {:induction false} ConcatValue(a: string, b: string)
    requires AllDigits(a) && AllDigits(b)
    ensures AllDigits(a + b) && DigitsValue(a + b) == DigitsValue(a) * Pow(10, |b|) + DigitsValue(b)
  {
    if b == "" {
      assert a + b == a;
    } else {
      var c := b[..|b| - 1];
      ConcatValue(a, c);
      assert (a + b)[..|a + b| - 1] == a + c;
      assert (a + b)[|a + b| - 1] == b[|b| - 1];
      TenTimes(DigitsValue(a), Pow(10, |c|), DigitsValue(c));
    }
  }

  lemma {:induction false} TenTimes(a: nat, p: nat, c: nat)
    ensures (a * p + c) * 10 == a * (10 * p) + c * 10
  {
  }

  lemma {:induction false} ZerosValue(n: nat)
    ensures DigitsValue(Zeros(n)) == 0
  {
    if n > 0 {
      ZerosValue(n - 1);
      ConcatValue("0", Zeros(n - 1));
      OneDigit('0');
    }
  }

  lemma {:induction false} OneDigit(c: char)
    requires IsDigit(c)
    ensures DigitsValue([c]) == c as int - '0' as int
  {
    assert [c][..0] == "";
  }

  lemma {:induction false} LeadingZero(s: string)
    requires AllDigits(s)
    ensures AllDigits("0" + s) && DigitsValue("0" + s) == DigitsValue(s)
  {
    ConcatValue("0", s);
    OneDigit('0');
  }

  lemma {:induction false} TrimZerosValue(s: string)
    requires AllDigits(s)
    ensures AllDigits(TrimLeft(s, IsZero)) && DigitsValue(TrimLeft(s, IsZero)) == DigitsValue(s)
  {
    if s != "" && s[0] == '0' {
      TrimZerosValue(s[1..]);
      LeadingZero(s[1..]);
      assert s == "0" + s[1..];
    }
  }

  /** The value of an amount with digit-only parts, in base units. */
  function UnitsValue(whole: string, fractional: string, decimals: nat): nat
    requires AllDigits(whole) && AllDigits(fractional) && |fractional| <= decimals
  {
    DigitsValue(whole) * Pow(10, decimals) + DigitsValue(fractional) * Pow(10, decimals - |fractional|)
  }

  lemma {:induction false} PowSum(a: nat, b: nat)
    ensures Pow(10, a + b) == Pow(10, a) * Pow(10, b)
  {
    if a > 0 {
      PowSum(a - 1, b);
      assert Pow(10, a) == 10 * Pow(10, a - 1);
      Regroup(Pow(10, a - 1), Pow(10, b));
    }
  }

  lemma {:induction false} Regroup(p: nat, q: nat)
    ensures 10 * (p * q) == (10 * p) * q
  {
  }

  lemma {:induction false} Distribute(w: nat, p: nat, f: nat, q: nat)
    ensures (w * p + f) * q == w * (p * q) + f * q
  {
  }

  lemma {:induction false} ShiftedValue(whole: string, fractional: string, decimals: nat)
    requires AllDigits(whole) && AllDigits(fractional) && |fractional| <= decimals
    ensures AllDigits(Shifted(whole, fractional, decimals))
    ensures DigitsValue(Shifted(whole, fractional, decimals)) == UnitsValue(whole, fractional, decimals)
  {
    UnitsOfDigits(whole, fractional, decimals);
    ShiftedDigits(whole + fractional, decimals - |fractional|);
  }

  lemma {:induction false} UnitsOfDigits(whole: string, fractional: string, decimals: nat)
    requires AllDigits(whole) && AllDigits(fractional) && |fractional| <= decimals
    ensures AllDigits(whole + fractional)
    ensures DigitsValue(whole + fractional) * Pow(10, decimals - |fractional|) == UnitsValue(whole, fractional, decimals)
  {
    ConcatValue(whole, fractional);
    UnitsSplit(DigitsValue(whole), DigitsValue(fractional), |fractional|, decimals - |fractional|);
  }

  lemma {:induction false} ShiftedDigits(s: string, pad: nat)
    requires AllDigits(s)
    ensures var shifted := TrimLeft(s + Zeros(pad), IsZero);
      AllDigits(shifted) && DigitsValue(shifted) == DigitsValue(s) * Pow(10, pad)
  {
    PaddedValue(s, pad);
    TrimZerosValue(s + Zeros(pad));
  }

  lemma {:induction false} PaddedValue(s: string, pad: nat)
    requires AllDigits(s)
    ensures AllDigits(s + Zeros(pad)) && DigitsValue(s + Zeros(pad)) == DigitsValue(s) * Pow(10, pad)
  {
    ConcatValue(s, Zeros(pad));
    ZerosValue(pad);
  }

  lemma {:induction false} UnitsSplit(w: nat, f: nat, places: nat, pad: nat)
    ensures (w * Pow(10, places) + f) * Pow(10, pad) == w * Pow(10, places + pad) + f * Pow(10, pad)
  {
    PowSum(places, pad);
    Distribute(w, Pow(10, places), f, Pow(10, pad));
  }

  /** The scaling is exact: base units over ten to the decimals is the amount as written. */
  lemma {:induction false} ScalingIsExact(whole: string, fractional: string, decimals: nat)
    requires AllDigits(whole) && AllDigits(fractional) && |fractional| <= decimals
    ensures AllDigits(whole + fractional)
    ensures UnitsValue(whole, fractional, decimals) * Pow(10, |fractional|)
      == DigitsValue(whole + fractional) * Pow(10, decimals)
  {
    var pad := decimals - |fractional|;
    ConcatValue(whole, fractional);
    PowSum(|fractional|, pad);
    Rescale(DigitsValue(whole), DigitsValue(fractional), Pow(10, |fractional|), Pow(10, pad));
  }

  lemma {:induction false} Rescale(w: nat, f: nat, p: nat, q: nat)
    ensures (w * (p * q) + f * q) * p == (w * p + f) * (p * q)
  {
    Distribute(w, p, f, q);
    var x := w * p + f;
    assert (x * q) * p == x * (p * q);
  }

  // ── Amounts as written ──

  /** The text of an amount: with a point and a fractional part, or without. */
  function Written(whole: string, fractional: Option<string>): string {
    match fractional
    case None => whole
    case Some(f) => whole + "." + f
  }

  function Fraction(fractional: Option<string>): string {
    match fractional
    case None => ""
    case Some(f) => f
  }

  predicate AreDigits(whole: string, fractional: Option<string>) {
    AllDigits(whole) && AllDigits(Fraction(fractional))
  }

  predicate AllSpace(s: string) {
    forall i :: 0 <= i < |s| ==> IsSpace(s[i])
  }

  lemma {:induction false} TrimLeftPadding(pad: string, t: string)
    requires AllSpace(pad) && (t == "" || !IsSpace(t[0]))
    ensures TrimLeft(pad + t, IsSpace) == t
  {
    if pad == "" {
      assert pad + t == t;
    } else {
      assert (pad + t)[1..] == pad[1..] + t;
      TrimLeftPadding(pad[1..], t);
    }
  }

  lemma {:induction false} TrimRightPadding(t: string, pad: string)
    requires AllSpace(pad) && (t == "" || !IsSpace(t[|t| - 1]))
    ensures TrimRight(t + pad, IsSpace) == t
  {
    if pad == "" {
      assert t + pad == t;
    } else {
      assert (t + pad)[..|t + pad| - 1] == t + pad[..|pad| - 1];
      TrimRightPadding(t, pad[..|pad| - 1]);
    }
  }

  lemma {:induction false} TrimPadding(left: string, t: string, right: string)
    requires AllSpace(left) && AllSpace(right) && t != "" && !IsSpace(t[0]) && !IsSpace(t[|t| - 1])
    ensures TrimSpace(left + t + right) == t
  {
    assert left + t + right == left + (t + right);
    TrimLeftPadding(left, t + right);
    TrimRightPadding(t, right);
  }

  predicate NoPoint(s: string) {
    forall i :: 0 <= i < |s| ==> s[i] != '.'
  }

  lemma {:induction false} SplitPlain(s: string)
    requires NoPoint(s)
    ensures Split(s, '.') == [s]
  {
    if s != "" {
      SplitPlain(s[1..]);
      assert [s[0]] + s[1..] == s;
    }
  }

  lemma {:induction false} SplitPoint(a: string, b: string)
    requires NoPoint(a) && NoPoint(b)
    ensures Split(a + "." + b, '.') == [a, b]
  {
    var s := a + "." + b;
    if a == "" {
      assert s[1..] == b;
      SplitPlain(b);
    } else {
      assert s[1..] == a[1..] + "." + b;
      SplitPoint(a[1..], b);
      assert [a[0]] + a[1..] == a;
    }
  }

  lemma {:induction false} PartsOfWritten(whole: string, fractional: Option<string>, decimals: nat)
    requires AreDigits(whole, fractional) && Written(whole, fractional) != ""
    ensures Parts(Written(whole, fractional), decimals)
      == if |Fraction(fractional)| > decimals then Err(TooManyDecimals)
         else Ok((if whole == "" then "0" else whole, Fraction(fractional)))
  {
    if fractional.None? {
      SplitPlain(whole);
    } else {
      SplitPoint(whole, fractional.value);
    }
  }

  lemma {:induction false} RenderDigits(value: string)
    requires AllDigits(value)
    ensures Render(value) == Ok(ToText(DigitsValue(value)))
  {
    if value == "" {
      assert ToText(0) == "0";
    }
  }

  /**
   * Exact conversion: for digit-only parts, with any white space around, the result is the canonical text of the amount
   * times ten to the decimals, and an error exactly when the fraction has more digits than there are decimals.
   */
  lemma {:induction false} ConversionIsExact(left: string, whole: string, fractional: Option<string>, right: string, decimals: nat)
    requires AllSpace(left) && AllSpace(right)
    requires AreDigits(whole, fractional) && Written(whole, fractional) != ""
    ensures ParseUnits(left + Written(whole, fractional) + right, decimals)
      == if |Fraction(fractional)| > decimals then Err(TooManyDecimals)
         else Ok(ToText(UnitsValue(whole, Fraction(fractional), decimals)))
  {
    TrimPadding(left, Written(whole, fractional), right);
    PartsOfWritten(whole, fractional, decimals);
    if |Fraction(fractional)| <= decimals {
      RenderedUnits(if whole == "" then "0" else whole, Fraction(fractional), decimals);
      NoWholePart(Fraction(fractional), decimals);
    }
  }

  lemma {:induction false} RenderedUnits(whole: string, fractional: string, decimals: nat)
    requires AllDigits(whole) && AllDigits(fractional) && |fractional| <= decimals
    ensures Render(Shifted(whole, fractional, decimals)) == Ok(ToText(UnitsValue(whole, fractional, decimals)))
  {
    ShiftedValue(whole, fractional, decimals);
    RenderDigits(Shifted(whole, fractional, decimals));
  }

  /** A missing whole part counts as zero. */
  lemma {:induction false} NoWholePart(fractional: string, decimals: nat)
    requires AllDigits(fractional) && |fractional| <= decimals
    ensures UnitsValue("0", fractional, decimals) == UnitsValue("", fractional, decimals)
  {
    OneDigit('0');
    assert DigitsValue("") == 0;
  }

  // ── Back to 64-bit numbers ──

  /** Reading the converted amount gives its value, exactly when that fits in 64 bits. */
  lemma {:induction false} ParseAmountIff(v: nat)
    ensures ParseAmount(ToText(v)) == if v < TWO_64 then Some(v) else None
  {
    TextValue(v);
    assert IsDigit(ToText(v)[0]);
  }

  /** Which texts read as which amounts: digits that fit in 64 bits, a plus sign in front, or a minus sign before zero. */
  lemma {:induction false} ParseAmountExactly(s: string, n: u64)
    ensures ParseAmount(s) == Some(n)
      <==> exists digits ::
             && digits != "" && AllDigits(digits) && DigitsValue(digits) == n
             && (s == digits || s == "+" + digits || (s == "-" + digits && n == 0))
  {
    if ParseAmount(s) == Some(n) {
      var digits := if s[0] == '+' || s[0] == '-' then s[1..] else s;
      assert s == digits || s == "+" + digits || s == "-" + digits;
    } else if digits :|
        && digits != "" && AllDigits(digits) && DigitsValue(digits) == n
        && (s == digits || s == "+" + digits || (s == "-" + digits && n == 0)) {
      assert IsDigit(digits[0]);
      assert s == "+" + digits || s == "-" + digits ==> s[1..] == digits;
    }
  }

  lemma {:induction false} AmountSurvives(whole: string, fractional: Option<string>, decimals: nat)
    requires AreDigits(whole, fractional) && Written(whole, fractional) != "" && |Fraction(fractional)| <= decimals
    ensures var r := ParseUnits(Written(whole, fractional), decimals);
      var v := UnitsValue(whole, Fraction(fractional), decimals);
      r.Ok? && ParseAmount(r.value) == if v < TWO_64 then Some(v) else None
  {
    var t := Written(whole, fractional);
    assert "" + t + "" == t;
    ConversionIsExact("", whole, fractional, "", decimals);
    ParseAmountIff(UnitsValue(whole, Fraction(fractional), decimals));
  }

  // ── What the conversion does with signs ──

  /** An amount such as `0.-5`: the minus sign is not in front, and some digit is not zero. */
  predicate HidesMinus(value: string) {
    value != "" && value[0] == '-' && exists i :: 1 <= i < |value| && value[i] != '0'
  }

  lemma {:induction false} PositiveValue(s: string, i: nat)
    requires AllDigits(s) && i < |s| && s[i] != '0'
    ensures DigitsValue(s) > 0
  {
    if i < |s| - 1 {
      PositiveValue(s[..|s| - 1], i);
    }
  }

  lemma {:induction false} ZeroText(s: string)
    requires AllDigits(s) && forall i :: 0 <= i < |s| ==> s[i] == '0'
    ensures DigitsValue(s) == 0
  {
    if s != "" {
      ZeroText(s[..|s| - 1]);
    }
  }

  /** The rendered text is a number of base units exactly when the digits do not hide a minus sign. */
  lemma {:induction false} RenderedIsNaturalIff(value: string)
    requires Render(value).Ok?
    ensures AllDigits(Render(value).value) <==> !HidesMinus(value)
  {
    if value != "" {
      var digits := value[1..];
      if value[0] == '-' {
        if i :| 1 <= i < |value| && value[i] != '0' {
          PositiveValue(digits, i - 1);
          assert Render(value).value[0] == '-';
        } else {
          ZeroText(digits);
        }
      }
    }
  }

  predicate Has(s: string, c: char) {
    exists i :: 0 <= i < |s| && s[i] == c
  }

  predicate HasNonzeroDigit(s: string) {
    exists i :: 0 <= i < |s| && '1' <= s[i] <= '9'
  }

  lemma {:induction false} HasConcat(a: string, b: string, c: char)
    ensures Has(a + b, c) <==> Has(a, c) || Has(b, c)
  {
    if i :| 0 <= i < |a| && a[i] == c {
      assert (a + b)[i] == c;
    } else if j :| 0 <= j < |b| && b[j] == c {
      assert (a + b)[|a| + j] == c;
    }
  }

  lemma {:induction false} HasSplit(s: string, n: nat, c: char)
    requires n <= |s|
    ensures Has(s, c) <==> Has(s[..n], c) || Has(s[n..], c)
  {
    HasConcat(s[..n], s[n..], c);
    assert s[..n] + s[n..] == s;
  }

  lemma {:induction false} HasOne(d: char, c: char)
    ensures Has([d], c) <==> c == d
  {
    assert [d][0] == d;
  }

  lemma {:induction false} TrimLeftHas(s: string, drop: char -> bool, c: char)
    requires !drop(c)
    ensures Has(TrimLeft(s, drop), c) <==> Has(s, c)
    decreases s
  {
    if s != "" && drop(s[0]) {
      TrimLeftHas(s[1..], drop, c);
      HasRest(s, c);
    }
  }

  lemma {:induction false} HasRest(s: string, c: char)
    requires s != "" && s[0] != c
    ensures Has(s[1..], c) <==> Has(s, c)
  {
    HasSplit(s, 1, c);
    HasOne(s[0], c);
    assert s[..1] == [s[0]];
  }

  lemma {:induction false} TrimRightHas(s: string, drop: char -> bool, c: char)
    requires !drop(c)
    ensures Has(TrimRight(s, drop), c) <==> Has(s, c)
    decreases s
  {
    if s != "" && drop(s[|s| - 1]) {
      TrimRightHas(s[..|s| - 1], drop, c);
      HasFront(s, c);
    }
  }

  lemma {:induction false} HasFront(s: string, c: char)
    requires s != "" && s[|s| - 1] != c
    ensures Has(s[..|s| - 1], c) <==> Has(s, c)
  {
    HasSplit(s, |s| - 1, c);
    HasOne(s[|s| - 1], c);
    assert s[|s| - 1..] == [s[|s| - 1]];
  }

  predicate SomeHas(parts: seq<string>, c: char) {
    parts != [] && (Has(parts[0], c) || SomeHas(parts[1..], c))
  }

  /** Splitting drops nothing but the separators. */
  lemma {:induction false} SplitHas(s: string, sep: char, c: char)
    requires c != sep
    ensures SomeHas(Split(s, sep), c) <==> Has(s, c)
    decreases s
  {
    if s != "" {
      var rest := Split(s[1..], sep);
      SplitHas(s[1..], sep, c);
      HasSplit(s, 1, c);
      assert s[..1] == [s[0]];
      HasOne(s[0], c);
      if s[0] == sep {
        assert ([""] + rest)[1..] == rest;
      } else {
        HasConcat([s[0]], rest[0], c);
        assert ([[s[0]] + rest[0]] + rest[1..])[1..] == rest[1..];
      }
    }
  }

  lemma {:induction false} ZerosHas(n: nat, c: char)
    requires c != '0'
    ensures !Has(Zeros(n), c)
  {
    if n > 0 {
      ZerosHas(n - 1, c);
      HasConcat("0", Zeros(n - 1), c);
      HasOne('0', c);
    }
  }

  lemma {:induction false} PartsHas(text: string, decimals: nat, c: char)
    requires Parts(text, decimals).Ok? && c != '.' && c != '0'
    ensures var parts := Parts(text, decimals).value; Has(parts.0, c) || Has(parts.1, c) <==> Has(text, c)
  {
    var parts := Split(text, '.');
    SplitHas(text, '.', c);
    HasOne('0', c);
    assert "0" == ['0'];
    if |parts| == 2 {
      var last := parts[1..];
      assert last[1..] == [];
      assert SomeHas(last, c) <==> Has(parts[1], c);
    } else {
      assert parts[1..] == [];
      assert SomeHas(parts, c) <==> Has(parts[0], c);
    }
  }

  lemma {:induction false} ShiftedHas(whole: string, fractional: string, decimals: nat, c: char)
    requires |fractional| <= decimals && c != '0'
    ensures Has(Shifted(whole, fractional, decimals), c) <==> Has(whole, c) || Has(fractional, c)
  {
    var zeros := Zeros(decimals - |fractional|);
    TrimLeftHas(whole + fractional + zeros, IsZero, c);
    HasConcat(whole + fractional, zeros, c);
    HasConcat(whole, fractional, c);
    ZerosHas(decimals - |fractional|, c);
  }

  /** Signs and digits other than zero survive up to the shifted digits, and no others appear. */
  lemma {:induction false} AmountHas(amount: string, decimals: nat, c: char)
    requires Parts(TrimSpace(amount), decimals).Ok? && c != '.' && c != '0' && !IsSpace(c)
    ensures var parts := Parts(TrimSpace(amount), decimals).value;
      Has(Shifted(parts.0, parts.1, decimals), c) <==> Has(amount, c)
  {
    var parts := Parts(TrimSpace(amount), decimals).value;
    TrimLeftHas(amount, IsSpace, c);
    TrimRightHas(TrimLeft(amount, IsSpace), IsSpace, c);
    PartsHas(TrimSpace(amount), decimals, c);
    ShiftedHas(parts.0, parts.1, decimals, c);
  }

  lemma {:induction false} AmountHasDigit(amount: string, decimals: nat)
    requires Parts(TrimSpace(amount), decimals).Ok?
    ensures var parts := Parts(TrimSpace(amount), decimals).value;
      HasNonzeroDigit(Shifted(parts.0, parts.1, decimals)) <==> HasNonzeroDigit(amount)
  {
    var parts := Parts(TrimSpace(amount), decimals).value;
    var value := Shifted(parts.0, parts.1, decimals);
    forall c | '1' <= c <= '9' ensures Has(value, c) <==> Has(amount, c) {
      AmountHas(amount, decimals, c);
    }
    SameDigitsHave(value, amount);
  }

  lemma {:induction false} SameDigitsHave(a: string, b: string)
    requires forall c :: '1' <= c <= '9' ==> (Has(a, c) <==> Has(b, c))
    ensures HasNonzeroDigit(a) <==> HasNonzeroDigit(b)
  {
    if i :| 0 <= i < |a| && '1' <= a[i] <= '9' {
      assert Has(a, a[i]) && Has(b, a[i]);
    }
    if j :| 0 <= j < |b| && '1' <= b[j] <= '9' {
      assert Has(b, b[j]) && Has(a, b[j]);
    }
  }

  /** In a text that renders, every character after a minus sign in front is a digit, and there is no other minus sign. */
  lemma {:induction false} HidesMinusIff(value: string)
    requires Render(value).Ok?
    ensures HidesMinus(value) <==> Has(value, '-') && HasNonzeroDigit(value)
  {
    if value != "" {
      assert forall i :: 1 <= i < |value| ==> value[i] == value[1..][i - 1];
    }
  }

  /**
   * The conversion yields a number of base units exactly when the amount does not contain both a minus sign, which then
   * stands somewhere but in front, and a digit other than zero.
   */
  lemma {:induction false} ResultIsNaturalIff(amount: string, decimals: nat)
    requires ParseUnits(amount, decimals).Ok?
    ensures AllDigits(ParseUnits(amount, decimals).value) <==> !(Has(amount, '-') && HasNonzeroDigit(amount))
  {
    var parts := Parts(TrimSpace(amount), decimals).value;
    RenderedIsNaturalIff(Shifted(parts.0, parts.1, decimals));
    HidesMinusIff(Shifted(parts.0, parts.1, decimals));
    AmountHas(amount, decimals, '-');
    AmountHasDigit(amount, decimals);
  }

  /** A minus sign and digits that are not all zero. */
  predicate IsSigned(f: string) {
    |f| > 1 && f[0] == '-' && AllDigits(f[1..]) && exists i :: 1 <= i < |f| && f[i] != '0'
  }

  lemma {:induction false} SignedParts(f: string)
    requires IsSigned(f)
    ensures NoPoint(f) && !IsSpace(f[|f| - 1])
  {
    forall i | 1 <= i < |f| ensures IsDigit(f[i]) {
      assert f[i] == f[1..][i - 1];
    }
  }

  lemma {:induction false} SignedShift(f: string)
    requires IsSigned(f)
    ensures Shifted("0", f, |f|) == f
  {
    assert Zeros(|f| - |f|) == "";
    assert "0" + f + "" == "0" + f;
    assert ("0" + f)[1..] == f;
    assert TrimLeft(f, IsZero) == f;
  }

  lemma {:induction false} SignedRender(f: string)
    requires IsSigned(f)
    ensures Render(f) == Ok("-" + ToText(DigitsValue(f[1..])))
  {
    var i :| 1 <= i < |f| && f[i] != '0';
    PositiveValue(f[1..], i - 1);
  }

  /** `amount` is a zero, a point and `fractional`. */
  predicate AfterZero(amount: string, fractional: string) {
    Split(amount, '.') == ["0", fractional] && TrimSpace(amount) == amount && amount != "" && amount[0] == '0'
  }

  lemma {:induction false} ZeroPoint(f: string)
    requires f != "" && NoPoint(f) && !IsSpace(f[|f| - 1])
    ensures AfterZero("0" + "." + f, f)
  {
    SplitPoint("0", f);
    TrimNothing("0" + "." + f);
  }

  lemma {:induction false} AfterZeroConverts(amount: string, f: string)
    requires AfterZero(amount, f)
    ensures ParseUnits(amount, |f|) == Render(Shifted("0", f, |f|))
  {
  }

  /** For instance every amount that puts the sign after the point comes out negative. */
  lemma {:induction false} HiddenMinus(amount: string, f: string)
    requires IsSigned(f) && amount == "0" + "." + f
    ensures ParseUnits(amount, |f|) == Ok("-" + ToText(DigitsValue(f[1..])))
  {
    SignedParts(f);
    ZeroPoint(f);
    AfterZeroConverts(amount, f);
    SignedShift(f);
    SignedRender(f);
  }

  // ── Refusals ──

  /** Text that nothing can be trimmed off. */
  predicate IsTrimmed(t: string) {
    t != "" && !IsPySpace(t[0]) && !IsPySpace(t[|t| - 1])
  }

  lemma {:induction false} SplitCons(a: string, rest: string)
    requires NoPoint(a)
    ensures Split(a + "." + rest, '.') == [a] + Split(rest, '.')
  {
    var s := a + "." + rest;
    if a == "" {
      assert s[1..] == rest;
    } else {
      assert s[1..] == a[1..] + "." + rest;
      SplitCons(a[1..], rest);
      assert [a[0]] + a[1..] == a;
    }
  }

  /** An amount that is empty, starts with a minus sign, or has two points or too long a fraction is refused as such. */
  lemma {:induction false} Refusals(t: string, whole: string, fractional: string, rest: Option<string>, decimals: nat)
    requires IsTrimmed(t) && NoPoint(whole) && NoPoint(fractional)
    requires t == whole + "." + fractional + if rest.Some? then "." + rest.value else ""
    ensures t[0] == '-' ==> ParseUnits(t, decimals) == Err(Negative)
    ensures t[0] != '-' && rest.Some? ==> ParseUnits(t, decimals) == Err(Invalid)
    ensures t[0] != '-' && rest.None? && |fractional| > decimals ==> ParseUnits(t, decimals) == Err(TooManyDecimals)
  {
    NothingToTrim(t);
    if rest.Some? {
      assert t == whole + "." + (fractional + "." + rest.value);
      SplitCons(whole, fractional + "." + rest.value);
      SplitCons(fractional, rest.value);
    } else {
      assert t == whole + "." + fractional;
      SplitPoint(whole, fractional);
    }
  }

  lemma {:induction false} SplitJoins(s: string, c: char)
    ensures |Split(s, c)| == 1 ==> s == Split(s, c)[0]
    ensures |Split(s, c)| == 2 ==> s == Split(s, c)[0] + [c] + Split(s, c)[1]
  {
    if s != "" {
      SplitJoins(s[1..], c);
      var rest := Split(s[1..], c);
      assert s == [s[0]] + s[1..];
      if s[0] != c && |rest| == 2 {
        assert [s[0]] + (rest[0] + [c] + rest[1]) == ([s[0]] + rest[0]) + [c] + rest[1];
      }
    }
  }

  /** Conversely a refusal for one of these reasons is a refusal of such an amount. */
  lemma {:induction false} RefusalsMean(amount: string, decimals: nat)
    ensures ParseUnits(amount, decimals) == Err(Empty) <==> TrimSpace(amount) == ""
    ensures ParseUnits(amount, decimals) == Err(Negative) <==> TrimSpace(amount) != "" && TrimSpace(amount)[0] == '-'
    ensures ParseUnits(amount, decimals) == Err(TooManyDecimals) ==>
              exists whole, fractional :: TrimSpace(amount) == whole + "." + fractional && |fractional| > decimals
  {
    var t := TrimSpace(amount);
    SplitJoins(t, '.');
    if ParseUnits(amount, decimals) == Err(TooManyDecimals) {
      assert "." == ['.'];
      assert t == Split(t, '.')[0] + "." + Split(t, '.')[1];
    }
  }

  lemma {:induction false} BlankIsRefused(blank: string, decimals: nat)
    requires AllSpace(blank)
    ensures ParseUnits(blank, decimals) == Err(Empty)
  {
    TrimLeftPadding(blank, "");
    assert blank + "" == blank;
  }

  /** Whatever is converted consists of white space, digits, signs and points. */
  lemma {:induction false} ConvertedIsNumeric(amount: string, decimals: nat, c: char)
    requires ParseUnits(amount, decimals).Ok? && Has(amount, c)
    ensures IsSpace(c) || IsDigit(c) || c == '+' || c == '-' || c == '.'
  {
    if !IsSpace(c) && c != '.' && c != '0' {
      AmountHas(amount, decimals, c);
      var parts := Parts(TrimSpace(amount), decimals).value;
      RenderedHas(Shifted(parts.0, parts.1, decimals), c);
    }
  }

  lemma {:induction false} RenderedHas(value: string, c: char)
    requires Render(value).Ok? && Has(value, c)
    ensures IsDigit(c) || c == '+' || c == '-'
  {
    var i :| 0 <= i < |value| && value[i] == c;
    assert i > 0 ==> value[1..][i - 1] == c;
  }

  // ── The Python conversion ──

  /** Python's limit on the digits of a text converted to an integer. */
  const MAX_DIGITS := 4300

  /** `int` of a text: digit texts up to the limit; what it makes of other texts is up to the library. */
  function PythonInt(s: string, other: string -> Option<int>): Option<int> {
    if s == "" || !AllDigits(s) then other(s)
    else if |s| > MAX_DIGITS then None
    else Some(DigitsValue(s))
  }

  function ParseUnitsPython(amount: string, decimals: nat, other: string -> Option<int>): Result<string, UnitsError> {
    match Parts(Strip(amount), decimals)
    case Err(error) => Err(error)
    case Ok(parts) => RenderPython(Shifted(parts.0, parts.1, decimals), other)
  }

  function RenderPython(shifted: string, other: string -> Option<int>): Result<string, UnitsError> {
    match PythonInt(if shifted == "" then "0" else shifted, other)
    case None => Err(Invalid)
    case Some(n) => Ok(BigText(n))
  }

  /** Python's refusals name the same faults, and every other one is an invalid amount. */
  lemma {:induction false} PythonRefusalsMean(amount: string, decimals: nat, other: string -> Option<int>)
    ensures ParseUnitsPython(amount, decimals, other) == Err(Empty) <==> Strip(amount) == ""
    ensures ParseUnitsPython(amount, decimals, other) == Err(Negative) <==> Strip(amount) != "" && Strip(amount)[0] == '-'
    ensures ParseUnitsPython(amount, decimals, other) == Err(TooManyDecimals) ==>
              exists whole, fractional :: Strip(amount) == whole + "." + fractional && |fractional| > decimals
  {
    var t := Strip(amount);
    SplitJoins(t, '.');
    if ParseUnitsPython(amount, decimals, other) == Err(TooManyDecimals) {
      assert "." == ['.'];
      assert t == Split(t, '.')[0] + "." + Split(t, '.')[1];
    }
  }

  /** On digits the two renderings agree exactly up to Python's limit. */
  lemma {:induction false} RenderingsAgreeIff(shifted: string, other: string -> Option<int>)
    requires AllDigits(shifted)
    ensures RenderPython(shifted, other) == Render(shifted) <==> |shifted| <= MAX_DIGITS
  {
    RenderDigits(shifted);
    OneDigit('0');
  }

  lemma {:induction false} SameDigits(f: string, decimals: nat)
    requires |f| <= decimals
    ensures Shifted("0", f, decimals) == Shifted("", f, decimals)
  {
    var u := f + Zeros(decimals - |f|);
    assert "" + f + Zeros(decimals - |f|) == u;
    assert "0" + f + Zeros(decimals - |f|) == "0" + u;
    assert ("0" + u)[1..] == u;
  }

  lemma {:induction false} NothingToTrim(t: string)
    requires t != "" && !IsPySpace(t[0]) && !IsPySpace(t[|t| - 1])
    ensures TrimSpace(t) == t && Strip(t) == t
  {
    TrimNothing(t);
  }

  lemma {:induction false} PowGrows(a: nat, b: nat)
    requires a <= b
    ensures 0 < Pow(10, a) <= Pow(10, b)
    decreases b
  {
    if a < b {
      PowGrows(a, b - 1);
    } else if a > 0 {
      PowGrows(a - 1, b - 1);
    }
  }

  lemma {:induction false} DigitsBound(s: string)
    requires AllDigits(s)
    ensures DigitsValue(s) < Pow(10, |s|)
    ensures s != "" && s[0] != '0' ==> Pow(10, |s| - 1) <= DigitsValue(s)
  {
    if |s| > 1 {
      DigitsBound(s[..|s| - 1]);
    } else if |s| == 1 {
      OneDigit(s[0]);
      assert s == [s[0]];
    }
  }

  /** A number written without leading zeros has at most `n` digits exactly when it is below ten to the `n`. */
  lemma {:induction false} LengthIff(s: string, n: nat)
    requires AllDigits(s) && (s != "" ==> s[0] != '0')
    ensures |s| <= n <==> DigitsValue(s) < Pow(10, n)
  {
    DigitsBound(s);
    if |s| <= n {
      PowGrows(|s|, n);
    } else {
      PowGrows(n, |s| - 1);
    }
  }

  lemma {:induction false} AgreeByLength(
      whole: string, fractional: Option<string>, decimals: nat, other: string -> Option<int>)
    requires AreDigits(whole, fractional) && Written(whole, fractional) != "" && |Fraction(fractional)| <= decimals
    ensures var t := Written(whole, fractional);
      ParseUnitsPython(t, decimals, other) == ParseUnits(t, decimals)
      <==> |Shifted(whole, Fraction(fractional), decimals)| <= MAX_DIGITS
  {
    NothingToTrim(Written(whole, fractional));
    PartsOfWritten(whole, fractional, decimals);
    ShiftedValue(whole, Fraction(fractional), decimals);
    SameDigits(Fraction(fractional), decimals);
    RenderingsAgreeIff(Shifted(whole, Fraction(fractional), decimals), other);
  }

  /** On digit-only amounts the two conversions agree exactly below ten to the 4300 base units, Python's limit on digits. */
  lemma {:induction false} ConversionsAgreeIff(
      whole: string, fractional: Option<string>, decimals: nat, other: string -> Option<int>, limit: nat)
    requires AreDigits(whole, fractional) && Written(whole, fractional) != "" && |Fraction(fractional)| <= decimals
    requires limit == 4300
    ensures var t := Written(whole, fractional);
      ParseUnitsPython(t, decimals, other) == ParseUnits(t, decimals)
      <==> UnitsValue(whole, Fraction(fractional), decimals) < Pow(10, limit)
  {
    AgreeByLength(whole, fractional, decimals, other);
    ShiftedValue(whole, Fraction(fractional), decimals);
    LengthIff(Shifted(whole, Fraction(fractional), decimals), limit);
  }
}
