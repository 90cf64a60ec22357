/** Base58 text of byte strings: the in-place big-number conversions of the payment page. */
module Base58 {
  import opened Common

  // ── The alphabet ──

  const ALPHABET: string :=
    "123456789" + "ABCDEFGH" + "JKLMN" + "PQRSTUVWXYZ" + "abcdefghijk" + "mnopqrstuvwxyz"

  type digit = d: nat | d < 58

  function Symbol(d: digit): char {
    if d < 9 then '1' + d as char
    else if d < 17 then 'A' + (d - 9) as char
    else if d < 22 then 'J' + (d - 17) as char
    else if d < 33 then 'P' + (d - 22) as char
    else if d < 44 then 'a' + (d - 33) as char
    else 'm' + (d - 44) as char
  }

  lemma {:induction false} SymbolsSpellAlphabet()
    ensures ALPHABET == seq(58, d requires 0 <= d < 58 => Symbol(d))
  {
    assert "123456789" == seq(9, d requires 0 <= d < 9 => Symbol(d));
    assert "ABCDEFGH" == seq(8, d requires 0 <= d < 8 => Symbol(d + 9));
    assert "JKLMN" == seq(5, d requires 0 <= d < 5 => Symbol(d + 17));
    assert "PQRSTUVWXYZ" == seq(11, d requires 0 <= d < 11 => Symbol(d + 22));
    assert "abcdefghijk" == seq(11, d requires 0 <= d < 11 => Symbol(d + 33));
    assert "mnopqrstuvwxyz" == seq(14, d requires 0 <= d < 14 => Symbol(d + 44));
  }

  /** The position of a symbol in the alphabet, or -1. */
  function IndexOf(c: char): (i: int)
    ensures -1 <= i < 58
    ensures i >= 0 ==> Symbol(i) == c
    ensures i == -1 ==> forall d: digit :: Symbol(d) != c
  {
    if '1' <= c <= '9' then c as int - '1' as int
    else if 'A' <= c <= 'H' then c as int - 'A' as int + 9
    else if 'J' <= c <= 'N' then c as int - 'J' as int + 17
    else if 'P' <= c <= 'Z' then c as int - 'P' as int + 22
    else if 'a' <= c <= 'k' then c as int - 'a' as int + 33
    else if 'm' <= c <= 'z' then c as int - 'm' as int + 44
    else -1
  }

  lemma {:induction false} IndexOfSymbol(d: digit)
    ensures IndexOf(Symbol(d)) == d
    ensures Symbol(d) == '1' <==> d == 0
  {
  }

  // ── Numbers as digit lists ──

  /** The two number bases the conversions work in; each one's digits are scaled by the other when absorbed. */
  type radix = b: nat | b == 58 || b == 256 witness 58

  function Shift(v: nat, base: radix): nat {
    if base == 58 then 58 * v else 256 * v
  }

  function Scale(v: nat, base: radix): nat {
    if base == 58 then 256 * v else 58 * v
  }

  function Low(c: nat, base: radix): nat {
    if base == 58 then c % 58 else c % 256
  }

  function High(c: nat, base: radix): (h: nat)
    ensures c > 0 ==> h < c
    ensures c == Shift(h, base) + Low(c, base)
  {
    if base == 58 then c / 58 else c / 256
  }

  /** The number a little-endian digit list denotes. */
  function Value(digits: seq<nat>, base: radix): nat {
    if digits == [] then 0 else digits[0] + Shift(Value(digits[1..], base), base)
  }

  /** The number a big-endian digit list denotes. */
  function BigEndian(digits: seq<nat>, base: radix): nat {
    if digits == [] then 0 else Shift(BigEndian(digits[..|digits| - 1], base), base) + digits[|digits| - 1]
  }

  function Reverse<T>(s: seq<T>): (r: seq<T>)
    ensures |r| == |s|
  {
    if s == [] then [] else [s[|s| - 1]] + Reverse(s[..|s| - 1])
  }

  predicate Below(digits: seq<nat>, base: nat) {
    forall i :: 0 <= i < |digits| ==> digits[i] < base
  }

  /** No superfluous high digit. */
  predicate Canonical(digits: seq<nat>) {
    digits == [] || digits[|digits| - 1] != 0
  }

  lemma {:induction false} ReverseAt<T>(s: seq<T>, i: nat)
    requires i < |s|
    ensures Reverse(s)[i] == s[|s| - 1 - i]
  {
    if i > 0 {
      ReverseAt(s[..|s| - 1], i - 1);
    }
  }

  lemma {:induction false} ReverseTwice<T>(s: seq<T>)
    ensures Reverse(Reverse(s)) == s
  {
    forall i | 0 <= i < |s| ensures Reverse(Reverse(s))[i] == s[i] {
      ReverseAt(Reverse(s), i);
      ReverseAt(s, |s| - 1 - i);
    }
  }

  lemma {:induction false} ReverseConcat<T>(a: seq<T>, b: seq<T>)
    ensures Reverse(a + b) == Reverse(b) + Reverse(a)
  {
    forall i | 0 <= i < |a + b| ensures Reverse(a + b)[i] == (Reverse(b) + Reverse(a))[i] {
      ReverseAt(a + b, i);
      if i < |b| { ReverseAt(b, i); } else { ReverseAt(a, i - |b|); }
    }
  }

  lemma {:induction false} ValueOfReverse(digits: seq<nat>, base: radix)
    ensures Value(Reverse(digits), base) == BigEndian(digits, base)
  {
    if digits != [] {
      ValueOfReverse(digits[..|digits| - 1], base);
      assert Reverse(digits)[1..] == Reverse(digits[..|digits| - 1]);
    }
  }

  function Zeros(n: nat): (z: seq<nat>)
    ensures |z| == n
    ensures forall i :: 0 <= i < n ==> z[i] == 0
  {
    seq(n, _ => 0)
  }

  lemma {:induction false} LeadingZerosAddNothing(z: nat, digits: seq<nat>, base: radix)
    ensures BigEndian(Zeros(z) + digits, base) == BigEndian(digits, base)
    decreases z + |digits|
  {
    var all := Zeros(z) + digits;
    if digits != [] {
      assert all[..|all| - 1] == Zeros(z) + digits[..|digits| - 1];
      LeadingZerosAddNothing(z, digits[..|digits| - 1], base);
    } else if z > 0 {
      assert all[..|all| - 1] == Zeros(z - 1) + digits;
      LeadingZerosAddNothing(z - 1, digits, base);
    }
  }

  lemma {:induction false} UniqueQuotient(base: radix, d: nat, v: nat, d': nat, v': nat)
    requires d < base && d' < base
    requires d + Shift(v, base) == d' + Shift(v', base)
    ensures d == d' && v == v'
  {
  }

  lemma {:induction false} CanonicalIsPositive(digits: seq<nat>, base: radix)
    requires digits != [] && Canonical(digits)
    ensures Value(digits, base) > 0
  {
    if |digits| > 1 {
      CanonicalIsPositive(digits[1..], base);
    }
  }

  /** A number has one canonical digit list. */
  lemma {:induction false} CanonicalIsUnique(a: seq<nat>, b: seq<nat>, base: radix)
    requires Below(a, base) && Below(b, base) && Canonical(a) && Canonical(b)
    requires Value(a, base) == Value(b, base)
    ensures a == b
  {
    if a == [] || b == [] {
      if a != [] { CanonicalIsPositive(a, base); }
      if b != [] { CanonicalIsPositive(b, base); }
    } else {
      UniqueQuotient(base, a[0], Value(a[1..], base), b[0], Value(b[1..], base));
      assert Canonical(a[1..]) && Canonical(b[1..]);
      CanonicalIsUnique(a[1..], b[1..], base);
      assert a == [a[0]] + a[1..] && b == [b[0]] + b[1..];
    }
  }

  // ── Multiply-and-add with carry ──

  /** The digits pushed for a carry that runs past the list. */
  function Spill(carry: nat, base: radix): seq<nat> {
    if carry == 0 then [] else [Low(carry, base)] + Spill(High(carry, base), base)
  }

  /** The digit list of the scaled number plus a carry. */
  function MulAdd(digits: seq<nat>, base: radix, carry: nat): seq<nat> {
    if digits == [] then Spill(carry, base)
    else
      var c := carry + Scale(digits[0], base);
      [Low(c, base)] + MulAdd(digits[1..], base, High(c, base))
  }

  lemma {:induction false} SpillValue(carry: nat, base: radix)
    ensures Value(Spill(carry, base), base) == carry
    ensures Below(Spill(carry, base), base) && Canonical(Spill(carry, base))
    ensures carry > 0 ==> Spill(carry, base) != []
  {
    if carry > 0 {
      SpillValue(High(carry, base), base);
      assert Spill(carry, base)[1..] == Spill(High(carry, base), base);
    }
  }

  lemma {:induction false} MulAddValue(digits: seq<nat>, base: radix, carry: nat)
    ensures Value(MulAdd(digits, base, carry), base) == Scale(Value(digits, base), base) + carry
    ensures Below(MulAdd(digits, base, carry), base)
  {
    if digits == [] {
      SpillValue(carry, base);
    } else {
      var c := carry + Scale(digits[0], base);
      var rest := MulAdd(digits[1..], base, High(c, base));
      MulAddValue(digits[1..], base, High(c, base));
      assert MulAdd(digits, base, carry) == [Low(c, base)] + rest;
      ConsValue(Low(c, base), rest, base);
      ScaleShift(digits[0], Value(digits[1..], base), High(c, base), base);
    }
  }

  lemma {:induction false} ConsValue(d: nat, rest: seq<nat>, base: radix)
    ensures Value([d] + rest, base) == d + Shift(Value(rest, base), base)
  {
    assert ([d] + rest)[1..] == rest;
  }

  lemma {:induction false} ScaleShift(d: nat, v: nat, h: nat, base: radix)
    ensures Shift(Scale(v, base) + h, base) == Scale(Shift(v, base), base) + Shift(h, base)
    ensures Scale(d + Shift(v, base), base) == Scale(d, base) + Scale(Shift(v, base), base)
  {
  }

  lemma {:induction false} MulAddCanonical(digits: seq<nat>, base: radix, carry: nat)
    requires digits != []
    requires digits[|digits| - 1] != 0 || (|digits| == 1 && carry != 0)
    ensures MulAdd(digits, base, carry) != [] && Canonical(MulAdd(digits, base, carry))
  {
    var c := carry + Scale(digits[0], base);
    if |digits| == 1 {
      SpillValue(High(c, base), base);
      assert digits[1..] == [];
      assert MulAdd(digits, base, carry) == [Low(c, base)] + Spill(High(c, base), base);
      OneDigitCanonical(c, base);
    } else {
      var rest := MulAdd(digits[1..], base, High(c, base));
      MulAddCanonical(digits[1..], base, High(c, base));
      ConsCanonical(Low(c, base), rest);
    }
  }

  lemma {:induction false} OneDigitCanonical(c: nat, base: radix)
    requires c > 0
    ensures Canonical([Low(c, base)] + Spill(High(c, base), base))
  {
    SpillValue(High(c, base), base);
    if High(c, base) > 0 {
      ConsCanonical(Low(c, base), Spill(High(c, base), base));
    }
  }

  lemma {:induction false} ConsCanonical(d: nat, rest: seq<nat>)
    requires rest != [] && Canonical(rest)
    ensures Canonical([d] + rest)
  {
  }

  /** The first `j` digits are done, and the rest with the carry `c` completes the result. */
  ghost predicate Carrying(input: seq<nat>, base: radix, carry: nat, digits: seq<nat>, j: nat, c: nat) {
    && j <= |digits| == |input|
    && digits[j..] == input[j..]
    && digits[..j] + MulAdd(input[j..], base, c) == MulAdd(input, base, carry)
  }

  lemma {:induction false} CarryStep(input: seq<nat>, base: radix, carry: nat, digits: seq<nat>, j: nat, c: nat)
    requires Carrying(input, base, carry, digits, j, c) && j < |digits|
    ensures digits[j] == input[j]
    ensures var c' := c + Scale(digits[j], base);
      Carrying(input, base, carry, digits[j := Low(c', base)], j + 1, High(c', base))
  {
    assert digits[j] == digits[j..][0] && digits[j + 1..] == digits[j..][1..] && input[j + 1..] == input[j..][1..];
    var c' := c + Scale(digits[j], base);
    var digits' := digits[j := Low(c', base)];
    var rest := MulAdd(input[j + 1..], base, High(c', base));
    assert MulAdd(input[j..], base, c) == [Low(c', base)] + rest;
    assert digits'[..j + 1] == digits[..j] + [Low(c', base)];
    assert digits[..j] + ([Low(c', base)] + rest) == digits[..j] + [Low(c', base)] + rest;
  }

  /** The carry stays in a byte, so the 32-bit operations of the original lose nothing. */
  predicate IsCarry(c: nat, base: radix) {
    if base == 58 then c < 256 else c < 58
  }

  lemma {:induction false} CarryStays(c: nat, d: nat, base: radix)
    requires IsCarry(c, base) && d < base
    ensures IsCarry(High(c + Scale(d, base), base), base)
  {
  }

  /** The digits so far and those still to be spilled from the carry complete the result. */
  ghost predicate Spilling(result: seq<nat>, base: radix, digits: seq<nat>, c: nat) {
    digits + Spill(c, base) == result
  }

  lemma {:induction false} SpillStep(result: seq<nat>, base: radix, digits: seq<nat>, c: nat)
    requires Spilling(result, base, digits, c) && c > 0
    ensures Spilling(result, base, digits + [Low(c, base)], High(c, base))
  {
    MoveOne(digits, Low(c, base), Spill(High(c, base), base));
  }

  lemma {:induction false} MoveOne(a: seq<nat>, d: nat, b: seq<nat>)
    ensures a + ([d] + b) == a + [d] + b
  {
  }

  lemma {:induction false} CarryDone(input: seq<nat>, base: radix, carry: nat, digits: seq<nat>, c: nat)
    requires Carrying(input, base, carry, digits, |digits|, c)
    ensures Spilling(MulAdd(input, base, carry), base, digits, c)
  {
    assert digits[..|digits|] == digits && input[|digits|..] == [];
  }

  /** The carry loop both conversions run in place over their digit array. */
  method MultiplyAddInPlace(input: seq<nat>, base: radix, carry: nat) returns (digits: seq<nat>)
    requires Below(input, base) && IsCarry(carry, base)
    ensures digits == MulAdd(input, base, carry)
  {
    digits := input;
    var c: nat := carry;
    var j := 0;
    assert digits[..0] == [] && input[0..] == input;
    while j < |digits|
      invariant Carrying(input, base, carry, digits, j, c) && IsCarry(c, base)
    {
      CarryStep(input, base, carry, digits, j, c);
      CarryStays(c, digits[j], base);
      c := c + Scale(digits[j], base);
      digits := digits[j := Low(c, base)];
      c := High(c, base);
      j := j + 1;
    }
    CarryDone(input, base, carry, digits, c);
    while c > 0
      invariant Spilling(MulAdd(input, base, carry), base, digits, c)
    {
      SpillStep(MulAdd(input, base, carry), base, digits, c);
      digits := digits + [Low(c, base)];
      c := High(c, base);
    }
    assert digits + [] == digits;
  }

  // ── Encoding ──

  function LeadingZeroCount(digits: seq<nat>): (n: nat)
    ensures n <= |digits|
    ensures forall i :: 0 <= i < n ==> digits[i] == 0
    ensures n < |digits| ==> digits[n] != 0
  {
    if digits == [] || digits[0] != 0 then 0 else 1 + LeadingZeroCount(digits[1..])
  }

  function EncodeDigits(bytes: seq<byte>): (digits: seq<nat>)
  {
    if bytes == [] then [0] else MulAdd(EncodeDigits(bytes[..|bytes| - 1]), 58, bytes[|bytes| - 1])
  }

  lemma {:induction false} EncodeDigitsValue(bytes: seq<byte>)
    ensures Value(EncodeDigits(bytes), 58) == BigEndian(bytes, 256)
    ensures Below(EncodeDigits(bytes), 58)
    ensures if BigEndian(bytes, 256) == 0 then EncodeDigits(bytes) == [0]
            else EncodeDigits(bytes) != [] && Canonical(EncodeDigits(bytes))
  {
    if bytes != [] {
      var init, b := bytes[..|bytes| - 1], bytes[|bytes| - 1];
      EncodeDigitsValue(init);
      var digits := EncodeDigits(init);
      MulAddValue(digits, 58, b);
      if BigEndian(init, 256) != 0 || b != 0 {
        MulAddCanonical(digits, 58, b);
        CanonicalIsPositive(EncodeDigits(bytes), 58);
      } else {
        assert MulAdd([0], 58, 0) == [0];
      }
    }
  }

  /** The text of a list of base-58 digits. */
  function Spell(digits: seq<nat>): (s: string)
    requires Below(digits, 58)
    ensures |s| == |digits|
  {
    seq(|digits|, i requires 0 <= i < |digits| => Symbol(digits[i]))
  }

  lemma {:induction false} ReverseBelow(digits: seq<nat>, base: radix)
    requires Below(digits, base)
    ensures Below(Reverse(digits), base)
  {
    var reversed := Reverse(digits);
    forall i | 0 <= i < |reversed| ensures reversed[i] < base {
      ReverseAt(digits, i);
    }
  }

  function EncodeIndexes(bytes: seq<byte>): (digits: seq<nat>)
    ensures Below(digits, 58)
  {
    EncodeDigitsValue(bytes);
    ReverseBelow(EncodeDigits(bytes), 58);
    Zeros(LeadingZeroCount(bytes)) + Reverse(EncodeDigits(bytes))
  }

  function EncodeOf(bytes: seq<byte>): string {
    Spell(EncodeIndexes(bytes))
  }

  method Encode(bytes: seq<byte>) returns (r: string)
    ensures r == EncodeOf(bytes)
  {
    var digits: seq<nat> := [0];
    for k := 0 to |bytes|
      invariant digits == EncodeDigits(bytes[..k]) && Below(digits, 58)
    {
      assert bytes[..k + 1][..k] == bytes[..k];
      digits := MultiplyAddInPlace(digits, 58, bytes[k]);
      EncodeDigitsValue(bytes[..k + 1]);
    }
    assert bytes[..|bytes|] == bytes;
    r := "";
    var k := 0;
    while k < |bytes| && bytes[k] == 0
      invariant 0 <= k <= LeadingZeroCount(bytes)
      invariant r == Spell(Zeros(k))
    {
      r := r + "1";
      k := k + 1;
    }
    var i := |digits|;
    while i > 0
      invariant 0 <= i <= |digits|
      invariant r == EncodeOf(bytes)[..k + |digits| - i]
    {
      i := i - 1;
      ReverseAt(digits, |digits| - 1 - i);
      r := r + [Symbol(digits[i])];
    }
  }

  // ── Decoding ──

  predicate ValidText(s: string) {
    forall i :: 0 <= i < |s| ==> IndexOf(s[i]) >= 0
  }

  function Indexes(s: string): (digits: seq<nat>)
    requires ValidText(s)
    ensures |digits| == |s| && Below(digits, 58)
  {
    seq(|s|, i requires 0 <= i < |s| => IndexOf(s[i]))
  }

  function DecodeBytes(indexes: seq<nat>): seq<nat> {
    if indexes == [] then [] else MulAdd(DecodeBytes(indexes[..|indexes| - 1]), 256, indexes[|indexes| - 1])
  }

  lemma {:induction false} DecodeBytesValue(indexes: seq<nat>)
    ensures Value(DecodeBytes(indexes), 256) == BigEndian(indexes, 58)
    ensures Below(DecodeBytes(indexes), 256) && Canonical(DecodeBytes(indexes))
  {
    if indexes != [] {
      var init, d := indexes[..|indexes| - 1], indexes[|indexes| - 1];
      DecodeBytesValue(init);
      MulAddValue(DecodeBytes(init), 256, d);
      if DecodeBytes(init) == [] {
        SpillValue(d, 256);
      } else {
        MulAddCanonical(DecodeBytes(init), 256, d);
      }
    }
  }

  function DecodeOf(s: string): (r: Option<seq<byte>>)
    ensures r.Some? <==> ValidText(s)
  {
    if !ValidText(s) then None
    else
      DecodeBytesValue(Indexes(s));
      var little := DecodeBytes(Indexes(s)) + Zeros(LeadingZeroCount(Indexes(s)));
      ReverseBelow(little, 256);
      Some(AsBytes(Reverse(little)))
  }

  function AsBytes(digits: seq<nat>): (bytes: seq<byte>)
    requires Below(digits, 256)
    ensures bytes == digits
  {
    seq(|digits|, i requires 0 <= i < |digits| => digits[i])
  }

  lemma {:induction false} ForeignCharacter(s: string, k: nat)
    requires k < |s| && IndexOf(s[k]) < 0
    ensures !ValidText(s)
  {
  }

  /** One more character of a valid text. */
  lemma {:induction false} AbsorbNext(s: string, k: nat)
    requires k < |s| && ValidText(s[..k]) && IndexOf(s[k]) >= 0
    ensures ValidText(s[..k + 1])
    ensures DecodeBytes(Indexes(s[..k + 1])) == MulAdd(DecodeBytes(Indexes(s[..k])), 256, IndexOf(s[k]))
  {
    assert forall i :: 0 <= i < k ==> s[..k + 1][i] == s[..k][i];
    assert Indexes(s[..k + 1])[..k] == Indexes(s[..k]);
  }

  /** The first pass: absorb every character, least significant byte first. */
  method AbsorbText(s: string) returns (r: Option<seq<nat>>)
    ensures r == if ValidText(s) then Some(DecodeBytes(Indexes(s))) else None
  {
    var bytes: seq<nat> := [];
    for k := 0 to |s|
      invariant ValidText(s[..k])
      invariant bytes == DecodeBytes(Indexes(s[..k]))
    {
      var c := IndexOf(s[k]);
      if c < 0 {
        ForeignCharacter(s, k);
        return None;
      }
      AbsorbNext(s, k);
      DecodeBytesValue(Indexes(s[..k]));
      bytes := MultiplyAddInPlace(bytes, 256, c);
    }
    assert s[..|s|] == s;
    return Some(bytes);
  }

  /** The second pass: one zero byte per leading '1'. */
  method PushLeadingZeros(s: string, bytes: seq<nat>) returns (r: seq<nat>)
    requires ValidText(s)
    ensures r == bytes + Zeros(LeadingZeroCount(Indexes(s)))
  {
    r := bytes;
    var k := 0;
    while k < |s| && s[k] == '1'
      invariant 0 <= k <= LeadingZeroCount(Indexes(s))
      invariant r == bytes + Zeros(k)
    {
      assert Indexes(s)[k] == 0;
      r := r + [0];
      k := k + 1;
    }
    if k < |s| {
      IndexOfSymbol(IndexOf(s[k]));
      assert Indexes(s)[k] != 0;
    }
  }

  method Decode(s: string) returns (r: Option<seq<byte>>)
    ensures r == DecodeOf(s)
  {
    var absorbed := AbsorbText(s);
    if absorbed.None? { return None; }
    var little := PushLeadingZeros(s, absorbed.value);
    DecodeBytesValue(Indexes(s));
    ReverseBelow(little, 256);
    return Some(AsBytes(Reverse(little)));
  }

  // ── Round trips ──

  predicate AllZero(digits: seq<nat>) {
    forall i :: 0 <= i < |digits| ==> digits[i] == 0
  }

  lemma {:induction false} LeadingZerosThen(z: nat, rest: seq<nat>)
    requires rest == [] || rest[0] != 0
    ensures LeadingZeroCount(Zeros(z) + rest) == z
  {
    var all := Zeros(z) + rest;
    if z > 0 {
      assert all[1..] == Zeros(z - 1) + rest;
      LeadingZerosThen(z - 1, rest);
    } else {
      assert all == rest;
    }
  }

  lemma {:induction false} ZeroValue(digits: seq<nat>, base: radix)
    ensures BigEndian(digits, base) == 0 <==> AllZero(digits)
  {
    if digits != [] {
      ZeroValue(digits[..|digits| - 1], base);
    }
  }

  /** A digit list with a nonzero digit is its leading zeros followed by the canonical list of its value. */
  lemma {:induction false} SplitAtLeadingZeros(digits: seq<nat>, little: seq<nat>, base: radix)
    requires Below(digits, base)
    requires Below(little, base) && Canonical(little) && Value(little, base) == BigEndian(digits, base)
    ensures !AllZero(digits) ==> digits == Zeros(LeadingZeroCount(digits)) + Reverse(little)
    ensures AllZero(digits) ==> little == []
  {
    ZeroValue(digits, base);
    if AllZero(digits) {
      if little != [] { CanonicalIsPositive(little, base); }
    } else {
      var z := LeadingZeroCount(digits);
      var rest := digits[z..];
      assert digits == Zeros(z) + rest;
      LeadingZerosAddNothing(z, rest, base);
      ReversedIsCanonical(rest, little, base);
    }
  }

  lemma {:induction false} ReversedIsCanonical(rest: seq<nat>, little: seq<nat>, base: radix)
    requires rest != [] && rest[0] != 0 && Below(rest, base)
    requires Below(little, base) && Canonical(little) && Value(little, base) == BigEndian(rest, base)
    ensures rest == Reverse(little)
  {
    var back := Reverse(rest);
    ReverseAt(rest, |rest| - 1);
    ReverseBelow(rest, base);
    ValueOfReverse(rest, base);
    CanonicalIsUnique(back, little, base);
    ReverseTwice(rest);
  }

  lemma {:induction false} SpellIndexes(digits: seq<nat>)
    requires Below(digits, 58)
    ensures ValidText(Spell(digits)) && Indexes(Spell(digits)) == digits
  {
    forall i | 0 <= i < |digits| ensures IndexOf(Spell(digits)[i]) == digits[i] {
      IndexOfSymbol(digits[i]);
    }
  }

  lemma {:induction false} IndexesSpell(s: string)
    requires ValidText(s)
    ensures Spell(Indexes(s)) == s
  {
  }

  /** Decoding what was encoded gives the bytes back exactly when some byte is not zero. */
  lemma {:induction false} DecodeEncodeIff(bytes: seq<byte>)
    ensures DecodeOf(EncodeOf(bytes)) == Some(bytes) <==> !AllZero(bytes)
  {
    var digits := EncodeDigits(bytes);
    var indexes := EncodeIndexes(bytes);
    var z := LeadingZeroCount(bytes);
    EncodeDigitsValue(bytes);
    SpellIndexes(indexes);
    ValueOfReverse(Reverse(digits), 58);
    ReverseTwice(digits);
    LeadingZerosAddNothing(z, Reverse(digits), 58);
    assert BigEndian(indexes, 58) == BigEndian(bytes, 256);
    DecodeBytesValue(indexes);
    ZeroValue(bytes, 256);
    var little := DecodeBytes(indexes);
    SplitAtLeadingZeros(bytes, little, 256);
    ReverseConcat(little, Zeros(LeadingZeroCount(indexes)));
    ReverseZeros(LeadingZeroCount(indexes));
    if AllZero(bytes) {
      assert z == |bytes|;
      assert Reverse(digits) == [0];
      assert indexes == Zeros(z + 1) + [];
      LeadingZerosThen(z + 1, []);
      assert |DecodeOf(EncodeOf(bytes)).value| == z + 1;
    } else {
      ReverseAt(digits, 0);
      LeadingZerosThen(z, Reverse(digits));
    }
  }

  lemma {:induction false} ReverseZeros(n: nat)
    ensures Reverse(Zeros(n)) == Zeros(n)
  {
    forall i | 0 <= i < n ensures Reverse(Zeros(n))[i] == 0 {
      ReverseAt(Zeros(n), i);
    }
  }

  /** Encoding what was decoded gives the text back exactly when some character is not '1'. */
  lemma {:induction false} EncodeDecodeIff(s: string)
    requires ValidText(s)
    ensures EncodeOf(DecodeOf(s).value) == s <==> exists i :: 0 <= i < |s| && s[i] != '1'
  {
    var indexes := Indexes(s);
    var little := DecodeBytes(indexes);
    var z := LeadingZeroCount(indexes);
    var bytes := DecodeOf(s).value;
    forall i | 0 <= i < |s| ensures s[i] == '1' <==> indexes[i] == 0 {
      IndexOfSymbol(indexes[i]);
    }
    DecodeBytesValue(indexes);
    ReverseConcat(little, Zeros(z));
    ReverseZeros(z);
    assert bytes == Zeros(z) + Reverse(little);
    ValueOfReverse(Reverse(little), 256);
    ReverseTwice(little);
    LeadingZerosAddNothing(z, Reverse(little), 256);
    assert BigEndian(bytes, 256) == BigEndian(indexes, 58);
    if little != [] { ReverseAt(little, 0); }
    LeadingZerosThen(z, Reverse(little));
    EncodeDigitsValue(bytes);
    ZeroValue(indexes, 58);
    var digits := EncodeDigits(bytes);
    if AllZero(indexes) {
      assert |EncodeOf(bytes)| == |EncodeIndexes(bytes)| == z + 1;
      assert z == |s|;
    } else {
      SplitAtLeadingZeros(indexes, digits, 58);
      IndexesSpell(s);
      assert EncodeIndexes(bytes) == indexes;
      var i :| 0 <= i < |indexes| && indexes[i] != 0;
      assert s[i] != '1';
    }
  }

  predicate AllOnes(s: string) {
    forall i :: 0 <= i < |s| ==> s[i] == '1'
  }

  lemma {:induction false} OnesAreZeros(s: string)
    requires ValidText(s)
    ensures AllOnes(s) <==> AllZero(Indexes(s))
  {
    forall i | 0 <= i < |s| ensures s[i] == '1' <==> Indexes(s)[i] == 0 {
      IndexOfSymbol(Indexes(s)[i]);
    }
    if AllZero(Indexes(s)) {
      forall i | 0 <= i < |s| ensures s[i] == '1' {
        assert Indexes(s)[i] == 0;
      }
    }
  }

  lemma {:induction false} AllZeroCount(digits: seq<nat>)
    requires AllZero(digits)
    ensures LeadingZeroCount(digits) == |digits|
  {
    if digits != [] {
      AllZeroCount(digits[1..]);
    }
  }

  /** A text of ones alone decodes to as many zero bytes, and any other text to some byte that is not zero. */
  lemma {:induction false} DecodedOnes(s: string)
    requires ValidText(s)
    ensures AllZero(DecodeOf(s).value) <==> AllOnes(s)
    ensures AllOnes(s) ==> |DecodeOf(s).value| == |s|
  {
    var indexes := Indexes(s);
    var little := DecodeBytes(indexes);
    var z := LeadingZeroCount(indexes);
    OnesAreZeros(s);
    DecodeBytesValue(indexes);
    ZeroValue(indexes, 58);
    ReverseConcat(little, Zeros(z));
    ReverseZeros(z);
    if AllOnes(s) {
      AllZeroCount(indexes);
      SplitAtLeadingZeros(indexes, [], 58);
      if little != [] { CanonicalIsPositive(little, 256); }
    } else {
      assert little != [];
      ReverseAt(little, 0);
      assert DecodeOf(s).value[z] == little[|little| - 1];
    }
  }

  /** No two texts decode to the same bytes. */
  lemma {:induction false} DecodeInjective(s: string, t: string)
    requires DecodeOf(s).Some? && DecodeOf(s) == DecodeOf(t)
    ensures s == t
  {
    DecodedOnes(s);
    DecodedOnes(t);
    if !AllOnes(s) {
      EncodeDecodeIff(s);
      EncodeDecodeIff(t);
    }
  }
}
