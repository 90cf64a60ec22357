/** The Go server's check of a confirmed transaction: split amounts, transfers and memos. */
module GoVerifier {
  import opened Common
  import opened Charge
  import opened FirstFit
  import opened Numbers
  import opened Texts
  import opened Units

  datatype GoSplit = GoSplit(recipient: KeyText, amount: string, memo: seq<byte>)

  /** What the instruction library makes of an instruction. */
  datatype Decoded =
    | SystemTransfer(to: Pubkey, lamports: u64)
    | TransferChecked(mint: Pubkey, destination: Pubkey, amount: u64)
    | OtherInstruction

  /** An instruction; `resolves` is false when its account indexes are out of range. */
  datatype GoInstruction = GoInstruction(program: Pubkey, resolves: bool, decoded: Decoded, data: seq<byte>)

  /** The charged asset with the token program already resolved. */
  datatype GoAsset = NativeSol | Token(mint: Pubkey, program: Pubkey)

  datatype GoError =
    | TooManySplits | BadAmount | BadRecipient | SplitsExceed
    | Unresolvable | NoTransfer | MemoTooLong | NoMemo | UnexpectedMemo

  // ── Split amounts ──

  predicate IsScanSpace(c: char) { IsSpace(c) && c != '\n' }

  /** How many digits a text starts with. */
  function DigitRun(s: string): (n: nat)
    ensures n <= |s| && AllDigits(s[..n])
    ensures n < |s| ==> !IsDigit(s[n])
  {
    if s == "" || !IsDigit(s[0]) then 0
    else
      var n := DigitRun(s[1..]);
      assert s[..n + 1] == [s[0]] + s[1..][..n];
      n + 1
  }

  /** `fmt.Sscanf` with `%d` into an unsigned 64-bit number: it reads leading digits and ignores what follows. */
  function ScanUint(s: string): Option<u64> {
    var t := TrimLeft(s, IsScanSpace);
    var n := DigitRun(t);
    if n == 0 || DigitsValue(t[..n]) >= TWO_64 then None else Some(DigitsValue(t[..n]))
  }

  /** The text is white space other than line feeds, then the digits, then something else or nothing. */
  predicate Leads(s: string, pad: string, digits: string, rest: string) {
    && s == pad + digits + rest
    && (forall i :: 0 <= i < |pad| ==> IsSpace(pad[i]) && pad[i] != '\n')
    && digits != "" && AllDigits(digits) && (rest == "" || !IsDigit(rest[0]))
  }

  lemma {:induction false} DigitRunIs(digits: string, rest: string)
    requires AllDigits(digits) && (rest == "" || !IsDigit(rest[0]))
    ensures DigitRun(digits + rest) == |digits|
  {
    if digits == "" {
      assert digits + rest == rest;
    } else {
      assert (digits + rest)[1..] == digits[1..] + rest;
      DigitRunIs(digits[1..], rest);
    }
  }

  /** What scanning reads: the number that the leading digits denote, when it fits in 64 bits. */
  lemma {:induction false} ScanUintIff(s: string, n: u64)
    ensures ScanUint(s) == Some(n) <==> exists pad, digits, rest :: Leads(s, pad, digits, rest) && DigitsValue(digits) == n
  {
    if ScanUint(s) == Some(n) {
      var pad, digits, rest := ScannedParts(s);
    } else if pad, digits, rest :| Leads(s, pad, digits, rest) && DigitsValue(digits) == n {
      ScanLeading(s, pad, digits, rest);
    }
  }

  lemma {:induction false} ScannedParts(s: string) returns (pad: string, digits: string, rest: string)
    requires ScanUint(s).Some?
    ensures Leads(s, pad, digits, rest) && ScanUint(s) == Some(DigitsValue(digits))
  {
    var t := TrimLeft(s, IsScanSpace);
    var n, k := |s| - |t|, DigitRun(t);
    pad, digits, rest := s[..n], t[..k], t[k..];
    InThree(s, n, t, k);
    assert forall i :: 0 <= i < n ==> IsScanSpace(s[i]) by {
      TrimmedLeft(s, IsScanSpace);
    }
  }

  lemma {:induction false} InThree(s: string, n: nat, t: string, k: nat)
    requires n <= |s| && t == s[n..] && k <= |t|
    ensures s == s[..n] + t[..k] + t[k..]
  {
  }

  lemma {:induction false} ScanLeading(s: string, pad: string, digits: string, rest: string)
    requires Leads(s, pad, digits, rest)
    ensures ScanUint(s) == if DigitsValue(digits) < TWO_64 then Some(DigitsValue(digits)) else None
  {
    assert s[|pad|] == digits[0] && IsDigit(digits[0]);
    assert forall i :: 0 <= i < |pad| ==> s[i] == pad[i];
    assert s[|pad|..] == digits + rest;
    TrimsLeft(s, |pad|, IsScanSpace);
    DigitRunIs(digits, rest);
    assert (digits + rest)[..|digits|] == digits;
  }

  /** A reader of decimal text: `ScanUint` or `ParseAmount`. */
  type Reader = string -> Option<u64>

  predicate AllRead(splits: seq<GoSplit>, read: Reader) {
    forall k :: 0 <= k < |splits| ==> read(splits[k].amount).Some?
  }

  function ReadTotal(splits: seq<GoSplit>, read: Reader): nat
    requires AllRead(splits, read)
  {
    if splits == [] then 0
    else ReadTotal(splits[..|splits| - 1], read) + read(splits[|splits| - 1].amount).value
  }

  /** The primary amount: what the total leaves after the splits, whose sum wraps around. */
  function Primary(total: u64, splits: seq<GoSplit>, read: Reader): Result<u64, GoError> {
    if |splits| > MAX_SPLITS then Err(TooManySplits)
    else if !AllRead(splits, read) then Err(BadAmount)
    else
      var splitTotal := ReadTotal(splits, read) % TWO_64;
      if splitTotal >= total then Err(SplitsExceed) else Ok(total - splitTotal)
  }

  method SplitAmounts(total: u64, splits: seq<GoSplit>, read: Reader) returns (r: Result<u64, GoError>)
    ensures r == Primary(total, splits, read)
  {
    if |splits| > MAX_SPLITS {
      return Err(TooManySplits);
    }
    var splitTotal: u64 := 0;
    for k := 0 to |splits|
      invariant AllRead(splits[..k], read)
      invariant splitTotal == ReadTotal(splits[..k], read) % TWO_64
    {
      var amount := read(splits[k].amount);
      if amount.None? {
        return Err(BadAmount);
      }
      assert splits[..k + 1][..k] == splits[..k] && splits[..k + 1][k] == splits[k];
      AddModulo(ReadTotal(splits[..k], read), amount.value);
      splitTotal := WrappingAdd(splitTotal, amount.value);
    }
    assert splits[..|splits|] == splits;
    if splitTotal >= total {
      return Err(SplitsExceed);
    }
    r := Ok(total - splitTotal);
  }

  lemma {:induction false} AddModulo(a: nat, b: nat)
    ensures (a % TWO_64 + b) % TWO_64 == (a + b) % TWO_64
  {
  }

  /** The primary amount is positive, and with the splits it makes up the total exactly when their sum does not wrap. */
  lemma {:induction false} SplitConservationIff(total: u64, splits: seq<GoSplit>, read: Reader)
    requires Primary(total, splits, read).Ok?
    ensures var primary := Primary(total, splits, read).value;
      && 0 < primary <= total
      && (primary + ReadTotal(splits, read) == total <==> ReadTotal(splits, read) < TWO_64)
  {
  }

  /** On amounts that both readers accept, they agree. */
  lemma {:induction false} ReadersAgree(s: string)
    requires ScanUint(s).Some? && ParseAmount(s).Some?
    ensures ScanUint(s) == ParseAmount(s)
  {
    if s != "" && (s[0] == '+' || s[0] == '-') {
      ScanRefusesSign(s);
    } else {
      ScanDigits(s);
    }
  }

  lemma {:induction false} ScanRefusesSign(s: string)
    requires s != "" && (s[0] == '+' || s[0] == '-')
    ensures ScanUint(s).None?
  {
    assert TrimLeft(s, IsScanSpace) == s by { NothingToSkip(s); }
    assert DigitRun(s) == 0;
  }

  lemma {:induction false} ScanDigits(s: string)
    requires s != "" && AllDigits(s)
    ensures ScanUint(s) == if DigitsValue(s) < TWO_64 then Some(DigitsValue(s)) else None
  {
    assert IsDigit(s[0]);
    assert TrimLeft(s, IsScanSpace) == s by { NothingToSkip(s); }
    assert DigitRun(s) == |s| && s[..|s|] == s by { WholeRun(s); }
  }

  lemma {:induction false} NothingToSkip(s: string)
    requires s != "" && '+' <= s[0] <= '9'
    ensures TrimLeft(s, IsScanSpace) == s
  {
    assert !IsScanSpace(s[0]);
    NothingToTrimLeft(s, IsScanSpace);
  }

  lemma {:induction false} WholeRun(s: string)
    requires AllDigits(s)
    ensures DigitRun(s) == |s| && s[..|s|] == s
  {
  }

  // ── Expected transfers ──

  datatype Transfer = Transfer(recipient: Pubkey, amount: u64)

  function SplitTransfers(splits: seq<GoSplit>, read: Reader): Result<seq<Transfer>, GoError> {
    if splits == [] then Ok([])
    else
      var last := splits[|splits| - 1];
      match SplitTransfers(splits[..|splits| - 1], read)
      case Err(error) => Err(error)
      case Ok(done) =>
        if read(last.amount).None? then Err(BadAmount)
        else if last.recipient.Malformed? then Err(BadRecipient)
        else Ok(done + [Transfer(last.recipient.key, read(last.amount).value)])
  }

  /** The primary transfer and one transfer per split; the amounts are read twice, by two readers. */
  function ExpectedTransfers(amount: u64, recipient: Pubkey, splits: seq<GoSplit>, scan: Reader, parse: Reader)
    : Result<seq<Transfer>, GoError>
  {
    match Primary(amount, splits, scan)
    case Err(error) => Err(error)
    case Ok(primary) =>
      match SplitTransfers(splits, parse)
      case Err(error) => Err(error)
      case Ok(more) => Ok([Transfer(recipient, primary)] + more)
  }

  lemma {:induction false} SplitTransfersPrefix(splits: seq<GoSplit>, k: nat, read: Reader)
    requires k <= |splits| && SplitTransfers(splits[..k], read).Err?
    ensures SplitTransfers(splits, read) == SplitTransfers(splits[..k], read)
    decreases |splits|
  {
    if k == |splits| {
      assert splits[..k] == splits;
    } else {
      assert splits[..|splits| - 1][..k] == splits[..k];
      SplitTransfersPrefix(splits[..|splits| - 1], k, read);
    }
  }

  lemma {:induction false} SplitTransfersNext(splits: seq<GoSplit>, k: nat, read: Reader)
    requires k < |splits| && SplitTransfers(splits[..k], read).Ok?
    ensures SplitTransfers(splits[..k + 1], read)
      == if read(splits[k].amount).None? then Err(BadAmount)
         else if splits[k].recipient.Malformed? then Err(BadRecipient)
         else Ok(SplitTransfers(splits[..k], read).value
                 + [Transfer(splits[k].recipient.key, read(splits[k].amount).value)])
  {
    assert splits[..k + 1][..k] == splits[..k] && splits[..k + 1][k] == splits[k];
  }

  method BuildExpectedTransfers(amount: u64, recipient: Pubkey, splits: seq<GoSplit>, scan: Reader, parse: Reader)
      returns (r: Result<seq<Transfer>, GoError>)
    ensures r == ExpectedTransfers(amount, recipient, splits, scan, parse)
  {
    var primary := SplitAmounts(amount, splits, scan);
    if primary.Err? {
      return Err(primary.error);
    }
    var expected := [Transfer(recipient, primary.value)];
    for k := 0 to |splits|
      invariant SplitTransfers(splits[..k], parse).Ok?
      invariant expected == [Transfer(recipient, primary.value)] + SplitTransfers(splits[..k], parse).value
    {
      SplitTransfersNext(splits, k, parse);
      var splitAmount := parse(splits[k].amount);
      if splitAmount.None? || splits[k].recipient.Malformed? {
        SplitTransfersPrefix(splits, k + 1, parse);
        return Err(if splitAmount.None? then BadAmount else BadRecipient);
      }
      expected := expected + [Transfer(splits[k].recipient.key, splitAmount.value)];
    }
    assert splits[..|splits|] == splits;
    r := Ok(expected);
  }

  function TotalOf(transfers: seq<Transfer>): nat {
    if transfers == [] then 0 else TotalOf(transfers[..|transfers| - 1]) + transfers[|transfers| - 1].amount
  }

  lemma {:induction false} TotalOfCons(t: Transfer, more: seq<Transfer>)
    ensures TotalOf([t] + more) == t.amount + TotalOf(more)
  {
    if more == [] {
      assert [t] + more == [t];
      assert [t][..0] == [];
    } else {
      assert ([t] + more)[..|more|] == [t] + more[..|more| - 1];
      TotalOfCons(t, more[..|more| - 1]);
    }
  }

  ghost predicate Agree(scan: Reader, parse: Reader) {
    forall s :: scan(s).Some? && parse(s).Some? ==> scan(s) == parse(s)
  }

  lemma {:induction false} SplitTransfersTotal(splits: seq<GoSplit>, scan: Reader, parse: Reader)
    requires Agree(scan, parse) && AllRead(splits, scan) && SplitTransfers(splits, parse).Ok?
    ensures TotalOf(SplitTransfers(splits, parse).value) == ReadTotal(splits, scan)
  {
    if splits != [] {
      var last := |splits| - 1;
      SplitTransfersTotal(splits[..last], scan, parse);
      var done := SplitTransfers(splits[..last], parse).value;
      var t := Transfer(splits[last].recipient.key, parse(splits[last].amount).value);
      assert (done + [t])[..|done|] == done;
    }
  }

  /** The expected transfers add up to the charged amount exactly when the splits do not wrap. */
  lemma {:induction false} ExpectedTotalIff(
      amount: u64, recipient: Pubkey, splits: seq<GoSplit>, scan: Reader, parse: Reader)
    requires Agree(scan, parse) && ExpectedTransfers(amount, recipient, splits, scan, parse).Ok?
    ensures AllRead(splits, scan)
    ensures TotalOf(ExpectedTransfers(amount, recipient, splits, scan, parse).value) == amount
      <==> ReadTotal(splits, scan) < TWO_64
  {
    SplitConservationIff(amount, splits, scan);
    SplitTransfersTotal(splits, scan, parse);
    TotalOfCons(Transfer(recipient, Primary(amount, splits, scan).value), SplitTransfers(splits, parse).value);
  }

  lemma {:induction false} SourceReadersAgree()
    ensures Agree(ScanUint, ParseAmount)
  {
    forall s | ScanUint(s).Some? && ParseAmount(s).Some?
      ensures ScanUint(s) == ParseAmount(s)
    {
      ReadersAgree(s);
    }
  }

  // ── Matching ──

  /** Where a transfer to a wallet arrives: the wallet itself for SOL, its token account otherwise. */
  function Target(ata: Derivation, asset: GoAsset, recipient: Pubkey): Pubkey {
    match asset
    case NativeSol => recipient
    case Token(mint, program) => ata(recipient, program, mint)
  }

  /** One expectation: a transfer to an account, or a memo. */
  datatype Want = Arrival(account: Pubkey, amount: u64) | Memo(value: seq<byte>)

  /** What an instruction offers: a transfer of the charged asset, or a memo. */
  function Offer(ix: GoInstruction, asset: GoAsset): Option<Want> {
    if ix.program == MemoProgram then Some(Memo(ix.data))
    else
      match asset
      case NativeSol =>
        if ix.program == SystemProgram && ix.decoded.SystemTransfer? then Some(Arrival(ix.decoded.to, ix.decoded.lamports))
        else None
      case Token(mint, program) =>
        if ix.program == program && ix.decoded.TransferChecked? && ix.decoded.mint == mint then
          Some(Arrival(ix.decoded.destination, ix.decoded.amount))
        else None
  }

  /** The program whose instructions move the asset. */
  function AssetProgram(asset: GoAsset): Pubkey {
    match asset case NativeSol => SystemProgram case Token(_, program) => program
  }

  /** How an instruction answers an expectation. */
  function ProbeOf(ix: GoInstruction, asset: GoAsset, want: Want): Probe<GoError> {
    match want
    case Memo(value) => if ix.program == MemoProgram && ix.data == value then Hit else Skip
    case Arrival(account, amount) =>
      if ix.program != AssetProgram(asset) then Skip
      else if !ix.resolves then Fail(Unresolvable)
      else
        match asset
        case NativeSol =>
          if ix.decoded.SystemTransfer? && ix.decoded.to == account && ix.decoded.lamports == amount then Hit else Skip
        case Token(mint, _) =>
          if && ix.decoded.TransferChecked? && ix.decoded.mint == mint
             && ix.decoded.destination == account && ix.decoded.amount == amount
          then Hit else Skip
  }

  function Probes(ixs: seq<GoInstruction>, asset: GoAsset, want: Want): seq<Probe<GoError>> {
    seq(|ixs|, i requires 0 <= i < |ixs| => ProbeOf(ixs[i], asset, want))
  }

  function RowOf(ixs: seq<GoInstruction>, asset: GoAsset, want: Want): Row<GoError> {
    match want
    case Arrival(_, _) => Row(Some(Probes(ixs, asset, want)), NoTransfer)
    case Memo(value) =>
      if |value| > MAX_MEMO_BYTES then Row(None, MemoTooLong) else Row(Some(Probes(ixs, asset, want)), NoMemo)
  }

  function Rows(ixs: seq<GoInstruction>, asset: GoAsset, wants: seq<Want>): seq<Row<GoError>> {
    seq(|wants|, k requires 0 <= k < |wants| => RowOf(ixs, asset, wants[k]))
  }

  predicate LeftoverMemo(ixs: seq<GoInstruction>, taken: set<nat>) {
    exists i :: 0 <= i < |ixs| && i !in taken && ixs[i].program == MemoProgram
  }

  /** The verdict on a list of expectations: the consumed positions, or the first error. */
  function Settle(ixs: seq<GoInstruction>, asset: GoAsset, wants: seq<Want>): Result<set<nat>, GoError> {
    match MatchAll(Rows(ixs, asset, wants), {})
    case Err(error) => Err(error)
    case Ok(taken) => if LeftoverMemo(ixs, taken) then Err(UnexpectedMemo) else Ok(taken)
  }

  // ── The whole verification ──

  function Arrivals(ata: Derivation, asset: GoAsset, transfers: seq<Transfer>): seq<Want> {
    seq(|transfers|, k requires 0 <= k < |transfers| =>
      Arrival(Target(ata, asset, transfers[k].recipient), transfers[k].amount))
  }

  function MemoIfAny(value: seq<byte>): seq<Want> {
    if value != [] then [Memo(value)] else []
  }

  function SplitMemoWants(splits: seq<GoSplit>): seq<Want> {
    if splits == [] then [] else SplitMemoWants(splits[..|splits| - 1]) + MemoIfAny(splits[|splits| - 1].memo)
  }

  function MemoWants(externalId: seq<byte>, splits: seq<GoSplit>): seq<Want> {
    MemoIfAny(externalId) + SplitMemoWants(splits)
  }

  function VerifyGo(
      ixs: seq<GoInstruction>, amount: u64, asset: GoAsset, recipient: Pubkey, externalId: seq<byte>,
      splits: seq<GoSplit>, ata: Derivation, scan: Reader, parse: Reader)
    : Result<set<nat>, GoError>
  {
    match ExpectedTransfers(amount, recipient, splits, scan, parse)
    case Err(error) => Err(error)
    case Ok(transfers) => Settle(ixs, asset, Arrivals(ata, asset, transfers) + MemoWants(externalId, splits))
  }

  // ── The loops ──

  function Marked(matched: seq<bool>): set<nat> {
    set i: nat | i < |matched| && matched[i]
  }

  function Verdict(o: Outcome<GoError>, missing: GoError): Result<nat, GoError> {
    match o
    case Found(i) => Ok(i)
    case Missing => Err(missing)
    case Broken(error) => Err(error)
  }

  /** The inner loop over the instructions: the first free one that answers the expectation is marked. */
  method MatchWant(ixs: seq<GoInstruction>, asset: GoAsset, want: Want, missing: GoError, matched: array<bool>)
      returns (r: Result<nat, GoError>)
    requires matched.Length == |ixs|
    modifies matched
    ensures r == Verdict(Scan(Probes(ixs, asset, want), Marked(old(matched[..])), 0), missing)
    ensures r.Ok? ==> Marked(matched[..]) == Marked(old(matched[..])) + {r.value}
  {
    ghost var probes, taken := Probes(ixs, asset, want), Marked(matched[..]);
    for index := 0 to |ixs|
      invariant matched[..] == old(matched[..])
      invariant Scan(probes, taken, 0) == Scan(probes, taken, index)
    {
      if matched[index] {
        continue;
      }
      var ix := ixs[index];
      if want.Memo? {
        if ix.program != MemoProgram || ix.data != want.value {
          continue;
        }
      } else {
        if ix.program != AssetProgram(asset) {
          continue;
        }
        if !ix.resolves {
          return Err(Unresolvable);
        }
        if ProbeOf(ix, asset, want) != Hit {
          continue;
        }
      }
      matched[index] := true;
      MarkOne(old(matched[..]), index);
      return Ok(index);
    }
    r := Err(missing);
  }

  lemma {:induction false} MarkOne(matched: seq<bool>, i: nat)
    requires i < |matched|
    ensures Marked(matched[i := true]) == Marked(matched) + {i}
  {
  }

  lemma {:induction false} MatchNext(ixs: seq<GoInstruction>, asset: GoAsset, wants: seq<Want>, k: nat, taken: set<nat>)
    requires k < |wants|
    ensures var rows := Rows(ixs, asset, wants);
      MatchAll(rows[k..], taken)
      == match MatchRow(RowOf(ixs, asset, wants[k]), taken)
         case Ok(taken') => MatchAll(rows[k + 1..], taken')
         case Err(error) => Err(error)
  {
    var rows := Rows(ixs, asset, wants);
    assert rows[k..][0] == RowOf(ixs, asset, wants[k]) && rows[k..][1..] == rows[k + 1..];
  }

  /** Consume the expectations in order and then refuse memos that nothing expects. */
  method SettleInOrder(ixs: seq<GoInstruction>, asset: GoAsset, wants: seq<Want>) returns (r: Result<set<nat>, GoError>)
    ensures r == Settle(ixs, asset, wants)
  {
    var matched := new bool[|ixs|](_ => false);
    assert Marked(matched[..]) == {};
    ghost var rows := Rows(ixs, asset, wants);
    assert rows[0..] == rows;
    for k := 0 to |wants|
      invariant MatchAll(rows, {}) == MatchAll(rows[k..], Marked(matched[..]))
    {
      MatchNext(ixs, asset, wants, k, Marked(matched[..]));
      var want := wants[k];
      if want.Memo? && |want.value| > MAX_MEMO_BYTES {
        return Err(MemoTooLong);
      }
      var found := MatchWant(ixs, asset, want, if want.Memo? then NoMemo else NoTransfer, matched);
      if found.Err? {
        return Err(found.error);
      }
    }
    assert rows[|wants|..] == [];
    var leftover := HasLeftoverMemo(ixs, matched);
    if leftover {
      return Err(UnexpectedMemo);
    }
    r := Ok(Marked(matched[..]));
  }

  /** The last loop: whether some memo instruction was not consumed. */
  method HasLeftoverMemo(ixs: seq<GoInstruction>, matched: array<bool>) returns (leftover: bool)
    requires matched.Length == |ixs|
    ensures leftover <==> LeftoverMemo(ixs, Marked(matched[..]))
  {
    ghost var taken := Marked(matched[..]);
    for index := 0 to |ixs|
      invariant forall i :: 0 <= i < index && i !in taken ==> ixs[i].program != MemoProgram
    {
      assert index in taken <==> matched[index];
      if !matched[index] && ixs[index].program == MemoProgram {
        return true;
      }
    }
    leftover := false;
  }

  method VerifyTransfersAgainstChallenge(
      ixs: seq<GoInstruction>, amount: u64, asset: GoAsset, recipient: Pubkey, externalId: seq<byte>,
      splits: seq<GoSplit>, ata: Derivation, scan: Reader, parse: Reader)
      returns (r: Result<set<nat>, GoError>)
    ensures r == VerifyGo(ixs, amount, asset, recipient, externalId, splits, ata, scan, parse)
  {
    var expected := BuildExpectedTransfers(amount, recipient, splits, scan, parse);
    if expected.Err? {
      return Err(expected.error);
    }
    r := SettleInOrder(ixs, asset, Arrivals(ata, asset, expected.value) + MemoWants(externalId, splits));
  }
}
