/** Exactly which transactions the Go server accepts, stated on the charge and the decoded instructions. */
module GoAcceptance {
  import opened Common
  import opened Charge
  import opened FirstFit
  import opened Choice
  import opened Numbers
  import opened Texts
  import opened Units
  import opened GoVerifier
  import opened GoGuarantees
  import CG = ChargeGuarantees

  // ── The charge ──

  /** The text of an unsigned 64-bit number. */
  predicate IsNumber(s: string) {
    s != "" && AllDigits(s) && DigitsValue(s) < 0x1_0000_0000_0000_0000
  }

  predicate AreNumbers(splits: seq<GoSplit>) {
    forall k :: 0 <= k < |splits| ==> IsNumber(splits[k].amount)
  }

  function SumOf(splits: seq<GoSplit>): nat
    requires AreNumbers(splits)
  {
    if splits == [] then 0 else DigitsValue(splits[0].amount) + SumOf(splits[1..])
  }

  /** The amount for the main recipient: the charge less the sum of the splits, which wraps around at 64 bits. */
  function Main(amount: u64, splits: seq<GoSplit>): int
    requires AreNumbers(splits)
  {
    amount - SumOf(splits) % 0x1_0000_0000_0000_0000
  }

  predicate IsCharge(amount: u64, externalId: seq<byte>, splits: seq<GoSplit>) {
    && |splits| <= 8 && AreNumbers(splits) && Main(amount, splits) > 0
    && (forall k :: 0 <= k < |splits| ==> splits[k].recipient.Key?)
    && |externalId| <= 566 && forall k :: 0 <= k < |splits| ==> |splits[k].memo| <= 566
  }

  predicate IsPayable(split: GoSplit) {
    IsNumber(split.amount) && split.recipient.Key?
  }

  predicate ArePayable(splits: seq<GoSplit>) {
    forall k :: 0 <= k < |splits| ==> IsPayable(splits[k])
  }

  function SplitPay(split: GoSplit): Effect
    requires IsPayable(split)
  {
    Pay(split.recipient.key, DigitsValue(split.amount))
  }

  function SplitPays(splits: seq<GoSplit>): seq<Effect>
    requires ArePayable(splits)
  {
    if splits == [] then [] else [SplitPay(splits[0])] + SplitPays(splits[1..])
  }

  /** The payments due: the main one, then one per split. */
  function Due(amount: u64, recipient: Pubkey, splits: seq<GoSplit>): seq<Effect>
    requires ArePayable(splits) && Main(amount, splits) > 0
  {
    [Pay(recipient, Main(amount, splits))] + SplitPays(splits)
  }

  /** An empty memo is not asked for. */
  function Remark(memo: seq<byte>): seq<Effect> {
    if |memo| == 0 then [] else [Note(memo)]
  }

  function SplitRemarks(splits: seq<GoSplit>): seq<Effect> {
    if splits == [] then [] else Remark(splits[0].memo) + SplitRemarks(splits[1..])
  }

  function Remarks(externalId: seq<byte>, splits: seq<GoSplit>): seq<Effect> {
    Remark(externalId) + SplitRemarks(splits)
  }

  // ── The transaction ──

  /** A transfer of exactly the amount to the wallet, or to its token account for a token. */
  predicate Moves(ata: Derivation, asset: GoAsset, ix: GoInstruction, to: Pubkey, amount: nat) {
    match asset
    case NativeSol =>
      && ix.program == SystemProgram && ix.decoded.SystemTransfer?
      && ix.decoded.to == to && ix.decoded.lamports == amount
    case Token(mint, program) =>
      && ix.program == program && ix.decoded.TransferChecked? && ix.decoded.mint == mint
      && ix.decoded.destination == ata(to, program, mint) && ix.decoded.amount == amount
  }

  predicate IsOfAsset(asset: GoAsset, ix: GoInstruction) {
    match asset
    case NativeSol => ix.program == SystemProgram
    case Token(_, program) => ix.program == program
  }

  /** The search gets past everything up to this position: no instruction of the asset's program has a bad account index. */
  predicate IsReached(ixs: seq<GoInstruction>, asset: GoAsset, i: nat) {
    i < |ixs| && forall j :: 0 <= j <= i && IsOfAsset(asset, ixs[j]) ==> ixs[j].resolves
  }

  /** Each payment has an instruction of its own. */
  predicate ArePaid(ata: Derivation, asset: GoAsset, ixs: seq<GoInstruction>, due: seq<Effect>, chosen: seq<nat>) {
    && |chosen| == |due| && AreDistinct(chosen)
    && forall k :: 0 <= k < |due| ==>
         due[k].Pay? && IsReached(ixs, asset, chosen[k]) && Moves(ata, asset, ixs[chosen[k]], due[k].to, due[k].amount)
  }

  /** The memo instructions are exactly the memos, one for each. */
  predicate AreWritten(ixs: seq<GoInstruction>, remarks: seq<Effect>, chosen: seq<nat>) {
    && |chosen| == |remarks| && AreDistinct(chosen)
    && (forall k :: 0 <= k < |remarks| ==>
          chosen[k] < |ixs| && ixs[chosen[k]].program == MemoProgram && remarks[k] == Note(ixs[chosen[k]].data))
    && forall i :: 0 <= i < |ixs| && ixs[i].program == MemoProgram ==> i in chosen
  }

  ghost predicate Honours(
    ata: Derivation, asset: GoAsset, ixs: seq<GoInstruction>, amount: u64, recipient: Pubkey, externalId: seq<byte>,
    splits: seq<GoSplit>)
  {
    && IsCharge(amount, externalId, splits)
    && (exists chosen :: ArePaid(ata, asset, ixs, Due(amount, recipient, splits), chosen))
    && exists chosen :: AreWritten(ixs, Remarks(externalId, splits), chosen)
  }

  // ── Numbers ──

  lemma {:induction false} BothReadIff(s: string)
    ensures ScanUint(s).Some? && ParseAmount(s).Some? <==> IsNumber(s)
    ensures IsNumber(s) ==> ScanUint(s) == ParseAmount(s) == Some(DigitsValue(s))
  {
    if s != "" && (s[0] == '+' || s[0] == '-') {
      ScanRefusesSign(s);
    } else if s != "" && AllDigits(s) {
      ScanDigits(s);
    }
  }

  lemma {:induction false} SumSnoc(splits: seq<GoSplit>, split: GoSplit)
    requires AreNumbers(splits) && IsNumber(split.amount) && AreNumbers(splits + [split])
    ensures SumOf(splits + [split]) == SumOf(splits) + DigitsValue(split.amount)
    decreases splits
  {
    if splits == [] {
      assert [split][1..] == [] && splits + [split] == [split];
    } else {
      assert (splits + [split])[1..] == splits[1..] + [split];
      SumSnoc(splits[1..], split);
    }
  }

  /** The reader reads all these amounts as the numbers they denote. */
  predicate ReadsNumbers(splits: seq<GoSplit>, read: Reader) {
    forall k :: 0 <= k < |splits| ==> IsNumber(splits[k].amount) && read(splits[k].amount) == Some(DigitsValue(splits[k].amount))
  }

  lemma {:induction false} SumIs(splits: seq<GoSplit>, read: Reader)
    requires ReadsNumbers(splits, read)
    ensures AreNumbers(splits) && AllRead(splits, read) && ReadTotal(splits, read) == SumOf(splits)
    decreases splits
  {
    if splits != [] {
      var init, split := splits[..|splits| - 1], splits[|splits| - 1];
      assert init + [split] == splits;
      SumIs(init, read);
      SumSnoc(init, split);
      TotalSnoc(splits, read);
    }
  }

  lemma {:induction false} TotalSnoc(splits: seq<GoSplit>, read: Reader)
    requires AllRead(splits, read) && splits != []
    ensures ReadTotal(splits, read) == ReadTotal(splits[..|splits| - 1], read) + read(splits[|splits| - 1].amount).value
  {
  }

  lemma {:induction false} NumbersAreScanned(splits: seq<GoSplit>)
    requires AreNumbers(splits)
    ensures ReadsNumbers(splits, ScanUint)
  {
    forall k | 0 <= k < |splits| ensures ScanUint(splits[k].amount) == Some(DigitsValue(splits[k].amount)) {
      BothReadIff(splits[k].amount);
    }
  }

  // ── Expected transfers ──

  function TransfersOf(due: seq<Effect>): seq<Transfer>
    requires forall k :: 0 <= k < |due| ==> due[k].Pay? && due[k].amount < TWO_64
  {
    seq(|due|, k requires 0 <= k < |due| => Transfer(due[k].to, due[k].amount))
  }

  predicate AreTransfers(due: seq<Effect>) {
    forall k :: 0 <= k < |due| ==> due[k].Pay? && due[k].amount < TWO_64
  }

  lemma {:induction false} SplitPaysSnoc(splits: seq<GoSplit>, split: GoSplit)
    requires ArePayable(splits) && IsPayable(split) && ArePayable(splits + [split])
    ensures SplitPays(splits + [split]) == SplitPays(splits) + [SplitPay(split)]
    decreases splits
  {
    if splits == [] {
      assert [split][1..] == [] && splits + [split] == [split];
    } else {
      assert (splits + [split])[1..] == splits[1..] + [split];
      SplitPaysSnoc(splits[1..], split);
    }
  }

  lemma {:induction false} PayableSnoc(splits: seq<GoSplit>, split: GoSplit)
    ensures ArePayable(splits + [split]) <==> ArePayable(splits) && IsPayable(split)
  {
    var all := splits + [split];
    assert all[|splits|] == split;
    assert forall k :: 0 <= k < |splits| ==> all[k] == splits[k];
  }

  lemma {:induction false} SplitTransfersSnoc(splits: seq<GoSplit>, read: Reader)
    requires splits != []
    ensures var init, split := splits[..|splits| - 1], splits[|splits| - 1];
      SplitTransfers(splits, read)
      == if SplitTransfers(init, read).Err? then SplitTransfers(init, read)
         else if read(split.amount).None? then Err(BadAmount)
         else if split.recipient.Malformed? then Err(BadRecipient)
         else Ok(SplitTransfers(init, read).value + [Transfer(split.recipient.key, read(split.amount).value)])
  {
  }

  lemma {:induction false} TransfersSnoc(due: seq<Effect>, e: Effect)
    requires AreTransfers(due) && e.Pay? && e.amount < TWO_64
    ensures AreTransfers(due + [e]) && TransfersOf(due + [e]) == TransfersOf(due) + [Transfer(e.to, e.amount)]
  {
  }

  /** The reader reads exactly those of these amounts that are numbers. */
  predicate ReadsExactly(splits: seq<GoSplit>, read: Reader) {
    forall k :: 0 <= k < |splits| ==>
      read(splits[k].amount) == if IsNumber(splits[k].amount) then Some(DigitsValue(splits[k].amount)) else None
  }

  lemma {:induction false} ScannedAreParsed(splits: seq<GoSplit>)
    requires AllRead(splits, ScanUint)
    ensures ReadsExactly(splits, ParseAmount)
  {
    forall k | 0 <= k < |splits|
      ensures ParseAmount(splits[k].amount) == if IsNumber(splits[k].amount) then Some(DigitsValue(splits[k].amount)) else None
    {
      BothReadIff(splits[k].amount);
    }
  }

  lemma {:induction false} SplitTransfersAre(splits: seq<GoSplit>, read: Reader)
    requires ReadsExactly(splits, read)
    ensures SplitTransfers(splits, read).Ok? <==> ArePayable(splits)
    ensures ArePayable(splits) ==>
              AreTransfers(SplitPays(splits)) && SplitTransfers(splits, read) == Ok(TransfersOf(SplitPays(splits)))
    decreases splits
  {
    if splits != [] {
      var init, split := splits[..|splits| - 1], splits[|splits| - 1];
      assert init + [split] == splits;
      SplitTransfersAre(init, read);
      PayableSnoc(init, split);
      SplitTransfersSnoc(splits, read);
      if ArePayable(splits) {
        SplitPaysSnoc(init, split);
        TransfersSnoc(SplitPays(init), SplitPay(split));
      }
    } else {
      assert TransfersOf(SplitPays(splits)) == [];
    }
  }

  predicate HasTransfers(amount: u64, splits: seq<GoSplit>) {
    |splits| <= 8 && ArePayable(splits) && Main(amount, splits) > 0
  }

  lemma {:induction false} ExpectedIff(amount: u64, recipient: Pubkey, splits: seq<GoSplit>)
    ensures ExpectedTransfers(amount, recipient, splits, ScanUint, ParseAmount).Ok? <==> HasTransfers(amount, splits)
    ensures HasTransfers(amount, splits) ==>
              && AreTransfers(Due(amount, recipient, splits))
              && ExpectedTransfers(amount, recipient, splits, ScanUint, ParseAmount) == Ok(TransfersOf(Due(amount, recipient, splits)))
  {
    if AllRead(splits, ScanUint) {
      ScannedAreParsed(splits);
      SplitTransfersAre(splits, ParseAmount);
      if ArePayable(splits) {
        NumbersAreScanned(splits);
        SumIs(splits, ScanUint);
        ExpectedFrom(amount, recipient, splits);
      }
    } else if ArePayable(splits) {
      NumbersAreScanned(splits);
    }
  }

  lemma {:induction false} ExpectedFrom(amount: u64, recipient: Pubkey, splits: seq<GoSplit>)
    requires AllRead(splits, ScanUint) && ArePayable(splits) && ReadTotal(splits, ScanUint) == SumOf(splits)
    requires AreTransfers(SplitPays(splits)) && SplitTransfers(splits, ParseAmount) == Ok(TransfersOf(SplitPays(splits)))
    ensures ExpectedTransfers(amount, recipient, splits, ScanUint, ParseAmount).Ok? <==> HasTransfers(amount, splits)
    ensures HasTransfers(amount, splits) ==>
              && AreTransfers(Due(amount, recipient, splits))
              && ExpectedTransfers(amount, recipient, splits, ScanUint, ParseAmount) == Ok(TransfersOf(Due(amount, recipient, splits)))
  {
    PrimaryIs(amount, splits, ScanUint);
    if HasTransfers(amount, splits) {
      TransfersCons(Pay(recipient, Main(amount, splits)), SplitPays(splits));
    }
  }

  lemma {:induction false} PrimaryIs(amount: u64, splits: seq<GoSplit>, read: Reader)
    requires AllRead(splits, read) && AreNumbers(splits) && ReadTotal(splits, read) == SumOf(splits)
    ensures Primary(amount, splits, read)
      == if |splits| > 8 then Err(TooManySplits)
         else if Main(amount, splits) <= 0 then Err(SplitsExceed) else Ok(Main(amount, splits))
  {
  }

  lemma {:induction false} TransfersCons(e: Effect, due: seq<Effect>)
    requires AreTransfers(due) && e.Pay? && e.amount < TWO_64
    ensures AreTransfers([e] + due) && TransfersOf([e] + due) == [Transfer(e.to, e.amount)] + TransfersOf(due)
  {
  }

  // ── Payments ──

  lemma {:induction false} ReachIff(ixs: seq<GoInstruction>, asset: GoAsset, i: nat)
    ensures i < Reach(ixs, asset) <==> IsReached(ixs, asset, i)
  {
    assert forall j :: 0 <= j < |ixs| ==> (IsOfAsset(asset, ixs[j]) <==> ixs[j].program == AssetProgram(asset));
  }

  lemma {:induction false} OfferIff(ata: Derivation, asset: GoAsset, ix: GoInstruction, to: Pubkey, amount: u64)
    requires ValidAsset(asset)
    ensures Offer(ix, asset) == Some(Arrival(Target(ata, asset, to), amount)) <==> Moves(ata, asset, ix, to, amount)
  {
  }

  lemma {:induction false} AssignmentIff(
    ata: Derivation, asset: GoAsset, ixs: seq<GoInstruction>, due: seq<Effect>, chosen: seq<nat>)
    requires ValidAsset(asset) && AreTransfers(due)
    ensures IsAssignment(chosen, Arrivals(ata, asset, TransfersOf(due)), Offers(Reached(ixs, asset), asset), {})
      <==> ArePaid(ata, asset, ixs, due, chosen)
  {
    var wants, keys := Arrivals(ata, asset, TransfersOf(due)), Offers(Reached(ixs, asset), asset);
    if |chosen| == |due| {
      forall k | 0 <= k < |due|
        ensures chosen[k] < |keys| && keys[chosen[k]] == Some(wants[k])
          <==> IsReached(ixs, asset, chosen[k]) && Moves(ata, asset, ixs[chosen[k]], due[k].to, due[k].amount)
      {
        ReachIff(ixs, asset, chosen[k]);
        if chosen[k] < |keys| {
          OfferIff(ata, asset, ixs[chosen[k]], due[k].to, due[k].amount);
        }
      }
    }
  }

  // ── Memos ──

  function WantsOf(remarks: seq<Effect>): seq<Want>
    requires forall k :: 0 <= k < |remarks| ==> remarks[k].Note?
  {
    seq(|remarks|, k requires 0 <= k < |remarks| => Memo(remarks[k].memo))
  }

  predicate AreNotes(remarks: seq<Effect>) {
    forall k :: 0 <= k < |remarks| ==> remarks[k].Note?
  }

  lemma {:induction false} WantsConcat(a: seq<Effect>, b: seq<Effect>)
    requires AreNotes(a) && AreNotes(b)
    ensures AreNotes(a + b) && WantsOf(a + b) == WantsOf(a) + WantsOf(b)
  {
  }

  lemma {:induction false} RemarkIs(memo: seq<byte>)
    ensures AreNotes(Remark(memo)) && WantsOf(Remark(memo)) == MemoIfAny(memo)
  {
  }

  lemma {:induction false} RemarksSnoc(splits: seq<GoSplit>, split: GoSplit)
    ensures SplitRemarks(splits + [split]) == SplitRemarks(splits) + Remark(split.memo)
    decreases splits
  {
    if splits == [] {
      assert [split][1..] == [] && splits + [split] == [split];
      assert Remark(split.memo) + [] == [] + Remark(split.memo);
    } else {
      assert (splits + [split])[1..] == splits[1..] + [split];
      RemarksSnoc(splits[1..], split);
      assert Remark(splits[0].memo) + (SplitRemarks(splits[1..]) + Remark(split.memo))
        == Remark(splits[0].memo) + SplitRemarks(splits[1..]) + Remark(split.memo);
    }
  }

  lemma {:induction false} SplitRemarksAre(splits: seq<GoSplit>)
    ensures AreNotes(SplitRemarks(splits)) && WantsOf(SplitRemarks(splits)) == SplitMemoWants(splits)
    decreases splits
  {
    if splits != [] {
      var init, split := splits[..|splits| - 1], splits[|splits| - 1];
      assert init + [split] == splits;
      SplitRemarksAre(init);
      RemarkIs(split.memo);
      RemarksSnoc(init, split);
      WantsConcat(SplitRemarks(init), Remark(split.memo));
    }
  }

  lemma {:induction false} RemarksAre(externalId: seq<byte>, splits: seq<GoSplit>)
    ensures AreNotes(Remarks(externalId, splits)) && WantsOf(Remarks(externalId, splits)) == MemoWants(externalId, splits)
  {
    RemarkIs(externalId);
    SplitRemarksAre(splits);
    WantsConcat(Remark(externalId), SplitRemarks(splits));
  }

  predicate AreShort(remarks: seq<Effect>) {
    forall k :: 0 <= k < |remarks| && remarks[k].Note? ==> |remarks[k].memo| <= 566
  }

  lemma {:induction false} SplitRemarksShort(splits: seq<GoSplit>)
    ensures AreShort(SplitRemarks(splits)) <==> forall k :: 0 <= k < |splits| ==> |splits[k].memo| <= 566
    decreases splits
  {
    if splits != [] {
      SplitRemarksShort(splits[1..]);
      ShortConcat(Remark(splits[0].memo), SplitRemarks(splits[1..]));
      assert Remark(splits[0].memo) != [] ==> Remark(splits[0].memo)[0].Note?;
      assert forall k :: 0 < k < |splits| ==> splits[k] == splits[1..][k - 1];
    }
  }

  lemma {:induction false} ShortConcat(a: seq<Effect>, b: seq<Effect>)
    ensures AreShort(a + b) <==> AreShort(a) && AreShort(b)
  {
    if AreShort(a + b) {
      assert forall k :: 0 <= k < |a| ==> (a + b)[k] == a[k];
      assert forall k :: 0 <= k < |b| ==> (a + b)[|a| + k] == b[k];
    }
  }

  lemma {:induction false} RemarksShort(externalId: seq<byte>, splits: seq<GoSplit>)
    ensures MemosFit(MemoWants(externalId, splits))
      <==> |externalId| <= 566 && forall k :: 0 <= k < |splits| ==> |splits[k].memo| <= 566
  {
    RemarksAre(externalId, splits);
    SplitRemarksShort(splits);
    ShortConcat(Remark(externalId), SplitRemarks(splits));
    assert Remark(externalId) != [] ==> Remark(externalId)[0].Note?;
    var remarks := Remarks(externalId, splits);
    assert MemosFit(WantsOf(remarks)) <==> AreShort(remarks) by {
      assert forall k :: 0 <= k < |remarks| ==> WantsOf(remarks)[k] == Memo(remarks[k].memo);
    }
  }

  /** The memo instructions alone. */
  function MemosAlone(ixs: seq<GoInstruction>): seq<Option<Want>> {
    seq(|ixs|, i requires 0 <= i < |ixs| => if ixs[i].program == MemoProgram then Some(Memo(ixs[i].data)) else None)
  }

  lemma {:induction false} MemosOffered(ixs: seq<GoInstruction>, asset: GoAsset, v: seq<byte>)
    requires ValidAsset(asset)
    ensures Offered(Offers(ixs, asset), {})[Memo(v)] == Offered(MemosAlone(ixs), {})[Memo(v)]
  {
    SameCount(Offers(ixs, asset), MemosAlone(ixs), Memo(v));
  }

  lemma {:induction false} WrittenIsAssignment(ixs: seq<GoInstruction>, remarks: seq<Effect>, chosen: seq<nat>)
    requires AreNotes(remarks) && AreDistinct(chosen) && |chosen| == |remarks|
    ensures IsAssignment(chosen, WantsOf(remarks), MemosAlone(ixs), {})
      <==> forall k :: 0 <= k < |remarks| ==>
             chosen[k] < |ixs| && ixs[chosen[k]].program == MemoProgram && remarks[k] == Note(ixs[chosen[k]].data)
  {
    forall k | 0 <= k < |remarks|
      ensures chosen[k] < |ixs| && MemosAlone(ixs)[chosen[k]] == Some(WantsOf(remarks)[k])
        <==> chosen[k] < |ixs| && ixs[chosen[k]].program == MemoProgram && remarks[k] == Note(ixs[chosen[k]].data)
    {
    }
  }

  lemma {:induction false} WrittenIsSame(ixs: seq<GoInstruction>, asset: GoAsset, remarks: seq<Effect>, chosen: seq<nat>)
    requires ValidAsset(asset) && AreNotes(remarks) && AreWritten(ixs, remarks, chosen)
    ensures SameMemos(Offered(Offers(ixs, asset), {}), WantsOf(remarks))
  {
    WrittenIsAssignment(ixs, remarks, chosen);
    CoveredOffers(MemosAlone(ixs), chosen, WantsOf(remarks), {});
    forall v ensures Offered(Offers(ixs, asset), {})[Memo(v)] == multiset(WantsOf(remarks))[Memo(v)] {
      MemosOffered(ixs, asset, v);
    }
  }

  lemma {:induction false} SameIsEqual(ixs: seq<GoInstruction>, asset: GoAsset, memos: seq<Want>)
    requires ValidAsset(asset) && AllMemos(memos) && SameMemos(Offered(Offers(ixs, asset), {}), memos)
    ensures Offered(MemosAlone(ixs), {}) == multiset(memos)
  {
    forall w ensures Offered(MemosAlone(ixs), {})[w] == multiset(memos)[w] {
      if w.Memo? {
        MemosOffered(ixs, asset, w.value);
      } else {
        NoneOffered(MemosAlone(ixs), w);
        OnlyMemos(memos, w);
      }
    }
  }

  lemma {:induction false} SameIsWritten(ixs: seq<GoInstruction>, asset: GoAsset, remarks: seq<Effect>) returns (chosen: seq<nat>)
    requires ValidAsset(asset) && AreNotes(remarks) && SameMemos(Offered(Offers(ixs, asset), {}), WantsOf(remarks))
    ensures AreWritten(ixs, remarks, chosen)
  {
    var keys, wants := MemosAlone(ixs), WantsOf(remarks);
    SameIsEqual(ixs, asset, wants);
    chosen := OffersAssign(wants, keys, {});
    WrittenIsAssignment(ixs, remarks, chosen);
    ExhaustedIsCovered(keys, chosen, wants, {});
    forall i | 0 <= i < |ixs| && ixs[i].program == MemoProgram ensures i in chosen {
      assert keys[i].Some?;
    }
  }

  // ── The theorem ──

  lemma {:induction false} PaidIff(ata: Derivation, asset: GoAsset, ixs: seq<GoInstruction>, due: seq<Effect>)
    requires ValidAsset(asset) && AreTransfers(due)
    ensures Assignable(Reached(ixs, asset), asset, Arrivals(ata, asset, TransfersOf(due)))
      <==> exists chosen :: ArePaid(ata, asset, ixs, due, chosen)
  {
    forall chosen: seq<nat>
      ensures IsAssignment(chosen, Arrivals(ata, asset, TransfersOf(due)), Offers(Reached(ixs, asset), asset), {})
        <==> ArePaid(ata, asset, ixs, due, chosen)
    {
      AssignmentIff(ata, asset, ixs, due, chosen);
    }
  }

  lemma {:induction false} WrittenIff(ixs: seq<GoInstruction>, asset: GoAsset, remarks: seq<Effect>)
    requires ValidAsset(asset) && AreNotes(remarks)
    ensures SameMemos(Offered(Offers(ixs, asset), {}), WantsOf(remarks)) <==> exists chosen :: AreWritten(ixs, remarks, chosen)
  {
    if SameMemos(Offered(Offers(ixs, asset), {}), WantsOf(remarks)) {
      var chosen := SameIsWritten(ixs, asset, remarks);
    } else if chosen :| AreWritten(ixs, remarks, chosen) {
      WrittenIsSame(ixs, asset, remarks, chosen);
    }
  }

  /**
   The Go server accepts exactly the transactions that pay the charge: every payment has an instruction of its own that
   moves the amount to the wallet or to its token account, and the memo instructions are exactly the memos.
   */
  lemma {:induction false} AcceptedIff(
    ixs: seq<GoInstruction>, amount: u64, asset: GoAsset, recipient: Pubkey, externalId: seq<byte>, splits: seq<GoSplit>,
    ata: Derivation)
    requires ValidAsset(asset)
    ensures VerifyGo(ixs, amount, asset, recipient, externalId, splits, ata, ScanUint, ParseAmount).Ok?
      <==> Honours(ata, asset, ixs, amount, recipient, externalId, splits)
  {
    GoGuarantees.AcceptedIff(ixs, amount, asset, recipient, externalId, splits, ata);
    ExpectedIff(amount, recipient, splits);
    if HasTransfers(amount, splits) {
      HonoursIff(ata, asset, ixs, amount, recipient, externalId, splits);
    }
  }

  lemma {:induction false} HonoursIff(
    ata: Derivation, asset: GoAsset, ixs: seq<GoInstruction>, amount: u64, recipient: Pubkey, externalId: seq<byte>,
    splits: seq<GoSplit>)
    requires ValidAsset(asset) && HasTransfers(amount, splits) && AreTransfers(Due(amount, recipient, splits))
    ensures Honours(ata, asset, ixs, amount, recipient, externalId, splits)
      <==> && Assignable(Reached(ixs, asset), asset, Arrivals(ata, asset, TransfersOf(Due(amount, recipient, splits))))
           && SameMemos(Offered(Offers(ixs, asset), {}), MemoWants(externalId, splits))
           && MemosFit(MemoWants(externalId, splits))
  {
    assert IsCharge(amount, externalId, splits) <==> MemosFit(MemoWants(externalId, splits)) by {
      RemarksShort(externalId, splits);
    }
    assert SameMemos(Offered(Offers(ixs, asset), {}), MemoWants(externalId, splits))
      <==> exists chosen :: AreWritten(ixs, Remarks(externalId, splits), chosen) by {
      RemarksAre(externalId, splits);
      WrittenIff(ixs, asset, Remarks(externalId, splits));
    }
    PaidIff(ata, asset, ixs, Due(amount, recipient, splits));
  }

  // ── Totals ──

  /** What an instruction does with the charged asset, whoever it pays. */
  ghost function EffectOfGo(ata: Derivation, asset: GoAsset, ix: GoInstruction): Option<Effect> {
    if ix.program == MemoProgram then Some(Note(ix.data))
    else
      match asset
      case NativeSol =>
        if ix.program == SystemProgram && ix.decoded.SystemTransfer? then Some(Pay(ix.decoded.to, ix.decoded.lamports)) else None
      case Token(mint, program) =>
        if ix.program == program && ix.decoded.TransferChecked? && ix.decoded.mint == mint then
          match OwnerOf(ata, ix.decoded.destination, program, mint)
          case Some(owner) => Some(Pay(owner, ix.decoded.amount))
          case None => None
        else None
  }

  ghost function EffectsOfGo(ata: Derivation, asset: GoAsset, ixs: seq<GoInstruction>): seq<Option<Effect>> {
    seq(|ixs|, i requires 0 <= i < |ixs| => EffectOfGo(ata, asset, ixs[i]))
  }

  lemma {:induction false} PaidIsAssigned(ata: Derivation, asset: GoAsset, ixs: seq<GoInstruction>, due: seq<Effect>, chosen: seq<nat>)
    requires Injective(ata) && ValidAsset(asset) && ArePaid(ata, asset, ixs, due, chosen)
    ensures IsAssignment(chosen, due, EffectsOfGo(ata, asset, ixs), {})
  {
    forall k | 0 <= k < |due| ensures EffectOfGo(ata, asset, ixs[chosen[k]]) == Some(due[k]) {
      assert Moves(ata, asset, ixs[chosen[k]], due[k].to, due[k].amount);
    }
  }

  lemma {:induction false} SplitPaysTotal(splits: seq<GoSplit>)
    requires ArePayable(splits)
    ensures Paid(SplitPays(splits), None) == SumOf(splits)
    decreases splits
  {
    if splits != [] {
      SplitPaysTotal(splits[1..]);
      assert SplitPays(splits)[1..] == SplitPays(splits[1..]);
    }
  }

  lemma {:induction false} DueTotal(amount: u64, recipient: Pubkey, splits: seq<GoSplit>)
    requires ArePayable(splits) && Main(amount, splits) > 0
    ensures Paid(Due(amount, recipient, splits), None) == amount <==> SumOf(splits) < TWO_64
  {
    SplitPaysTotal(splits);
    assert Due(amount, recipient, splits)[1..] == SplitPays(splits);
    CG.UnwrappedIff(SumOf(splits));
  }

  /** Every wallet receives at least what is due to it, and what is due is the charge exactly when the splits do not wrap. */
  lemma {:induction false} AcceptedTotals(
    ixs: seq<GoInstruction>, amount: u64, asset: GoAsset, recipient: Pubkey, externalId: seq<byte>, splits: seq<GoSplit>,
    ata: Derivation)
    requires Injective(ata) && ValidAsset(asset)
    requires VerifyGo(ixs, amount, asset, recipient, externalId, splits, ata, ScanUint, ParseAmount).Ok?
    ensures IsCharge(amount, externalId, splits)
    ensures forall payee :: Paid(Present(EffectsOfGo(ata, asset, ixs)), payee) >= Paid(Due(amount, recipient, splits), payee)
    ensures Paid(Due(amount, recipient, splits), None) == amount <==> SumOf(splits) < TWO_64
  {
    AcceptedIff(ixs, amount, asset, recipient, externalId, splits, ata);
    var due, keys := Due(amount, recipient, splits), EffectsOfGo(ata, asset, ixs);
    var chosen :| ArePaid(ata, asset, ixs, due, chosen);
    PaidIsAssigned(ata, asset, ixs, due, chosen);
    AssignmentOffers(chosen, due, keys, {});
    CG.OfferedIsPresent(keys);
    forall payee ensures Paid(Present(keys), payee) >= Paid(due, payee) {
      PaidMonotone(due, Present(keys), payee);
    }
    DueTotal(amount, recipient, splits);
  }

  // ── Refusals ──

  /** Which refusals blame the splits; an amount that does not begin with a number is blamed first. */
  lemma {:induction false} Refusals(
    ixs: seq<GoInstruction>, amount: u64, asset: GoAsset, recipient: Pubkey, externalId: seq<byte>, splits: seq<GoSplit>,
    ata: Derivation)
    ensures |splits| > 8 ==>
              VerifyGo(ixs, amount, asset, recipient, externalId, splits, ata, ScanUint, ParseAmount) == Err(TooManySplits)
    ensures |splits| <= 8 && AreNumbers(splits) && Main(amount, splits) <= 0 ==>
              VerifyGo(ixs, amount, asset, recipient, externalId, splits, ata, ScanUint, ParseAmount) == Err(SplitsExceed)
    ensures |splits| <= 8 && AreNumbers(splits) && Main(amount, splits) > 0 && !ArePayable(splits) ==>
              VerifyGo(ixs, amount, asset, recipient, externalId, splits, ata, ScanUint, ParseAmount) == Err(BadRecipient)
    ensures |splits| <= 8 && !AllRead(splits, ScanUint) ==>
              VerifyGo(ixs, amount, asset, recipient, externalId, splits, ata, ScanUint, ParseAmount) == Err(BadAmount)
  {
    if |splits| <= 8 && AreNumbers(splits) {
      ExpectedError(amount, recipient, splits);
    }
  }

  lemma {:induction false} ExpectedError(amount: u64, recipient: Pubkey, splits: seq<GoSplit>)
    requires |splits| <= 8 && AreNumbers(splits)
    ensures Main(amount, splits) <= 0 ==>
              ExpectedTransfers(amount, recipient, splits, ScanUint, ParseAmount) == Err(SplitsExceed)
    ensures Main(amount, splits) > 0 && !ArePayable(splits) ==>
              ExpectedTransfers(amount, recipient, splits, ScanUint, ParseAmount) == Err(BadRecipient)
  {
    NumbersAreScanned(splits);
    SumIs(splits, ScanUint);
    PrimaryIs(amount, splits, ScanUint);
    ScannedAreParsed(splits);
    SplitTransfersAre(splits, ParseAmount);
    if !ArePayable(splits) {
      BadRecipientOnly(splits);
    }
  }

  lemma {:induction false} BadRecipientOnly(splits: seq<GoSplit>)
    requires AreNumbers(splits) && SplitTransfers(splits, ParseAmount).Err?
    ensures SplitTransfers(splits, ParseAmount).error == BadRecipient
    decreases splits
  {
    var init, split := splits[..|splits| - 1], splits[|splits| - 1];
    BothReadIff(split.amount);
    if SplitTransfers(init, ParseAmount).Err? {
      BadRecipientOnly(init);
    }
  }

  /** Each remark has a memo instruction of its own; there may be more. */
  predicate AreAmongMemos(ixs: seq<GoInstruction>, remarks: seq<Effect>, chosen: seq<nat>) {
    && |chosen| == |remarks| && AreDistinct(chosen)
    && forall k :: 0 <= k < |remarks| ==>
         chosen[k] < |ixs| && ixs[chosen[k]].program == MemoProgram && remarks[k] == Note(ixs[chosen[k]].data)
  }

  /** A transaction with everything that was asked for and a further memo is refused for that memo. */
  lemma {:induction false} ExtraMemoIsRefused(
    ixs: seq<GoInstruction>, amount: u64, asset: GoAsset, recipient: Pubkey, externalId: seq<byte>, splits: seq<GoSplit>,
    ata: Derivation, paid: seq<nat>, written: seq<nat>)
    requires ValidAsset(asset) && IsCharge(amount, externalId, splits)
    requires ArePaid(ata, asset, ixs, Due(amount, recipient, splits), paid)
    requires AreAmongMemos(ixs, Remarks(externalId, splits), written)
    requires exists i :: 0 <= i < |ixs| && ixs[i].program == MemoProgram && i !in written
    ensures VerifyGo(ixs, amount, asset, recipient, externalId, splits, ata, ScanUint, ParseAmount) == Err(UnexpectedMemo)
  {
    ExpectedIff(amount, recipient, splits);
    RemarksAre(externalId, splits);
    RemarksShort(externalId, splits);
    var due, remarks := Due(amount, recipient, splits), Remarks(externalId, splits);
    var arrivals, memos := Arrivals(ata, asset, TransfersOf(due)), WantsOf(remarks);
    AssignmentIff(ata, asset, ixs, due, paid);
    ArrivalsIff(ixs, asset, arrivals);
    WrittenIsAssignment(ixs, remarks, written);
    AmongOffered(ixs, asset, memos, written);
    MemosIff(ixs, asset, arrivals, memos);
    MoreThanWritten(ixs, asset, remarks, written);
    NoLeftoverIff(ixs, asset, arrivals, memos);
  }

  lemma {:induction false} AmongOffered(ixs: seq<GoInstruction>, asset: GoAsset, memos: seq<Want>, chosen: seq<nat>)
    requires ValidAsset(asset) && AllMemos(memos) && IsAssignment(chosen, memos, MemosAlone(ixs), {})
    ensures multiset(memos) <= Offered(Offers(ixs, asset), {})
  {
    AssignmentOffers(chosen, memos, MemosAlone(ixs), {});
    forall w ensures multiset(memos)[w] <= Offered(Offers(ixs, asset), {})[w] {
      if w.Memo? {
        MemosOffered(ixs, asset, w.value);
      } else {
        OnlyMemos(memos, w);
      }
    }
  }

  lemma {:induction false} MoreThanWritten(ixs: seq<GoInstruction>, asset: GoAsset, remarks: seq<Effect>, written: seq<nat>)
    requires ValidAsset(asset) && AreNotes(remarks) && AreAmongMemos(ixs, remarks, written)
    requires exists i :: 0 <= i < |ixs| && ixs[i].program == MemoProgram && i !in written
    ensures !SameMemos(Offered(Offers(ixs, asset), {}), WantsOf(remarks))
  {
    if SameMemos(Offered(Offers(ixs, asset), {}), WantsOf(remarks)) {
      SameIsEqual(ixs, asset, WantsOf(remarks));
      WrittenIsAssignment(ixs, remarks, written);
      ExhaustedIsCovered(MemosAlone(ixs), written, WantsOf(remarks), {});
    }
  }

  /** Without any instruction of the asset's program no transfer is found, and a bad account index ends the search. */
  lemma {:induction false} SearchRefusals(
    ixs: seq<GoInstruction>, amount: u64, asset: GoAsset, recipient: Pubkey, externalId: seq<byte>, splits: seq<GoSplit>,
    ata: Derivation)
    requires HasTransfers(amount, splits)
    ensures (forall i :: 0 <= i < |ixs| ==> !IsOfAsset(asset, ixs[i])) ==>
              VerifyGo(ixs, amount, asset, recipient, externalId, splits, ata, ScanUint, ParseAmount) == Err(NoTransfer)
    ensures ixs != [] && IsOfAsset(asset, ixs[0]) && !ixs[0].resolves ==>
              VerifyGo(ixs, amount, asset, recipient, externalId, splits, ata, ScanUint, ParseAmount) == Err(Unresolvable)
  {
    ExpectedIff(amount, recipient, splits);
    var wants := Arrivals(ata, asset, TransfersOf(Due(amount, recipient, splits))) + MemoWants(externalId, splits);
    RowsCons(ixs, asset, wants);
    assert wants[0].Arrival?;
    FirstSearch(ixs, asset, wants[0]);
  }

  lemma {:induction false} FirstSearch(ixs: seq<GoInstruction>, asset: GoAsset, want: Want)
    requires want.Arrival?
    ensures (forall i :: 0 <= i < |ixs| ==> !IsOfAsset(asset, ixs[i])) ==> MatchRow(RowOf(ixs, asset, want), {}) == Err(NoTransfer)
    ensures ixs != [] && IsOfAsset(asset, ixs[0]) && !ixs[0].resolves ==>
              MatchRow(RowOf(ixs, asset, want), {}) == Err(Unresolvable)
  {
    var probes := Probes(ixs, asset, want);
    assert forall i :: 0 <= i < |ixs| ==> (IsOfAsset(asset, ixs[i]) <==> ixs[i].program == AssetProgram(asset));
    assert forall i :: 0 <= i < |ixs| ==> probes[i] == ProbeOf(ixs[i], asset, want);
  }
}
