/** What an accepted transaction is guaranteed to do, and what it cannot do. */
module ChargeGuarantees {
  import opened Common
  import opened Charge
  import opened FirstFit
  import opened ChargeMeaning
  import opened ChargeVerifier

  // ── Acceptance taken apart ──

  function MatchedBy(ata: Derivation, tx: Transaction, request: ChargeRequest, details: MethodDetails): set<nat>
    requires Verify(ata, tx, request, details).Ok?
  {
    MatchAll(RowsFor(ata, tx, request, details, ChargeTerms(tx, request, details).value), {}).value
  }

  lemma {:induction false} MatchedRowsAreWellFormed<E>(rows: seq<Row<E>>, taken: set<nat>)
    requires MatchAll(rows, taken).Ok?
    ensures forall k :: 0 <= k < |rows| ==> rows[k].probes.Some?
  {
    if rows != [] {
      MatchedRowsAreWellFormed(rows[1..], MatchRow(rows[0], taken).value);
      forall k | 0 <= k < |rows| ensures rows[k].probes.Some? {
        if k > 0 { assert rows[1..][k - 1].probes.Some?; }
      }
    }
  }

  lemma {:induction false} AcceptedSplitsAreWellFormed(ata: Derivation, tx: Transaction, request: ChargeRequest, details: MethodDetails)
    requires Verify(ata, tx, request, details).Ok?
    ensures WellFormedSplits(details.splits)
  {
    var t := ChargeTerms(tx, request, details).value;
    var rows := RowsFor(ata, tx, request, details, t);
    MatchedRowsAreWellFormed(rows, {});
    forall k | 0 <= k < |details.splits| ensures details.splits[k].amount.Some? {
      RowAt(ata, tx, t.asset, t.recipient, t.primary, request.externalId, details.splits, t.feePayer, 1 + k);
      assert rows[1 + k].probes.Some?;
    }
  }

  /** A transfer instruction that satisfies an expectation pays exactly the expected wallet and amount. */
  lemma {:induction false} TransferHitPays(
    ata: Derivation, tx: Transaction, i: nat, asset: Asset, recipient: Pubkey, amount: nat, feePayer: Option<Pubkey>)
    requires Injective(ata)
    requires i < |tx.instructions|
    requires TransferProbe(ata, tx, i, asset, recipient, amount, feePayer).Hit?
    ensures EffectAt(ata, asset, tx, i) == Some(Pay(recipient, amount))
  {
    var ix := tx.instructions[i];
    var accounts := AccountsAt(tx, i);
    assert |accounts| == |ix.accounts|;
    assert accounts[1] == KeyAt(tx, ix.accounts[1]);
    if asset.Spl? {
      assert accounts[2] == KeyAt(tx, ix.accounts[2]);
    }
  }

  lemma {:induction false} RowsMeanDemands(ata: Derivation, tx: Transaction, request: ChargeRequest, details: MethodDetails, t: Terms)
    requires Injective(ata)
    requires WellFormedSplits(details.splits)
    ensures HitsMean(RowsFor(ata, tx, request, details, t),
                     Demanded(t.recipient, t.primary, request.externalId, details.splits),
                     Effects(ata, t.asset, tx))
  {
    var splits := details.splits;
    var rows := RowsFor(ata, tx, request, details, t);
    var wants := Demanded(t.recipient, t.primary, request.externalId, splits);
    var keys := Effects(ata, t.asset, tx);
    var memos := ExpectedMemos(request.externalId, splits);
    forall k | 0 <= k < |rows| ensures RowHitsMean(rows[k], wants[k], keys) {
      if k <= |splits| {
        TransferRowAt(ata, tx, t.asset, t.recipient, t.primary, request.externalId, splits, t.feePayer, k);
        var recipient := if k == 0 then t.recipient else splits[k - 1].recipient.key;
        var amount := if k == 0 then t.primary else splits[k - 1].amount.value;
        TransferRowMeans(ata, tx, t.asset, recipient, amount, t.feePayer);
      } else {
        MemoRowAt(ata, tx, t.asset, t.recipient, t.primary, request.externalId, splits, t.feePayer, k);
        MemoRowMeans(ata, tx, t.asset, memos[k - 1 - |splits|]);
      }
    }
  }

  lemma {:induction false} TransferRowAt(
    ata: Derivation, tx: Transaction, asset: Asset, recipient: Pubkey, primary: nat,
    externalId: Option<seq<byte>>, splits: seq<Split>, feePayer: Option<Pubkey>, k: nat)
    requires WellFormedSplits(splits) && k <= |splits|
    ensures var to := if k == 0 then recipient else splits[k - 1].recipient.key;
            var amount := if k == 0 then primary else splits[k - 1].amount.value;
            && AllRows(ata, tx, asset, recipient, primary, externalId, splits, feePayer)[k]
               == TransferRow(ata, tx, asset, to, Some(amount), feePayer)
            && Demanded(recipient, primary, externalId, splits)[k] == Pay(to, amount)
  {
  }

  lemma {:induction false} MemoRowAt(
    ata: Derivation, tx: Transaction, asset: Asset, recipient: Pubkey, primary: nat,
    externalId: Option<seq<byte>>, splits: seq<Split>, feePayer: Option<Pubkey>, k: nat)
    requires WellFormedSplits(splits)
    requires |splits| < k <= |splits| + |ExpectedMemos(externalId, splits)|
    ensures var memo := ExpectedMemos(externalId, splits)[k - 1 - |splits|];
            && AllRows(ata, tx, asset, recipient, primary, externalId, splits, feePayer)[k] == MemoRow(tx, memo)
            && Demanded(recipient, primary, externalId, splits)[k] == Note(memo)
  {
  }

  lemma {:induction false} TransferRowMeans(
    ata: Derivation, tx: Transaction, asset: Asset, recipient: Pubkey, amount: nat, feePayer: Option<Pubkey>)
    requires Injective(ata)
    ensures RowHitsMean(TransferRow(ata, tx, asset, recipient, Some(amount), feePayer), Pay(recipient, amount), Effects(ata, asset, tx))
  {
    var row, keys := TransferRow(ata, tx, asset, recipient, Some(amount), feePayer), Effects(ata, asset, tx);
    forall i | 0 <= i < |tx.instructions| && row.probes.value[i].Hit? ensures keys[i] == Some(Pay(recipient, amount)) {
      TransferHitPays(ata, tx, i, asset, recipient, amount, feePayer);
    }
  }

  lemma {:induction false} MemoRowMeans(ata: Derivation, tx: Transaction, asset: Asset, memo: seq<byte>)
    ensures RowHitsMean(MemoRow(tx, memo), Note(memo), Effects(ata, asset, tx))
  {
  }

  predicate TouchesMoneyOrMemo(program: Pubkey) {
    program == SystemProgram || IsTokenProgram(program) || program == MemoProgram
  }

  lemma {:induction false} MoneyAndMemosAreMatched(ata: Derivation, tx: Transaction, request: ChargeRequest, details: MethodDetails, i: nat)
    requires Verify(ata, tx, request, details).Ok?
    requires i < |tx.instructions|
    ensures KeyAt(tx, tx.instructions[i].program).Some?
    ensures TouchesMoneyOrMemo(KeyAt(tx, tx.instructions[i].program).value) ==> i in MatchedBy(ata, tx, request, details)
  {
    var t := ChargeTerms(tx, request, details).value;
    assert InstructionAllowed(ata, tx, i, MatchedBy(ata, tx, request, details), t.asset, t.policy.allowed, AtaPayer(tx, t.feePayer));
  }

  lemma {:induction false} OfferedIsPresent(keys: seq<Option<Effect>>)
    ensures Offered(keys, {}) == multiset(Present(keys))
  {
    if keys != [] {
      OfferedIsPresent(keys[..|keys| - 1]);
    }
  }

  // ── Exactness ──

  /**
   Every System, Token or Memo instruction of an accepted transaction is a well-formed payment or memo, and
   these payments and memos are, as a multiset, exactly the ones the challenge demands.
   */
  lemma {:induction false} AcceptedExactly(ata: Derivation, tx: Transaction, request: ChargeRequest, details: MethodDetails)
    requires Injective(ata)
    requires Verify(ata, tx, request, details).Ok?
    ensures WellFormedSplits(details.splits)
    ensures var t := ChargeTerms(tx, request, details).value;
            multiset(Present(Effects(ata, t.asset, tx))) ==
            multiset(Demanded(t.recipient, t.primary, request.externalId, details.splits))
    ensures var t := ChargeTerms(tx, request, details).value;
            forall i :: 0 <= i < |tx.instructions| ==>
              && KeyAt(tx, tx.instructions[i].program).Some?
              && (TouchesMoneyOrMemo(KeyAt(tx, tx.instructions[i].program).value) <==> EffectAt(ata, t.asset, tx, i).Some?)
  {
    AcceptedSplitsAreWellFormed(ata, tx, request, details);
    var t := ChargeTerms(tx, request, details).value;
    var rows := RowsFor(ata, tx, request, details, t);
    var wants := Demanded(t.recipient, t.primary, request.externalId, details.splits);
    var keys := Effects(ata, t.asset, tx);
    var matched := MatchedBy(ata, tx, request, details);
    RowsMeanDemands(ata, tx, request, details, t);
    MatchAllConsumes(rows, wants, keys, {});
    forall i | 0 <= i < |tx.instructions|
      ensures KeyAt(tx, tx.instructions[i].program).Some?
      ensures TouchesMoneyOrMemo(KeyAt(tx, tx.instructions[i].program).value) <==> EffectAt(ata, t.asset, tx, i).Some?
      ensures keys[i].Some? ==> i in matched
    {
      MoneyAndMemosAreMatched(ata, tx, request, details, i);
      if i in matched {
        ConsumedIsHit(rows, {}, i);
        var k :| 0 <= k < |rows| && RowHits(rows[k], i);
        assert RowHitsMean(rows[k], wants[k], keys);
        assert keys[i] == EffectAt(ata, t.asset, tx, i);
      }
    }
    OfferedNothing(keys, matched);
    OfferedIsPresent(keys);
  }

  lemma {:induction false} TermsPrimary(tx: Transaction, request: ChargeRequest, details: MethodDetails)
    requires ChargeTerms(tx, request, details).Ok?
    ensures request.amount.Some?
    ensures ChargeTerms(tx, request, details).value.primary == request.amount.value - SplitsTotal(details.splits) % TWO_64
  {
    WrappedTotal(details.splits);
  }

  /**
   Conservation: each wallet receives exactly what the challenge owes it, and the total moved is the requested
   amount if and only if the split amounts do not overflow 64 bits.
   */
  lemma {:induction false} AcceptedTotals(ata: Derivation, tx: Transaction, request: ChargeRequest, details: MethodDetails)
    requires Injective(ata)
    requires Verify(ata, tx, request, details).Ok?
    ensures WellFormedSplits(details.splits) && request.amount.Some?
    ensures var t := ChargeTerms(tx, request, details).value;
            forall payee :: Paid(Present(Effects(ata, t.asset, tx)), payee) ==
                            Paid(Demanded(t.recipient, t.primary, request.externalId, details.splits), payee)
    ensures var t := ChargeTerms(tx, request, details).value;
            Paid(Present(Effects(ata, t.asset, tx)), None) == request.amount.value <==> SplitsTotal(details.splits) < TWO_64
  {
    AcceptedExactly(ata, tx, request, details);
    var t := ChargeTerms(tx, request, details).value;
    TermsPrimary(tx, request, details);
    TotalsAgree(Present(Effects(ata, t.asset, tx)), t.recipient, t.primary, request.externalId, details.splits, request.amount.value);
  }

  lemma {:induction false} TotalsAgree(
    done: seq<Effect>, recipient: Pubkey, primary: nat, externalId: Option<seq<byte>>, splits: seq<Split>, amount: u64)
    requires WellFormedSplits(splits)
    requires multiset(done) == multiset(Demanded(recipient, primary, externalId, splits))
    requires primary == amount - SplitsTotal(splits) % TWO_64
    ensures forall payee :: Paid(done, payee) == Paid(Demanded(recipient, primary, externalId, splits), payee)
    ensures Paid(done, None) == amount <==> SplitsTotal(splits) < TWO_64
  {
    forall payee ensures Paid(done, payee) == Paid(Demanded(recipient, primary, externalId, splits), payee) {
      PaidByMultiset(done, Demanded(recipient, primary, externalId, splits), payee);
    }
    assert Paid(done, None) == Paid(Demanded(recipient, primary, externalId, splits), None);
    DemandedTotal(recipient, primary, externalId, splits);
    UnwrappedIff(SplitsTotal(splits));
  }

  lemma {:induction false} UnwrappedIff(n: nat)
    ensures n % TWO_64 == n <==> n < TWO_64
  {
  }

  // ── Sponsored transactions ──

  predicate NotPaidBy(ata: Derivation, tx: Transaction, ix: CompiledInstruction, sponsor: Pubkey, asset: Asset) {
    match KeyAt(tx, ix.program)
    case Some(SystemProgram) =>
      |ix.accounts| >= 2 && KeyAt(tx, ix.accounts[0]).Some? && KeyAt(tx, ix.accounts[0]) != Some(sponsor)
    case Some(program) =>
      IsTokenProgram(program) ==>
        && asset.Spl?
        && |ix.accounts| >= 4
        && KeyAt(tx, ix.accounts[3]).Some? && KeyAt(tx, ix.accounts[3]) != Some(sponsor)
        && KeyAt(tx, ix.accounts[0]).Some? && KeyAt(tx, ix.accounts[0]) != Some(ata(sponsor, program, asset.mint))
    case None => true
  }

  lemma {:induction false} TransferHitSparesSponsor(
    ata: Derivation, tx: Transaction, i: nat, asset: Asset, recipient: Pubkey, amount: nat, sponsor: Pubkey)
    requires i < |tx.instructions|
    requires TransferProbe(ata, tx, i, asset, recipient, amount, Some(sponsor)).Hit?
    ensures NotPaidBy(ata, tx, tx.instructions[i], sponsor, asset)
  {
  }

  lemma {:induction false} MatchedTransferSparesSponsor(
    ata: Derivation, tx: Transaction, asset: Asset, recipient: Pubkey, primary: nat,
    externalId: Option<seq<byte>>, splits: seq<Split>, sponsor: Pubkey, i: nat)
    requires RecipientsParse(splits)
    requires MatchAll(AllRows(ata, tx, asset, recipient, primary, externalId, splits, Some(sponsor)), {}).Ok?
    requires i in MatchAll(AllRows(ata, tx, asset, recipient, primary, externalId, splits, Some(sponsor)), {}).value
    requires i < |tx.instructions|
    ensures NotPaidBy(ata, tx, tx.instructions[i], sponsor, asset)
  {
    var rows := AllRows(ata, tx, asset, recipient, primary, externalId, splits, Some(sponsor));
    ConsumedIsHit(rows, {}, i);
    var k :| 0 <= k < |rows| && RowHits(rows[k], i);
    if k <= |splits| {
      var to := if k == 0 then recipient else splits[k - 1].recipient.key;
      var amount := if k == 0 then Some(primary) else splits[k - 1].amount;
      RowAt(ata, tx, asset, recipient, primary, externalId, splits, Some(sponsor), k);
      TransferRowSpares(ata, tx, asset, to, amount, sponsor, i);
    } else {
      var memos := ExpectedMemos(externalId, splits);
      RowAt(ata, tx, asset, recipient, primary, externalId, splits, Some(sponsor), k);
      MemoRowSpares(ata, tx, asset, memos[k - 1 - |splits|], sponsor, i);
    }
  }

  lemma {:induction false} RowAt(
    ata: Derivation, tx: Transaction, asset: Asset, recipient: Pubkey, primary: nat,
    externalId: Option<seq<byte>>, splits: seq<Split>, feePayer: Option<Pubkey>, k: nat)
    requires RecipientsParse(splits)
    requires k < |AllRows(ata, tx, asset, recipient, primary, externalId, splits, feePayer)|
    ensures var row := AllRows(ata, tx, asset, recipient, primary, externalId, splits, feePayer)[k];
      if k == 0 then row == TransferRow(ata, tx, asset, recipient, Some(primary), feePayer)
      else if k <= |splits| then
        row == TransferRow(ata, tx, asset, splits[k - 1].recipient.key, splits[k - 1].amount, feePayer)
      else row == MemoRow(tx, ExpectedMemos(externalId, splits)[k - 1 - |splits|])
  {
  }

  lemma {:induction false} TransferRowSpares(
    ata: Derivation, tx: Transaction, asset: Asset, to: Pubkey, amount: Option<nat>, sponsor: Pubkey, i: nat)
    requires i < |tx.instructions| && RowHits(TransferRow(ata, tx, asset, to, amount, Some(sponsor)), i)
    ensures NotPaidBy(ata, tx, tx.instructions[i], sponsor, asset)
  {
    TransferHitSparesSponsor(ata, tx, i, asset, to, amount.value, sponsor);
  }

  lemma {:induction false} MemoRowSpares(ata: Derivation, tx: Transaction, asset: Asset, memo: seq<byte>, sponsor: Pubkey, i: nat)
    requires i < |tx.instructions| && RowHits(MemoRow(tx, memo), i)
    ensures NotPaidBy(ata, tx, tx.instructions[i], sponsor, asset)
  {
    assert MemoProbe(tx, i, memo).Hit?;
  }

  lemma {:induction false} AcceptedSpares(ata: Derivation, tx: Transaction, request: ChargeRequest, details: MethodDetails, i: nat)
    requires Verify(ata, tx, request, details).Ok?
    requires details.feePayer
    requires i < |tx.instructions|
    ensures |tx.keys| > 0 && details.feePayerKey == Some(Key(tx.keys[0]))
    ensures NotPaidBy(ata, tx, tx.instructions[i], tx.keys[0], ChargeTerms(tx, request, details).value.asset)
  {
    var t := ChargeTerms(tx, request, details).value;
    assert t.feePayer == Some(tx.keys[0]);
    MoneyAndMemosAreMatched(ata, tx, request, details, i);
    if i in MatchedBy(ata, tx, request, details) {
      MatchedTransferSparesSponsor(ata, tx, t.asset, t.recipient, t.primary, request.externalId, details.splits, tx.keys[0], i);
    }
  }

  lemma {:induction false} OwnersAre(details: MethodDetails, feePayer: Option<Pubkey>, owner: Pubkey)
    ensures owner in PolicyFor(details.splits, feePayer).required <==> IsMarked(details, owner)
    ensures owner in PolicyFor(details.splits, feePayer).allowed <==> MayCreate(details, feePayer.Some?, owner)
  {
  }

  lemma {:induction false} MarkedIff(splits: seq<Split>)
    requires RecipientsParse(splits)
    ensures RequiredOwners(splits) == {} <==> forall k :: 0 <= k < |splits| ==> !splits[k].ataCreationRequired
  {
    forall k | 0 <= k < |splits| && splits[k].ataCreationRequired ensures RequiredOwners(splits) != {} {
      assert splits[k].recipient.key in RequiredOwners(splits);
    }
  }

  /** The instruction creates the token account of `owner`, paid for by `payer`. */
  predicate CreatesAccountOf(tx: Transaction, ix: CompiledInstruction, payer: Pubkey, owner: Pubkey) {
    && KeyAt(tx, ix.program) == Some(AssociatedTokenProgram)
    && ix.data == [1]
    && |ix.accounts| == 6
    && KeyAt(tx, ix.accounts[0]) == Some(payer)
    && KeyAt(tx, ix.accounts[2]) == Some(owner)
  }

  lemma {:induction false} AllowedCreation(ata: Derivation, tx: Transaction, ix: CompiledInstruction, asset: Asset, allowed: set<Pubkey>, payer: Pubkey)
    requires KeyAt(tx, ix.program) == Some(AssociatedTokenProgram)
    requires AtaCreation(ata, tx, ix, asset, allowed, payer).Ok?
    ensures var owner := AtaCreation(ata, tx, ix, asset, allowed, payer).value;
            owner in allowed && CreatesAccountOf(tx, ix, payer, owner)
  {
  }

  lemma {:induction false} AllowedBudgetIff(ix: CompiledInstruction)
    ensures ComputeBudgetAllowed(ix) <==> ix.accounts == [] && IsBudget(ix.data)
  {
    if |ix.data| == 5 {
      WordIs(ix.data, 1);
    }
    if |ix.data| == 9 {
      LongWordIs(ix.data, 1);
    }
  }

  /**
   With a sponsoring fee payer: it is account 0, it neither funds nor authorizes any transfer, it pays only for
   token accounts of splits marked as requiring creation, every one of those is created, and every compute-budget
   instruction stays within 200,000 units and 5,000,000 micro-lamports a unit.
   */
  lemma {:induction false} SponsorIsProtected(ata: Derivation, tx: Transaction, request: ChargeRequest, details: MethodDetails)
    requires Verify(ata, tx, request, details).Ok?
    requires details.feePayer
    ensures |tx.keys| > 0 && details.feePayerKey == Some(Key(tx.keys[0]))
    ensures var t := ChargeTerms(tx, request, details).value;
            forall i :: 0 <= i < |tx.instructions| ==> NotPaidBy(ata, tx, tx.instructions[i], tx.keys[0], t.asset)
    ensures forall i :: 0 <= i < |tx.instructions| && KeyAt(tx, tx.instructions[i].program) == Some(AssociatedTokenProgram) ==>
              exists owner :: IsMarked(details, owner) && CreatesAccountOf(tx, tx.instructions[i], tx.keys[0], owner)
    ensures forall owner :: IsMarked(details, owner) ==>
              exists i :: 0 <= i < |tx.instructions| && CreatesAccountOf(tx, tx.instructions[i], tx.keys[0], owner)
    ensures forall i :: 0 <= i < |tx.instructions| && KeyAt(tx, tx.instructions[i].program) == Some(ComputeBudgetProgram) ==>
              tx.instructions[i].accounts == [] && IsBudget(tx.instructions[i].data)
  {
    var t := ChargeTerms(tx, request, details).value;
    var required := RequiredOwners(details.splits);
    assert t.feePayer == Some(tx.keys[0]) && t.policy.allowed == required == t.policy.required;
    var sponsor := tx.keys[0];
    forall i | 0 <= i < |tx.instructions|
      ensures NotPaidBy(ata, tx, tx.instructions[i], sponsor, t.asset)
    {
      AcceptedSpares(ata, tx, request, details, i);
    }
    var matched := MatchedBy(ata, tx, request, details);
    assert AllAllowed(ata, tx, matched, t.asset, required, sponsor);
    forall i | 0 <= i < |tx.instructions| && KeyAt(tx, tx.instructions[i].program) == Some(AssociatedTokenProgram)
      ensures exists owner :: IsMarked(details, owner) && CreatesAccountOf(tx, tx.instructions[i], sponsor, owner)
    {
      assert InstructionAllowed(ata, tx, i, matched, t.asset, required, sponsor);
      AllowedCreation(ata, tx, tx.instructions[i], t.asset, required, sponsor);
      OwnersAre(details, t.feePayer, AtaCreation(ata, tx, tx.instructions[i], t.asset, required, sponsor).value);
    }
    forall i | 0 <= i < |tx.instructions| && KeyAt(tx, tx.instructions[i].program) == Some(ComputeBudgetProgram)
      ensures tx.instructions[i].accounts == [] && IsBudget(tx.instructions[i].data)
    {
      assert InstructionAllowed(ata, tx, i, matched, t.asset, required, sponsor);
      AllowedBudgetIff(tx.instructions[i]);
    }
    forall owner | IsMarked(details, owner)
      ensures exists i :: 0 <= i < |tx.instructions| && CreatesAccountOf(tx, tx.instructions[i], sponsor, owner)
    {
      OwnersAre(details, t.feePayer, owner);
      assert Created(ata, tx, t.asset, required, sponsor, owner);
      var i :| 0 <= i < |tx.instructions| && CreatesFor(ata, tx, i, t.asset, required, sponsor, owner);
      AllowedCreation(ata, tx, tx.instructions[i], t.asset, required, sponsor);
    }
  }
}
