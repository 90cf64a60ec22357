/** The client's builder against the server's verifier: exactly when a built transaction is accepted. */
module ChargeAgreement {
  import opened Common
  import opened Charge
  import opened FirstFit
  import opened ChargeVerifier
  import opened ChargeGuarantees
  import B = ChargeBuilder

  // ── Compiled transactions that denote an instruction list ──

  ghost predicate Resolves(tx: Transaction, i: nat, ix: B.Instruction)
    requires i < |tx.instructions|
  {
    var c := tx.instructions[i];
    && KeyAt(tx, c.program) == Some(ix.program)
    && c.data == ix.data
    && |c.accounts| == |ix.accounts|
    && forall j :: 0 <= j < |ix.accounts| ==> KeyAt(tx, c.accounts[j]) == Some(ix.accounts[j].key)
  }

  /** What any correct message compiler produces: the payer first, no lookup tables, every index resolving. */
  ghost predicate Denotes(tx: Transaction, unsigned: B.Unsigned) {
    && tx.lookups == 0
    && |tx.keys| > 0 && tx.keys[0] == unsigned.payer
    && |tx.instructions| == |unsigned.instructions|
    && forall i :: 0 <= i < |tx.instructions| ==> Resolves(tx, i, unsigned.instructions[i])
  }

  /** The asset the server expects is the one the client pays in. */
  predicate AssetFits(c: B.Context, asset: Asset) {
    match c.token
    case None => asset.Sol?
    case Some(token) =>
      && asset.Spl? && asset.mint == token.mint && IsTokenProgram(token.program)
      && (asset.tokenProgram.Some? ==> asset.tokenProgram.value == token.program)
      && (asset.decimals.Some? ==> asset.decimals.value == token.decimals)
  }

  // ── Steps and their effects ──

  function StepEffect(step: B.Step): Option<Effect> {
    match step
    case Transfer(to, amount) => Some(Pay(to, amount))
    case Memo(memo) => Some(Note(memo))
    case _ => None
  }

  function StepEffects(steps: seq<B.Step>): seq<Option<Effect>> {
    seq(|steps|, i requires 0 <= i < |steps| => StepEffect(steps[i]))
  }

  lemma {:induction false} TransferData(amount: u64, decimals: byte)
    ensures var d := ToLE(2, 4) + ToLE(amount, 8);
            |d| == 12 && FromLE(d[0..4]) == 2 && FromLE(d[4..12]) == amount
    ensures var d := [12] + ToLE(amount, 8) + [decimals];
            |d| == 10 && d[0] == 12 && d[9] == decimals && FromLE(d[1..9]) == amount
  {
    FieldWidths();
    FieldRoundTrip(2, 4);
    FieldRoundTrip(amount, 8);
    var d := ToLE(2, 4) + ToLE(amount, 8);
    assert d[0..4] == ToLE(2, 4) && d[4..12] == ToLE(amount, 8);
    var e := [12] + ToLE(amount, 8) + [decimals];
    assert e[1..9] == ToLE(amount, 8);
  }

  lemma {:induction false} OwnerOfDerived(ata: Derivation, owner: Pubkey, program: Pubkey, mint: Pubkey)
    requires Injective(ata)
    ensures OwnerOf(ata, ata(owner, program, mint), program, mint) == Some(owner)
  {
  }

  lemma {:induction false} RenderedEffect(ata: Derivation, c: B.Context, asset: Asset, tx: Transaction, i: nat, step: B.Step)
    requires Injective(ata) && AssetFits(c, asset)
    requires i < |tx.instructions|
    requires step.Create? ==> c.token.Some?
    requires Resolves(tx, i, B.Render(ata, c, step))
    ensures EffectAt(ata, asset, tx, i) == StepEffect(step)
  {
    var ix := tx.instructions[i];
    var accounts := AccountsAt(tx, i);
    assert forall j :: 0 <= j < |ix.accounts| ==> accounts[j] == KeyAt(tx, ix.accounts[j]);
    if step.Transfer? {
      RenderedTransferEffect(ata, c, asset, tx, i, step);
    }
  }

  lemma {:induction false} RenderedTransferEffect(
    ata: Derivation, c: B.Context, asset: Asset, tx: Transaction, i: nat, step: B.Step)
    requires Injective(ata) && AssetFits(c, asset)
    requires i < |tx.instructions| && step.Transfer?
    requires Resolves(tx, i, B.Render(ata, c, step))
    ensures EffectAt(ata, asset, tx, i) == StepEffect(step)
  {
    var ix := tx.instructions[i];
    var accounts := AccountsAt(tx, i);
    assert forall j :: 0 <= j < |ix.accounts| ==> accounts[j] == KeyAt(tx, ix.accounts[j]);
    if c.token.None? {
      SolEffect(ata, step.to, step.amount, accounts);
    } else {
      SplEffect(ata, asset, c.token.value.program, c.token.value.decimals, step.to, step.amount, accounts);
    }
  }

  lemma {:induction false} SolEffect(ata: Derivation, to: Pubkey, amount: u64, accounts: seq<Option<Pubkey>>)
    requires |accounts| >= 2 && accounts[1] == Some(to)
    ensures EffectOf(ata, Sol, SystemProgram, accounts, ToLE(2, 4) + ToLE(amount, 8)) == Some(Pay(to, amount))
  {
    TransferData(amount, 0);
  }

  lemma {:induction false} SplEffect(
    ata: Derivation, asset: Asset, program: Pubkey, decimals: byte, to: Pubkey, amount: u64, accounts: seq<Option<Pubkey>>)
    requires Injective(ata) && asset.Spl? && IsTokenProgram(program)
    requires |accounts| >= 4 && accounts[1] == Some(asset.mint) && accounts[2] == Some(ata(to, program, asset.mint))
    ensures EffectOf(ata, asset, program, accounts, [12] + ToLE(amount, 8) + [decimals]) == Some(Pay(to, amount))
  {
    TransferData(amount, decimals);
    OwnerOfDerived(ata, to, program, asset.mint);
  }

  lemma {:induction false} RenderedTransferProbe(
    ata: Derivation, c: B.Context, asset: Asset, tx: Transaction, i: nat, step: B.Step,
    recipient: Pubkey, amount: nat, feePayer: Option<Pubkey>)
    requires Injective(ata) && AssetFits(c, asset)
    requires i < |tx.instructions|
    requires step.Create? ==> c.token.Some?
    requires Resolves(tx, i, B.Render(ata, c, step))
    requires feePayer != Some(c.signer)
    ensures TransferProbe(ata, tx, i, asset, recipient, amount, feePayer) ==
            if StepEffect(step) == Some(Pay(recipient, amount)) then Hit else Skip
  {
    if step.Transfer? {
      if asset.Sol? {
        RenderedSolProbe(ata, c, tx, i, step.to, step.amount, recipient, amount, feePayer);
      } else {
        RenderedSplProbe(ata, c, asset, tx, i, step.to, step.amount, recipient, amount, feePayer);
      }
    } else {
      RenderedOtherProbe(ata, c, asset, tx, i, step, recipient, amount, feePayer);
    }
  }

  lemma {:induction false} RenderedSolProbe(
    ata: Derivation, c: B.Context, tx: Transaction, i: nat, to: Pubkey, paid: u64,
    recipient: Pubkey, amount: nat, feePayer: Option<Pubkey>)
    requires c.token.None? && i < |tx.instructions| && feePayer != Some(c.signer)
    requires Resolves(tx, i, B.Render(ata, c, B.Transfer(to, paid)))
    ensures SolProbe(tx, i, recipient, amount, feePayer) == if to == recipient && paid == amount then Hit else Skip
  {
    TransferData(paid, 0);
  }

  lemma {:induction false} RenderedSplProbe(
    ata: Derivation, c: B.Context, asset: Asset, tx: Transaction, i: nat, to: Pubkey, paid: u64,
    recipient: Pubkey, amount: nat, feePayer: Option<Pubkey>)
    requires Injective(ata) && AssetFits(c, asset) && asset.Spl? && i < |tx.instructions| && feePayer != Some(c.signer)
    requires Resolves(tx, i, B.Render(ata, c, B.Transfer(to, paid)))
    ensures SplProbe(ata, tx, i, asset, recipient, amount, feePayer) == if to == recipient && paid == amount then Hit else Skip
  {
    var program, mint := c.token.value.program, asset.mint;
    TransferCheckedShape(ata, c, tx, i, to, paid);
    ShapedProbe(
      ata, tx, i, asset, program, c.token.value.decimals, c.signer, ata(c.signer, program, mint), ata(to, program, mint),
      paid, recipient, amount, feePayer);
  }

  /** A token transfer instruction of the transaction, field by field. */
  predicate IsTransferChecked(
    tx: Transaction, i: nat, program: Pubkey, mint: Pubkey, decimals: byte, authority: Pubkey, source: Pubkey, dest: Pubkey,
    paid: u64)
    requires i < |tx.instructions|
  {
    var ix := tx.instructions[i];
    && KeyAt(tx, ix.program) == Some(program)
    && |ix.data| == 10 && ix.data[0] == 12 && FromLE(ix.data[1..9]) == paid && ix.data[9] == decimals
    && |ix.accounts| == 4
    && KeyAt(tx, ix.accounts[0]) == Some(source) && KeyAt(tx, ix.accounts[1]) == Some(mint)
    && KeyAt(tx, ix.accounts[2]) == Some(dest) && KeyAt(tx, ix.accounts[3]) == Some(authority)
  }

  lemma {:induction false} TransferCheckedShape(ata: Derivation, c: B.Context, tx: Transaction, i: nat, to: Pubkey, paid: u64)
    requires c.token.Some? && i < |tx.instructions|
    requires Resolves(tx, i, B.Render(ata, c, B.Transfer(to, paid)))
    ensures var t := c.token.value;
      IsTransferChecked(tx, i, t.program, t.mint, t.decimals, c.signer,
        ata(c.signer, t.program, t.mint), ata(to, t.program, t.mint), paid)
  {
    TransferData(paid, c.token.value.decimals);
  }

  lemma {:induction false} ShapedProbe(
    ata: Derivation, tx: Transaction, i: nat, asset: Asset, program: Pubkey, decimals: byte, authority: Pubkey,
    source: Pubkey, dest: Pubkey, paid: u64, recipient: Pubkey, amount: nat, feePayer: Option<Pubkey>)
    requires i < |tx.instructions| && asset.Spl? && IsTokenProgram(program)
    requires IsTransferChecked(tx, i, program, asset.mint, decimals, authority, source, dest, paid)
    requires asset.tokenProgram.Some? ==> asset.tokenProgram.value == program
    requires asset.decimals.Some? ==> asset.decimals.value == decimals
    requires feePayer != Some(authority) && (feePayer.Some? ==> source != ata(feePayer.value, program, asset.mint))
    ensures SplProbe(ata, tx, i, asset, recipient, amount, feePayer)
      == if dest == ata(recipient, program, asset.mint) && paid == amount then Hit else Skip
  {
  }

  lemma {:induction false} RenderedOtherProbe(
    ata: Derivation, c: B.Context, asset: Asset, tx: Transaction, i: nat, step: B.Step,
    recipient: Pubkey, amount: nat, feePayer: Option<Pubkey>)
    requires AssetFits(c, asset) && i < |tx.instructions| && !step.Transfer?
    requires step.Create? ==> c.token.Some?
    requires Resolves(tx, i, B.Render(ata, c, step))
    ensures TransferProbe(ata, tx, i, asset, recipient, amount, feePayer) == Skip
  {
  }

  lemma {:induction false} RenderedMemoProbe(ata: Derivation, c: B.Context, tx: Transaction, i: nat, step: B.Step, memo: seq<byte>)
    requires c.token.Some? ==> IsTokenProgram(c.token.value.program)
    requires i < |tx.instructions|
    requires step.Create? ==> c.token.Some?
    requires Resolves(tx, i, B.Render(ata, c, step))
    ensures MemoProbe(tx, i, memo) == if StepEffect(step) == Some(Note(memo)) then Hit else Skip
  {
  }

  // ── What the planned steps offer ──

  /** No memo is present and empty. */
  predicate NoEmptyMemo(externalId: Option<seq<byte>>, splits: seq<Split>) {
    externalId != Some([]) && forall k :: 0 <= k < |splits| ==> splits[k].memo != Some([])
  }

  /** What a list of steps offers to the matcher, as a multiset of effects. */
  ghost function Offer(steps: seq<B.Step>): multiset<Effect> {
    Offered(StepEffects(steps), {})
  }

  lemma {:induction false} OfferConcat(a: seq<B.Step>, b: seq<B.Step>)
    ensures Offer(a + b) == Offer(a) + Offer(b)
  {
    StepEffectsConcat(a, b);
    OfferedConcat(StepEffects(a), StepEffects(b));
  }

  lemma {:induction false} StepEffectsConcat(a: seq<B.Step>, b: seq<B.Step>)
    ensures StepEffects(a + b) == StepEffects(a) + StepEffects(b)
  {
  }

  ghost function SplitDemand(splits: seq<Split>): multiset<Effect>
    requires WellFormedSplits(splits)
  {
    multiset(SplitPayments(splits)) + multiset(Notes(SplitMemos(splits)))
  }

  lemma {:induction false} SplitDemandSnoc(splits: seq<Split>)
    requires splits != [] && WellFormedSplits(splits)
    ensures var split := splits[|splits| - 1];
            SplitDemand(splits) == SplitDemand(splits[..|splits| - 1])
              + multiset{Pay(split.recipient.key, split.amount.value)} + multiset(Notes(NonEmptyMemo(split.memo)))
  {
    var init, split := splits[..|splits| - 1], splits[|splits| - 1];
    assert SplitPayments(splits) == SplitPayments(init) + [Pay(split.recipient.key, split.amount.value)];
    assert Notes(SplitMemos(splits)) == Notes(SplitMemos(init)) + Notes(NonEmptyMemo(split.memo));
  }

  lemma {:induction false} SplitStepsAreWellFormed(c: B.Context, splits: seq<Split>)
    requires B.SplitSteps(c, splits).Ok?
    ensures WellFormedSplits(splits)
    ensures forall k :: 0 <= k < |SplitMemos(splits)| ==> |SplitMemos(splits)[k]| <= MAX_MEMO_BYTES
  {
    if splits != [] {
      SplitStepsAreWellFormed(c, splits[..|splits| - 1]);
    }
  }

  lemma {:induction false} SplitStepsOffer(c: B.Context, splits: seq<Split>)
    requires B.SplitSteps(c, splits).Ok?
    requires NoEmptyMemo(None, splits)
    ensures WellFormedSplits(splits)
    ensures Offer(B.SplitSteps(c, splits).value) == SplitDemand(splits)
  {
    SplitStepsAreWellFormed(c, splits);
    if splits != [] {
      var init, split := splits[..|splits| - 1], splits[|splits| - 1];
      SplitStepsOffer(c, init);
      var before := B.SplitSteps(c, init).value;
      var payment, memo := B.SplitPayment(c, split), B.MemoSteps(split.memo).value;
      OfferConcat(before, payment);
      OfferConcat(before + payment, memo);
      PaymentOffers(c, split);
      MemoOffers(split.memo);
      SplitDemandSnoc(splits);
    }
  }

  lemma {:induction false} PaymentOffers(c: B.Context, split: Split)
    requires split.recipient.Key? && split.amount.Some?
    ensures Offer(B.SplitPayment(c, split)) == multiset{Pay(split.recipient.key, split.amount.value)}
  {
    var payment := B.SplitPayment(c, split);
    var effects := StepEffects(payment);
    OfferedOne(Some(Pay(split.recipient.key, split.amount.value)));
    if |payment| == 2 {
      assert effects == [None] + [Some(Pay(split.recipient.key, split.amount.value))];
      OfferedConcat([None], [Some(Pay(split.recipient.key, split.amount.value))]);
      OfferedOne<Effect>(None);
    } else {
      assert effects == [Some(Pay(split.recipient.key, split.amount.value))];
    }
  }

  lemma {:induction false} OfferedOne<K>(key: Option<K>)
    ensures Offered([key], {}) == if key.Some? then multiset{key.value} else multiset{}
  {
    assert [key][..0] == [];
    assert Offered([key][..0], {}) == multiset{};
  }

  lemma {:induction false} MemoOffers(memo: Option<seq<byte>>)
    requires memo != Some([]) && B.MemoSteps(memo).Ok?
    ensures Offer(B.MemoSteps(memo).value) == multiset(Notes(NonEmptyMemo(memo)))
  {
    if memo.Some? {
      assert StepEffects(B.MemoSteps(memo).value) == [Some(Note(memo.value))];
      OfferedOne(Some(Note(memo.value)));
      assert Notes(NonEmptyMemo(memo)) == [Note(memo.value)];
    }
  }

  lemma {:induction false} DemandedMultiset(recipient: Pubkey, primary: nat, externalId: Option<seq<byte>>, splits: seq<Split>)
    requires WellFormedSplits(splits)
    ensures multiset(Demanded(recipient, primary, externalId, splits)) ==
            multiset{Pay(recipient, primary)} + multiset(Notes(NonEmptyMemo(externalId))) + SplitDemand(splits)
  {
    var pay, payments := [Pay(recipient, primary)], SplitPayments(splits);
    NotesConcat(NonEmptyMemo(externalId), SplitMemos(splits));
    MultisetSum(pay, payments, Notes(NonEmptyMemo(externalId)), Notes(SplitMemos(splits)));
  }

  lemma {:induction false} NotesConcat(a: seq<seq<byte>>, b: seq<seq<byte>>)
    ensures Notes(a + b) == Notes(a) + Notes(b)
  {
  }

  lemma {:induction false} MultisetSum<T>(a: seq<T>, b: seq<T>, c: seq<T>, d: seq<T>)
    ensures multiset(a + b + (c + d)) == multiset(a) + multiset(c) + (multiset(b) + multiset(d))
  {
  }

  lemma {:induction false} AllStepsOffer(c: B.Context, recipient: Pubkey, primary: u64, externalId: Option<seq<byte>>, splits: seq<Split>)
    requires B.AllSteps(c, recipient, primary, externalId, splits).Ok?
    requires NoEmptyMemo(externalId, splits)
    ensures WellFormedSplits(splits)
    ensures Offer(B.AllSteps(c, recipient, primary, externalId, splits).value) ==
            multiset(Demanded(recipient, primary, externalId, splits))
  {
    SplitStepsOffer(c, splits);
    MemoOffers(externalId);
    var head := [B.UnitPrice, B.UnitLimit, B.Transfer(recipient, primary)];
    var memo := B.MemoSteps(externalId).value;
    OfferConcat(head, memo);
    OfferConcat(head + memo, B.SplitSteps(c, splits).value);
    HeadOffers(recipient, primary);
    DemandedMultiset(recipient, primary, externalId, splits);
  }

  lemma {:induction false} HeadOffers(recipient: Pubkey, primary: u64)
    ensures Offer([B.UnitPrice, B.UnitLimit, B.Transfer(recipient, primary)]) == multiset{Pay(recipient, primary)}
  {
    var budget, pay := [B.UnitPrice, B.UnitLimit], [B.Transfer(recipient, primary)];
    assert [B.UnitPrice, B.UnitLimit, B.Transfer(recipient, primary)] == budget + pay;
    OfferConcat(budget, pay);
    OfferedNothing(StepEffects(budget), {});
    assert StepEffects(pay) == [Some(Pay(recipient, primary))];
    OfferedOne(Some(Pay(recipient, primary)));
  }

  // ── The server reads the same terms ──

  /** The server demands a key whenever sponsorship is switched on; the client only uses one when present. */
  predicate SponsorKeyPresent(details: MethodDetails) {
    details.feePayer ==> details.feePayerKey.Some?
  }

  lemma {:induction false} RequiredOwnersIff(splits: seq<Split>)
    requires RecipientsParse(splits)
    ensures RequiredOwners(splits) != {} <==> RequiresAtaCreation(splits)
  {
    if RequiresAtaCreation(splits) {
      var k :| 0 <= k < |splits| && splits[k].ataCreationRequired;
      assert splits[k].recipient.key in RequiredOwners(splits);
    }
  }

  lemma {:induction false} SameTerms(tx: Transaction, signer: Pubkey, request: ChargeRequest, details: MethodDetails, mintOwner: Option<Pubkey>)
    requires B.PaymentOf(signer, request, details, mintOwner).Ok?
    requires RecipientsParse(details.splits)
    requires tx.lookups == 0 && |tx.keys| > 0
    requires tx.keys[0] == B.PaymentOf(signer, request, details, mintOwner).value.context.payer
    ensures SponsorKeyPresent(details) <==> ChargeTerms(tx, request, details).Ok?
    ensures SponsorKeyPresent(details) ==>
              var p := B.PaymentOf(signer, request, details, mintOwner).value;
              var t := ChargeTerms(tx, request, details).value;
              && t.recipient == p.recipient && t.primary == p.primary
              && AssetFits(p.context, t.asset)
              && t.feePayer == (if details.feePayer then Some(p.context.payer) else None)
              && p.context.sponsored == details.feePayer
              && (!details.feePayer ==> p.context.payer == signer)
              && p.context.signer == signer
              && t.policy == PolicyFor(details.splits, t.feePayer)
              && (p.context.token.None? ==> RequiredOwners(details.splits) == {})
  {
    RequiredOwnersIff(details.splits);
  }

  // ── First-fit succeeds on a built transaction ──

  ghost predicate Rendered(ata: Derivation, c: B.Context, tx: Transaction, steps: seq<B.Step>) {
    && B.Renderable(c, steps)
    && |tx.instructions| == |steps|
    && forall i :: 0 <= i < |steps| ==> Resolves(tx, i, B.Render(ata, c, steps[i]))
  }

  lemma {:induction false} RenderedEffects(ata: Derivation, c: B.Context, asset: Asset, tx: Transaction, steps: seq<B.Step>)
    requires Injective(ata) && AssetFits(c, asset) && Rendered(ata, c, tx, steps)
    ensures Effects(ata, asset, tx) == StepEffects(steps)
  {
    forall i | 0 <= i < |steps| ensures Effects(ata, asset, tx)[i] == StepEffects(steps)[i] {
      RenderedEffect(ata, c, asset, tx, i, steps[i]);
    }
  }

  lemma {:induction false} RenderedRowsAnswer(
    ata: Derivation, c: B.Context, tx: Transaction, steps: seq<B.Step>, asset: Asset, recipient: Pubkey, primary: nat,
    externalId: Option<seq<byte>>, splits: seq<Split>, feePayer: Option<Pubkey>)
    requires Injective(ata) && AssetFits(c, asset) && Rendered(ata, c, tx, steps)
    requires feePayer != Some(c.signer)
    requires WellFormedSplits(splits)
    requires forall k :: 0 <= k < |ExpectedMemos(externalId, splits)| ==> |ExpectedMemos(externalId, splits)[k]| <= MAX_MEMO_BYTES
    ensures AnswersByOffer(AllRows(ata, tx, asset, recipient, primary, externalId, splits, feePayer),
                           Demanded(recipient, primary, externalId, splits), StepEffects(steps), {})
  {
    var rows := AllRows(ata, tx, asset, recipient, primary, externalId, splits, feePayer);
    var wants := Demanded(recipient, primary, externalId, splits);
    var keys := StepEffects(steps);
    var memos := ExpectedMemos(externalId, splits);
    forall k | 0 <= k < |rows| ensures RowByOffer(rows[k], wants[k], keys, {}) {
      if k <= |splits| {
        TransferRowAt(ata, tx, asset, recipient, primary, externalId, splits, feePayer, k);
        var to := if k == 0 then recipient else splits[k - 1].recipient.key;
        var amount := if k == 0 then primary else splits[k - 1].amount.value;
        TransferRowAnswers(ata, c, tx, steps, asset, to, amount, feePayer);
      } else {
        MemoRowAt(ata, tx, asset, recipient, primary, externalId, splits, feePayer, k);
        MemoRowAnswers(ata, c, tx, steps, asset, memos[k - 1 - |splits|]);
      }
    }
  }

  lemma {:induction false} TransferRowAnswers(
    ata: Derivation, c: B.Context, tx: Transaction, steps: seq<B.Step>, asset: Asset, to: Pubkey, amount: nat,
    feePayer: Option<Pubkey>)
    requires Injective(ata) && AssetFits(c, asset) && Rendered(ata, c, tx, steps)
    requires feePayer != Some(c.signer)
    ensures RowByOffer(TransferRow(ata, tx, asset, to, Some(amount), feePayer), Pay(to, amount), StepEffects(steps), {})
  {
    var row, keys := TransferRow(ata, tx, asset, to, Some(amount), feePayer), StepEffects(steps);
    forall i | 0 <= i < |keys| ensures row.probes.value[i] == if keys[i] == Some(Pay(to, amount)) then Hit else Skip {
      RenderedTransferProbe(ata, c, asset, tx, i, steps[i], to, amount, feePayer);
    }
  }

  lemma {:induction false} MemoRowAnswers(
    ata: Derivation, c: B.Context, tx: Transaction, steps: seq<B.Step>, asset: Asset, memo: seq<byte>)
    requires AssetFits(c, asset) && Rendered(ata, c, tx, steps) && |memo| <= MAX_MEMO_BYTES
    ensures RowByOffer(MemoRow(tx, memo), Note(memo), StepEffects(steps), {})
  {
    var row, keys := MemoRow(tx, memo), StepEffects(steps);
    forall i | 0 <= i < |keys| ensures row.probes.value[i] == if keys[i] == Some(Note(memo)) then Hit else Skip {
      RenderedMemoProbe(ata, c, tx, i, steps[i], memo);
    }
  }

  lemma {:induction false} RenderedMatches(
    ata: Derivation, c: B.Context, tx: Transaction, steps: seq<B.Step>, asset: Asset, recipient: Pubkey, primary: u64,
    externalId: Option<seq<byte>>, splits: seq<Split>, feePayer: Option<Pubkey>)
    requires Injective(ata) && AssetFits(c, asset)
    requires B.AllSteps(c, recipient, primary, externalId, splits) == Ok(steps)
    requires Rendered(ata, c, tx, steps)
    requires feePayer != Some(c.signer)
    requires NoEmptyMemo(externalId, splits)
    ensures WellFormedSplits(splits)
    ensures var m := MatchAll(AllRows(ata, tx, asset, recipient, primary, externalId, splits, feePayer), {});
            m.Ok? && forall i :: 0 <= i < |steps| && StepEffect(steps[i]).Some? ==> i in m.value
  {
    AllStepsOffer(c, recipient, primary, externalId, splits);
    SplitStepsAreWellFormed(c, splits);
    MemoLengths(c, recipient, primary, externalId, splits);
    RenderedRowsAnswer(ata, c, tx, steps, asset, recipient, primary, externalId, splits, feePayer);
    StepsMatch(AllRows(ata, tx, asset, recipient, primary, externalId, splits, feePayer),
      Demanded(recipient, primary, externalId, splits), steps);
  }

  lemma {:induction false} MemoLengths(c: B.Context, recipient: Pubkey, primary: u64, externalId: Option<seq<byte>>, splits: seq<Split>)
    requires B.AllSteps(c, recipient, primary, externalId, splits).Ok?
    ensures var memos := ExpectedMemos(externalId, splits); forall k :: 0 <= k < |memos| ==> |memos[k]| <= MAX_MEMO_BYTES
  {
    SplitStepsAreWellFormed(c, splits);
  }

  lemma {:induction false} StepsMatch<E>(rows: seq<Row<E>>, wants: seq<Effect>, steps: seq<B.Step>)
    requires AnswersByOffer(rows, wants, StepEffects(steps), {})
    requires Offer(steps) == multiset(wants)
    ensures MatchAll(rows, {}).Ok?
    ensures forall i :: 0 <= i < |steps| && StepEffect(steps[i]).Some? ==> i in MatchAll(rows, {}).value
  {
    var keys := StepEffects(steps);
    MatchesEverything(rows, wants, keys);
    forall i | 0 <= i < |steps| && StepEffect(steps[i]).Some? ensures i in MatchAll(rows, {}).value {
      assert keys[i].Some?;
    }
  }

  // ── The allowlist admits every built instruction ──

  lemma {:induction false} RenderedBudget(ix: CompiledInstruction, step: B.Step)
    requires step.UnitPrice? || step.UnitLimit?
    requires ix.accounts == []
    requires ix.data == if step.UnitPrice? then [3] + ToLE(1, 8) else [2] + ToLE(200_000, 4)
    ensures ComputeBudgetAllowed(ix)
  {
    BudgetFields();
    if step.UnitPrice? {
      assert ix.data[1..9] == ToLE(1, 8);
    } else {
      assert ix.data[1..5] == ToLE(200_000, 4);
    }
  }

  lemma {:induction false} BudgetFields()
    ensures FromLE(ToLE(1, 8)) == 1 && FromLE(ToLE(200_000, 4)) == 200_000
  {
    FieldWidths();
    FieldRoundTrip(1, 8);
    FieldRoundTrip(200_000, 4);
  }

  lemma {:induction false} RenderedAllowed(
    ata: Derivation, c: B.Context, tx: Transaction, i: nat, step: B.Step, matched: set<nat>, asset: Asset, allowed: set<Pubkey>)
    requires AssetFits(c, asset)
    requires i < |tx.instructions|
    requires step.Create? ==> c.token.Some? && step.owner in allowed
    requires Resolves(tx, i, B.Render(ata, c, step))
    requires StepEffect(step).Some? ==> i in matched
    ensures InstructionAllowed(ata, tx, i, matched, asset, allowed, c.payer)
    ensures step.Create? ==> CreatesFor(ata, tx, i, asset, allowed, c.payer, step.owner)
  {
    if step.UnitPrice? || step.UnitLimit? {
      RenderedBudget(tx.instructions[i], step);
    }
  }

  /** Token accounts are created for split recipients only: all of them, or the marked ones when sponsored. */
  lemma {:induction false} PlannedCreations(c: B.Context, splits: seq<Split>, feePayer: Option<Pubkey>)
    requires B.SplitSteps(c, splits).Ok?
    requires c.sponsored == feePayer.Some?
    ensures RecipientsParse(splits)
    ensures forall i :: 0 <= i < |B.SplitSteps(c, splits).value| && B.SplitSteps(c, splits).value[i].Create? ==>
              B.SplitSteps(c, splits).value[i].owner in PolicyFor(splits, feePayer).allowed
    ensures c.token.Some? ==> forall owner :: owner in RequiredOwners(splits) ==>
              B.Create(owner) in B.SplitSteps(c, splits).value
  {
    if splits != [] {
      var init, split := splits[..|splits| - 1], splits[|splits| - 1];
      PlannedCreations(c, init, feePayer);
      var before := B.SplitSteps(c, init).value;
      var payment, memo := B.SplitPayment(c, split), B.MemoSteps(split.memo).value;
      var steps := B.SplitSteps(c, splits).value;
      assert steps == before + payment + memo;
      PolicyGrows(splits, feePayer);
      forall i | 0 <= i < |steps| && steps[i].Create? ensures steps[i].owner in PolicyFor(splits, feePayer).allowed {
        if i >= |before| {
          assert i < |before| + |payment|;
          assert payment[i - |before|] == B.Create(split.recipient.key);
        }
      }
      if c.token.Some? {
        forall owner | owner in RequiredOwners(splits) ensures B.Create(owner) in steps {
          if owner !in RequiredOwners(init) {
            assert payment[0] == B.Create(owner);
            assert steps[|before|] == B.Create(owner);
          }
        }
      }
    }
  }

  lemma {:induction false} PolicyGrows(splits: seq<Split>, feePayer: Option<Pubkey>)
    requires splits != [] && splits[|splits| - 1].recipient.Key?
    ensures var init, split := splits[..|splits| - 1], splits[|splits| - 1];
            && PolicyFor(init, feePayer).allowed <= PolicyFor(splits, feePayer).allowed
            && (feePayer.None? || split.ataCreationRequired ==> split.recipient.key in PolicyFor(splits, feePayer).allowed)
            && RequiredOwners(splits) == RequiredOwners(init) + if split.ataCreationRequired then {split.recipient.key} else {}
  {
    var init, split := splits[..|splits| - 1], splits[|splits| - 1];
    var last := |splits| - 1;
    assert splits[last] == split;
    forall owner | owner in RequiredOwners(splits)
      ensures owner in RequiredOwners(init) || (split.ataCreationRequired && owner == split.recipient.key)
    {
      var k :| 0 <= k < |splits| && splits[k].recipient.Key? && splits[k].ataCreationRequired && splits[k].recipient.key == owner;
      if k < last { assert init[k] == splits[k]; }
    }
  }

  lemma {:induction false} RenderedAllowlist(
    ata: Derivation, c: B.Context, tx: Transaction, steps: seq<B.Step>, asset: Asset, recipient: Pubkey, primary: u64,
    externalId: Option<seq<byte>>, splits: seq<Split>, feePayer: Option<Pubkey>, matched: set<nat>)
    requires AssetFits(c, asset)
    requires B.AllSteps(c, recipient, primary, externalId, splits) == Ok(steps)
    requires Rendered(ata, c, tx, steps)
    requires |tx.keys| > 0 && tx.keys[0] == c.payer
    requires c.sponsored == feePayer.Some? && (feePayer.Some? ==> feePayer.value == c.payer)
    requires c.token.None? ==> RequiredOwners(splits) == {}
    requires forall i :: 0 <= i < |steps| && StepEffect(steps[i]).Some? ==> i in matched
    ensures AllowlistHolds(ata, tx, matched, asset, PolicyFor(splits, feePayer), feePayer)
  {
    var policy := PolicyFor(splits, feePayer);
    PlannedOwners(c, steps, recipient, primary, externalId, splits, feePayer);
    RenderedAllAllowed(ata, c, tx, steps, matched, asset, policy.allowed);
    forall owner | owner in policy.required ensures Created(ata, tx, asset, policy.allowed, c.payer, owner) {
      var j :| 0 <= j < |steps| && steps[j] == B.Create(owner);
      assert CreatesFor(ata, tx, j, asset, policy.allowed, c.payer, owner);
    }
  }

  /** Among all planned steps, accounts are created for allowed owners only, and for every required one. */
  lemma {:induction false} PlannedOwners(
    c: B.Context, steps: seq<B.Step>, recipient: Pubkey, primary: u64, externalId: Option<seq<byte>>, splits: seq<Split>,
    feePayer: Option<Pubkey>)
    requires B.AllSteps(c, recipient, primary, externalId, splits) == Ok(steps) && B.Renderable(c, steps)
    requires c.sponsored == feePayer.Some?
    requires c.token.None? ==> RequiredOwners(splits) == {}
    ensures RecipientsParse(splits)
    ensures forall i :: 0 <= i < |steps| && steps[i].Create? ==>
              c.token.Some? && steps[i].owner in PolicyFor(splits, feePayer).allowed
    ensures forall owner :: owner in PolicyFor(splits, feePayer).required ==> B.Create(owner) in steps
  {
    PlannedCreations(c, splits, feePayer);
    var head := [B.UnitPrice, B.UnitLimit, B.Transfer(recipient, primary)] + B.MemoSteps(externalId).value;
    var rest := B.SplitSteps(c, splits).value;
    assert steps == head + rest;
    forall i | 0 <= i < |steps| && steps[i].Create?
      ensures c.token.Some? && steps[i].owner in PolicyFor(splits, feePayer).allowed
    {
      assert i >= |head| && steps[i] == rest[i - |head|];
    }
  }

  lemma {:induction false} RenderedAllAllowed(
    ata: Derivation, c: B.Context, tx: Transaction, steps: seq<B.Step>, matched: set<nat>, asset: Asset, allowed: set<Pubkey>)
    requires AssetFits(c, asset) && Rendered(ata, c, tx, steps)
    requires forall i :: 0 <= i < |steps| && steps[i].Create? ==> c.token.Some? && steps[i].owner in allowed
    requires forall i :: 0 <= i < |steps| && StepEffect(steps[i]).Some? ==> i in matched
    ensures AllAllowed(ata, tx, matched, asset, allowed, c.payer)
    ensures forall i :: 0 <= i < |steps| && steps[i].Create? ==>
              CreatesFor(ata, tx, i, asset, allowed, c.payer, steps[i].owner)
  {
    forall i | 0 <= i < |steps|
      ensures InstructionAllowed(ata, tx, i, matched, asset, allowed, c.payer)
      ensures steps[i].Create? ==> CreatesFor(ata, tx, i, asset, allowed, c.payer, steps[i].owner)
    {
      RenderedAllowed(ata, c, tx, i, steps[i], matched, asset, allowed);
    }
  }

  // ── The agreement theorem ──

  /** What a caller can check before building: sponsorship comes with a key that is not the signer's own, and no
      memo is present and empty. */
  predicate ServerWillAccept(signer: Pubkey, request: ChargeRequest, details: MethodDetails) {
    && SponsorKeyPresent(details)
    && (details.feePayer ==> details.feePayerKey != Some(Key(signer)))
    && NoEmptyMemo(request.externalId, details.splits)
  }

  lemma {:induction false} BuiltIsRendered(
    ata: Derivation, tx: Transaction, signer: Pubkey, request: ChargeRequest, details: MethodDetails, mintOwner: Option<Pubkey>)
    requires B.Build(ata, signer, request, details, mintOwner).Ok?
    requires Denotes(tx, B.Build(ata, signer, request, details, mintOwner).value)
    ensures var p := B.PaymentOf(signer, request, details, mintOwner).value;
            && Rendered(ata, p.context, tx, B.AllSteps(p.context, p.recipient, p.primary, request.externalId, details.splits).value)
            && tx.keys[0] == p.context.payer
    ensures RecipientsParse(details.splits)
  {
    var p := B.PaymentOf(signer, request, details, mintOwner).value;
    SplitStepsAreWellFormed(p.context, details.splits);
    var steps := B.AllSteps(p.context, p.recipient, p.primary, request.externalId, details.splits).value;
    var instructions := B.Build(ata, signer, request, details, mintOwner).value.instructions;
    forall i | 0 <= i < |steps| ensures Resolves(tx, i, B.Render(ata, p.context, steps[i])) {
      assert Resolves(tx, i, instructions[i]);
    }
  }

  lemma {:induction false} BuiltIsAccepted(
    ata: Derivation, tx: Transaction, signer: Pubkey, request: ChargeRequest, details: MethodDetails, mintOwner: Option<Pubkey>)
    requires Injective(ata)
    requires B.Build(ata, signer, request, details, mintOwner).Ok?
    requires Denotes(tx, B.Build(ata, signer, request, details, mintOwner).value)
    requires ServerWillAccept(signer, request, details)
    ensures Verify(ata, tx, request, details).Ok?
  {
    BuiltIsRendered(ata, tx, signer, request, details, mintOwner);
    SameTerms(tx, signer, request, details, mintOwner);
    var p := B.PaymentOf(signer, request, details, mintOwner).value;
    var t := ChargeTerms(tx, request, details).value;
    var steps := B.AllSteps(p.context, p.recipient, p.primary, request.externalId, details.splits).value;
    RenderedMatches(ata, p.context, tx, steps, t.asset, t.recipient, t.primary, request.externalId, details.splits, t.feePayer);
    var matched := MatchAll(AllRows(ata, tx, t.asset, t.recipient, t.primary, request.externalId, details.splits, t.feePayer), {}).value;
    RenderedAllowlist(ata, p.context, tx, steps, t.asset, t.recipient, t.primary, request.externalId, details.splits, t.feePayer, matched);
  }

  lemma {:induction false} AcceptedWasAcceptable(
    ata: Derivation, tx: Transaction, signer: Pubkey, request: ChargeRequest, details: MethodDetails, mintOwner: Option<Pubkey>)
    requires Injective(ata)
    requires B.Build(ata, signer, request, details, mintOwner).Ok?
    requires Denotes(tx, B.Build(ata, signer, request, details, mintOwner).value)
    requires Verify(ata, tx, request, details).Ok?
    ensures ServerWillAccept(signer, request, details)
  {
    BuiltIsRendered(ata, tx, signer, request, details, mintOwner);
    SameTerms(tx, signer, request, details, mintOwner);
    var p := B.PaymentOf(signer, request, details, mintOwner).value;
    var t := ChargeTerms(tx, request, details).value;
    var steps := B.AllSteps(p.context, p.recipient, p.primary, request.externalId, details.splits).value;
    if details.feePayer {
      assert steps[2] == B.Transfer(p.recipient, p.primary);
      AcceptedSpares(ata, tx, request, details, 2);
      TransferIsFromSigner(ata, p.context, t.asset, tx, 2, p.recipient, p.primary);
    }
    AcceptedHasNoEmptyMemo(ata, tx, p.context, steps, request, details, t);
    EmptyMemoIsOffered(p.context, p.recipient, p.primary, request.externalId, details.splits);
  }

  lemma {:induction false} TransferIsFromSigner(
    ata: Derivation, c: B.Context, asset: Asset, tx: Transaction, i: nat, to: Pubkey, amount: u64)
    requires AssetFits(c, asset)
    requires i < |tx.instructions| && Resolves(tx, i, B.Render(ata, c, B.Transfer(to, amount)))
    ensures !NotPaidBy(ata, tx, tx.instructions[i], c.signer, asset)
  {
  }

  lemma {:induction false} AcceptedHasNoEmptyMemo(
    ata: Derivation, tx: Transaction, c: B.Context, steps: seq<B.Step>, request: ChargeRequest, details: MethodDetails, t: Terms)
    requires Injective(ata)
    requires Verify(ata, tx, request, details).Ok? && ChargeTerms(tx, request, details) == Ok(t)
    requires AssetFits(c, t.asset) && Rendered(ata, c, tx, steps)
    ensures Note([]) !in Offer(steps)
  {
    AcceptedExactly(ata, tx, request, details);
    RenderedEffects(ata, c, t.asset, tx, steps);
    OfferedIsPresent(StepEffects(steps));
    DemandedNotesAreNonEmpty(t.recipient, t.primary, request.externalId, details.splits);
  }

  lemma {:induction false} SplitMemosAreNonEmpty(splits: seq<Split>)
    ensures [] !in SplitMemos(splits)
  {
    if splits != [] { SplitMemosAreNonEmpty(splits[..|splits| - 1]); }
  }

  lemma {:induction false} DemandedNotesAreNonEmpty(recipient: Pubkey, primary: nat, externalId: Option<seq<byte>>, splits: seq<Split>)
    requires WellFormedSplits(splits)
    ensures Note([]) !in multiset(Demanded(recipient, primary, externalId, splits))
  {
    SplitMemosAreNonEmpty(splits);
    NotInConcat([], NonEmptyMemo(externalId), SplitMemos(splits));
    NotesAreNonEmpty(ExpectedMemos(externalId, splits));
    PaymentsAreNoNotes(splits);
    NotInConcat(Note([]), [Pay(recipient, primary)], SplitPayments(splits));
    NotInConcat(Note([]), [Pay(recipient, primary)] + SplitPayments(splits), Notes(ExpectedMemos(externalId, splits)));
  }

  lemma {:induction false} NotInConcat<T>(x: T, a: seq<T>, b: seq<T>)
    requires x !in a && x !in b
    ensures x !in a + b && x !in multiset(a + b)
  {
  }

  lemma {:induction false} NotesAreNonEmpty(memos: seq<seq<byte>>)
    requires [] !in memos
    ensures Note([]) !in Notes(memos)
  {
    var notes := Notes(memos);
    forall i | 0 <= i < |notes| ensures notes[i] != Note([]) {
      assert notes[i] == Note(memos[i]);
    }
  }

  lemma {:induction false} PaymentsAreNoNotes(splits: seq<Split>)
    requires WellFormedSplits(splits)
    ensures Note([]) !in SplitPayments(splits)
  {
  }

  lemma {:induction false} EmptyMemoIsPlanned(c: B.Context, splits: seq<Split>)
    requires B.SplitSteps(c, splits).Ok? && !NoEmptyMemo(None, splits)
    ensures B.Memo([]) in B.SplitSteps(c, splits).value
  {
    var last := |splits| - 1;
    var init := splits[..last];
    if splits[last].memo == Some([]) {
      assert B.Memo([]) in B.MemoSteps(splits[last].memo).value;
    } else {
      var k :| 0 <= k < |splits| && splits[k].memo == Some([]);
      assert init[k] == splits[k];
      EmptyMemoIsPlanned(c, init);
    }
  }

  lemma {:induction false} EmptyMemoIsOffered(c: B.Context, recipient: Pubkey, primary: u64, externalId: Option<seq<byte>>, splits: seq<Split>)
    requires B.AllSteps(c, recipient, primary, externalId, splits).Ok?
    ensures !NoEmptyMemo(externalId, splits) ==> Note([]) in Offer(B.AllSteps(c, recipient, primary, externalId, splits).value)
  {
    if !NoEmptyMemo(externalId, splits) {
      var steps := B.AllSteps(c, recipient, primary, externalId, splits).value;
      if externalId == Some([]) {
        assert B.Memo([]) in B.MemoSteps(externalId).value;
      } else {
        EmptyMemoIsPlanned(c, splits);
      }
      assert B.Memo([]) in steps;
      var i :| 0 <= i < |steps| && steps[i] == B.Memo([]);
      OfferedTake(StepEffects(steps), {}, i);
    }
  }

  /**
   For every request, split list, memo set and sponsor setting: when the client builds a transaction, the server
   accepts it if and only if sponsorship comes with a key other than the signer's and no memo is present but empty.
   */
  lemma {:induction false} BuiltIsAcceptedIff(
    ata: Derivation, tx: Transaction, signer: Pubkey, request: ChargeRequest, details: MethodDetails, mintOwner: Option<Pubkey>)
    requires Injective(ata)
    requires B.Build(ata, signer, request, details, mintOwner).Ok?
    requires Denotes(tx, B.Build(ata, signer, request, details, mintOwner).value)
    ensures Verify(ata, tx, request, details).Ok? <==> ServerWillAccept(signer, request, details)
  {
    if ServerWillAccept(signer, request, details) {
      BuiltIsAccepted(ata, tx, signer, request, details, mintOwner);
    } else if Verify(ata, tx, request, details).Ok? {
      AcceptedWasAcceptable(ata, tx, signer, request, details, mintOwner);
    }
  }
}
