/** Exactly which transactions the server's check accepts, stated on the challenge and the bytes of the transaction. */
module ChargeAcceptance {
  import opened Common
  import opened Charge
  import opened FirstFit
  import opened Choice
  import opened ChargeMeaning
  import opened ChargeVerifier
  import opened ChargeGuarantees

  // ── Single instructions ──

  function Program(tx: Transaction, ix: CompiledInstruction): Option<Pubkey> {
    if ix.program < |tx.keys| then Some(tx.keys[ix.program]) else None
  }

  /** The address in the given account position, if the instruction has one there that resolves. */
  function Account(tx: Transaction, ix: CompiledInstruction, j: nat): Option<Pubkey> {
    if j < |ix.accounts| && ix.accounts[j] < |tx.keys| then Some(tx.keys[ix.accounts[j]]) else None
  }

  predicate SetsBudget(tx: Transaction, ix: CompiledInstruction) {
    Program(tx, ix) == Some(ComputeBudgetProgram) && ix.accounts == [] && IsBudget(ix.data)
  }

  predicate IsMint(currency: Currency, mint: Pubkey) {
    currency == Symbol(mint) || currency == Mint(Key(mint))
  }

  predicate IsNamedProgram(details: MethodDetails, program: Pubkey) {
    && (program == TokenProgram || program == Token2022Program)
    && (details.tokenProgram.Some? ==> details.tokenProgram == Some(Key(program)))
  }

  /** A System transfer to `to` that account 0 does not fund when it sponsors the transaction. */
  predicate PaysSol(tx: Transaction, ix: CompiledInstruction, sponsored: bool, to: Pubkey, amount: nat) {
    && Program(tx, ix) == Some(SystemProgram)
    && |ix.data| >= 12 && Word(ix.data, 0) == 2 && LongWord(ix.data, 4) == amount
    && Account(tx, ix, 0).Some? && Account(tx, ix, 1) == Some(to)
    && (sponsored ==> |tx.keys| > 0 && Account(tx, ix, 0) != Some(tx.keys[0]))
  }

  /** A checked token transfer to the token account of `to` that a sponsor neither authorizes nor funds. */
  predicate PaysToken(
    ata: Derivation, tx: Transaction, ix: CompiledInstruction, details: MethodDetails, mint: Pubkey, to: Pubkey, amount: nat)
  {
    && Program(tx, ix).Some? && IsNamedProgram(details, Program(tx, ix).value)
    && |ix.data| >= 10 && ix.data[0] == 12 && LongWord(ix.data, 1) == amount
    && (details.decimals.Some? ==> ix.data[9] == details.decimals.value)
    && Account(tx, ix, 0).Some? && Account(tx, ix, 1) == Some(mint)
    && Account(tx, ix, 2) == Some(ata(to, Program(tx, ix).value, mint)) && Account(tx, ix, 3).Some?
    && (details.feePayer ==>
          && |tx.keys| > 0
          && Account(tx, ix, 3) != Some(tx.keys[0])
          && Account(tx, ix, 0) != Some(ata(tx.keys[0], Program(tx, ix).value, mint)))
  }

  predicate Writes(tx: Transaction, ix: CompiledInstruction, memo: seq<byte>) {
    Program(tx, ix) == Some(MemoProgram) && ix.data == memo
  }

  /** The instruction is the payment or the memo that is asked for. */
  predicate Meets(
    ata: Derivation, tx: Transaction, request: ChargeRequest, details: MethodDetails, ix: CompiledInstruction, e: Effect)
  {
    match e
    case Note(memo) => Writes(tx, ix, memo)
    case Pay(to, amount) =>
      match request.currency
      case Native => PaysSol(tx, ix, details.feePayer, to, amount)
      case Symbol(mint) => PaysToken(ata, tx, ix, details, mint, to, amount)
      case Mint(text) => text.Key? && PaysToken(ata, tx, ix, details, text.key, to, amount)
  }

  /** An idempotent creation of the token account of `owner` for the charged mint, paid by account 0. */
  predicate Creates(
    ata: Derivation, tx: Transaction, request: ChargeRequest, details: MethodDetails, ix: CompiledInstruction, owner: Pubkey)
  {
    && Program(tx, ix) == Some(AssociatedTokenProgram)
    && ix.data == [1] && |ix.accounts| == 6
    && |tx.keys| > 0 && Account(tx, ix, 0) == Some(tx.keys[0])
    && Account(tx, ix, 2) == Some(owner)
    && Account(tx, ix, 3).Some? && IsMint(request.currency, Account(tx, ix, 3).value)
    && Account(tx, ix, 4) == Some(SystemProgram)
    && Account(tx, ix, 5).Some? && IsNamedProgram(details, Account(tx, ix, 5).value)
    && Account(tx, ix, 1) == Some(ata(owner, Account(tx, ix, 5).value, Account(tx, ix, 3).value))
    && MayCreate(details, details.feePayer, owner)
  }

  // ── Whole transactions ──

  /** The challenge can be paid in its currency: accounts are created for tokens named by their mint only. */
  predicate IsCharge(request: ChargeRequest, details: MethodDetails) {
    && IsPayable(request, details) && |details.splits| <= 8
    && match request.currency
       case Native => NothingMarked(details)
       case Symbol(_) => NothingMarked(details) && NamesTokenProgram(details)
       case Mint(text) => text.Key? && NamesTokenProgram(details)
  }

  predicate NamesTokenProgram(details: MethodDetails) {
    details.tokenProgram in {None, Some(Key(TokenProgram)), Some(Key(Token2022Program))}
  }

  /** The transaction has its accounts in place, and its first one is the sponsor if there is one. */
  predicate IsSponsoredRightly(tx: Transaction, details: MethodDetails) {
    tx.lookups == 0 && |tx.keys| > 0 && (details.feePayer ==> details.feePayerKey == Some(Key(tx.keys[0])))
  }

  /** Every demanded payment and memo has an instruction of its own. */
  predicate Settles(
    ata: Derivation, tx: Transaction, request: ChargeRequest, details: MethodDetails, chosen: seq<nat>)
    requires IsPayable(request, details)
  {
    var wants := Demands(request, details);
    && |chosen| == |wants| && AreDistinct(chosen)
    && forall k :: 0 <= k < |chosen| ==>
         chosen[k] < |tx.instructions| && Meets(ata, tx, request, details, tx.instructions[chosen[k]], wants[k])
  }

  /** An instruction besides the demanded ones that the charge allows. */
  predicate IsExtra(ata: Derivation, tx: Transaction, request: ChargeRequest, details: MethodDetails, ix: CompiledInstruction) {
    SetsBudget(tx, ix) || CreatesSome(ata, tx, request, details, ix)
  }

  predicate CreatesSome(ata: Derivation, tx: Transaction, request: ChargeRequest, details: MethodDetails, ix: CompiledInstruction) {
    Account(tx, ix, 2).Some? && Creates(ata, tx, request, details, ix, Account(tx, ix, 2).value)
  }

  predicate HasCreation(ata: Derivation, tx: Transaction, request: ChargeRequest, details: MethodDetails, owner: Pubkey) {
    exists i :: 0 <= i < |tx.instructions| && Creates(ata, tx, request, details, tx.instructions[i], owner)
  }

  /**
   * The transaction pays the charge: every demanded payment and memo has an instruction of its own, every other
   * instruction is allowed, and the token accounts of all marked splits are created.
   */
  ghost predicate Honours(ata: Derivation, tx: Transaction, request: ChargeRequest, details: MethodDetails) {
    && IsCharge(request, details) && IsSponsoredRightly(tx, details)
    && (exists chosen :: SettlesWith(ata, tx, request, details, chosen))
    && forall owner :: IsMarked(details, owner) ==> HasCreation(ata, tx, request, details, owner)
  }

  predicate SettlesWith(
    ata: Derivation, tx: Transaction, request: ChargeRequest, details: MethodDetails, chosen: seq<nat>)
    requires IsPayable(request, details)
  {
    && Settles(ata, tx, request, details, chosen)
    && forall i :: 0 <= i < |tx.instructions| && i !in chosen ==> IsExtra(ata, tx, request, details, tx.instructions[i])
  }

  // ── The challenge in the check's terms ──

  /** What is left open by the derived terms: amounts of splits and lengths of memos are checked while matching. */
  predicate IsBegun(tx: Transaction, request: ChargeRequest, details: MethodDetails) {
    && tx.lookups == 0 && |details.splits| <= 8
    && request.amount.Some? && MainAmount(request, details) > 0
    && request.recipient.Some? && request.recipient.value.Key?
    && (details.feePayer ==> |tx.keys| > 0 && details.feePayerKey == Some(Key(tx.keys[0])))
    && (forall k :: 0 <= k < |details.splits| ==> details.splits[k].recipient.Key?)
    && match request.currency
       case Native => NothingMarked(details)
       case Symbol(_) => NothingMarked(details) && NamesTokenProgram(details)
       case Mint(text) => text.Key? && NamesTokenProgram(details)
  }

  predicate AssetFor(request: ChargeRequest, details: MethodDetails, asset: Asset) {
    match asset
    case Sol => request.currency.Native?
    case Spl(mint, program, decimals) =>
      && IsMint(request.currency, mint) && decimals == details.decimals
      && details.tokenProgram == (if program.Some? then Some(Key(program.value)) else None)
  }

  lemma {:induction false} TermsIff(tx: Transaction, request: ChargeRequest, details: MethodDetails)
    ensures ChargeTerms(tx, request, details).Ok? <==> IsBegun(tx, request, details)
  {
    if request.amount.Some? {
      AmountIs(request, details);
    }
    if RecipientsParse(details.splits) {
      MarkedIff(details.splits);
    }
  }

  lemma {:induction false} TermsAre(tx: Transaction, request: ChargeRequest, details: MethodDetails)
    requires IsBegun(tx, request, details)
    ensures ChargeTerms(tx, request, details).Ok?
    ensures var t := ChargeTerms(tx, request, details).value;
      && t.recipient == request.recipient.value.key && t.primary == MainAmount(request, details)
      && t.feePayer == (if details.feePayer then Some(tx.keys[0]) else None)
      && AssetFor(request, details, t.asset)
      && t.policy == PolicyFor(details.splits, t.feePayer)
  {
    TermsIff(tx, request, details);
    AmountIs(request, details);
  }

  // ── Probes are the spelled-out instructions ──

  predicate SponsorIs(tx: Transaction, details: MethodDetails, feePayer: Option<Pubkey>) {
    feePayer == if details.feePayer && |tx.keys| > 0 then Some(tx.keys[0]) else None
  }

  lemma {:induction false} SolHitIff(tx: Transaction, i: nat, details: MethodDetails, feePayer: Option<Pubkey>, to: Pubkey, amount: nat)
    requires i < |tx.instructions| && |tx.keys| > 0 && SponsorIs(tx, details, feePayer)
    ensures SolProbe(tx, i, to, amount, feePayer).Hit? <==> PaysSol(tx, tx.instructions[i], details.feePayer, to, amount)
  {
    var d := tx.instructions[i].data;
    if |d| >= 12 {
      WordIs(d, 0);
      LongWordIs(d, 4);
    }
  }

  lemma {:induction false} SolSkips(
    tx: Transaction, i: nat, details: MethodDetails, feePayer: Option<Pubkey>, to: Pubkey, amount: nat, to': Pubkey, amount': nat)
    requires i < |tx.instructions| && |tx.keys| > 0 && SponsorIs(tx, details, feePayer)
    requires PaysSol(tx, tx.instructions[i], details.feePayer, to, amount)
    ensures SolProbe(tx, i, to', amount', feePayer) == if to == to' && amount == amount' then Hit else Skip
  {
    WordIs(tx.instructions[i].data, 0);
    LongWordIs(tx.instructions[i].data, 4);
  }

  lemma {:induction false} SplHitIff(
    ata: Derivation, tx: Transaction, i: nat, request: ChargeRequest, details: MethodDetails, asset: Asset,
    feePayer: Option<Pubkey>, to: Pubkey, amount: nat)
    requires i < |tx.instructions| && |tx.keys| > 0 && SponsorIs(tx, details, feePayer)
    requires asset.Spl? && AssetFor(request, details, asset)
    ensures SplProbe(ata, tx, i, asset, to, amount, feePayer).Hit?
      <==> PaysToken(ata, tx, tx.instructions[i], details, asset.mint, to, amount)
  {
    var d := tx.instructions[i].data;
    if |d| >= 10 {
      LongWordIs(d, 1);
    }
  }

  lemma {:induction false} SplSkips(
    ata: Derivation, tx: Transaction, i: nat, request: ChargeRequest, details: MethodDetails, asset: Asset,
    feePayer: Option<Pubkey>, to: Pubkey, amount: nat, to': Pubkey, amount': nat)
    requires Injective(ata)
    requires i < |tx.instructions| && |tx.keys| > 0 && SponsorIs(tx, details, feePayer)
    requires asset.Spl? && AssetFor(request, details, asset)
    requires PaysToken(ata, tx, tx.instructions[i], details, asset.mint, to, amount)
    ensures SplProbe(ata, tx, i, asset, to', amount', feePayer) == if to == to' && amount == amount' then Hit else Skip
  {
    LongWordIs(tx.instructions[i].data, 1);
  }

  /** The situation in which the instructions are looked at. */
  predicate InPlace(tx: Transaction, request: ChargeRequest, details: MethodDetails, asset: Asset, feePayer: Option<Pubkey>) {
    && |tx.keys| > 0 && SponsorIs(tx, details, feePayer) && AssetFor(request, details, asset)
  }

  lemma {:induction false} TransferHitIff(
    ata: Derivation, tx: Transaction, i: nat, request: ChargeRequest, details: MethodDetails, asset: Asset,
    feePayer: Option<Pubkey>, to: Pubkey, amount: nat)
    requires i < |tx.instructions| && InPlace(tx, request, details, asset, feePayer)
    ensures TransferProbe(ata, tx, i, asset, to, amount, feePayer).Hit?
      <==> Meets(ata, tx, request, details, tx.instructions[i], Pay(to, amount))
  {
    if asset.Sol? {
      SolHitIff(tx, i, details, feePayer, to, amount);
    } else {
      SplHitIff(ata, tx, i, request, details, asset, feePayer, to, amount);
    }
  }

  lemma {:induction false} TransferSkips(
    ata: Derivation, tx: Transaction, i: nat, request: ChargeRequest, details: MethodDetails, asset: Asset,
    feePayer: Option<Pubkey>, e: Effect, to: Pubkey, amount: nat)
    requires Injective(ata)
    requires i < |tx.instructions| && InPlace(tx, request, details, asset, feePayer)
    requires Meets(ata, tx, request, details, tx.instructions[i], e)
    ensures TransferProbe(ata, tx, i, asset, to, amount, feePayer) == if e == Pay(to, amount) then Hit else Skip
  {
    if e.Pay? {
      if asset.Sol? {
        SolSkips(tx, i, details, feePayer, e.to, e.amount, to, amount);
      } else {
        SplSkips(ata, tx, i, request, details, asset, feePayer, e.to, e.amount, to, amount);
      }
    }
  }

  lemma {:induction false} MemoHitIff(tx: Transaction, i: nat, memo: seq<byte>)
    requires i < |tx.instructions|
    ensures MemoProbe(tx, i, memo).Hit? <==> Writes(tx, tx.instructions[i], memo)
  {
  }

  lemma {:induction false} MemoSkips(
    ata: Derivation, tx: Transaction, i: nat, request: ChargeRequest, details: MethodDetails, e: Effect, memo: seq<byte>)
    requires i < |tx.instructions| && Meets(ata, tx, request, details, tx.instructions[i], e)
    ensures MemoProbe(tx, i, memo) == if e == Note(memo) then Hit else Skip
  {
  }

  lemma {:induction false} ExtraSkips(
    ata: Derivation, tx: Transaction, i: nat, request: ChargeRequest, details: MethodDetails, asset: Asset,
    feePayer: Option<Pubkey>, to: Pubkey, amount: nat, memo: seq<byte>)
    requires i < |tx.instructions| && IsExtra(ata, tx, request, details, tx.instructions[i])
    ensures TransferProbe(ata, tx, i, asset, to, amount, feePayer) == Skip
    ensures MemoProbe(tx, i, memo) == Skip
  {
  }

  // ── Rows and demands ──

  /** The row of the `k`-th demand. */
  lemma {:induction false} DemandRow(
    ata: Derivation, tx: Transaction, request: ChargeRequest, details: MethodDetails, asset: Asset, feePayer: Option<Pubkey>, k: nat)
    requires IsPayable(request, details) && k < |Demands(request, details)|
    ensures var rows := AllRows(
              ata, tx, asset, request.recipient.value.key, MainAmount(request, details), request.externalId, details.splits, feePayer);
      var e := Demands(request, details)[k];
      && |rows| == |Demands(request, details)|
      && match e
         case Pay(to, amount) => rows[k] == TransferRow(ata, tx, asset, to, Some(amount), feePayer)
         case Note(memo) => rows[k] == MemoRow(tx, memo) && |memo| <= 566
  {
    var primary := MainAmount(request, details);
    DemandsAre(request, details);
    MemosAreShort(request, details);
    if k <= |details.splits| {
      TransferRowAt(ata, tx, asset, request.recipient.value.key, primary, request.externalId, details.splits, feePayer, k);
    } else {
      MemoRowAt(ata, tx, asset, request.recipient.value.key, primary, request.externalId, details.splits, feePayer, k);
    }
  }

  lemma {:induction false} DemandHits(
    ata: Derivation, tx: Transaction, request: ChargeRequest, details: MethodDetails, asset: Asset, feePayer: Option<Pubkey>,
    k: nat, i: nat)
    requires InPlace(tx, request, details, asset, feePayer)
    requires IsPayable(request, details) && k < |Demands(request, details)|
    requires var rows := AllRows(
              ata, tx, asset, request.recipient.value.key, MainAmount(request, details), request.externalId, details.splits, feePayer);
      k < |rows| && RowHits(rows[k], i)
    ensures i < |tx.instructions| && Meets(ata, tx, request, details, tx.instructions[i], Demands(request, details)[k])
  {
    DemandRow(ata, tx, request, details, asset, feePayer, k);
    match Demands(request, details)[k]
    case Pay(to, amount) => TransferHitIff(ata, tx, i, request, details, asset, feePayer, to, amount);
    case Note(memo) => MemoHitIff(tx, i, memo);
  }

  lemma {:induction false} DemandAnswers(
    ata: Derivation, tx: Transaction, request: ChargeRequest, details: MethodDetails, asset: Asset, feePayer: Option<Pubkey>,
    chosen: seq<nat>, k: nat)
    requires Injective(ata) && InPlace(tx, request, details, asset, feePayer)
    requires IsPayable(request, details) && SettlesWith(ata, tx, request, details, chosen) && k < |chosen|
    ensures var rows := AllRows(
              ata, tx, asset, request.recipient.value.key, MainAmount(request, details), request.externalId, details.splits, feePayer);
      && |rows| == |chosen|
      && AnswersByChoice(rows[k], Demands(request, details)[k], |tx.instructions|, chosen, Demands(request, details))
  {
    DemandRow(ata, tx, request, details, asset, feePayer, k);
    match Demands(request, details)[k]
    case Pay(to, amount) => PaymentAnswers(ata, tx, request, details, asset, feePayer, chosen, to, amount);
    case Note(memo) => NoteAnswers(ata, tx, request, details, asset, feePayer, chosen, memo);
  }

  lemma {:induction false} PaymentAnswers(
    ata: Derivation, tx: Transaction, request: ChargeRequest, details: MethodDetails, asset: Asset, feePayer: Option<Pubkey>,
    chosen: seq<nat>, to: Pubkey, amount: nat)
    requires Injective(ata) && InPlace(tx, request, details, asset, feePayer)
    requires IsPayable(request, details) && SettlesWith(ata, tx, request, details, chosen)
    ensures AnswersByChoice(
      TransferRow(ata, tx, asset, to, Some(amount), feePayer), Pay(to, amount), |tx.instructions|, chosen, Demands(request, details))
  {
    var wants := Demands(request, details);
    forall k | 0 <= k < |chosen|
      ensures TransferProbe(ata, tx, chosen[k], asset, to, amount, feePayer) == if wants[k] == Pay(to, amount) then Hit else Skip
    {
      TransferSkips(ata, tx, chosen[k], request, details, asset, feePayer, wants[k], to, amount);
    }
    forall i | 0 <= i < |tx.instructions| && i !in chosen
      ensures TransferProbe(ata, tx, i, asset, to, amount, feePayer) == Skip
    {
      ExtraSkips(ata, tx, i, request, details, asset, feePayer, to, amount, []);
    }
  }

  lemma {:induction false} NoteAnswers(
    ata: Derivation, tx: Transaction, request: ChargeRequest, details: MethodDetails, asset: Asset, feePayer: Option<Pubkey>,
    chosen: seq<nat>, memo: seq<byte>)
    requires IsPayable(request, details) && SettlesWith(ata, tx, request, details, chosen) && |memo| <= 566
    ensures AnswersByChoice(MemoRow(tx, memo), Note(memo), |tx.instructions|, chosen, Demands(request, details))
  {
    var wants := Demands(request, details);
    forall k | 0 <= k < |chosen| ensures MemoProbe(tx, chosen[k], memo) == if wants[k] == Note(memo) then Hit else Skip {
      MemoSkips(ata, tx, chosen[k], request, details, wants[k], memo);
    }
    forall i | 0 <= i < |tx.instructions| && i !in chosen ensures MemoProbe(tx, i, memo) == Skip {
      ExtraSkips(ata, tx, i, request, details, asset, feePayer, SystemProgram, 0, memo);
    }
  }

  // ── The allowlist is the spelled-out extras ──

  lemma {:induction false} BudgetIff(tx: Transaction, ix: CompiledInstruction)
    requires Program(tx, ix) == Some(ComputeBudgetProgram)
    ensures ComputeBudgetAllowed(ix) <==> SetsBudget(tx, ix)
  {
    AllowedBudgetIff(ix);
  }

  lemma {:induction false} CreationIff(
    ata: Derivation, tx: Transaction, ix: CompiledInstruction, request: ChargeRequest, details: MethodDetails, asset: Asset,
    feePayer: Option<Pubkey>, owner: Pubkey)
    requires InPlace(tx, request, details, asset, feePayer) && Program(tx, ix) == Some(AssociatedTokenProgram)
    ensures AtaCreation(ata, tx, ix, asset, PolicyFor(details.splits, feePayer).allowed, AtaPayer(tx, feePayer)) == Ok(owner)
      <==> Creates(ata, tx, request, details, ix, owner)
  {
    OwnersAre(details, feePayer, owner);
  }

  lemma {:induction false} AllowedIff(
    ata: Derivation, tx: Transaction, i: nat, matched: set<nat>, request: ChargeRequest, details: MethodDetails, asset: Asset,
    feePayer: Option<Pubkey>)
    requires i < |tx.instructions| && InPlace(tx, request, details, asset, feePayer) && i !in matched
    ensures InstructionAllowed(ata, tx, i, matched, asset, PolicyFor(details.splits, feePayer).allowed, AtaPayer(tx, feePayer))
      <==> IsExtra(ata, tx, request, details, tx.instructions[i])
  {
    var ix := tx.instructions[i];
    if Program(tx, ix) == Some(ComputeBudgetProgram) {
      BudgetIff(tx, ix);
    } else if Program(tx, ix) == Some(AssociatedTokenProgram) {
      var creation := AtaCreation(ata, tx, ix, asset, PolicyFor(details.splits, feePayer).allowed, AtaPayer(tx, feePayer));
      if creation.Ok? {
        CreationIff(ata, tx, ix, request, details, asset, feePayer, creation.value);
      } else if Account(tx, ix, 2).Some? {
        CreationIff(ata, tx, ix, request, details, asset, feePayer, Account(tx, ix, 2).value);
      }
    }
  }

  lemma {:induction false} MeetsIsAllowed(
    ata: Derivation, tx: Transaction, i: nat, matched: set<nat>, request: ChargeRequest, details: MethodDetails, asset: Asset,
    allowed: set<Pubkey>, payer: Pubkey, e: Effect)
    requires i < |tx.instructions| && i in matched && Meets(ata, tx, request, details, tx.instructions[i], e)
    ensures InstructionAllowed(ata, tx, i, matched, asset, allowed, payer)
  {
  }

  lemma {:induction false} CreatedIff(
    ata: Derivation, tx: Transaction, request: ChargeRequest, details: MethodDetails, asset: Asset, feePayer: Option<Pubkey>,
    owner: Pubkey)
    requires InPlace(tx, request, details, asset, feePayer)
    ensures Created(ata, tx, asset, PolicyFor(details.splits, feePayer).allowed, AtaPayer(tx, feePayer), owner)
      <==> HasCreation(ata, tx, request, details, owner)
  {
    var allowed, payer := PolicyFor(details.splits, feePayer).allowed, AtaPayer(tx, feePayer);
    forall i | 0 <= i < |tx.instructions|
      ensures CreatesFor(ata, tx, i, asset, allowed, payer, owner) <==> Creates(ata, tx, request, details, tx.instructions[i], owner)
    {
      if Program(tx, tx.instructions[i]) == Some(AssociatedTokenProgram) {
        CreationIff(ata, tx, tx.instructions[i], request, details, asset, feePayer, owner);
      }
    }
  }

  // ── The theorem ──

  lemma {:induction false} AcceptedIsPayable(ata: Derivation, tx: Transaction, request: ChargeRequest, details: MethodDetails)
    requires Verify(ata, tx, request, details).Ok?
    ensures IsBegun(tx, request, details) && IsCharge(request, details) && IsSponsoredRightly(tx, details)
  {
    TermsIff(tx, request, details);
    AcceptedSplitsAreWellFormed(ata, tx, request, details);
    AcceptedMemosFit(ata, tx, request, details);
    MemosAreShort(request, details);
  }

  lemma {:induction false} AcceptedMemosFit(ata: Derivation, tx: Transaction, request: ChargeRequest, details: MethodDetails)
    requires Verify(ata, tx, request, details).Ok?
    ensures forall k :: 0 <= k < |ExpectedMemos(request.externalId, details.splits)| ==>
              |ExpectedMemos(request.externalId, details.splits)[k]| <= 566
  {
    var t := ChargeTerms(tx, request, details).value;
    var rows := RowsFor(ata, tx, request, details, t);
    var memos := ExpectedMemos(request.externalId, details.splits);
    MatchedRowsAreWellFormed(rows, {});
    forall k | 0 <= k < |memos| ensures |memos[k]| <= 566 {
      RowAt(ata, tx, t.asset, t.recipient, t.primary, request.externalId, details.splits, t.feePayer, 1 + |details.splits| + k);
    }
  }

  lemma {:induction false} AcceptedSettles(ata: Derivation, tx: Transaction, request: ChargeRequest, details: MethodDetails)
      returns (chosen: seq<nat>)
    requires Verify(ata, tx, request, details).Ok?
    ensures IsPayable(request, details) && SettlesWith(ata, tx, request, details, chosen)
  {
    AcceptedIsPayable(ata, tx, request, details);
    TermsAre(tx, request, details);
    var t := ChargeTerms(tx, request, details).value;
    var rows := RowsFor(ata, tx, request, details, t);
    chosen := MatchAllChooses(rows, {});
    DemandRow(ata, tx, request, details, t.asset, t.feePayer, 0);
    forall k | 0 <= k < |chosen|
      ensures chosen[k] < |tx.instructions|
      ensures Meets(ata, tx, request, details, tx.instructions[chosen[k]], Demands(request, details)[k])
    {
      DemandHits(ata, tx, request, details, t.asset, t.feePayer, k, chosen[k]);
    }
    var matched := MatchAll(rows, {}).value;
    forall i | 0 <= i < |tx.instructions| && i !in chosen ensures IsExtra(ata, tx, request, details, tx.instructions[i]) {
      assert AllAllowed(ata, tx, matched, t.asset, t.policy.allowed, AtaPayer(tx, t.feePayer));
      AllowedIff(ata, tx, i, matched, request, details, t.asset, t.feePayer);
    }
  }

  lemma {:induction false} AcceptedHonours(ata: Derivation, tx: Transaction, request: ChargeRequest, details: MethodDetails)
    requires Verify(ata, tx, request, details).Ok?
    ensures Honours(ata, tx, request, details)
  {
    AcceptedIsPayable(ata, tx, request, details);
    TermsAre(tx, request, details);
    var t := ChargeTerms(tx, request, details).value;
    var chosen := AcceptedSettles(ata, tx, request, details);
    forall owner | IsMarked(details, owner) ensures HasCreation(ata, tx, request, details, owner) {
      OwnersAre(details, t.feePayer, owner);
      CreatedIff(ata, tx, request, details, t.asset, t.feePayer, owner);
    }
  }

  lemma {:induction false} HonouredMatches(
    ata: Derivation, tx: Transaction, request: ChargeRequest, details: MethodDetails, t: Terms, chosen: seq<nat>)
    requires Injective(ata) && IsCharge(request, details) && IsSponsoredRightly(tx, details)
    requires ChargeTerms(tx, request, details) == Ok(t)
    requires SettlesWith(ata, tx, request, details, chosen)
    ensures MatchAll(RowsFor(ata, tx, request, details, t), {}).Ok?
    ensures AllAllowed(
      ata, tx, MatchAll(RowsFor(ata, tx, request, details, t), {}).value, t.asset, t.policy.allowed, AtaPayer(tx, t.feePayer))
  {
    TermsAre(tx, request, details);
    var rows := RowsFor(ata, tx, request, details, t);
    DemandRow(ata, tx, request, details, t.asset, t.feePayer, 0);
    forall k | 0 <= k < |rows|
      ensures AnswersByChoice(rows[k], Demands(request, details)[k], |tx.instructions|, chosen, Demands(request, details))
    {
      DemandAnswers(ata, tx, request, details, t.asset, t.feePayer, chosen, k);
    }
    ChoiceSuffices(rows, Demands(request, details), |tx.instructions|, chosen);
    HonouredAllowed(ata, tx, request, details, t, chosen, MatchAll(rows, {}).value);
  }

  lemma {:induction false} HonouredAllowed(
    ata: Derivation, tx: Transaction, request: ChargeRequest, details: MethodDetails, t: Terms, chosen: seq<nat>, matched: set<nat>)
    requires InPlace(tx, request, details, t.asset, t.feePayer) && IsPayable(request, details)
    requires t.policy == PolicyFor(details.splits, t.feePayer)
    requires SettlesWith(ata, tx, request, details, chosen) && forall i :: i in chosen ==> i in matched
    ensures AllAllowed(ata, tx, matched, t.asset, t.policy.allowed, AtaPayer(tx, t.feePayer))
  {
    forall i | 0 <= i < |tx.instructions|
      ensures InstructionAllowed(ata, tx, i, matched, t.asset, t.policy.allowed, AtaPayer(tx, t.feePayer))
    {
      if i in chosen {
        var k :| 0 <= k < |chosen| && chosen[k] == i;
        MeetsIsAllowed(
          ata, tx, i, matched, request, details, t.asset, t.policy.allowed, AtaPayer(tx, t.feePayer), Demands(request, details)[k]);
      } else {
        ExtraIsAllowed(ata, tx, i, matched, request, details, t.asset, t.feePayer);
      }
    }
  }

  lemma {:induction false} ExtraIsAllowed(
    ata: Derivation, tx: Transaction, i: nat, matched: set<nat>, request: ChargeRequest, details: MethodDetails, asset: Asset,
    feePayer: Option<Pubkey>)
    requires i < |tx.instructions| && InPlace(tx, request, details, asset, feePayer)
    requires IsExtra(ata, tx, request, details, tx.instructions[i])
    ensures InstructionAllowed(ata, tx, i, matched, asset, PolicyFor(details.splits, feePayer).allowed, AtaPayer(tx, feePayer))
  {
    AllowedIff(ata, tx, i, {}, request, details, asset, feePayer);
  }

  lemma {:induction false} HonouredIsAccepted(ata: Derivation, tx: Transaction, request: ChargeRequest, details: MethodDetails)
    requires Injective(ata) && Honours(ata, tx, request, details)
    ensures Verify(ata, tx, request, details).Ok?
  {
    TermsAre(tx, request, details);
    var t := ChargeTerms(tx, request, details).value;
    var chosen :| SettlesWith(ata, tx, request, details, chosen);
    HonouredMatches(ata, tx, request, details, t, chosen);
    forall owner | owner in t.policy.required
      ensures Created(ata, tx, t.asset, t.policy.allowed, AtaPayer(tx, t.feePayer), owner)
    {
      OwnersAre(details, t.feePayer, owner);
      CreatedIff(ata, tx, request, details, t.asset, t.feePayer, owner);
    }
  }

  /**
   * The check accepts exactly the transactions that pay the charge, for every transaction and every challenge. First-fit
   * matching loses none of them and lets no other through.
   */
  lemma {:induction false} AcceptedIff(ata: Derivation, tx: Transaction, request: ChargeRequest, details: MethodDetails)
    requires Injective(ata)
    ensures Verify(ata, tx, request, details).Ok? <==> Honours(ata, tx, request, details)
  {
    if Verify(ata, tx, request, details).Ok? {
      AcceptedHonours(ata, tx, request, details);
    } else if Honours(ata, tx, request, details) {
      HonouredIsAccepted(ata, tx, request, details);
    }
  }

  lemma {:induction false} MeetsSetsNoBudget(
    ata: Derivation, tx: Transaction, request: ChargeRequest, details: MethodDetails, ix: CompiledInstruction, e: Effect)
    requires Meets(ata, tx, request, details, ix, e)
    ensures Program(tx, ix) != Some(ComputeBudgetProgram)
  {
  }

  /** In particular a compute-budget instruction of an accepted transaction stays within the limits, and no other is let in. */
  lemma {:induction false} BudgetIsLimited(ata: Derivation, tx: Transaction, request: ChargeRequest, details: MethodDetails, i: nat)
    requires Verify(ata, tx, request, details).Ok?
    requires i < |tx.instructions| && Program(tx, tx.instructions[i]) == Some(ComputeBudgetProgram)
    ensures SetsBudget(tx, tx.instructions[i])
  {
    var chosen := AcceptedSettles(ata, tx, request, details);
    if i in chosen {
      var k :| 0 <= k < |chosen| && chosen[k] == i;
      MeetsSetsNoBudget(ata, tx, request, details, tx.instructions[chosen[k]], Demands(request, details)[k]);
    }
  }

  // ── Refusals ──

  predicate BlamesTransaction(error: VerificationError) {
    error == InvalidAmount || error == InvalidPayload
  }

  predicate RowBlames(row: Row<VerificationError>) {
    && BlamesTransaction(row.missing)
    && (row.probes.Some? ==>
          forall i :: 0 <= i < |row.probes.value| && row.probes.value[i].Fail? ==> BlamesTransaction(row.probes.value[i].error))
  }

  lemma {:induction false} MatchingBlames(rows: seq<Row<VerificationError>>, taken: set<nat>)
    requires MatchAll(rows, taken).Err? && forall k :: 0 <= k < |rows| ==> RowBlames(rows[k])
    ensures BlamesTransaction(MatchAll(rows, taken).error)
    decreases rows
  {
    assert RowBlames(rows[0]);
    var first := MatchRow(rows[0], taken);
    if first.Ok? {
      MatchingBlames(rows[1..], first.value);
    }
  }

  lemma {:induction false} RowsBlame(ata: Derivation, tx: Transaction, request: ChargeRequest, details: MethodDetails, t: Terms)
    requires RecipientsParse(details.splits)
    ensures forall k :: 0 <= k < |RowsFor(ata, tx, request, details, t)| ==> RowBlames(RowsFor(ata, tx, request, details, t)[k])
  {
    var rows := RowsFor(ata, tx, request, details, t);
    forall k | 0 <= k < |rows| ensures RowBlames(rows[k]) {
      RowAt(ata, tx, t.asset, t.recipient, t.primary, request.externalId, details.splits, t.feePayer, k);
    }
  }

  /** Why a transaction is refused: a challenge at fault is told apart from a transaction at fault. */
  lemma {:induction false} Refusals(ata: Derivation, tx: Transaction, request: ChargeRequest, details: MethodDetails)
    ensures tx.lookups > 0 ==> Verify(ata, tx, request, details) == Err(InvalidPayload)
    ensures Verify(ata, tx, request, details) == Err(TooManySplits) <==> tx.lookups == 0 && |details.splits| > 8
    ensures tx.lookups == 0 && |details.splits| <= 8 && (request.amount.None? || MainAmount(request, details) <= 0) ==>
              Verify(ata, tx, request, details) == Err(InvalidAmount)
    ensures Verify(ata, tx, request, details) == Err(InvalidRecipient) <==>
              && tx.lookups == 0 && |details.splits| <= 8 && request.amount.Some? && MainAmount(request, details) > 0
              && (|| request.recipient.None? || request.recipient.value.Malformed?
                  || (&& (details.feePayer ==> |tx.keys| > 0 && details.feePayerKey == Some(Key(tx.keys[0])))
                      && (request.currency.Native? ==> NothingMarked(details))
                      && exists k :: 0 <= k < |details.splits| && details.splits[k].recipient.Malformed?))
    ensures && tx.lookups == 0 && |details.splits| <= 8 && request.amount.Some? && MainAmount(request, details) > 0
            && request.recipient.Some? && request.recipient.value.Key?
            && (forall k :: 0 <= k < |details.splits| ==> details.splits[k].recipient.Key?)
            && !IsBegun(tx, request, details)
            ==> Verify(ata, tx, request, details) == Err(InvalidPayload)
  {
    if request.amount.Some? {
      AmountIs(request, details);
    }
    TermsIff(tx, request, details);
    if ChargeTerms(tx, request, details).Ok? {
      var t := ChargeTerms(tx, request, details).value;
      RowsBlame(ata, tx, request, details, t);
      if MatchAll(RowsFor(ata, tx, request, details, t), {}).Err? {
        MatchingBlames(RowsFor(ata, tx, request, details, t), {});
      }
    }
  }
}
