/** What the parsed check accepts, stated on the challenge and the reported fields of the confirmed transaction. */
module ParsedAcceptance {
  import opened Common
  import opened Charge
  import opened FirstFit
  import opened Choice
  import opened ChargeMeaning
  import opened ChargeVerifier
  import opened ChargeGuarantees
  import opened ParsedVerifier

  // ── Single instructions ──

  /** The report gives the program by its address, or by its name when there is no address. */
  predicate Names(ix: ParsedInstruction, program: Pubkey) {
    || ix.programId == Some(Key(program))
    || (&& ix.programId.None?
        && (|| (program == SystemProgram && ix.program == SystemName)
            || (program == ComputeBudgetProgram && ix.program == ComputeBudgetName)
            || (program == MemoProgram && ix.program == SplMemoName)
            || (program == AssociatedTokenProgram && ix.program == SplAssociatedTokenAccountName)))
  }

  predicate IsKind(ix: ParsedInstruction, kind: string) {
    ix.parsed.ParsedObject? && ix.parsed.kind == kind && ix.parsed.info.Some?
  }

  predicate Says(ix: ParsedInstruction, name: string, key: Pubkey)
    requires ix.parsed.ParsedObject? && ix.parsed.info.Some?
  {
    name in ix.parsed.info.value.keys && ix.parsed.info.value.keys[name] == Key(key)
  }

  predicate IsSilentOn(ix: ParsedInstruction, name: string)
    requires ix.parsed.ParsedObject? && ix.parsed.info.Some?
  {
    name !in ix.parsed.info.value.keys
  }

  /** An amount that is not reported counts as zero. */
  predicate IsAmount(reported: Option<u64>, amount: nat) {
    reported == Some(amount) || (reported.None? && amount == 0)
  }

  /** A transfer object; the program is not looked at here. */
  predicate PaysSol(ix: ParsedInstruction, to: Pubkey, amount: nat) {
    IsKind(ix, "transfer") && Says(ix, "destination", to) && IsAmount(ix.parsed.info.value.lamports, amount)
  }

  predicate IsTokenText(text: KeyText) {
    text == Key(TokenProgram) || text == Key(Token2022Program)
  }

  /** A checked transfer under the insisted token program into the token account of `to`. */
  predicate PaysToken(ata: Derivation, ix: ParsedInstruction, mint: Pubkey, insisted: KeyText, to: Pubkey, amount: nat) {
    && IsTokenText(insisted) && ix.programId == Some(insisted)
    && IsKind(ix, "transferChecked") && IsAmount(ix.parsed.info.value.tokenAmount, amount)
    && Says(ix, "mint", mint) && Says(ix, "destination", ata(to, insisted.key, mint))
  }

  predicate Writes(ix: ParsedInstruction, memo: seq<byte>) {
    && Names(ix, MemoProgram)
    && (|| ix.parsed == ParsedText(memo)
        || (ix.parsed.ParsedObject? && ix.parsed.info.Some? && ix.parsed.info.value.memo == Some(memo)))
  }

  /** The token program the charge names, or the default of its currency. */
  function Insisted(details: MethodDetails, defaultProgram: Pubkey): KeyText {
    match details.tokenProgram case Some(text) => text case None => Key(defaultProgram)
  }

  predicate Meets(
    ata: Derivation, request: ChargeRequest, details: MethodDetails, defaultProgram: Pubkey, ix: ParsedInstruction, e: Effect)
  {
    match e
    case Note(memo) => Writes(ix, memo)
    case Pay(to, amount) =>
      match request.currency
      case Native => PaysSol(ix, to, amount)
      case Symbol(mint) => PaysToken(ata, ix, mint, Insisted(details, defaultProgram), to, amount)
      case Mint(text) => text.Key? && PaysToken(ata, ix, text.key, Insisted(details, defaultProgram), to, amount)
  }

  predicate SaysPayer(ix: ParsedInstruction, payer: Pubkey)
    requires IsKind(ix, "createIdempotent")
  {
    Says(ix, "source", payer) || (IsSilentOn(ix, "source") && Says(ix, "payer", payer))
  }

  predicate SaysAccount(ix: ParsedInstruction, account: Pubkey)
    requires IsKind(ix, "createIdempotent")
  {
    || Says(ix, "account", account)
    || (IsSilentOn(ix, "account") && Says(ix, "associatedAccount", account))
    || (IsSilentOn(ix, "account") && IsSilentOn(ix, "associatedAccount") && Says(ix, "associatedTokenAddress", account))
  }

  predicate SaysOwner(ix: ParsedInstruction, owner: Pubkey)
    requires IsKind(ix, "createIdempotent")
  {
    Says(ix, "wallet", owner) || (IsSilentOn(ix, "wallet") && Says(ix, "owner", owner))
  }

  /** A creation of the owner's token account of a mint that the charge allows, paid by the sponsor if there is one. */
  predicate CreatesAccount(
    ata: Derivation, details: MethodDetails, mint: Pubkey, insisted: KeyText, ix: ParsedInstruction, owner: Pubkey)
  {
    && Names(ix, AssociatedTokenProgram) && IsKind(ix, "createIdempotent")
    && !(IsSilentOn(ix, "source") && IsSilentOn(ix, "payer"))
    && (IsSponsored(details) ==> details.feePayerKey.value.Key? && SaysPayer(ix, details.feePayerKey.value.key))
    && SaysOwner(ix, owner) && Says(ix, "mint", mint)
    && IsTokenText(insisted) && (IsSilentOn(ix, "tokenProgram") || Says(ix, "tokenProgram", insisted.key))
    && SaysAccount(ix, ata(owner, insisted.key, mint))
    && MayCreate(details, IsSponsored(details), owner)
  }

  predicate Creates(
    ata: Derivation, request: ChargeRequest, details: MethodDetails, defaultProgram: Pubkey, ix: ParsedInstruction, owner: Pubkey)
  {
    match request.currency
    case Native => false
    case Symbol(mint) => CreatesAccount(ata, details, mint, Insisted(details, defaultProgram), ix, owner)
    case Mint(text) => text.Key? && CreatesAccount(ata, details, text.key, Insisted(details, defaultProgram), ix, owner)
  }

  // ── Whole transactions ──

  predicate IsCharge(request: ChargeRequest, details: MethodDetails) {
    && IsPayable(request, details)
    && (IsSponsored(details) ==> details.feePayerKey.value.Key?)
    && match request.currency
       case Native => NothingMarked(details)
       case Symbol(_) => NothingMarked(details)
       case Mint(text) => text.Key?
  }

  predicate MayHoldMoneyOrMemo(ix: ParsedInstruction) {
    Names(ix, SystemProgram) || Names(ix, TokenProgram) || Names(ix, Token2022Program) || Names(ix, MemoProgram)
  }

  ghost predicate CreatesSome(
    ata: Derivation, request: ChargeRequest, details: MethodDetails, defaultProgram: Pubkey, ix: ParsedInstruction)
  {
    exists owner :: Creates(ata, request, details, defaultProgram, ix, owner)
  }

  /** Every demand has an instruction of its own; every other instruction is compute budget or an allowed creation. */
  ghost predicate SettlesWith(
    ata: Derivation, ixs: seq<ParsedInstruction>, request: ChargeRequest, details: MethodDetails, defaultProgram: Pubkey,
    chosen: seq<nat>)
    requires IsPayable(request, details)
  {
    && |chosen| == |Demands(request, details)| && AreDistinct(chosen)
    && (forall k :: 0 <= k < |chosen| ==>
          && chosen[k] < |ixs|
          && Meets(ata, request, details, defaultProgram, ixs[chosen[k]], Demands(request, details)[k])
          && (Names(ixs[chosen[k]], ComputeBudgetProgram) || MayHoldMoneyOrMemo(ixs[chosen[k]])))
    && forall i :: 0 <= i < |ixs| && i !in chosen ==>
         Names(ixs[i], ComputeBudgetProgram) || CreatesSome(ata, request, details, defaultProgram, ixs[i])
  }

  ghost predicate Honours(
    ata: Derivation, ixs: seq<ParsedInstruction>, request: ChargeRequest, details: MethodDetails, defaultProgram: Pubkey)
  {
    && IsCharge(request, details)
    && (exists chosen :: SettlesWith(ata, ixs, request, details, defaultProgram, chosen))
    && forall owner :: IsMarked(details, owner) ==>
         exists i :: 0 <= i < |ixs| && Creates(ata, request, details, defaultProgram, ixs[i], owner)
  }

  /** No memo and no compute-budget instruction is reported as a transfer. */
  predicate IsCoherent(ixs: seq<ParsedInstruction>) {
    forall i :: 0 <= i < |ixs| && IsKind(ixs[i], "transfer") ==>
      !Names(ixs[i], MemoProgram) && !Names(ixs[i], ComputeBudgetProgram)
  }

  // ── The challenge in the check's terms ──

  predicate IsBegun(request: ChargeRequest, details: MethodDetails) {
    && request.amount.Some? && MainAmount(request, details) > 0
    && request.recipient.Some? && request.recipient.value.Key?
    && (forall k :: 0 <= k < |details.splits| ==> details.splits[k].recipient.Key?)
    && (IsSponsored(details) ==> details.feePayerKey.value.Key?)
    && match request.currency
       case Native => NothingMarked(details)
       case Symbol(_) => NothingMarked(details)
       case Mint(text) => text.Key?
  }

  function SponsorFor(details: MethodDetails): Option<Pubkey> {
    if IsSponsored(details) && details.feePayerKey.value.Key? then Some(details.feePayerKey.value.key) else None
  }

  lemma {:induction false} TermsIff(request: ChargeRequest, details: MethodDetails, defaultProgram: Pubkey)
    ensures DeriveParsedTerms(request, details, defaultProgram).Ok? <==> IsBegun(request, details)
  {
    if request.amount.Some? {
      AmountIs(request, details);
    }
    if RecipientsParse(details.splits) {
      MarkedIff(details.splits);
    }
  }

  /** The mint of the charge's currency, or none for native SOL. */
  predicate MintFor(request: ChargeRequest, mint: Option<Pubkey>) {
    match request.currency
    case Native => mint.None?
    case Symbol(m) => mint == Some(m)
    case Mint(text) => text.Key? && mint == Some(text.key)
  }

  lemma {:induction false} TermsAre(request: ChargeRequest, details: MethodDetails, defaultProgram: Pubkey)
    requires IsBegun(request, details)
    ensures DeriveParsedTerms(request, details, defaultProgram).Ok?
    ensures var t := DeriveParsedTerms(request, details, defaultProgram).value;
      && t.recipient == request.recipient.value.key && t.primary == MainAmount(request, details)
      && t.payer == SponsorFor(details) && MintFor(request, t.mint)
      && t.tokenProgram == Insisted(details, defaultProgram)
      && t.policy == PolicyFor(details.splits, t.payer)
  {
    TermsIff(request, details, defaultProgram);
    AmountIs(request, details);
  }

  // ── Probes are the spelled-out instructions ──

  lemma {:induction false} NamesIs(ix: ParsedInstruction, program: Pubkey)
    requires !IsTokenProgram(program)
    ensures ParsedProgramId(ix) == Some(Key(program)) <==> Names(ix, program)
  {
  }

  lemma {:induction false} FieldIs(ix: ParsedInstruction, name: string, key: Pubkey)
    requires ix.parsed.ParsedObject? && ix.parsed.info.Some?
    ensures StringField(ix.parsed.info.value, [name]) == Some(Key(key)) <==> Says(ix, name, key)
    ensures StringField(ix.parsed.info.value, [name]).None? <==> IsSilentOn(ix, name)
  {
    assert [name][1..] == [];
  }

  lemma {:induction false} SolIs(ix: ParsedInstruction, to: Pubkey, amount: nat)
    ensures ParsedSolProbe(ix, to, amount) == if PaysSol(ix, to, amount) then Hit else Skip
  {
    if ix.parsed.ParsedObject? && ix.parsed.info.Some? {
      FieldIs(ix, "destination", to);
    }
  }

  lemma {:induction false} SplIs(ata: Derivation, ix: ParsedInstruction, mint: Pubkey, insisted: KeyText, to: Pubkey, amount: nat)
    ensures ParsedSplProbe(ata, ix, to, mint, amount, insisted)
      == if PaysToken(ata, ix, mint, insisted, to, amount) then Hit else Skip
  {
    if ix.parsed.ParsedObject? && ix.parsed.info.Some? && insisted.Key? {
      FieldIs(ix, "mint", mint);
      FieldIs(ix, "destination", ata(to, insisted.key, mint));
    }
  }

  lemma {:induction false} TransferIs(
    ata: Derivation, request: ChargeRequest, details: MethodDetails, defaultProgram: Pubkey, mint: Option<Pubkey>,
    ix: ParsedInstruction, to: Pubkey, amount: nat)
    requires MintFor(request, mint)
    ensures ParsedTransferProbe(ata, ix, mint, Insisted(details, defaultProgram), to, amount)
      == if Meets(ata, request, details, defaultProgram, ix, Pay(to, amount)) then Hit else Skip
  {
    match mint
    case None => SolIs(ix, to, amount);
    case Some(m) => SplIs(ata, ix, m, Insisted(details, defaultProgram), to, amount);
  }

  lemma {:induction false} MemoIs(ix: ParsedInstruction, memo: seq<byte>)
    ensures ParsedMemoProbe(ix, memo) == if Writes(ix, memo) then Hit else Skip
  {
    NamesIs(ix, MemoProgram);
  }

  // ── Rows and demands ──

  lemma {:induction false} TransferRowAt(
    ata: Derivation, ixs: seq<ParsedInstruction>, request: ChargeRequest, details: MethodDetails, t: ParsedTerms, k: nat)
    requires WellFormedSplits(details.splits) && k <= |details.splits|
    ensures var want := Demanded(t.recipient, t.primary, request.externalId, details.splits)[k];
      && want.Pay? && k < |ParsedRows(ata, ixs, request, details, t)|
      && ParsedRows(ata, ixs, request, details, t)[k]
         == ParsedTransferRow(ata, ixs, t.mint, t.tokenProgram, want.to, Some(want.amount))
  {
  }

  lemma {:induction false} MemoRowAt(
    ata: Derivation, ixs: seq<ParsedInstruction>, request: ChargeRequest, details: MethodDetails, t: ParsedTerms, k: nat)
    requires WellFormedSplits(details.splits)
    requires |details.splits| < k < |ParsedRows(ata, ixs, request, details, t)|
    ensures var memo := ExpectedMemos(request.externalId, details.splits)[k - 1 - |details.splits|];
      && ParsedRows(ata, ixs, request, details, t)[k] == ParsedMemoRow(ixs, memo)
      && Demanded(t.recipient, t.primary, request.externalId, details.splits)[k] == Note(memo)
  {
  }

  /** The row answers a demand: it is hit by exactly the instructions that meet it. */
  ghost predicate RowFor(
    ata: Derivation, ixs: seq<ParsedInstruction>, request: ChargeRequest, details: MethodDetails, defaultProgram: Pubkey,
    row: Row<VerificationError>, e: Effect)
  {
    && row.probes.Some? && |row.probes.value| == |ixs|
    && forall i :: 0 <= i < |ixs| ==>
         row.probes.value[i] == if Meets(ata, request, details, defaultProgram, ixs[i], e) then Hit else Skip
  }

  lemma {:induction false} TransferRowIs(
    ata: Derivation, ixs: seq<ParsedInstruction>, request: ChargeRequest, details: MethodDetails, defaultProgram: Pubkey,
    mint: Option<Pubkey>, to: Pubkey, amount: nat)
    requires MintFor(request, mint)
    ensures RowFor(ata, ixs, request, details, defaultProgram,
      ParsedTransferRow(ata, ixs, mint, Insisted(details, defaultProgram), to, Some(amount)), Pay(to, amount))
  {
    forall i | 0 <= i < |ixs|
      ensures ParsedTransferProbe(ata, ixs[i], mint, Insisted(details, defaultProgram), to, amount)
        == if Meets(ata, request, details, defaultProgram, ixs[i], Pay(to, amount)) then Hit else Skip
    {
      TransferIs(ata, request, details, defaultProgram, mint, ixs[i], to, amount);
    }
  }

  lemma {:induction false} MemoRowIs(
    ata: Derivation, ixs: seq<ParsedInstruction>, request: ChargeRequest, details: MethodDetails, defaultProgram: Pubkey,
    memo: seq<byte>)
    requires |memo| <= 566
    ensures RowFor(ata, ixs, request, details, defaultProgram, ParsedMemoRow(ixs, memo), Note(memo))
  {
    forall i | 0 <= i < |ixs| ensures ParsedMemoProbe(ixs[i], memo) == if Writes(ixs[i], memo) then Hit else Skip {
      MemoIs(ixs[i], memo);
    }
  }

  lemma {:induction false} DemandRow(
    ata: Derivation, ixs: seq<ParsedInstruction>, request: ChargeRequest, details: MethodDetails, defaultProgram: Pubkey,
    t: ParsedTerms, k: nat)
    requires IsPayable(request, details) && IsBegun(request, details) && k < |Demands(request, details)|
    requires DeriveParsedTerms(request, details, defaultProgram) == Ok(t)
    ensures var rows := ParsedRows(ata, ixs, request, details, t);
      && |rows| == |Demands(request, details)|
      && RowFor(ata, ixs, request, details, defaultProgram, rows[k], Demands(request, details)[k])
  {
    TermsAre(request, details, defaultProgram);
    DemandsAre(request, details);
    MemosAreShort(request, details);
    if k <= |details.splits| {
      TransferRowAt(ata, ixs, request, details, t, k);
      var want := Demands(request, details)[k];
      TransferRowIs(ata, ixs, request, details, defaultProgram, t.mint, want.to, want.amount);
    } else {
      MemoRowAt(ata, ixs, request, details, t, k);
      MemoRowIs(ata, ixs, request, details, defaultProgram, ExpectedMemos(request.externalId, details.splits)[k - 1 - |details.splits|]);
    }
  }

  // ── The allowlist is the spelled-out extras ──

  lemma {:induction false} PayerIs(ix: ParsedInstruction, payer: Pubkey)
    requires IsKind(ix, "createIdempotent")
    ensures StringField(ix.parsed.info.value, ["source", "payer"]) == Some(Key(payer)) <==> SaysPayer(ix, payer)
    ensures StringField(ix.parsed.info.value, ["source", "payer"]).None? <==> IsSilentOn(ix, "source") && IsSilentOn(ix, "payer")
  {
    assert ["source", "payer"][1..] == ["payer"];
    FieldIs(ix, "payer", payer);
  }

  lemma {:induction false} OwnerIs(ix: ParsedInstruction, owner: Pubkey)
    requires IsKind(ix, "createIdempotent")
    ensures StringField(ix.parsed.info.value, ["wallet", "owner"]) == Some(Key(owner)) <==> SaysOwner(ix, owner)
  {
    assert ["wallet", "owner"][1..] == ["owner"];
    FieldIs(ix, "owner", owner);
  }

  lemma {:induction false} AccountIs(ix: ParsedInstruction, account: Pubkey)
    requires IsKind(ix, "createIdempotent")
    ensures StringField(ix.parsed.info.value, ["account", "associatedAccount", "associatedTokenAddress"]) == Some(Key(account))
      <==> SaysAccount(ix, account)
  {
    var names := ["account", "associatedAccount", "associatedTokenAddress"];
    assert names[1..] == ["associatedAccount", "associatedTokenAddress"];
    assert names[1..][1..] == ["associatedTokenAddress"];
    FieldIs(ix, "associatedTokenAddress", account);
  }

  lemma {:induction false} ProgramIs(ix: ParsedInstruction, insisted: KeyText)
    requires IsKind(ix, "createIdempotent") && insisted.Key?
    ensures var program := StringField(ix.parsed.info.value, ["tokenProgram"]);
      (program.Some? ==> program.value == insisted) <==> IsSilentOn(ix, "tokenProgram") || Says(ix, "tokenProgram", insisted.key)
  {
    FieldIs(ix, "tokenProgram", insisted.key);
  }

  lemma {:induction false} SponsorPays(details: MethodDetails, ix: ParsedInstruction)
    requires IsKind(ix, "createIdempotent") && (IsSponsored(details) ==> details.feePayerKey.value.Key?)
    ensures var payer := StringField(ix.parsed.info.value, ["source", "payer"]);
      && (payer.Some? <==> !(IsSilentOn(ix, "source") && IsSilentOn(ix, "payer")))
      && ((SponsorFor(details).Some? ==> payer == Some(Key(SponsorFor(details).value)))
          <==> (IsSponsored(details) ==> details.feePayerKey.value.Key? && SaysPayer(ix, details.feePayerKey.value.key)))
  {
    PayerIs(ix, if IsSponsored(details) then details.feePayerKey.value.key else SystemProgram);
  }

  lemma {:induction false} AccountCreationIff(
    ata: Derivation, details: MethodDetails, mint: Pubkey, insisted: KeyText, ix: ParsedInstruction, owner: Pubkey)
    requires Names(ix, AssociatedTokenProgram) && (IsSponsored(details) ==> details.feePayerKey.value.Key?)
    requires IsKind(ix, "createIdempotent") && insisted.Key?
    ensures ParsedAtaCreation(
              ata, ix, Some(mint), PolicyFor(details.splits, SponsorFor(details)).allowed, insisted, SponsorFor(details)) == Ok(owner)
      <==> CreatesAccount(ata, details, mint, insisted, ix, owner)
  {
    OwnersAre(details, SponsorFor(details), owner);
    OwnerIs(ix, owner);
    SponsorPays(details, ix);
    FieldIs(ix, "mint", mint);
    ProgramIs(ix, insisted);
    AccountIs(ix, ata(owner, insisted.key, mint));
    CreationFields(ata, ix, mint, PolicyFor(details.splits, SponsorFor(details)).allowed, insisted, SponsorFor(details), owner);
  }

  lemma {:induction false} CreationFields(
    ata: Derivation, ix: ParsedInstruction, mint: Pubkey, allowed: set<Pubkey>, insisted: KeyText, payer: Option<Pubkey>,
    owner: Pubkey)
    requires IsKind(ix, "createIdempotent") && insisted.Key?
    ensures ParsedAtaCreation(ata, ix, Some(mint), allowed, insisted, payer) == Ok(owner)
      <==> var info := ix.parsed.info.value;
           && StringField(info, ["source", "payer"]).Some?
           && (payer.Some? ==> StringField(info, ["source", "payer"]) == Some(Key(payer.value)))
           && StringField(info, ["mint"]) == Some(Key(mint))
           && (StringField(info, ["tokenProgram"]).Some? ==> StringField(info, ["tokenProgram"]).value == insisted)
           && IsTokenText(insisted)
           && StringField(info, ["account", "associatedAccount", "associatedTokenAddress"])
              == Some(Key(ata(owner, insisted.key, mint)))
           && StringField(info, ["wallet", "owner"]) == Some(Key(owner))
           && owner in allowed
  {
  }

  lemma {:induction false} CreationIff(
    ata: Derivation, request: ChargeRequest, details: MethodDetails, defaultProgram: Pubkey, mint: Option<Pubkey>,
    ix: ParsedInstruction, owner: Pubkey)
    requires MintFor(request, mint) && (IsSponsored(details) ==> details.feePayerKey.value.Key?)
    requires Names(ix, AssociatedTokenProgram)
    ensures ParsedAtaCreation(
              ata, ix, mint, PolicyFor(details.splits, SponsorFor(details)).allowed, Insisted(details, defaultProgram),
              SponsorFor(details)) == Ok(owner)
      <==> Creates(ata, request, details, defaultProgram, ix, owner)
  {
    if mint.Some? {
      AnyCreationIff(ata, details, mint.value, Insisted(details, defaultProgram), ix, owner);
    }
  }

  lemma {:induction false} AnyCreationIff(
    ata: Derivation, details: MethodDetails, mint: Pubkey, insisted: KeyText, ix: ParsedInstruction, owner: Pubkey)
    requires Names(ix, AssociatedTokenProgram) && (IsSponsored(details) ==> details.feePayerKey.value.Key?)
    ensures ParsedAtaCreation(
              ata, ix, Some(mint), PolicyFor(details.splits, SponsorFor(details)).allowed, insisted, SponsorFor(details)) == Ok(owner)
      <==> CreatesAccount(ata, details, mint, insisted, ix, owner)
  {
    if IsKind(ix, "createIdempotent") && insisted.Key? {
      AccountCreationIff(ata, details, mint, insisted, ix, owner);
    }
  }

  lemma {:induction false} CreatesSomeIff(
    ata: Derivation, request: ChargeRequest, details: MethodDetails, defaultProgram: Pubkey, mint: Option<Pubkey>,
    ix: ParsedInstruction)
    requires MintFor(request, mint) && (IsSponsored(details) ==> details.feePayerKey.value.Key?)
    requires Names(ix, AssociatedTokenProgram)
    ensures ParsedAtaCreation(
              ata, ix, mint, PolicyFor(details.splits, SponsorFor(details)).allowed, Insisted(details, defaultProgram),
              SponsorFor(details)).Ok?
      <==> CreatesSome(ata, request, details, defaultProgram, ix)
  {
    var creation := ParsedAtaCreation(
      ata, ix, mint, PolicyFor(details.splits, SponsorFor(details)).allowed, Insisted(details, defaultProgram), SponsorFor(details));
    if creation.Ok? {
      CreationIff(ata, request, details, defaultProgram, mint, ix, creation.value);
    } else if CreatesSome(ata, request, details, defaultProgram, ix) {
      var owner :| Creates(ata, request, details, defaultProgram, ix, owner);
      CreationIff(ata, request, details, defaultProgram, mint, ix, owner);
    }
  }

  lemma {:induction false} AllowedIff(
    ata: Derivation, ixs: seq<ParsedInstruction>, i: nat, matched: set<nat>, request: ChargeRequest, details: MethodDetails,
    defaultProgram: Pubkey, mint: Option<Pubkey>)
    requires i < |ixs| && MintFor(request, mint) && (IsSponsored(details) ==> details.feePayerKey.value.Key?)
    ensures ParsedAllowed(
              ata, ixs, i, matched, mint, PolicyFor(details.splits, SponsorFor(details)).allowed,
              Insisted(details, defaultProgram), SponsorFor(details))
      <==> || Names(ixs[i], ComputeBudgetProgram)
           || (MayHoldMoneyOrMemo(ixs[i]) && i in matched)
           || CreatesSome(ata, request, details, defaultProgram, ixs[i])
  {
    if Names(ixs[i], AssociatedTokenProgram) {
      CreatesSomeIff(ata, request, details, defaultProgram, mint, ixs[i]);
    }
  }

  lemma {:induction false} CreatedIff(
    ata: Derivation, ixs: seq<ParsedInstruction>, request: ChargeRequest, details: MethodDetails, defaultProgram: Pubkey,
    mint: Option<Pubkey>, owner: Pubkey)
    requires MintFor(request, mint) && (IsSponsored(details) ==> details.feePayerKey.value.Key?)
    ensures ParsedCreated(
              ata, ixs, mint, PolicyFor(details.splits, SponsorFor(details)).allowed, Insisted(details, defaultProgram),
              SponsorFor(details), owner)
      <==> exists i :: 0 <= i < |ixs| && Creates(ata, request, details, defaultProgram, ixs[i], owner)
  {
    var allowed, insisted, payer :=
      PolicyFor(details.splits, SponsorFor(details)).allowed, Insisted(details, defaultProgram), SponsorFor(details);
    forall i | 0 <= i < |ixs|
      ensures ParsedCreatesFor(ata, ixs, i, mint, allowed, insisted, payer, owner)
        <==> Creates(ata, request, details, defaultProgram, ixs[i], owner)
    {
      NamesIs(ixs[i], AssociatedTokenProgram);
      if Names(ixs[i], AssociatedTokenProgram) {
        CreationIff(ata, request, details, defaultProgram, mint, ixs[i], owner);
      }
    }
  }

  // ── Soundness ──

  lemma {:induction false} RowAt(
    ata: Derivation, ixs: seq<ParsedInstruction>, request: ChargeRequest, details: MethodDetails, t: ParsedTerms, k: nat)
    requires RecipientsParse(details.splits) && k < |ParsedRows(ata, ixs, request, details, t)|
    ensures var row := ParsedRows(ata, ixs, request, details, t)[k];
      if k == 0 then row.probes.Some?
      else if k <= |details.splits| then row.probes.Some? <==> details.splits[k - 1].amount.Some?
      else row.probes.Some? <==> |ExpectedMemos(request.externalId, details.splits)[k - 1 - |details.splits|]| <= 566
  {
  }

  lemma {:induction false} AcceptedIsCharge(
    ata: Derivation, ixs: seq<ParsedInstruction>, request: ChargeRequest, details: MethodDetails, defaultProgram: Pubkey)
    requires VerifyParsed(ata, ixs, request, details, defaultProgram).Ok?
    ensures IsBegun(request, details) && IsCharge(request, details)
  {
    TermsIff(request, details, defaultProgram);
    var t := DeriveParsedTerms(request, details, defaultProgram).value;
    var rows := ParsedRows(ata, ixs, request, details, t);
    var memos := ExpectedMemos(request.externalId, details.splits);
    MatchedRowsAreWellFormed(rows, {});
    forall k | 0 <= k < |details.splits| ensures details.splits[k].amount.Some? {
      RowAt(ata, ixs, request, details, t, 1 + k);
    }
    forall k | 0 <= k < |memos| ensures |memos[k]| <= 566 {
      RowAt(ata, ixs, request, details, t, 1 + |details.splits| + k);
    }
    MemosAreShort(request, details);
  }

  lemma {:induction false} AcceptedSettles(
    ata: Derivation, ixs: seq<ParsedInstruction>, request: ChargeRequest, details: MethodDetails, defaultProgram: Pubkey)
    returns (chosen: seq<nat>)
    requires VerifyParsed(ata, ixs, request, details, defaultProgram).Ok?
    ensures IsPayable(request, details) && SettlesWith(ata, ixs, request, details, defaultProgram, chosen)
  {
    AcceptedIsCharge(ata, ixs, request, details, defaultProgram);
    TermsAre(request, details, defaultProgram);
    var t := DeriveParsedTerms(request, details, defaultProgram).value;
    var rows := ParsedRows(ata, ixs, request, details, t);
    chosen := MatchAllChooses(rows, {});
    DemandRow(ata, ixs, request, details, defaultProgram, t, 0);
    var matched := MatchAll(rows, {}).value;
    assert AllParsedAllowed(ata, ixs, matched, t.mint, t.policy.allowed, t.tokenProgram, t.payer);
    forall k | 0 <= k < |chosen|
      ensures chosen[k] < |ixs|
      ensures Meets(ata, request, details, defaultProgram, ixs[chosen[k]], Demands(request, details)[k])
      ensures Names(ixs[chosen[k]], ComputeBudgetProgram) || MayHoldMoneyOrMemo(ixs[chosen[k]])
    {
      DemandRow(ata, ixs, request, details, defaultProgram, t, k);
      AllowedIff(ata, ixs, chosen[k], matched, request, details, defaultProgram, t.mint);
      PaymentsCreateNothing(ata, request, details, defaultProgram, ixs[chosen[k]], Demands(request, details)[k]);
    }
    forall i | 0 <= i < |ixs| && i !in chosen
      ensures Names(ixs[i], ComputeBudgetProgram) || CreatesSome(ata, request, details, defaultProgram, ixs[i])
    {
      AllowedIff(ata, ixs, i, matched, request, details, defaultProgram, t.mint);
    }
  }

  lemma {:induction false} PaymentsCreateNothing(
    ata: Derivation, request: ChargeRequest, details: MethodDetails, defaultProgram: Pubkey, ix: ParsedInstruction, e: Effect)
    requires Meets(ata, request, details, defaultProgram, ix, e)
    ensures !CreatesSome(ata, request, details, defaultProgram, ix)
  {
  }

  /** Whatever the parsed check accepts pays the charge, on the reported fields alone. */
  lemma {:induction false} AcceptedHonours(
    ata: Derivation, ixs: seq<ParsedInstruction>, request: ChargeRequest, details: MethodDetails, defaultProgram: Pubkey)
    requires VerifyParsed(ata, ixs, request, details, defaultProgram).Ok?
    ensures Honours(ata, ixs, request, details, defaultProgram)
  {
    AcceptedIsCharge(ata, ixs, request, details, defaultProgram);
    TermsAre(request, details, defaultProgram);
    var t := DeriveParsedTerms(request, details, defaultProgram).value;
    var chosen := AcceptedSettles(ata, ixs, request, details, defaultProgram);
    forall owner | IsMarked(details, owner)
      ensures exists i :: 0 <= i < |ixs| && Creates(ata, request, details, defaultProgram, ixs[i], owner)
    {
      OwnersAre(details, t.payer, owner);
      CreatedIff(ata, ixs, request, details, defaultProgram, t.mint, owner);
    }
  }

  // ── Completeness ──

  /** An instruction that meets one demand meets no other. */
  lemma {:induction false} MeetsOne(
    ata: Derivation, request: ChargeRequest, details: MethodDetails, defaultProgram: Pubkey, ix: ParsedInstruction, e: Effect, e': Effect)
    requires Injective(ata)
    requires IsCoherent([ix])
    requires Meets(ata, request, details, defaultProgram, ix, e) && Meets(ata, request, details, defaultProgram, ix, e')
    ensures e == e'
  {
    assert [ix][0] == ix;
  }

  lemma {:induction false} ExtrasMeetNothing(
    ata: Derivation, request: ChargeRequest, details: MethodDetails, defaultProgram: Pubkey, ix: ParsedInstruction, e: Effect)
    requires IsCoherent([ix])
    requires Names(ix, ComputeBudgetProgram) || CreatesSome(ata, request, details, defaultProgram, ix)
    ensures !Meets(ata, request, details, defaultProgram, ix, e)
  {
    assert [ix][0] == ix;
  }

  lemma {:induction false} DemandAnswers(
    ata: Derivation, ixs: seq<ParsedInstruction>, request: ChargeRequest, details: MethodDetails, defaultProgram: Pubkey,
    t: ParsedTerms, chosen: seq<nat>, k: nat)
    requires Injective(ata) && IsCoherent(ixs) && IsCharge(request, details) && IsBegun(request, details)
    requires DeriveParsedTerms(request, details, defaultProgram) == Ok(t)
    requires SettlesWith(ata, ixs, request, details, defaultProgram, chosen) && k < |chosen|
    ensures var rows := ParsedRows(ata, ixs, request, details, t);
      |rows| == |chosen| && AnswersByChoice(rows[k], Demands(request, details)[k], |ixs|, chosen, Demands(request, details))
  {
    DemandRow(ata, ixs, request, details, defaultProgram, t, k);
    var wants := Demands(request, details);
    var probes := ParsedRows(ata, ixs, request, details, t)[k].probes.value;
    forall j | 0 <= j < |chosen| ensures probes[chosen[j]] == if wants[j] == wants[k] then Hit else Skip {
      var ix := ixs[chosen[j]];
      assert IsCoherent([ix]);
      if Meets(ata, request, details, defaultProgram, ix, wants[k]) {
        MeetsOne(ata, request, details, defaultProgram, ix, wants[j], wants[k]);
      }
    }
    forall i | 0 <= i < |ixs| && i !in chosen ensures probes[i] == Skip {
      assert IsCoherent([ixs[i]]);
      ExtrasMeetNothing(ata, request, details, defaultProgram, ixs[i], wants[k]);
    }
  }

  lemma {:induction false} HonouredMatches(
    ata: Derivation, ixs: seq<ParsedInstruction>, request: ChargeRequest, details: MethodDetails, defaultProgram: Pubkey,
    t: ParsedTerms, chosen: seq<nat>)
    requires Injective(ata) && IsCoherent(ixs) && IsCharge(request, details) && IsBegun(request, details)
    requires DeriveParsedTerms(request, details, defaultProgram) == Ok(t)
    requires SettlesWith(ata, ixs, request, details, defaultProgram, chosen)
    ensures MatchAll(ParsedRows(ata, ixs, request, details, t), {}).Ok?
    ensures forall i :: i in chosen ==> i in MatchAll(ParsedRows(ata, ixs, request, details, t), {}).value
  {
    var rows := ParsedRows(ata, ixs, request, details, t);
    DemandRow(ata, ixs, request, details, defaultProgram, t, 0);
    forall k | 0 <= k < |chosen|
      ensures AnswersByChoice(rows[k], Demands(request, details)[k], |ixs|, chosen, Demands(request, details))
    {
      DemandAnswers(ata, ixs, request, details, defaultProgram, t, chosen, k);
    }
    ChoiceSuffices(rows, Demands(request, details), |ixs|, chosen);
  }

  lemma {:induction false} HonouredAllowed(
    ata: Derivation, ixs: seq<ParsedInstruction>, i: nat, matched: set<nat>, request: ChargeRequest, details: MethodDetails,
    defaultProgram: Pubkey, mint: Option<Pubkey>, chosen: seq<nat>)
    requires MintFor(request, mint) && IsCharge(request, details) && i < |ixs|
    requires SettlesWith(ata, ixs, request, details, defaultProgram, chosen) && forall j :: j in chosen ==> j in matched
    ensures ParsedAllowed(
      ata, ixs, i, matched, mint, PolicyFor(details.splits, SponsorFor(details)).allowed, Insisted(details, defaultProgram),
      SponsorFor(details))
  {
    AllowedIff(ata, ixs, i, matched, request, details, defaultProgram, mint);
    if i in chosen {
      var k :| 0 <= k < |chosen| && chosen[k] == i;
      assert Names(ixs[chosen[k]], ComputeBudgetProgram) || MayHoldMoneyOrMemo(ixs[chosen[k]]);
    }
  }

  lemma {:induction false} HonouredIsAccepted(
    ata: Derivation, ixs: seq<ParsedInstruction>, request: ChargeRequest, details: MethodDetails, defaultProgram: Pubkey)
    requires Injective(ata) && IsCoherent(ixs) && Honours(ata, ixs, request, details, defaultProgram)
    ensures VerifyParsed(ata, ixs, request, details, defaultProgram).Ok?
  {
    TermsAre(request, details, defaultProgram);
    var t := DeriveParsedTerms(request, details, defaultProgram).value;
    var chosen :| SettlesWith(ata, ixs, request, details, defaultProgram, chosen);
    HonouredMatches(ata, ixs, request, details, defaultProgram, t, chosen);
    HonouredHolds(
      ata, ixs, MatchAll(ParsedRows(ata, ixs, request, details, t), {}).value, request, details, defaultProgram, t.mint, chosen);
  }

  lemma {:induction false} HonouredHolds(
    ata: Derivation, ixs: seq<ParsedInstruction>, matched: set<nat>, request: ChargeRequest, details: MethodDetails,
    defaultProgram: Pubkey, mint: Option<Pubkey>, chosen: seq<nat>)
    requires MintFor(request, mint) && Honours(ata, ixs, request, details, defaultProgram)
    requires SettlesWith(ata, ixs, request, details, defaultProgram, chosen) && forall j :: j in chosen ==> j in matched
    ensures ParsedAllowlistHolds(
      ata, ixs, matched, mint, PolicyFor(details.splits, SponsorFor(details)), Insisted(details, defaultProgram), SponsorFor(details))
  {
    var policy, insisted, payer :=
      PolicyFor(details.splits, SponsorFor(details)), Insisted(details, defaultProgram), SponsorFor(details);
    forall i | 0 <= i < |ixs| ensures ParsedAllowed(ata, ixs, i, matched, mint, policy.allowed, insisted, payer) {
      HonouredAllowed(ata, ixs, i, matched, request, details, defaultProgram, mint, chosen);
    }
    forall owner | owner in policy.required ensures ParsedCreated(ata, ixs, mint, policy.allowed, insisted, payer, owner) {
      OwnersAre(details, payer, owner);
      CreatedIff(ata, ixs, request, details, defaultProgram, mint, owner);
    }
  }

  /** On coherent reports the parsed check accepts exactly what pays the charge. */
  lemma {:induction false} AcceptedIff(
    ata: Derivation, ixs: seq<ParsedInstruction>, request: ChargeRequest, details: MethodDetails, defaultProgram: Pubkey)
    requires Injective(ata)
    ensures VerifyParsed(ata, ixs, request, details, defaultProgram).Ok? ==> Honours(ata, ixs, request, details, defaultProgram)
    ensures IsCoherent(ixs) && Honours(ata, ixs, request, details, defaultProgram) ==>
              VerifyParsed(ata, ixs, request, details, defaultProgram).Ok?
  {
    if VerifyParsed(ata, ixs, request, details, defaultProgram).Ok? {
      AcceptedHonours(ata, ixs, request, details, defaultProgram);
    } else if IsCoherent(ixs) && Honours(ata, ixs, request, details, defaultProgram) {
      HonouredIsAccepted(ata, ixs, request, details, defaultProgram);
    }
  }

  /** A challenge at fault is refused for what is wrong with it, before any instruction is looked at. */
  lemma {:induction false} Refusals(
    ata: Derivation, ixs: seq<ParsedInstruction>, request: ChargeRequest, details: MethodDetails, defaultProgram: Pubkey)
    ensures request.amount.None? || MainAmount(request, details) <= 0 ==>
              VerifyParsed(ata, ixs, request, details, defaultProgram) == Err(InvalidAmount)
    ensures && request.amount.Some? && MainAmount(request, details) > 0
            && (|| request.recipient.None?
                || (&& (IsSponsored(details) ==> details.feePayerKey.value.Key?)
                    && (|| request.recipient.value.Malformed?
                        || exists k :: 0 <= k < |details.splits| && details.splits[k].recipient.Malformed?)))
            ==> VerifyParsed(ata, ixs, request, details, defaultProgram) == Err(InvalidRecipient)
    ensures && request.amount.Some? && MainAmount(request, details) > 0
            && request.recipient.Some? && request.recipient.value.Key?
            && (forall k :: 0 <= k < |details.splits| ==> details.splits[k].recipient.Key?)
            && !IsBegun(request, details)
            ==> VerifyParsed(ata, ixs, request, details, defaultProgram) == Err(InvalidPayload)
  {
    TermsIff(request, details, defaultProgram);
    if request.amount.Some? {
      AmountIs(request, details);
    }
  }

  // ── Coherence is needed ──

  /** A memo that the report also calls a transfer, then the transfer. */
  function Muddled(to: Pubkey, amount: u64, memo: seq<byte>): seq<ParsedInstruction> {
    var info := Info(map["destination" := Key(to)], Some(amount), None, Some(memo));
    [ParsedInstruction(Some(Key(MemoProgram)), OtherName, ParsedObject("transfer", Some(info))),
     ParsedInstruction(Some(Key(SystemProgram)), OtherName, ParsedObject("transfer", Some(info.(memo := None))))]
  }

  lemma {:induction false} ScanBoth(probes: seq<Probe<VerificationError>>, taken: set<nat>)
    requires |probes| == 2
    ensures 0 !in taken && probes[0] == Hit ==> Scan(probes, taken, 0) == Found(0)
    ensures 0 in taken && probes[1] == Skip ==> Scan(probes, taken, 0) == Missing
  {
    assert Scan(probes, taken, 2) == Missing;
    assert 0 in taken ==> Scan(probes, taken, 0) == Scan(probes, taken, 1);
  }

  function NotedRequest(to: Pubkey, amount: u64, memo: seq<byte>): ChargeRequest {
    ChargeRequest(Some(amount), Native, Some(Key(to)), Some(memo))
  }

  const PLAIN_DETAILS := MethodDetails(None, None, false, None, [])

  lemma {:induction false} MuddledDemands(to: Pubkey, amount: u64, memo: seq<byte>)
    requires amount > 0 && 0 < |memo| <= 566
    ensures IsPayable(NotedRequest(to, amount, memo), PLAIN_DETAILS)
    ensures Demands(NotedRequest(to, amount, memo), PLAIN_DETAILS) == [Pay(to, amount), Note(memo)]
  {
    assert Payments([]) == [] && Remarks([]) == [] && Total([]) == 0;
  }

  lemma {:induction false} MuddledMeets(ata: Derivation, to: Pubkey, amount: u64, memo: seq<byte>, defaultProgram: Pubkey)
    ensures var ixs, request := Muddled(to, amount, memo), NotedRequest(to, amount, memo);
      && Meets(ata, request, PLAIN_DETAILS, defaultProgram, ixs[0], Pay(to, amount))
      && Meets(ata, request, PLAIN_DETAILS, defaultProgram, ixs[0], Note(memo))
      && Meets(ata, request, PLAIN_DETAILS, defaultProgram, ixs[1], Pay(to, amount))
      && !Meets(ata, request, PLAIN_DETAILS, defaultProgram, ixs[1], Note(memo))
  {
  }

  lemma {:induction false} MuddledHonours(ata: Derivation, to: Pubkey, amount: u64, memo: seq<byte>, defaultProgram: Pubkey)
    requires amount > 0 && 0 < |memo| <= 566
    ensures Honours(ata, Muddled(to, amount, memo), NotedRequest(to, amount, memo), PLAIN_DETAILS, defaultProgram)
  {
    MuddledDemands(to, amount, memo);
    MuddledMeets(ata, to, amount, memo, defaultProgram);
    assert SettlesWith(ata, Muddled(to, amount, memo), NotedRequest(to, amount, memo), PLAIN_DETAILS, defaultProgram, [1, 0]);
  }

  /** The payment then takes the memo's place, and no memo is left: the charge is paid, and refused. */
  lemma {:induction false} MuddledIsRefused(ata: Derivation, to: Pubkey, amount: u64, memo: seq<byte>, defaultProgram: Pubkey)
    requires amount > 0 && 0 < |memo| <= 566
    ensures Honours(ata, Muddled(to, amount, memo), NotedRequest(to, amount, memo), PLAIN_DETAILS, defaultProgram)
    ensures VerifyParsed(ata, Muddled(to, amount, memo), NotedRequest(to, amount, memo), PLAIN_DETAILS, defaultProgram)
      == Err(InvalidPayload)
  {
    var request, ixs := NotedRequest(to, amount, memo), Muddled(to, amount, memo);
    MuddledHonours(ata, to, amount, memo, defaultProgram);
    MuddledDemands(to, amount, memo);
    MuddledMeets(ata, to, amount, memo, defaultProgram);
    TermsAre(request, PLAIN_DETAILS, defaultProgram);
    var t := DeriveParsedTerms(request, PLAIN_DETAILS, defaultProgram).value;
    var rows := ParsedRows(ata, ixs, request, PLAIN_DETAILS, t);
    DemandRow(ata, ixs, request, PLAIN_DETAILS, defaultProgram, t, 0);
    DemandRow(ata, ixs, request, PLAIN_DETAILS, defaultProgram, t, 1);
    MemoRowAt(ata, ixs, request, PLAIN_DETAILS, t, 1);
    ScanBoth(rows[0].probes.value, {});
    ScanBoth(rows[1].probes.value, {0});
    MuddledMatching(rows);
  }

  lemma {:induction false} MuddledMatching(rows: seq<Row<VerificationError>>)
    requires |rows| == 2 && rows[0].probes.Some? && rows[1].probes.Some? && rows[1].missing == InvalidPayload
    requires Scan(rows[0].probes.value, {}, 0) == Found(0) && Scan(rows[1].probes.value, {0}, 0) == Missing
    ensures MatchAll(rows, {}) == Err(InvalidPayload)
  {
    assert {} + {0} == {0 as nat};
    assert rows[1..][0] == rows[1];
    assert MatchRow(rows[0], {}) == Ok({0});
  }
}
