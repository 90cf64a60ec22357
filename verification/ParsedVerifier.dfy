/** The server's check of a confirmed transaction in the parsed form an RPC node reports. */
module ParsedVerifier {
  import opened Common
  import opened Charge
  import opened FirstFit
  import opened ChargeVerifier
  import opened ChargeGuarantees

  datatype ProgramName = SystemName | ComputeBudgetName | SplMemoName | SplAssociatedTokenAccountName | OtherName

  /** The string-valued fields the check reads as addresses, and the amounts and memo it reads. */
  datatype Info = Info(keys: map<string, KeyText>, lamports: Option<u64>, tokenAmount: Option<u64>, memo: Option<seq<byte>>)

  datatype Parsed = Unparsed | ParsedText(text: seq<byte>) | ParsedObject(kind: string, info: Option<Info>)

  datatype ParsedInstruction = ParsedInstruction(programId: Option<KeyText>, program: ProgramName, parsed: Parsed)

  function ParsedProgramId(ix: ParsedInstruction): Option<KeyText> {
    if ix.programId.Some? then ix.programId
    else
      match ix.program
      case SystemName => Some(Key(SystemProgram))
      case ComputeBudgetName => Some(Key(ComputeBudgetProgram))
      case SplMemoName => Some(Key(MemoProgram))
      case SplAssociatedTokenAccountName => Some(Key(AssociatedTokenProgram))
      case OtherName => None
  }

  /** The first of the named fields that is present. */
  function StringField(info: Info, names: seq<string>): Option<KeyText> {
    if names == [] then None
    else if names[0] in info.keys then Some(info.keys[names[0]])
    else StringField(info, names[1..])
  }

  function ParsedMemoText(ix: ParsedInstruction): Option<seq<byte>> {
    match ix.parsed
    case ParsedText(text) => Some(text)
    case ParsedObject(_, info) => if info.Some? then info.value.memo else None
    case Unparsed => None
  }

  // ── One parsed instruction against one expectation ──

  function ParsedSolProbe(ix: ParsedInstruction, recipient: Pubkey, amount: nat): Probe<VerificationError> {
    if !ix.parsed.ParsedObject? || ix.parsed.kind != "transfer" || ix.parsed.info.None? then Skip
    else
      var info := ix.parsed.info.value;
      var lamports := if info.lamports.Some? then info.lamports.value else 0;
      if StringField(info, ["destination"]) == Some(Key(recipient)) && lamports == amount then Hit else Skip
  }

  predicate VerifyAtaOwner(ata: Derivation, account: Option<KeyText>, owner: Pubkey, mint: Pubkey, tokenProgram: Pubkey) {
    account == Some(Key(ata(owner, tokenProgram, mint)))
  }

  function ParsedSplProbe(
    ata: Derivation, ix: ParsedInstruction, recipient: Pubkey, mint: Pubkey, amount: nat, tokenProgram: KeyText)
    : Probe<VerificationError>
  {
    if ix.programId != Some(Key(TokenProgram)) && ix.programId != Some(Key(Token2022Program)) then Skip
    else if ix.programId.value != tokenProgram then Skip
    else if !ix.parsed.ParsedObject? || ix.parsed.kind != "transferChecked" || ix.parsed.info.None? then Skip
    else
      var info := ix.parsed.info.value;
      var tokenAmount := if info.tokenAmount.Some? then info.tokenAmount.value else 0;
      if && tokenAmount == amount
         && StringField(info, ["mint"]) == Some(Key(mint))
         && VerifyAtaOwner(ata, StringField(info, ["destination"]), recipient, mint, ix.programId.value.key)
      then Hit else Skip
  }

  function ParsedMemoProbe(ix: ParsedInstruction, memo: seq<byte>): Probe<VerificationError> {
    if ParsedProgramId(ix) == Some(Key(MemoProgram)) && ParsedMemoText(ix) == Some(memo) then Hit else Skip
  }

  /** `mint` is absent for native SOL. */
  function ParsedTransferProbe(
    ata: Derivation, ix: ParsedInstruction, mint: Option<Pubkey>, tokenProgram: KeyText, recipient: Pubkey, amount: nat)
    : Probe<VerificationError>
  {
    match mint
    case None => ParsedSolProbe(ix, recipient, amount)
    case Some(m) => ParsedSplProbe(ata, ix, recipient, m, amount, tokenProgram)
  }

  function ParsedTransferRow(
    ata: Derivation, ixs: seq<ParsedInstruction>, mint: Option<Pubkey>, tokenProgram: KeyText, recipient: Pubkey, amount: Option<nat>)
    : Row<VerificationError>
  {
    match amount
    case None => Row(None, InvalidAmount)
    case Some(a) =>
      Row(Some(seq(|ixs|, i requires 0 <= i < |ixs| => ParsedTransferProbe(ata, ixs[i], mint, tokenProgram, recipient, a))),
          InvalidAmount)
  }

  function ParsedMemoRow(ixs: seq<ParsedInstruction>, memo: seq<byte>): Row<VerificationError> {
    if |memo| > MAX_MEMO_BYTES then Row(None, InvalidPayload)
    else Row(Some(seq(|ixs|, i requires 0 <= i < |ixs| => ParsedMemoProbe(ixs[i], memo))), InvalidPayload)
  }

  function ParsedTransferRows(
    ata: Derivation, ixs: seq<ParsedInstruction>, mint: Option<Pubkey>, tokenProgram: KeyText, recipient: Pubkey, primary: nat,
    splits: seq<Split>): seq<Row<VerificationError>>
    requires RecipientsParse(splits)
  {
    [ParsedTransferRow(ata, ixs, mint, tokenProgram, recipient, Some(primary))]
    + seq(|splits|, k requires 0 <= k < |splits| =>
        ParsedTransferRow(ata, ixs, mint, tokenProgram, splits[k].recipient.key, splits[k].amount))
  }

  function ParsedMemoRows(ixs: seq<ParsedInstruction>, memos: seq<seq<byte>>): seq<Row<VerificationError>> {
    seq(|memos|, k requires 0 <= k < |memos| => ParsedMemoRow(ixs, memos[k]))
  }

  method FindTransfer(
    ata: Derivation, ixs: seq<ParsedInstruction>, mint: Option<Pubkey>, tokenProgram: KeyText, recipient: Pubkey, amount: nat,
    matched: set<nat>) returns (r: Verdict<set<nat>>)
    ensures r == MatchRow(ParsedTransferRow(ata, ixs, mint, tokenProgram, recipient, Some(amount)), matched)
  {
    ghost var probes := ParsedTransferRow(ata, ixs, mint, tokenProgram, recipient, Some(amount)).probes.value;
    for i := 0 to |ixs|
      invariant Scan(probes, matched, 0) == Scan(probes, matched, i)
    {
      if i !in matched && ParsedTransferProbe(ata, ixs[i], mint, tokenProgram, recipient, amount) == Hit {
        return Ok(matched + {i});
      }
    }
    return Err(InvalidAmount);
  }

  /** The SOL and the SPL walk over the primary transfer and the splits. */
  method VerifyParsedTransfers(
    ata: Derivation, ixs: seq<ParsedInstruction>, mint: Option<Pubkey>, tokenProgram: KeyText, recipient: Pubkey, primary: nat,
    splits: seq<Split>) returns (r: Verdict<set<nat>>)
    requires RecipientsParse(splits)
    ensures r == MatchAll(ParsedTransferRows(ata, ixs, mint, tokenProgram, recipient, primary, splits), {})
  {
    ghost var rows := ParsedTransferRows(ata, ixs, mint, tokenProgram, recipient, primary, splits);
    r := FindTransfer(ata, ixs, mint, tokenProgram, recipient, primary, {});
    if r.Err? { return; }
    var matched: set<nat> := r.value;
    for k := 0 to |splits|
      invariant MatchAll(rows, {}) == MatchAll(rows[k + 1..], matched)
    {
      assert rows[k + 1..][0] == ParsedTransferRow(ata, ixs, mint, tokenProgram, splits[k].recipient.key, splits[k].amount);
      assert rows[k + 1..][1..] == rows[k + 2..];
      if splits[k].amount.None? { return Err(InvalidAmount); }
      r := FindTransfer(ata, ixs, mint, tokenProgram, splits[k].recipient.key, splits[k].amount.value, matched);
      if r.Err? { return; }
      matched := r.value;
    }
    return Ok(matched);
  }

  method VerifyParsedMemoInstructions(
    ixs: seq<ParsedInstruction>, externalId: Option<seq<byte>>, splits: seq<Split>, matched: set<nat>)
    returns (r: Verdict<set<nat>>)
    ensures r == MatchAll(ParsedMemoRows(ixs, ExpectedMemos(externalId, splits)), matched)
  {
    var memos := ExpectedMemos(externalId, splits);
    ghost var rows := ParsedMemoRows(ixs, memos);
    var indexes: set<nat> := matched;
    for k := 0 to |memos|
      invariant MatchAll(rows, matched) == MatchAll(rows[k..], indexes)
    {
      assert rows[k..][0] == ParsedMemoRow(ixs, memos[k]);
      assert rows[k..][1..] == rows[k + 1..];
      if |memos[k]| > MAX_MEMO_BYTES { return Err(InvalidPayload); }
      ghost var probes := ParsedMemoRow(ixs, memos[k]).probes.value;
      var i := 0;
      while i < |ixs| && (i in indexes || ParsedMemoProbe(ixs[i], memos[k]) == Skip)
        invariant 0 <= i <= |ixs|
        invariant Scan(probes, indexes, 0) == Scan(probes, indexes, i)
      {
        i := i + 1;
      }
      if i == |ixs| { return Err(InvalidPayload); }
      indexes := indexes + {i};
    }
    return Ok(indexes);
  }

  // ── The parsed allowlist ──

  function ParsedAtaCreation(
    ata: Derivation, ix: ParsedInstruction, mint: Option<Pubkey>, allowed: set<Pubkey>, tokenProgram: KeyText, payer: Option<Pubkey>)
    : Verdict<Pubkey>
  {
    if mint.None? || !ix.parsed.ParsedObject? || ix.parsed.kind != "createIdempotent" || ix.parsed.info.None? then
      Err(InvalidPayload)
    else
      var info := ix.parsed.info.value;
      var ixPayer := StringField(info, ["source", "payer"]);
      var account := StringField(info, ["account", "associatedAccount", "associatedTokenAddress"]);
      var ixMint := StringField(info, ["mint"]);
      var program := StringField(info, ["tokenProgram"]);
      match StringField(info, ["wallet", "owner"])
      case Some(Key(owner)) =>
        if && ixPayer.Some? && account.Some?
           && (payer.Some? ==> ixPayer == Some(Key(payer.value)))
           && ixMint == Some(Key(mint.value))
           && (program.Some? ==> program.value == tokenProgram)
           && tokenProgram.Key? && IsTokenProgram(tokenProgram.key)
           && VerifyAtaOwner(ata, account, owner, mint.value, tokenProgram.key)
           && owner in allowed
        then Ok(owner) else Err(InvalidPayload)
      case _ => Err(InvalidPayload)
  }

  predicate ParsedAllowed(
    ata: Derivation, ixs: seq<ParsedInstruction>, i: nat, matched: set<nat>, mint: Option<Pubkey>, allowed: set<Pubkey>,
    tokenProgram: KeyText, payer: Option<Pubkey>)
    requires i < |ixs|
  {
    var program := ParsedProgramId(ixs[i]);
    if program == Some(Key(ComputeBudgetProgram)) then true
    else if && program != Some(Key(MemoProgram)) && program != Some(Key(SystemProgram))
            && program != Some(Key(TokenProgram)) && program != Some(Key(Token2022Program))
    then program == Some(Key(AssociatedTokenProgram)) && ParsedAtaCreation(ata, ixs[i], mint, allowed, tokenProgram, payer).Ok?
    else i in matched
  }

  predicate ParsedCreatesFor(
    ata: Derivation, ixs: seq<ParsedInstruction>, i: nat, mint: Option<Pubkey>, allowed: set<Pubkey>,
    tokenProgram: KeyText, payer: Option<Pubkey>, owner: Pubkey)
    requires i < |ixs|
  {
    && ParsedProgramId(ixs[i]) == Some(Key(AssociatedTokenProgram))
    && ParsedAtaCreation(ata, ixs[i], mint, allowed, tokenProgram, payer) == Ok(owner)
  }

  predicate AllParsedAllowed(
    ata: Derivation, ixs: seq<ParsedInstruction>, matched: set<nat>, mint: Option<Pubkey>, allowed: set<Pubkey>,
    tokenProgram: KeyText, payer: Option<Pubkey>)
  {
    forall i :: 0 <= i < |ixs| ==> ParsedAllowed(ata, ixs, i, matched, mint, allowed, tokenProgram, payer)
  }

  predicate ParsedCreated(
    ata: Derivation, ixs: seq<ParsedInstruction>, mint: Option<Pubkey>, allowed: set<Pubkey>,
    tokenProgram: KeyText, payer: Option<Pubkey>, owner: Pubkey)
  {
    exists i :: 0 <= i < |ixs| && ParsedCreatesFor(ata, ixs, i, mint, allowed, tokenProgram, payer, owner)
  }

  predicate ParsedAllowlistHolds(
    ata: Derivation, ixs: seq<ParsedInstruction>, matched: set<nat>, mint: Option<Pubkey>, policy: AtaCreationPolicy,
    tokenProgram: KeyText, payer: Option<Pubkey>)
  {
    && AllParsedAllowed(ata, ixs, matched, mint, policy.allowed, tokenProgram, payer)
    && forall owner :: owner in policy.required ==> ParsedCreated(ata, ixs, mint, policy.allowed, tokenProgram, payer, owner)
  }

  method ValidateParsedInstructionAllowlist(
    ata: Derivation, ixs: seq<ParsedInstruction>, matched: set<nat>, mint: Option<Pubkey>, policy: AtaCreationPolicy,
    tokenProgram: KeyText, payer: Option<Pubkey>) returns (r: Verdict<()>)
    ensures r == if ParsedAllowlistHolds(ata, ixs, matched, mint, policy, tokenProgram, payer) then Ok(()) else Err(InvalidPayload)
  {
    var createdOwners: set<Pubkey> := {};
    for i := 0 to |ixs|
      invariant forall j :: 0 <= j < i ==> ParsedAllowed(ata, ixs, j, matched, mint, policy.allowed, tokenProgram, payer)
      invariant forall owner :: owner in createdOwners <==>
                  exists j :: 0 <= j < i && ParsedCreatesFor(ata, ixs, j, mint, policy.allowed, tokenProgram, payer, owner)
    {
      var program := ParsedProgramId(ixs[i]);
      var acceptable := true;
      if program == Some(Key(ComputeBudgetProgram)) {
      } else if program == Some(Key(MemoProgram)) || program == Some(Key(SystemProgram))
                || program == Some(Key(TokenProgram)) || program == Some(Key(Token2022Program)) {
        acceptable := i in matched;
      } else if program == Some(Key(AssociatedTokenProgram)) {
        var creation := ParsedAtaCreation(ata, ixs[i], mint, policy.allowed, tokenProgram, payer);
        if creation.Ok? {
          assert ParsedCreatesFor(ata, ixs, i, mint, policy.allowed, tokenProgram, payer, creation.value);
          createdOwners := createdOwners + {creation.value};
        } else {
          acceptable := false;
        }
      } else {
        acceptable := false;
      }
      assert acceptable == ParsedAllowed(ata, ixs, i, matched, mint, policy.allowed, tokenProgram, payer);
      if !acceptable {
        assert !AllParsedAllowed(ata, ixs, matched, mint, policy.allowed, tokenProgram, payer);
        return Err(InvalidPayload);
      }
    }
    if policy.required <= createdOwners {
      return Ok(());
    }
    return Err(InvalidPayload);
  }

  // ── The whole parsed check ──

  /** `mint` is absent for native SOL; `payer` is absent without sponsorship. */
  datatype ParsedTerms = ParsedTerms(
    mint: Option<Pubkey>, tokenProgram: KeyText, recipient: Pubkey, primary: nat, payer: Option<Pubkey>, policy: AtaCreationPolicy)

  function ParsedPrimary(request: ChargeRequest, details: MethodDetails): Verdict<nat> {
    if request.amount.None? then Err(InvalidAmount)
    else
      var splitsTotal := WrappingSplitsTotal(details.splits);
      if request.amount.value <= splitsTotal then Err(InvalidAmount) else Ok(request.amount.value - splitsTotal)
  }

  function ParsedPayer(details: MethodDetails): Verdict<Option<Pubkey>> {
    if !details.feePayer || details.feePayerKey.None? then Ok(None)
    else if details.feePayerKey.value.Malformed? then Err(InvalidPayload)
    else Ok(Some(details.feePayerKey.value.key))
  }

  /** The token program the parsed check insists on: the named one, else the default for the currency. */
  function InsistedProgram(details: MethodDetails, defaultProgram: Pubkey): KeyText {
    if details.tokenProgram.Some? then details.tokenProgram.value else Key(defaultProgram)
  }

  function DeriveParsedTerms(request: ChargeRequest, details: MethodDetails, defaultProgram: Pubkey): (r: Verdict<ParsedTerms>)
    ensures r.Ok? ==> RecipientsParse(details.splits)
  {
    match ParsedPrimary(request, details)
    case Err(error) => Err(error)
    case Ok(primary) =>
      if request.recipient.None? then Err(InvalidRecipient)
      else
        match ParsedPayer(details)
        case Err(error) => Err(error)
        case Ok(payer) =>
          if request.recipient.value.Malformed? || !RecipientsParse(details.splits) then Err(InvalidRecipient)
          else if request.currency.Native? && RequiresAtaCreation(details.splits) then Err(InvalidPayload)
          else if !request.currency.Native? && MintOf(request.currency).None? then Err(InvalidPayload)
          else if request.currency.Symbol? && RequiredOwners(details.splits) != {} then Err(InvalidPayload)
          else
            Ok(ParsedTerms(MintOf(request.currency), InsistedProgram(details, defaultProgram),
                           request.recipient.value.key, primary, payer, PolicyFor(details.splits, payer)))
  }

  function ParsedRows(
    ata: Derivation, ixs: seq<ParsedInstruction>, request: ChargeRequest, details: MethodDetails, t: ParsedTerms)
    : seq<Row<VerificationError>>
    requires RecipientsParse(details.splits)
  {
    ParsedTransferRows(ata, ixs, t.mint, t.tokenProgram, t.recipient, t.primary, details.splits)
    + ParsedMemoRows(ixs, ExpectedMemos(request.externalId, details.splits))
  }

  function VerifyParsed(
    ata: Derivation, ixs: seq<ParsedInstruction>, request: ChargeRequest, details: MethodDetails, defaultProgram: Pubkey)
    : Verdict<()>
  {
    match DeriveParsedTerms(request, details, defaultProgram)
    case Err(error) => Err(error)
    case Ok(t) =>
      match MatchAll(ParsedRows(ata, ixs, request, details, t), {})
      case Err(error) => Err(error)
      case Ok(matched) =>
        if ParsedAllowlistHolds(ata, ixs, matched, t.mint, t.policy, t.tokenProgram, t.payer) then Ok(()) else Err(InvalidPayload)
  }

  method VerifyOnChain(
    ata: Derivation, ixs: seq<ParsedInstruction>, request: ChargeRequest, details: MethodDetails, defaultProgram: Pubkey)
    returns (r: Verdict<()>)
    ensures r == VerifyParsed(ata, ixs, request, details, defaultProgram)
  {
    var derived := DeriveParsedTerms(request, details, defaultProgram);
    if derived.Err? { return Err(derived.error); }
    var t := derived.value;
    var transfers := VerifyParsedTransfers(ata, ixs, t.mint, t.tokenProgram, t.recipient, t.primary, details.splits);
    MatchAllConcat(ParsedTransferRows(ata, ixs, t.mint, t.tokenProgram, t.recipient, t.primary, details.splits),
                   ParsedMemoRows(ixs, ExpectedMemos(request.externalId, details.splits)), {});
    if transfers.Err? { return Err(transfers.error); }
    var all := VerifyParsedMemoInstructions(ixs, request.externalId, details.splits, transfers.value);
    if all.Err? { return Err(all.error); }
    r := ValidateParsedInstructionAllowlist(ata, ixs, all.value, t.mint, t.policy, t.tokenProgram, t.payer);
  }
}
