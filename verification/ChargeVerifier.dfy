/** The server's check of a client transaction before it is broadcast. */
module ChargeVerifier {
  import opened Common
  import opened Charge
  import opened FirstFit

  datatype VerificationError = TooManySplits | InvalidAmount | InvalidRecipient | InvalidPayload

  type Verdict<T> = Result<T, VerificationError>

  const MAX_COMPUTE_UNIT_LIMIT: nat := 200_000
  const MAX_COMPUTE_UNIT_PRICE_MICROLAMPORTS: nat := 5_000_000

  // ── Amounts and parties ──

  function PrimaryAmount(request: ChargeRequest, details: MethodDetails): (r: Verdict<nat>)
    ensures r.Ok? ==> r.value > 0
  {
    if |details.splits| > MAX_SPLITS then Err(TooManySplits)
    else if request.amount.None? then Err(InvalidAmount)
    else
      var splitsTotal := WrappingSplitsTotal(details.splits);
      if request.amount.value <= splitsTotal then Err(InvalidAmount)
      else Ok(request.amount.value - splitsTotal)
  }

  function ExpectedFeePayer(tx: Transaction, details: MethodDetails): Verdict<Option<Pubkey>> {
    if !details.feePayer then Ok(None)
    else
      match details.feePayerKey
      case None => Err(InvalidPayload)
      case Some(Malformed) => Err(InvalidPayload)
      case Some(Key(feePayer)) =>
        if |tx.keys| > 0 && tx.keys[0] == feePayer then Ok(Some(feePayer)) else Err(InvalidPayload)
  }

  datatype AtaCreationPolicy = AtaCreationPolicy(allowed: set<Pubkey>, required: set<Pubkey>)

  function RequiredOwners(splits: seq<Split>): set<Pubkey> {
    set k | 0 <= k < |splits| && splits[k].recipient.Key? && splits[k].ataCreationRequired :: splits[k].recipient.key
  }

  function SplitOwners(splits: seq<Split>): set<Pubkey> {
    set k | 0 <= k < |splits| && splits[k].recipient.Key? :: splits[k].recipient.key
  }

  predicate RecipientsParse(splits: seq<Split>) {
    forall k :: 0 <= k < |splits| ==> splits[k].recipient.Key?
  }

  function PolicyFor(splits: seq<Split>, feePayer: Option<Pubkey>): AtaCreationPolicy {
    AtaCreationPolicy(if feePayer.Some? then RequiredOwners(splits) else SplitOwners(splits), RequiredOwners(splits))
  }

  method ExpectedAtaCreationPolicy(splits: seq<Split>, feePayer: Option<Pubkey>) returns (r: Verdict<AtaCreationPolicy>)
    ensures r == if RecipientsParse(splits) then Ok(PolicyFor(splits, feePayer)) else Err(InvalidRecipient)
  {
    var requiredOwners: set<Pubkey> := {};
    var splitOwners: set<Pubkey> := {};
    for k := 0 to |splits|
      invariant forall j :: 0 <= j < k ==> splits[j].recipient.Key?
      invariant requiredOwners == RequiredOwners(splits[..k])
      invariant splitOwners == SplitOwners(splits[..k])
    {
      match splits[k].recipient {
        case Malformed => return Err(InvalidRecipient);
        case Key(owner) =>
          assert RequiredOwners(splits[..k + 1]) == RequiredOwners(splits[..k]) + if splits[k].ataCreationRequired then {owner} else {};
          assert SplitOwners(splits[..k + 1]) == SplitOwners(splits[..k]) + {owner};
          if splits[k].ataCreationRequired {
            requiredOwners := requiredOwners + {owner};
          }
          splitOwners := splitOwners + {owner};
      }
    }
    assert splits[..|splits|] == splits;
    var allowedOwners := if feePayer.Some? then requiredOwners else splitOwners;
    return Ok(AtaCreationPolicy(allowedOwners, requiredOwners));
  }

  function ExpectedTokenProgram(details: MethodDetails): Verdict<Option<Pubkey>> {
    match details.tokenProgram
    case None => Ok(None)
    case Some(Malformed) => Err(InvalidPayload)
    case Some(Key(program)) => if IsTokenProgram(program) then Ok(Some(program)) else Err(InvalidPayload)
  }

  function ExpectedAsset(request: ChargeRequest, details: MethodDetails): Verdict<Asset> {
    if request.currency.Native? then Ok(Sol)
    else if MintOf(request.currency).None? then Err(InvalidPayload)
    else if RequiredOwners(details.splits) != {} && request.currency.Symbol? then Err(InvalidPayload)
    else
      match ExpectedTokenProgram(details)
      case Err(error) => Err(error)
      case Ok(tokenProgram) => Ok(Spl(MintOf(request.currency).value, tokenProgram, details.decimals))
  }

  // ── One instruction against one expected transfer ──

  function SolProbe(tx: Transaction, i: nat, recipient: Pubkey, amount: nat, feePayer: Option<Pubkey>)
    : Probe<VerificationError>
    requires i < |tx.instructions|
  {
    var ix := tx.instructions[i];
    match KeyAt(tx, ix.program)
    case None => Fail(InvalidPayload)
    case Some(program) =>
      if program != SystemProgram then Skip
      else if |ix.data| < 12 then Skip
      else if FromLE(ix.data[0..4]) != 2 then Skip
      else if |ix.accounts| < 2 then Skip
      else
        match (KeyAt(tx, ix.accounts[0]), KeyAt(tx, ix.accounts[1]))
        case (Some(source), Some(dest)) =>
          if dest == recipient && FromLE(ix.data[4..12]) == amount then
            if feePayer == Some(source) then Fail(InvalidPayload) else Hit
          else Skip
        case _ => Fail(InvalidPayload)
  }

  function SplProbe(
    ata: Derivation, tx: Transaction, i: nat, asset: Asset, recipient: Pubkey, amount: nat, feePayer: Option<Pubkey>)
    : Probe<VerificationError>
    requires i < |tx.instructions| && asset.Spl?
  {
    var ix := tx.instructions[i];
    match KeyAt(tx, ix.program)
    case None => Fail(InvalidPayload)
    case Some(program) =>
      if !IsTokenProgram(program) then Skip
      else if asset.tokenProgram.Some? && program != asset.tokenProgram.value then Skip
      else if |ix.data| == 0 || ix.data[0] != 12 then Skip
      else if |ix.data| < 10 || |ix.accounts| < 4 then Skip
      else if FromLE(ix.data[1..9]) != amount then Skip
      else if asset.decimals.Some? && ix.data[9] != asset.decimals.value then Skip
      else
        match (KeyAt(tx, ix.accounts[0]), KeyAt(tx, ix.accounts[2]), KeyAt(tx, ix.accounts[1]))
        case (Some(source), Some(dest), Some(mint)) =>
          if mint != asset.mint then Skip
          else (
            match KeyAt(tx, ix.accounts[3])
            case None => Fail(InvalidPayload)
            case Some(authority) =>
              if feePayer == Some(authority) then Fail(InvalidPayload)
              else if feePayer.Some? && source == ata(feePayer.value, program, mint) then Fail(InvalidPayload)
              else if dest == ata(recipient, program, mint) then Hit
              else Skip
          )
        case _ => Fail(InvalidPayload)
  }

  function MemoProbe(tx: Transaction, i: nat, memo: seq<byte>): Probe<VerificationError>
    requires i < |tx.instructions|
  {
    var ix := tx.instructions[i];
    match KeyAt(tx, ix.program)
    case None => Fail(InvalidPayload)
    case Some(program) => if program == MemoProgram && ix.data == memo then Hit else Skip
  }

  // ── Expectations as rows ──

  function TransferProbe(
    ata: Derivation, tx: Transaction, i: nat, asset: Asset, recipient: Pubkey, amount: nat, feePayer: Option<Pubkey>)
    : Probe<VerificationError>
    requires i < |tx.instructions|
  {
    if asset.Sol? then SolProbe(tx, i, recipient, amount, feePayer)
    else SplProbe(ata, tx, i, asset, recipient, amount, feePayer)
  }

  function TransferRow(
    ata: Derivation, tx: Transaction, asset: Asset, recipient: Pubkey, amount: Option<nat>, feePayer: Option<Pubkey>)
    : Row<VerificationError>
  {
    match amount
    case None => Row(None, InvalidAmount)
    case Some(a) =>
      Row(Some(seq(|tx.instructions|, i requires 0 <= i < |tx.instructions| =>
                     TransferProbe(ata, tx, i, asset, recipient, a, feePayer))), InvalidAmount)
  }

  function SplitRows(ata: Derivation, tx: Transaction, asset: Asset, splits: seq<Split>, feePayer: Option<Pubkey>)
    : seq<Row<VerificationError>>
    requires RecipientsParse(splits)
  {
    seq(|splits|, k requires 0 <= k < |splits| =>
      TransferRow(ata, tx, asset, splits[k].recipient.key, splits[k].amount, feePayer))
  }

  function MemoRow(tx: Transaction, memo: seq<byte>): Row<VerificationError> {
    if |memo| > MAX_MEMO_BYTES then Row(None, InvalidPayload)
    else Row(Some(seq(|tx.instructions|, i requires 0 <= i < |tx.instructions| => MemoProbe(tx, i, memo))), InvalidPayload)
  }

  function MemoRows(tx: Transaction, memos: seq<seq<byte>>): seq<Row<VerificationError>> {
    seq(|memos|, k requires 0 <= k < |memos| => MemoRow(tx, memos[k]))
  }

  function AllRows(
    ata: Derivation, tx: Transaction, asset: Asset, recipient: Pubkey, primary: nat,
    externalId: Option<seq<byte>>, splits: seq<Split>, feePayer: Option<Pubkey>): seq<Row<VerificationError>>
    requires RecipientsParse(splits)
  {
    [TransferRow(ata, tx, asset, recipient, Some(primary), feePayer)]
    + SplitRows(ata, tx, asset, splits, feePayer)
    + MemoRows(tx, ExpectedMemos(externalId, splits))
  }

  // ── The matching loops ──

  /** The probes of a transfer row are those of the loop. */
  lemma {:induction false} TransferRowProbes(
    ata: Derivation, tx: Transaction, asset: Asset, recipient: Pubkey, amount: nat, feePayer: Option<Pubkey>)
    ensures var row := TransferRow(ata, tx, asset, recipient, Some(amount), feePayer);
      && row.probes.Some? && |row.probes.value| == |tx.instructions| && row.missing == InvalidAmount
  {
  }

  lemma {:induction false} TransferRowProbeAt(
    ata: Derivation, tx: Transaction, asset: Asset, recipient: Pubkey, amount: nat, feePayer: Option<Pubkey>, i: nat)
    requires i < |tx.instructions|
    ensures TransferRow(ata, tx, asset, recipient, Some(amount), feePayer).probes.value[i]
      == if asset.Sol? then SolProbe(tx, i, recipient, amount, feePayer) else SplProbe(ata, tx, i, asset, recipient, amount, feePayer)
  {
  }

  method VerifySolTransferInstructions(
    ghost ata: Derivation, tx: Transaction, recipient: Pubkey, amount: nat, feePayer: Option<Pubkey>, matched: set<nat>)
    returns (r: Verdict<set<nat>>)
    ensures r == MatchRow(TransferRow(ata, tx, Sol, recipient, Some(amount), feePayer), matched)
  {
    ghost var row := TransferRow(ata, tx, Sol, recipient, Some(amount), feePayer);
    TransferRowProbes(ata, tx, Sol, recipient, amount, feePayer);
    for i := 0 to |tx.instructions|
      invariant ScannedTo(row, matched, i)
    {
      ScanStep(row, matched, i);
      if i !in matched {
        var probe := SolProbe(tx, i, recipient, amount, feePayer);
        TransferRowProbeAt(ata, tx, Sol, recipient, amount, feePayer, i);
        match probe {
          case Fail(error) => return Err(error);
          case Hit => return Ok(matched + {i});
          case Skip =>
        }
      }
    }
    ScanEnd(row, matched);
    return Err(InvalidAmount);
  }

  method VerifySplTransferInstructions(
    ata: Derivation, tx: Transaction, asset: Asset, recipient: Pubkey, amount: nat, feePayer: Option<Pubkey>,
    matched: set<nat>) returns (r: Verdict<set<nat>>)
    requires asset.Spl?
    ensures r == MatchRow(TransferRow(ata, tx, asset, recipient, Some(amount), feePayer), matched)
  {
    ghost var row := TransferRow(ata, tx, asset, recipient, Some(amount), feePayer);
    TransferRowProbes(ata, tx, asset, recipient, amount, feePayer);
    for i := 0 to |tx.instructions|
      invariant ScannedTo(row, matched, i)
    {
      ScanStep(row, matched, i);
      if i !in matched {
        var probe := SplProbe(ata, tx, i, asset, recipient, amount, feePayer);
        TransferRowProbeAt(ata, tx, asset, recipient, amount, feePayer, i);
        match probe {
          case Fail(error) => return Err(error);
          case Hit => return Ok(matched + {i});
          case Skip =>
        }
      }
    }
    ScanEnd(row, matched);
    return Err(InvalidAmount);
  }

  lemma {:induction false} MemoRowProbes(tx: Transaction, memo: seq<byte>, i: nat)
    requires |memo| <= MAX_MEMO_BYTES && i < |tx.instructions|
    ensures MemoRow(tx, memo).probes.value[i] == MemoProbe(tx, i, memo)
  {
  }

  method VerifyMemoInstructions(tx: Transaction, externalId: Option<seq<byte>>, splits: seq<Split>, matched: set<nat>)
    returns (r: Verdict<set<nat>>)
    ensures r == MatchAll(MemoRows(tx, ExpectedMemos(externalId, splits)), matched)
  {
    var memos := ExpectedMemos(externalId, splits);
    ghost var rows := MemoRows(tx, memos);
    var indexes: set<nat> := matched;
    for k := 0 to |memos|
      invariant MatchAll(rows, matched) == MatchAll(rows[k..], indexes)
    {
      ghost var row := rows[k];
      MatchAllStep(rows, k, indexes);
      if |memos[k]| > MAX_MEMO_BYTES {
        return Err(InvalidPayload);
      }
      var found := false;
      ghost var before: set<nat> := indexes;
      var i := 0;
      while i < |tx.instructions| && !found
        invariant 0 <= i <= |tx.instructions|
        invariant |memos[k]| <= MAX_MEMO_BYTES && row == MemoRow(tx, memos[k])
        invariant !found ==> indexes == before && ScannedTo(row, before, i)
        invariant found ==> MatchRow(row, before) == Ok(indexes)
      {
        ScanStep(row, before, i);
        if i !in indexes {
          var probe := MemoProbe(tx, i, memos[k]);
          MemoRowProbes(tx, memos[k], i);
          match probe {
            case Fail(error) => return Err(error);
            case Hit =>
              indexes := indexes + {i};
              found := true;
            case Skip =>
          }
        }
        i := i + 1;
      }
      if !found {
        ScanEnd(row, before);
        return Err(InvalidPayload);
      }
    }
    return Ok(indexes);
  }

  // ── The allowlist over everything ──

  predicate ComputeBudgetAllowed(ix: CompiledInstruction) {
    && ix.accounts == []
    && |ix.data| > 0
    && ((ix.data[0] == 2 && |ix.data| == 5 && FromLE(ix.data[1..5]) <= MAX_COMPUTE_UNIT_LIMIT)
        || (ix.data[0] == 3 && |ix.data| == 9 && FromLE(ix.data[1..9]) <= MAX_COMPUTE_UNIT_PRICE_MICROLAMPORTS))
  }

  /** The owner whose token account the instruction creates, when the creation is one the charge allows. */
  function AtaCreation(
    ata: Derivation, tx: Transaction, ix: CompiledInstruction, asset: Asset, allowed: set<Pubkey>, payer: Pubkey)
    : Verdict<Pubkey>
  {
    if asset.Sol? || ix.data != [1] || |ix.accounts| != 6 then Err(InvalidPayload)
    else
      match (KeyAt(tx, ix.accounts[0]), KeyAt(tx, ix.accounts[1]), KeyAt(tx, ix.accounts[2]),
             KeyAt(tx, ix.accounts[3]), KeyAt(tx, ix.accounts[4]), KeyAt(tx, ix.accounts[5]))
      case (Some(ixPayer), Some(account), Some(owner), Some(mint), Some(system), Some(tokenProgram)) =>
        if && ixPayer == payer && mint == asset.mint && owner in allowed && system == SystemProgram
           && IsTokenProgram(tokenProgram) && (asset.tokenProgram.Some? ==> tokenProgram == asset.tokenProgram.value)
           && account == ata(owner, tokenProgram, mint)
        then Ok(owner) else Err(InvalidPayload)
      case _ => Err(InvalidPayload)
  }

  predicate InstructionAllowed(
    ata: Derivation, tx: Transaction, i: nat, matched: set<nat>, asset: Asset, allowed: set<Pubkey>, payer: Pubkey)
    requires i < |tx.instructions|
  {
    match KeyAt(tx, tx.instructions[i].program)
    case Some(ComputeBudgetProgram) => ComputeBudgetAllowed(tx.instructions[i])
    case Some(MemoProgram) => i in matched
    case Some(SystemProgram) => i in matched
    case Some(TokenProgram) => i in matched
    case Some(Token2022Program) => i in matched
    case Some(AssociatedTokenProgram) => AtaCreation(ata, tx, tx.instructions[i], asset, allowed, payer).Ok?
    case _ => false
  }

  predicate CreatesFor(
    ata: Derivation, tx: Transaction, i: nat, asset: Asset, allowed: set<Pubkey>, payer: Pubkey, owner: Pubkey)
    requires i < |tx.instructions|
  {
    && KeyAt(tx, tx.instructions[i].program) == Some(AssociatedTokenProgram)
    && AtaCreation(ata, tx, tx.instructions[i], asset, allowed, payer) == Ok(owner)
  }

  predicate AllowlistHolds(
    ata: Derivation, tx: Transaction, matched: set<nat>, asset: Asset, policy: AtaCreationPolicy, feePayer: Option<Pubkey>)
  {
    && |tx.keys| > 0
    && var payer := AtaPayer(tx, feePayer);
    && AllAllowed(ata, tx, matched, asset, policy.allowed, payer)
    && forall owner :: owner in policy.required ==> Created(ata, tx, asset, policy.allowed, payer, owner)
  }

  function AtaPayer(tx: Transaction, feePayer: Option<Pubkey>): Pubkey
    requires |tx.keys| > 0
  {
    if feePayer.Some? then feePayer.value else tx.keys[0]
  }

  predicate AllAllowed(
    ata: Derivation, tx: Transaction, matched: set<nat>, asset: Asset, allowed: set<Pubkey>, payer: Pubkey)
  {
    forall i :: 0 <= i < |tx.instructions| ==> InstructionAllowed(ata, tx, i, matched, asset, allowed, payer)
  }

  predicate Created(
    ata: Derivation, tx: Transaction, asset: Asset, allowed: set<Pubkey>, payer: Pubkey, owner: Pubkey)
  {
    exists i :: 0 <= i < |tx.instructions| && CreatesFor(ata, tx, i, asset, allowed, payer, owner)
  }

  method ValidateInstructionAllowlist(
    ata: Derivation, tx: Transaction, matched: set<nat>, asset: Asset, policy: AtaCreationPolicy, feePayer: Option<Pubkey>)
    returns (r: Verdict<()>)
    ensures r == if AllowlistHolds(ata, tx, matched, asset, policy, feePayer) then Ok(()) else Err(InvalidPayload)
  {
    if |tx.keys| == 0 {
      return Err(InvalidPayload);
    }
    var payer := AtaPayer(tx, feePayer);
    var createdOwners: set<Pubkey> := {};
    for i := 0 to |tx.instructions|
      invariant forall j :: 0 <= j < i ==> InstructionAllowed(ata, tx, j, matched, asset, policy.allowed, payer)
      invariant forall owner :: owner in createdOwners <==>
                  exists j :: 0 <= j < i && CreatesFor(ata, tx, j, asset, policy.allowed, payer, owner)
    {
      var ix := tx.instructions[i];
      var acceptable := false;
      match KeyAt(tx, ix.program) {
        case None =>
        case Some(program) =>
          if program == ComputeBudgetProgram {
            acceptable := ComputeBudgetAllowed(ix);
          } else if program == MemoProgram || program == SystemProgram || IsTokenProgram(program) {
            acceptable := i in matched;
          } else if program == AssociatedTokenProgram {
            var creation := AtaCreation(ata, tx, ix, asset, policy.allowed, payer);
            if creation.Ok? {
              assert CreatesFor(ata, tx, i, asset, policy.allowed, payer, creation.value);
              createdOwners := createdOwners + {creation.value};
              acceptable := true;
            }
          }
      }
      assert acceptable == InstructionAllowed(ata, tx, i, matched, asset, policy.allowed, payer);
      if !acceptable {
        assert !AllAllowed(ata, tx, matched, asset, policy.allowed, payer);
        return Err(InvalidPayload);
      }
    }
    if policy.required <= createdOwners {
      return Ok(());
    }
    return Err(InvalidPayload);
  }

  // ── The whole check ──

  predicate RequiresAtaCreation(splits: seq<Split>) {
    exists k :: 0 <= k < |splits| && splits[k].ataCreationRequired
  }

  /** Everything the check derives from the challenge before it looks at instructions. */
  datatype Terms = Terms(asset: Asset, recipient: Pubkey, primary: nat, feePayer: Option<Pubkey>, policy: AtaCreationPolicy)

  function ChargeTerms(tx: Transaction, request: ChargeRequest, details: MethodDetails): (r: Verdict<Terms>)
    ensures r.Ok? ==> RecipientsParse(details.splits)
  {
    if tx.lookups != 0 then Err(InvalidPayload)
    else
      match PrimaryAmount(request, details)
      case Err(error) => Err(error)
      case Ok(primary) =>
        match request.recipient
        case None => Err(InvalidRecipient)
        case Some(Malformed) => Err(InvalidRecipient)
        case Some(Key(recipient)) =>
          match ExpectedFeePayer(tx, details)
          case Err(error) => Err(error)
          case Ok(feePayer) =>
            if request.currency.Native? && RequiresAtaCreation(details.splits) then Err(InvalidPayload)
            else if !RecipientsParse(details.splits) then Err(InvalidRecipient)
            else
              match ExpectedAsset(request, details)
              case Err(error) => Err(error)
              case Ok(asset) => Ok(Terms(asset, recipient, primary, feePayer, PolicyFor(details.splits, feePayer)))
  }

  function Verify(ata: Derivation, tx: Transaction, request: ChargeRequest, details: MethodDetails): Verdict<()> {
    match ChargeTerms(tx, request, details)
    case Err(error) => Err(error)
    case Ok(terms) =>
      match MatchAll(RowsFor(ata, tx, request, details, terms), {})
      case Err(error) => Err(error)
      case Ok(matched) =>
        if AllowlistHolds(ata, tx, matched, terms.asset, terms.policy, terms.feePayer) then Ok(())
        else Err(InvalidPayload)
  }

  function RowsFor(ata: Derivation, tx: Transaction, request: ChargeRequest, details: MethodDetails, terms: Terms)
    : seq<Row<VerificationError>>
    requires RecipientsParse(details.splits)
  {
    AllRows(ata, tx, terms.asset, terms.recipient, terms.primary, request.externalId, details.splits, terms.feePayer)
  }

  method SplitsTotalOf(splits: seq<Split>) returns (total: u64)
    ensures total == WrappingSplitsTotal(splits)
  {
    total := 0;
    for k := 0 to |splits|
      invariant total == WrappingSplitsTotal(splits[..k])
    {
      assert splits[..k + 1][..k] == splits[..k];
      total := WrappingAdd(total, AmountOrZero(splits[k]));
    }
    assert splits[..|splits|] == splits;
  }

  method VerifyTransfers(
    ata: Derivation, tx: Transaction, asset: Asset, recipient: Pubkey, primary: nat, splits: seq<Split>,
    feePayer: Option<Pubkey>) returns (r: Verdict<set<nat>>)
    requires RecipientsParse(splits)
    ensures r == MatchAll([TransferRow(ata, tx, asset, recipient, Some(primary), feePayer)]
                          + SplitRows(ata, tx, asset, splits, feePayer), {})
  {
    ghost var splitRows := SplitRows(ata, tx, asset, splits, feePayer);
    ghost var rows := [TransferRow(ata, tx, asset, recipient, Some(primary), feePayer)] + splitRows;
    assert rows[1..] == splitRows;
    if asset.Sol? {
      r := VerifySolTransferInstructions(ata, tx, recipient, primary, feePayer, {});
    } else {
      r := VerifySplTransferInstructions(ata, tx, asset, recipient, primary, feePayer, {});
    }
    if r.Err? { return; }
    var matched: set<nat> := r.value;
    for k := 0 to |splits|
      invariant MatchAll(rows, {}) == MatchAll(splitRows[k..], matched)
    {
      var split := splits[k];
      assert splitRows[k..][0] == TransferRow(ata, tx, asset, split.recipient.key, split.amount, feePayer);
      assert splitRows[k..][1..] == splitRows[k + 1..];
      if split.amount.None? { return Err(InvalidAmount); }
      if asset.Sol? {
        r := VerifySolTransferInstructions(ata, tx, split.recipient.key, split.amount.value, feePayer, matched);
      } else {
        r := VerifySplTransferInstructions(ata, tx, asset, split.recipient.key, split.amount.value, feePayer, matched);
      }
      if r.Err? { return; }
      matched := r.value;
    }
    return Ok(matched);
  }

  method DeriveTerms(tx: Transaction, request: ChargeRequest, details: MethodDetails) returns (r: Verdict<Terms>)
    ensures r == ChargeTerms(tx, request, details)
  {
    if tx.lookups != 0 { return Err(InvalidPayload); }
    if |details.splits| > MAX_SPLITS { return Err(TooManySplits); }
    if request.amount.None? { return Err(InvalidAmount); }
    var splitsTotal := SplitsTotalOf(details.splits);
    if request.amount.value < splitsTotal { return Err(InvalidAmount); }
    var primary := request.amount.value - splitsTotal;
    if primary == 0 { return Err(InvalidAmount); }
    if request.recipient.None? || request.recipient.value.Malformed? { return Err(InvalidRecipient); }
    var payer := ExpectedFeePayer(tx, details);
    if payer.Err? { return Err(payer.error); }
    if request.currency.Native? && RequiresAtaCreation(details.splits) { return Err(InvalidPayload); }
    var policy := ExpectedAtaCreationPolicy(details.splits, payer.value);
    if policy.Err? { return Err(policy.error); }
    var asset := ExpectedAsset(request, details);
    if asset.Err? { return Err(asset.error); }
    return Ok(Terms(asset.value, request.recipient.value.key, primary, payer.value, policy.value));
  }

  method VerifyVersionedTransactionPreBroadcast(
    ata: Derivation, tx: Transaction, request: ChargeRequest, details: MethodDetails) returns (r: Verdict<()>)
    ensures r == Verify(ata, tx, request, details)
  {
    var derived := DeriveTerms(tx, request, details);
    if derived.Err? { return Err(derived.error); }
    var t := derived.value;
    var transfers := VerifyTransfers(ata, tx, t.asset, t.recipient, t.primary, details.splits, t.feePayer);
    MatchAllConcat([TransferRow(ata, tx, t.asset, t.recipient, Some(t.primary), t.feePayer)]
                   + SplitRows(ata, tx, t.asset, details.splits, t.feePayer),
                   MemoRows(tx, ExpectedMemos(request.externalId, details.splits)), {});
    if transfers.Err? { return Err(transfers.error); }
    var all := VerifyMemoInstructions(tx, request.externalId, details.splits, transfers.value);
    if all.Err? { return Err(all.error); }
    r := ValidateInstructionAllowlist(ata, tx, all.value, t.asset, t.policy, t.feePayer);
  }
}
