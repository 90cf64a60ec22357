/** The client's construction of the instruction list that pays a charge. */
module ChargeBuilder {
  import opened Common
  import opened Charge

  datatype AccountMeta = AccountMeta(key: Pubkey, signer: bool, writable: bool)

  datatype Instruction = Instruction(program: Pubkey, accounts: seq<AccountMeta>, data: seq<byte>)

  datatype BuildError = TooManySplits | SplitsExceedAmount | Other

  type Built<T> = Result<T, BuildError>

  // ── Single instructions ──

  function ComputeUnitPriceIx(microLamports: u64): Instruction {
    Instruction(ComputeBudgetProgram, [], [3] + ToLE(microLamports, 8))
  }

  function ComputeUnitLimitIx(units: nat): Instruction {
    Instruction(ComputeBudgetProgram, [], [2] + ToLE(units, 4))
  }

  function SystemTransferIx(from: Pubkey, to: Pubkey, lamports: u64): Instruction {
    Instruction(SystemProgram, [AccountMeta(from, true, true), AccountMeta(to, false, true)],
                ToLE(2, 4) + ToLE(lamports, 8))
  }

  function TransferCheckedIx(
    tokenProgram: Pubkey, source: Pubkey, mint: Pubkey, destination: Pubkey, authority: Pubkey, amount: u64, decimals: byte)
    : Instruction
  {
    Instruction(tokenProgram,
                [AccountMeta(source, false, true), AccountMeta(mint, false, false),
                 AccountMeta(destination, false, true), AccountMeta(authority, true, false)],
                [12] + ToLE(amount, 8) + [decimals])
  }

  function CreateAssociatedTokenAccountIdempotent(
    ata: Derivation, payer: Pubkey, owner: Pubkey, mint: Pubkey, tokenProgram: Pubkey): Instruction
  {
    Instruction(AssociatedTokenProgram,
                [AccountMeta(payer, true, true), AccountMeta(ata(owner, tokenProgram, mint), false, true),
                 AccountMeta(owner, false, false), AccountMeta(mint, false, false),
                 AccountMeta(SystemProgram, false, false), AccountMeta(tokenProgram, false, false)],
                [1])
  }

  function MemoIx(memo: seq<byte>): Instruction {
    Instruction(MemoProgram, [], memo)
  }

  // ── The plan behind the list ──

  datatype Token = Token(mint: Pubkey, program: Pubkey, decimals: byte)

  /** Who signs, who pays for new accounts, whether a sponsor pays, and the token (absent for native SOL). */
  datatype Context = Context(signer: Pubkey, payer: Pubkey, sponsored: bool, token: Option<Token>)

  datatype Step = UnitPrice | UnitLimit | Transfer(to: Pubkey, amount: u64) | Create(owner: Pubkey) | Memo(memo: seq<byte>)

  function Render(ata: Derivation, c: Context, step: Step): Instruction
    requires step.Create? ==> c.token.Some?
  {
    match step
    case UnitPrice => ComputeUnitPriceIx(1)
    case UnitLimit => ComputeUnitLimitIx(200_000)
    case Memo(memo) => MemoIx(memo)
    case Create(owner) =>
      CreateAssociatedTokenAccountIdempotent(ata, c.payer, owner, c.token.value.mint, c.token.value.program)
    case Transfer(to, amount) =>
      match c.token
      case None => SystemTransferIx(c.signer, to, amount)
      case Some(Token(mint, program, decimals)) =>
        TransferCheckedIx(program, ata(c.signer, program, mint), mint, ata(to, program, mint), c.signer, amount, decimals)
  }

  predicate Renderable(c: Context, steps: seq<Step>) {
    forall i :: 0 <= i < |steps| && steps[i].Create? ==> c.token.Some?
  }

  function RenderAll(ata: Derivation, c: Context, steps: seq<Step>): seq<Instruction>
    requires Renderable(c, steps)
  {
    seq(|steps|, i requires 0 <= i < |steps| => Render(ata, c, steps[i]))
  }

  function MemoSteps(memo: Option<seq<byte>>): Built<seq<Step>> {
    match memo
    case None => Ok([])
    case Some(m) => if |m| > MAX_MEMO_BYTES then Err(Other) else Ok([Memo(m)])
  }

  function SplitPayment(c: Context, split: Split): seq<Step>
    requires split.recipient.Key? && split.amount.Some?
  {
    (if c.token.Some? && (!c.sponsored || split.ataCreationRequired) then [Create(split.recipient.key)] else [])
    + [Transfer(split.recipient.key, split.amount.value)]
  }

  /** One split after the steps already rendered: its payment, then its memo. */
  function WithSplit(c: Context, steps: seq<Step>, split: Split): Built<seq<Step>> {
    if split.recipient.Malformed? || split.amount.None? then Err(Other)
    else
      match MemoSteps(split.memo)
      case Err(error) => Err(error)
      case Ok(memo) => Ok(steps + SplitPayment(c, split) + memo)
  }

  function SplitSteps(c: Context, splits: seq<Split>): (r: Built<seq<Step>>)
    ensures r.Ok? ==> Renderable(c, r.value)
  {
    if splits == [] then Ok([])
    else
      var split := splits[|splits| - 1];
      match SplitSteps(c, splits[..|splits| - 1])
      case Err(error) => Err(error)
      case Ok(before) =>
        WithSplit(c, before, split)
  }

  function AllSteps(c: Context, recipient: Pubkey, primary: u64, externalId: Option<seq<byte>>, splits: seq<Split>)
    : (r: Built<seq<Step>>)
    ensures r.Ok? ==> Renderable(c, r.value)
  {
    match MemoSteps(externalId)
    case Err(error) => Err(error)
    case Ok(memo) =>
      match SplitSteps(c, splits)
      case Err(error) => Err(error)
      case Ok(rest) => Ok([UnitPrice, UnitLimit, Transfer(recipient, primary)] + memo + rest)
  }

  // ── Terms of the charge, as the client reads them ──

  function ResolveTokenProgram(details: MethodDetails, mintOwner: Option<Pubkey>): Built<Pubkey> {
    match details.tokenProgram
    case Some(Malformed) => Err(Other)
    case Some(Key(program)) => if IsTokenProgram(program) then Ok(program) else Err(Other)
    case None => if mintOwner.Some? && IsTokenProgram(mintOwner.value) then Ok(mintOwner.value) else Err(Other)
  }

  function SponsorOf(details: MethodDetails): Built<Option<Pubkey>> {
    if details.feePayer && details.feePayerKey.Some? then
      match details.feePayerKey.value case Key(key) => Ok(Some(key)) case Malformed => Err(Other)
    else Ok(None)
  }

  function TokenOf(request: ChargeRequest, details: MethodDetails, mintOwner: Option<Pubkey>): Built<Option<Token>> {
    var needsMintAddress := exists k :: 0 <= k < |details.splits| && details.splits[k].ataCreationRequired;
    if request.currency.Native? then
      if needsMintAddress then Err(Other) else Ok(None)
    else if request.currency.Symbol? && needsMintAddress then Err(Other)
    else if MintOf(request.currency).None? then Err(Other)
    else
      match ResolveTokenProgram(details, mintOwner)
      case Err(error) => Err(error)
      case Ok(program) =>
        var decimals := if details.decimals.Some? then details.decimals.value else 6;
        Ok(Some(Token(MintOf(request.currency).value, program, decimals)))
  }

  datatype Payment = Payment(context: Context, recipient: Pubkey, primary: u64)

  function PaymentOf(signer: Pubkey, request: ChargeRequest, details: MethodDetails, mintOwner: Option<Pubkey>): Built<Payment> {
    if request.amount.None? then Err(Other)
    else if |details.splits| > MAX_SPLITS then Err(TooManySplits)
    else
      var splitsTotal := WrappingSplitsTotal(details.splits);
      if request.amount.value <= splitsTotal then Err(SplitsExceedAmount)
      else if request.recipient.None? || request.recipient.value.Malformed? then Err(Other)
      else
        match SponsorOf(details)
        case Err(error) => Err(error)
        case Ok(sponsor) =>
          match TokenOf(request, details, mintOwner)
          case Err(error) => Err(error)
          case Ok(token) =>
            var payer := if sponsor.Some? then sponsor.value else signer;
            Ok(Payment(Context(signer, payer, sponsor.Some?, token), request.recipient.value.key, request.amount.value - splitsTotal))
  }

  /** The instruction list and the transaction's fee payer. `mintOwner` is the program the chain reports for the
      mint, absent when the lookup fails. */
  datatype Unsigned = Unsigned(payer: Pubkey, instructions: seq<Instruction>)

  function Build(ata: Derivation, signer: Pubkey, request: ChargeRequest, details: MethodDetails, mintOwner: Option<Pubkey>)
    : Built<Unsigned>
  {
    match PaymentOf(signer, request, details, mintOwner)
    case Err(error) => Err(error)
    case Ok(p) =>
      match AllSteps(p.context, p.recipient, p.primary, request.externalId, details.splits)
      case Err(error) => Err(error)
      case Ok(steps) => Ok(Unsigned(p.context.payer, RenderAll(ata, p.context, steps)))
  }

  // ── The pushing code ──

  method PushMemoInstruction(instructions: seq<Instruction>, memo: Option<seq<byte>>) returns (r: Built<seq<Instruction>>)
    ensures r == match memo
                 case None => Ok(instructions)
                 case Some(m) => if |m| > MAX_MEMO_BYTES then Err(Other) else Ok(instructions + [MemoIx(m)])
  {
    if memo.None? { return Ok(instructions); }
    if |memo.value| > MAX_MEMO_BYTES { return Err(Other); }
    return Ok(instructions + [MemoIx(memo.value)]);
  }

  lemma {:induction false} RenderConcat(ata: Derivation, c: Context, a: seq<Step>, b: seq<Step>)
    requires Renderable(c, a) && Renderable(c, b)
    ensures Renderable(c, a + b)
    ensures RenderAll(ata, c, a + b) == RenderAll(ata, c, a) + RenderAll(ata, c, b)
  {
  }

  method PushSplit(ata: Derivation, c: Context, list: seq<Instruction>, ghost steps: seq<Step>, split: Split)
    returns (r: Built<seq<Instruction>>)
    requires Renderable(c, steps) && list == RenderAll(ata, c, steps)
    ensures WithSplit(c, steps, split).Err? ==> r == Err(WithSplit(c, steps, split).error)
    ensures WithSplit(c, steps, split).Ok? ==>
              && Renderable(c, WithSplit(c, steps, split).value)
              && r == Ok(RenderAll(ata, c, WithSplit(c, steps, split).value))
  {
    if split.recipient.Malformed? || split.amount.None? { return Err(Other); }
    var added: seq<Instruction>;
    if c.token.Some? {
      added := AddSplTransfer(ata, c, list, split.recipient.key, split.amount.value, !c.sponsored || split.ataCreationRequired);
    } else {
      added := list + [SystemTransferIx(c.signer, split.recipient.key, split.amount.value)];
    }
    RenderConcat(ata, c, steps, SplitPayment(c, split));
    assert added == RenderAll(ata, c, steps + SplitPayment(c, split));
    r := PushMemoInstruction(added, split.memo);
    if r.Ok? {
      RenderConcat(ata, c, steps + SplitPayment(c, split), MemoSteps(split.memo).value);
      assert WithSplit(c, steps, split).value == steps + SplitPayment(c, split) + MemoSteps(split.memo).value;
      assert r.value == added + RenderAll(ata, c, MemoSteps(split.memo).value);
    }
  }

  method PushSplits(ata: Derivation, c: Context, instructions: seq<Instruction>, ghost head: seq<Step>, splits: seq<Split>)
    returns (r: Built<seq<Instruction>>)
    requires Renderable(c, head) && instructions == RenderAll(ata, c, head)
    ensures SplitSteps(c, splits).Err? ==> r == Err(SplitSteps(c, splits).error)
    ensures SplitSteps(c, splits).Ok? ==>
              && Renderable(c, head + SplitSteps(c, splits).value)
              && r == Ok(RenderAll(ata, c, head + SplitSteps(c, splits).value))
  {
    var list := instructions;
    ghost var steps := head;
    assert head + [] == head;
    for k := 0 to |splits|
      invariant SplitSteps(c, splits[..k]).Ok?
      invariant steps == head + SplitSteps(c, splits[..k]).value
      invariant Renderable(c, steps) && list == RenderAll(ata, c, steps)
    {
      assert splits[..k + 1][..k] == splits[..k];
      r := PushSplit(ata, c, list, steps, splits[k]);
      WithSplitExtends(c, head, SplitSteps(c, splits[..k]).value, splits[k]);
      if r.Err? {
        SplitErrorsPersist(c, splits, k + 1);
        return;
      }
      list := r.value;
      steps := WithSplit(c, steps, splits[k]).value;
    }
    assert splits[..|splits|] == splits;
    return Ok(list);
  }

  lemma {:induction false} WithSplitExtends(c: Context, head: seq<Step>, steps: seq<Step>, split: Split)
    ensures WithSplit(c, head + steps, split) ==
            match WithSplit(c, steps, split) { case Err(error) => Err(error) case Ok(more) => Ok(head + more) }
  {
    if WithSplit(c, steps, split).Ok? {
      var payment, memo := SplitPayment(c, split), MemoSteps(split.memo).value;
      assert (head + steps) + payment + memo == head + (steps + payment + memo);
    }
  }

  method BuildInstructions(
    ata: Derivation, c: Context, instructions: seq<Instruction>, recipient: Pubkey, primary: u64,
    externalId: Option<seq<byte>>, splits: seq<Split>) returns (r: Built<seq<Instruction>>)
    requires instructions == RenderAll(ata, c, [UnitPrice, UnitLimit])
    ensures r == match AllSteps(c, recipient, primary, externalId, splits)
                 case Err(error) => Err(error)
                 case Ok(steps) => Ok(RenderAll(ata, c, steps))
  {
    var list: seq<Instruction>;
    if c.token.Some? {
      list := AddSplTransfer(ata, c, instructions, recipient, primary, false);
    } else {
      list := instructions + [SystemTransferIx(c.signer, recipient, primary)];
    }
    ghost var head := [UnitPrice, UnitLimit, Transfer(recipient, primary)];
    RenderConcat(ata, c, [UnitPrice, UnitLimit], [Transfer(recipient, primary)]);
    assert [UnitPrice, UnitLimit] + [Transfer(recipient, primary)] == head;
    assert list == RenderAll(ata, c, head);
    r := PushMemoInstruction(list, externalId);
    if r.Err? { return; }
    list := r.value;
    RenderConcat(ata, c, head, MemoSteps(externalId).value);
    r := PushSplits(ata, c, list, head + MemoSteps(externalId).value, splits);
  }

  method AddSplTransfer(
    ata: Derivation, c: Context, instructions: seq<Instruction>, to: Pubkey, amount: u64, createAta: bool)
    returns (list: seq<Instruction>)
    requires c.token.Some?
    ensures list == instructions + RenderAll(ata, c, (if createAta then [Create(to)] else []) + [Transfer(to, amount)])
  {
    var token := c.token.value;
    list := instructions;
    if createAta {
      list := list + [CreateAssociatedTokenAccountIdempotent(ata, c.payer, to, token.mint, token.program)];
    }
    list := list + [TransferCheckedIx(token.program, ata(c.signer, token.program, token.mint), token.mint,
                                      ata(to, token.program, token.mint), c.signer, amount, token.decimals)];
  }

  lemma {:induction false} SplitErrorsPersist(c: Context, splits: seq<Split>, k: nat)
    requires k <= |splits| && SplitSteps(c, splits[..k]).Err?
    ensures SplitSteps(c, splits) == SplitSteps(c, splits[..k])
    decreases |splits|
  {
    if k == |splits| {
      assert splits[..k] == splits;
    } else {
      assert splits[..|splits| - 1][..k] == splits[..k];
      SplitErrorsPersist(c, splits[..|splits| - 1], k);
    }
  }

  method BuildChargeTransactionWithOptions(
    ata: Derivation, signer: Pubkey, request: ChargeRequest, details: MethodDetails, mintOwner: Option<Pubkey>)
    returns (r: Built<Unsigned>)
    ensures r == Build(ata, signer, request, details, mintOwner)
  {
    var payment := PaymentOf(signer, request, details, mintOwner);
    if payment.Err? { return Err(payment.error); }
    var p := payment.value;
    var instructions := [ComputeUnitPriceIx(1)];
    instructions := instructions + [ComputeUnitLimitIx(200_000)];
    assert instructions == RenderAll(ata, p.context, [UnitPrice, UnitLimit]);
    var list := BuildInstructions(ata, p.context, instructions, p.recipient, p.primary, request.externalId, details.splits);
    if list.Err? { return Err(list.error); }
    return Ok(Unsigned(p.context.payer, list.value));
  }
}
