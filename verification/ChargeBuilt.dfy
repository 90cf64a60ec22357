/** Exactly what the client builds and when it builds anything, read off the challenge and the instructions themselves. */
module ChargeBuilt {
  import opened Common
  import opened Charge
  import opened ChargeMeaning
  import opened ChargeBuilder

  // ── Single instructions ──

  function Signing(key: Pubkey, writable: bool): AccountMeta { AccountMeta(key, true, writable) }
  function Writable(key: Pubkey): AccountMeta { AccountMeta(key, false, true) }
  function ReadOnly(key: Pubkey): AccountMeta { AccountMeta(key, false, false) }

  /** A System transfer that the signer funds and authorizes. */
  predicate PaysSol(ix: Instruction, signer: Pubkey, to: Pubkey, amount: nat) {
    && ix.program == SystemProgram
    && ix.accounts == [Signing(signer, true), Writable(to)]
    && |ix.data| == 12 && Word(ix.data, 0) == 2 && LongWord(ix.data, 4) == amount
  }

  /** A checked transfer between token accounts that the signer authorizes. */
  predicate PaysToken(ata: Derivation, ix: Instruction, signer: Pubkey, token: Token, to: Pubkey, amount: nat) {
    && ix.program == token.program
    && ix.accounts == [Writable(ata(signer, token.program, token.mint)), ReadOnly(token.mint),
                       Writable(ata(to, token.program, token.mint)), Signing(signer, false)]
    && |ix.data| == 10 && ix.data[0] == 12 && LongWord(ix.data, 1) == amount && ix.data[9] == token.decimals
  }

  /** An idempotent creation of the owner's token account, which the payer funds. */
  predicate Creates(ata: Derivation, ix: Instruction, payer: Pubkey, token: Token, owner: Pubkey) {
    && ix.program == AssociatedTokenProgram
    && ix.accounts == [Signing(payer, true), Writable(ata(owner, token.program, token.mint)), ReadOnly(owner),
                       ReadOnly(token.mint), ReadOnly(SystemProgram), ReadOnly(token.program)]
    && ix.data == [1]
  }

  predicate Does(ata: Derivation, signer: Pubkey, payer: Pubkey, token: Option<Token>, ix: Instruction, step: Step) {
    match step
    case UnitPrice => ix == Instruction(ComputeBudgetProgram, [], [3, 1, 0, 0, 0, 0, 0, 0, 0])
    case UnitLimit => ix == Instruction(ComputeBudgetProgram, [], [2, 0x40, 0x0D, 0x03, 0])
    case Memo(memo) => ix == Instruction(MemoProgram, [], memo)
    case Create(owner) => token.Some? && Creates(ata, ix, payer, token.value, owner)
    case Transfer(to, amount) =>
      if token.None? then PaysSol(ix, signer, to, amount) else PaysToken(ata, ix, signer, token.value, to, amount)
  }

  // ── The whole list ──

  /** The token program named by the challenge, or the one that owns the mint when none is named. */
  function ProgramFor(details: MethodDetails, mintOwner: Option<Pubkey>): Option<Pubkey> {
    match details.tokenProgram
    case None => mintOwner
    case Some(Key(program)) => Some(program)
    case Some(Malformed) => None
  }

  predicate IsToken(details: MethodDetails, mintOwner: Option<Pubkey>) {
    ProgramFor(details, mintOwner) in {Some(TokenProgram), Some(Token2022Program)}
  }

  /** The challenge can be paid by this client: accounts are created for tokens named by their mint only. */
  predicate CanBePaid(request: ChargeRequest, details: MethodDetails, mintOwner: Option<Pubkey>) {
    && IsPayable(request, details) && |details.splits| <= 8
    && (IsSponsored(details) ==> details.feePayerKey.value.Key?)
    && match request.currency
       case Native => NothingMarked(details)
       case Symbol(_) => NothingMarked(details) && IsToken(details, mintOwner)
       case Mint(text) => text.Key? && IsToken(details, mintOwner)
  }

  function PayerFor(signer: Pubkey, details: MethodDetails): Pubkey
    requires IsSponsored(details) ==> details.feePayerKey.value.Key?
  {
    if IsSponsored(details) then details.feePayerKey.value.key else signer
  }

  /** The token paid in; six decimals unless the challenge says otherwise. */
  function TokenFor(request: ChargeRequest, details: MethodDetails, mintOwner: Option<Pubkey>): Option<Token>
    requires CanBePaid(request, details, mintOwner)
  {
    var decimals := if details.decimals.Some? then details.decimals.value else 6;
    match request.currency
    case Native => None
    case Symbol(mint) => Some(Token(mint, ProgramFor(details, mintOwner).value, decimals))
    case Mint(text) => Some(Token(text.key, ProgramFor(details, mintOwner).value, decimals))
  }

  function MemoOf(memo: Option<seq<byte>>): seq<Step> {
    if memo.Some? then [Memo(memo.value)] else []
  }

  /** One split: its recipient's token account unless a sponsor pays for marked ones only, its payment, its memo. */
  function ForSplit(tokens: bool, sponsored: bool, split: Split): seq<Step>
    requires split.recipient.Key? && split.amount.Some?
  {
    (if tokens && (!sponsored || split.ataCreationRequired) then [Create(split.recipient.key)] else [])
    + [Transfer(split.recipient.key, split.amount.value)] + MemoOf(split.memo)
  }

  function ForSplits(tokens: bool, sponsored: bool, splits: seq<Split>): seq<Step>
    requires forall k :: 0 <= k < |splits| ==> splits[k].recipient.Key? && splits[k].amount.Some?
  {
    if splits == [] then [] else ForSplit(tokens, sponsored, splits[0]) + ForSplits(tokens, sponsored, splits[1..])
  }

  /** The main recipient's account is never created; its memo comes before the splits. */
  function Layout(request: ChargeRequest, details: MethodDetails): seq<Step>
    requires IsPayable(request, details)
  {
    [UnitPrice, UnitLimit, Transfer(request.recipient.value.key, MainAmount(request, details))] + MemoOf(request.externalId)
    + ForSplits(!request.currency.Native?, IsSponsored(details), details.splits)
  }

  ghost predicate Follows(
    ata: Derivation, signer: Pubkey, payer: Pubkey, token: Option<Token>, list: seq<Instruction>, steps: seq<Step>)
  {
    |list| == |steps| && forall i :: 0 <= i < |list| ==> Does(ata, signer, payer, token, list[i], steps[i])
  }

  // ── Rendered steps ──

  lemma {:induction false} FieldIs(n: u64)
    ensures LongWord(ToLE(n, 8), 0) == n
  {
    FieldWidths();
    FieldRoundTrip(n, 8);
    LongWordIs(ToLE(n, 8), 0);
    assert ToLE(n, 8)[0..8] == ToLE(n, 8);
  }

  lemma {:induction false} ShiftedField(d: seq<byte>, at: nat, n: u64)
    requires at + 8 <= |d| && d[at..at + 8] == ToLE(n, 8)
    ensures LongWord(d, at) == n
  {
    FieldIs(n);
    var field := d[at..at + 8];
    assert forall j :: 0 <= j < 8 ==> field[j] == d[at + j];
  }

  lemma {:induction false} SmallField(n: nat)
    requires n < 256
    ensures ToLE(n, 4) == [n, 0, 0, 0]
    ensures ToLE(n, 8) == [n, 0, 0, 0, 0, 0, 0, 0]
  {
    ZeroField(7);
    ZeroField(3);
    assert ToLE(n, 8) == [n % 256] + ToLE(n / 256, 7);
    assert ToLE(n, 4) == [n % 256] + ToLE(n / 256, 3);
  }

  lemma {:induction false} ZeroField(width: nat)
    ensures ToLE(0, width) == seq(width, _ => 0)
  {
    if width > 0 {
      ZeroField(width - 1);
    }
  }

  lemma {:induction false} LimitField()
    ensures ToLE(200_000, 4) == [0x40, 0x0D, 0x03, 0]
  {
    assert ToLE(200_000, 4) == [200_000 % 256] + ToLE(781, 3);
    assert ToLE(781, 3) == [781 % 256] + ToLE(3, 2);
    assert ToLE(3, 2) == [3] + ToLE(0, 1);
    ZeroField(1);
  }

  lemma {:induction false} SolData(amount: u64)
    ensures var d := ToLE(2, 4) + ToLE(amount, 8); |d| == 12 && Word(d, 0) == 2 && LongWord(d, 4) == amount
  {
    var head, tail := ToLE(2, 4), ToLE(amount, 8);
    var d := head + tail;
    assert head == [2, 0, 0, 0] by {
      SmallField(2);
    }
    assert d[0] == 2 && d[1] == 0 && d[2] == 0 && d[3] == 0;
    assert d[4..12] == tail;
    ShiftedField(d, 4, amount);
  }

  lemma {:induction false} TokenData(amount: u64, decimals: byte)
    ensures var d := [12] + ToLE(amount, 8) + [decimals];
      |d| == 10 && d[0] == 12 && LongWord(d, 1) == amount && d[9] == decimals
  {
    var field := ToLE(amount, 8);
    var d := [12] + field + [decimals];
    assert d[1..9] == field;
    ShiftedField(d, 1, amount);
  }

  lemma {:induction false} RenderedPayment(ata: Derivation, c: Context, to: Pubkey, amount: u64)
    ensures Does(ata, c.signer, c.payer, c.token, Render(ata, c, Transfer(to, amount)), Transfer(to, amount))
  {
    if c.token.None? {
      SolData(amount);
    } else {
      TokenData(amount, c.token.value.decimals);
    }
  }

  lemma {:induction false} RenderedDoes(ata: Derivation, c: Context, step: Step)
    requires step.Create? ==> c.token.Some?
    ensures Does(ata, c.signer, c.payer, c.token, Render(ata, c, step), step)
  {
    match step
    case Transfer(to, amount) => RenderedPayment(ata, c, to, amount);
    case UnitPrice => SmallField(1);
    case UnitLimit => LimitField();
    case _ =>
  }

  lemma {:induction false} RenderedFollows(ata: Derivation, c: Context, steps: seq<Step>)
    requires Renderable(c, steps)
    ensures Follows(ata, c.signer, c.payer, c.token, RenderAll(ata, c, steps), steps)
  {
    forall i | 0 <= i < |steps| ensures Does(ata, c.signer, c.payer, c.token, RenderAll(ata, c, steps)[i], steps[i]) {
      RenderedDoes(ata, c, steps[i]);
    }
  }

  // ── Planned steps ──

  predicate SplitCanBePaid(split: Split) {
    && split.recipient.Key? && split.amount.Some?
    && (split.memo.Some? ==> |split.memo.value| <= 566)
  }

  predicate SplitsCanBePaid(splits: seq<Split>) {
    forall k :: 0 <= k < |splits| ==> SplitCanBePaid(splits[k])
  }

  lemma {:induction false} SplitsSnoc(splits: seq<Split>, split: Split)
    ensures SplitsCanBePaid(splits + [split]) <==> SplitsCanBePaid(splits) && SplitCanBePaid(split)
  {
    var all := splits + [split];
    assert all[|splits|] == split;
    assert forall k :: 0 <= k < |splits| ==> all[k] == splits[k];
  }

  lemma {:induction false} ForSplitsSnoc(tokens: bool, sponsored: bool, splits: seq<Split>, split: Split)
    requires SplitsCanBePaid(splits) && SplitCanBePaid(split) && SplitsCanBePaid(splits + [split])
    ensures ForSplits(tokens, sponsored, splits + [split]) == ForSplits(tokens, sponsored, splits) + ForSplit(tokens, sponsored, split)
    decreases splits
  {
    var all := splits + [split];
    if splits == [] {
      assert all == [split] && all[1..] == [];
      assert ForSplits(tokens, sponsored, []) == [];
    } else {
      assert all[1..] == splits[1..] + [split];
      ForSplitsSnoc(tokens, sponsored, splits[1..], split);
      assert all[0] == splits[0];
    }
  }

  lemma {:induction false} WithSplitIs(c: Context, before: seq<Step>, split: Split)
    ensures WithSplit(c, before, split)
      == if SplitCanBePaid(split) then Ok(before + ForSplit(c.token.Some?, c.sponsored, split)) else Err(Other)
  {
    if SplitCanBePaid(split) {
      var payment, memo := SplitPayment(c, split), MemoSteps(split.memo).value;
      assert ForSplit(c.token.Some?, c.sponsored, split) == payment + memo;
      assert before + payment + memo == before + (payment + memo);
    }
  }

  lemma {:induction false} SplitStepsIff(c: Context, splits: seq<Split>)
    ensures SplitSteps(c, splits)
      == if SplitsCanBePaid(splits) then Ok(ForSplits(c.token.Some?, c.sponsored, splits)) else Err(Other)
    decreases splits
  {
    if splits != [] {
      var init, split := splits[..|splits| - 1], splits[|splits| - 1];
      assert init + [split] == splits;
      SplitStepsIff(c, init);
      SplitsSnoc(init, split);
      if SplitsCanBePaid(init) {
        WithSplitIs(c, ForSplits(c.token.Some?, c.sponsored, init), split);
        if SplitCanBePaid(split) {
          ForSplitsSnoc(c.token.Some?, c.sponsored, init, split);
        }
      }
    }
  }

  // ── Terms ──

  predicate HasTerms(request: ChargeRequest, details: MethodDetails, mintOwner: Option<Pubkey>) {
    && request.amount.Some? && |details.splits| <= 8 && MainAmount(request, details) > 0
    && request.recipient.Some? && request.recipient.value.Key?
    && (IsSponsored(details) ==> details.feePayerKey.value.Key?)
    && match request.currency
       case Native => NothingMarked(details)
       case Symbol(_) => NothingMarked(details) && IsToken(details, mintOwner)
       case Mint(text) => text.Key? && IsToken(details, mintOwner)
  }

  lemma {:induction false} PaymentIff(signer: Pubkey, request: ChargeRequest, details: MethodDetails, mintOwner: Option<Pubkey>)
    ensures PaymentOf(signer, request, details, mintOwner).Ok? <==> HasTerms(request, details, mintOwner)
    ensures PaymentOf(signer, request, details, mintOwner) == Err(TooManySplits) <==> request.amount.Some? && |details.splits| > 8
    ensures PaymentOf(signer, request, details, mintOwner) == Err(SplitsExceedAmount)
      <==> request.amount.Some? && |details.splits| <= 8 && MainAmount(request, details) <= 0
  {
    if request.amount.Some? {
      AmountIs(request, details);
    }
  }

  lemma {:induction false} PaymentIs(signer: Pubkey, request: ChargeRequest, details: MethodDetails, mintOwner: Option<Pubkey>)
    requires CanBePaid(request, details, mintOwner)
    ensures PaymentOf(signer, request, details, mintOwner) == Ok(Payment(
      Context(signer, PayerFor(signer, details), IsSponsored(details), TokenFor(request, details, mintOwner)),
      request.recipient.value.key, MainAmount(request, details)))
  {
    AmountIs(request, details);
  }

  // ── The theorems ──

  lemma {:induction false} StepsAre(c: Context, request: ChargeRequest, details: MethodDetails)
    requires request.recipient.Some? && request.recipient.value.Key? && request.amount.Some? && MainAmount(request, details) > 0
    ensures var steps := AllSteps(c, request.recipient.value.key, MainAmount(request, details), request.externalId, details.splits);
      && (steps.Ok? <==> IsPayable(request, details))
      && (steps.Err? ==> steps.error == Other)
      && (steps.Ok? && c.token.Some? == !request.currency.Native? && c.sponsored == IsSponsored(details) ==>
            steps.value == Layout(request, details))
  {
    SplitStepsIff(c, details.splits);
  }

  /** When the client builds a transaction, and which refusals name the splits as their cause. */
  lemma {:induction false} BuildIff(
    ata: Derivation, signer: Pubkey, request: ChargeRequest, details: MethodDetails, mintOwner: Option<Pubkey>)
    ensures Build(ata, signer, request, details, mintOwner).Ok? <==> CanBePaid(request, details, mintOwner)
    ensures Build(ata, signer, request, details, mintOwner) == Err(TooManySplits) <==> request.amount.Some? && |details.splits| > 8
    ensures Build(ata, signer, request, details, mintOwner) == Err(SplitsExceedAmount)
      <==> request.amount.Some? && |details.splits| <= 8 && MainAmount(request, details) <= 0
  {
    PaymentIff(signer, request, details, mintOwner);
    var payment := PaymentOf(signer, request, details, mintOwner);
    if payment.Ok? {
      AmountIs(request, details);
      StepsAre(payment.value.context, request, details);
    }
  }

  /** The instructions built, byte for byte and account by account. */
  lemma {:induction false} BuiltExactly(
    ata: Derivation, signer: Pubkey, request: ChargeRequest, details: MethodDetails, mintOwner: Option<Pubkey>)
    requires CanBePaid(request, details, mintOwner)
    ensures Build(ata, signer, request, details, mintOwner).Ok?
    ensures var built := Build(ata, signer, request, details, mintOwner).value;
      && built.payer == PayerFor(signer, details)
      && Follows(ata, signer, PayerFor(signer, details), TokenFor(request, details, mintOwner), built.instructions,
                 Layout(request, details))
  {
    PaymentIs(signer, request, details, mintOwner);
    var c := Context(signer, PayerFor(signer, details), IsSponsored(details), TokenFor(request, details, mintOwner));
    StepsAre(c, request, details);
    RenderedFollows(ata, c, Layout(request, details));
  }

  /** Nobody but the signer and the payer is asked to sign, and the signer authorizes every payment. */
  lemma {:induction false} SignersAre(
    ata: Derivation, signer: Pubkey, request: ChargeRequest, details: MethodDetails, mintOwner: Option<Pubkey>, i: nat)
    requires CanBePaid(request, details, mintOwner)
    requires Build(ata, signer, request, details, mintOwner).Ok?
    requires i < |Build(ata, signer, request, details, mintOwner).value.instructions|
    ensures var ix := Build(ata, signer, request, details, mintOwner).value.instructions[i];
      && (forall j :: 0 <= j < |ix.accounts| && ix.accounts[j].signer ==>
            ix.accounts[j].key == signer || ix.accounts[j].key == PayerFor(signer, details))
      && (IsTokenProgram(ix.program) || ix.program == SystemProgram ==>
            exists j :: 0 <= j < |ix.accounts| && ix.accounts[j].signer && ix.accounts[j].key == signer)
  {
    BuiltExactly(ata, signer, request, details, mintOwner);
    var ix := Build(ata, signer, request, details, mintOwner).value.instructions[i];
    assert Does(ata, signer, PayerFor(signer, details), TokenFor(request, details, mintOwner), ix, Layout(request, details)[i]);
    SignersOf(ata, signer, PayerFor(signer, details), TokenFor(request, details, mintOwner), ix, Layout(request, details)[i]);
  }

  lemma {:induction false} SignersOf(
    ata: Derivation, signer: Pubkey, payer: Pubkey, token: Option<Token>, ix: Instruction, step: Step)
    requires Does(ata, signer, payer, token, ix, step)
    ensures forall j :: 0 <= j < |ix.accounts| && ix.accounts[j].signer ==>
              ix.accounts[j].key == signer || ix.accounts[j].key == payer
    ensures IsTokenProgram(ix.program) || ix.program == SystemProgram ==>
              exists j :: 0 <= j < |ix.accounts| && ix.accounts[j].signer && ix.accounts[j].key == signer
  {
    if step.Transfer? {
      var j := if token.None? then 0 else 3;
      assert ix.accounts[j].signer && ix.accounts[j].key == signer;
    }
  }
}
