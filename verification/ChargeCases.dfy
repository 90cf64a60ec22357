/** Concrete charges on which the checks and the builder part ways, and a compiler of built transactions for them. */
module ChargeCases {
  import opened Common
  import opened Charge
  import opened ChargeVerifier
  import opened ChargeGuarantees
  import opened ChargeAgreement
  import opened ParsedVerifier
  import opened ParsedAgreement
  import B = ChargeBuilder

  // ── Every built transaction of moderate size has a compiled form ──

  function MetaKeys(metas: seq<B.AccountMeta>): seq<Pubkey> {
    seq(|metas|, j requires 0 <= j < |metas| => metas[j].key)
  }

  /** A key table that lists the payer and then, instruction by instruction, the program and the accounts. */
  function Keys(payer: Pubkey, ixs: seq<B.Instruction>): (keys: seq<Pubkey>)
    ensures |keys| > 0 && keys[0] == payer
  {
    if ixs == [] then [payer]
    else
      var last := ixs[|ixs| - 1];
      Keys(payer, ixs[..|ixs| - 1]) + [last.program] + MetaKeys(last.accounts)
  }

  predicate Fits(keys: seq<Pubkey>) { |keys| <= 256 }

  function CompiledAt(at: nat, ix: B.Instruction): CompiledInstruction
    requires at + 1 + |ix.accounts| <= 256
  {
    CompiledInstruction(at, seq(|ix.accounts|, j requires 0 <= j < |ix.accounts| => at + 1 + j), ix.data)
  }

  function Compiled(payer: Pubkey, ixs: seq<B.Instruction>): (compiled: seq<CompiledInstruction>)
    requires Fits(Keys(payer, ixs))
    ensures |compiled| == |ixs|
  {
    if ixs == [] then []
    else
      var init := ixs[..|ixs| - 1];
      Compiled(payer, init) + [CompiledAt(|Keys(payer, init)|, ixs[|ixs| - 1])]
  }

  function Placed(unsigned: B.Unsigned): Transaction
    requires Fits(Keys(unsigned.payer, unsigned.instructions))
  {
    Transaction(0, Keys(unsigned.payer, unsigned.instructions), Compiled(unsigned.payer, unsigned.instructions))
  }

  lemma {:induction false} KeysGrow(payer: Pubkey, ixs: seq<B.Instruction>, i: nat)
    requires i <= |ixs|
    ensures Keys(payer, ixs[..i]) <= Keys(payer, ixs)
  {
    if i == |ixs| {
      assert ixs[..i] == ixs;
    } else {
      assert ixs[..|ixs| - 1][..i] == ixs[..i];
      KeysGrow(payer, ixs[..|ixs| - 1], i);
    }
  }

  lemma {:induction false} CompiledIs(payer: Pubkey, ixs: seq<B.Instruction>, i: nat)
    requires Fits(Keys(payer, ixs)) && i < |ixs|
    ensures |Keys(payer, ixs[..i])| + 1 + |ixs[i].accounts| <= 256
    ensures Compiled(payer, ixs)[i] == CompiledAt(|Keys(payer, ixs[..i])|, ixs[i])
  {
    var last := |ixs| - 1;
    if i < last {
      assert ixs[..last][..i] == ixs[..i];
      CompiledIs(payer, ixs[..last], i);
    }
  }

  lemma {:induction false} PlacedResolves(payer: Pubkey, ixs: seq<B.Instruction>, i: nat)
    requires Fits(Keys(payer, ixs)) && i < |ixs|
    ensures Resolves(Placed(B.Unsigned(payer, ixs)), i, ixs[i])
  {
    var tx := Placed(B.Unsigned(payer, ixs));
    var at := |Keys(payer, ixs[..i])|;
    CompiledIs(payer, ixs, i);
    KeysGrow(payer, ixs, i + 1);
    assert ixs[..i + 1][..i] == ixs[..i];
    var own := Keys(payer, ixs[..i]) + [ixs[i].program] + MetaKeys(ixs[i].accounts);
    assert own <= tx.keys;
    assert tx.keys[at] == own[at];
    forall j | 0 <= j < |ixs[i].accounts|
      ensures KeyAt(tx, tx.instructions[i].accounts[j]) == Some(ixs[i].accounts[j].key)
    {
      assert tx.keys[at + 1 + j] == own[at + 1 + j];
    }
  }

  /** The compiled form denotes the instruction list. */
  lemma {:induction false} PlacedDenotes(unsigned: B.Unsigned)
    requires Fits(Keys(unsigned.payer, unsigned.instructions))
    ensures Denotes(Placed(unsigned), unsigned)
  {
    forall i | 0 <= i < |unsigned.instructions| ensures Resolves(Placed(unsigned), i, unsigned.instructions[i]) {
      PlacedResolves(unsigned.payer, unsigned.instructions, i);
    }
  }

  lemma {:induction false} KeysBound(payer: Pubkey, ixs: seq<B.Instruction>)
    requires forall i :: 0 <= i < |ixs| ==> |ixs[i].accounts| <= 6
    ensures |Keys(payer, ixs)| <= 1 + 7 * |ixs|
  {
    if ixs != [] {
      KeysBound(payer, ixs[..|ixs| - 1]);
    }
  }

  lemma {:induction false} BuiltFits(
    ata: Derivation, signer: Pubkey, request: ChargeRequest, details: MethodDetails, mintOwner: Option<Pubkey>)
    requires B.Build(ata, signer, request, details, mintOwner).Ok?
    requires |B.Build(ata, signer, request, details, mintOwner).value.instructions| <= 36
    ensures var unsigned := B.Build(ata, signer, request, details, mintOwner).value;
      Fits(Keys(unsigned.payer, unsigned.instructions)) && Denotes(Placed(unsigned), unsigned)
  {
    var unsigned := B.Build(ata, signer, request, details, mintOwner).value;
    KeysBound(unsigned.payer, unsigned.instructions);
    PlacedDenotes(unsigned);
  }

  // ── Cases ──

  const SIGNER: Pubkey := Address([1])
  const RECIPIENT: Pubkey := Address([2])
  const HALF: u64 := 0x8000_0000_0000_0000

  /** One lamport for the recipient. */
  const LAMPORT: ChargeRequest := ChargeRequest(Some(1), Native, Some(Key(RECIPIENT)), None)

  const PLAIN: MethodDetails := MethodDetails(None, None, false, None, [])

  function HalfTo(wallet: byte): Split {
    Split(Key(Address([wallet])), Some(HALF), false, None)
  }

  /** Two splits of half the 64-bit range each. */
  const HALVES: MethodDetails := PLAIN.(splits := [HalfTo(3), HalfTo(4)])

  function BuiltTransaction(
    ata: Derivation, request: ChargeRequest, details: MethodDetails, mintOwner: Option<Pubkey>): (tx: Option<Transaction>)
    ensures tx.Some? ==>
      && B.Build(ata, SIGNER, request, details, mintOwner).Ok?
      && var unsigned := B.Build(ata, SIGNER, request, details, mintOwner).value;
      && Fits(Keys(unsigned.payer, unsigned.instructions)) && tx.value == Placed(unsigned)
  {
    match B.Build(ata, SIGNER, request, details, mintOwner)
    case Err(_) => None
    case Ok(unsigned) => if Fits(Keys(unsigned.payer, unsigned.instructions)) then Some(Placed(unsigned)) else None
  }

  lemma {:induction false} BuiltWithin(
    ata: Derivation, request: ChargeRequest, details: MethodDetails, mintOwner: Option<Pubkey>)
    requires B.Build(ata, SIGNER, request, details, mintOwner).Ok?
    requires |B.Build(ata, SIGNER, request, details, mintOwner).value.instructions| <= 36
    requires Injective(ata)
    ensures BuiltTransaction(ata, request, details, mintOwner).Some?
    ensures Verify(ata, BuiltTransaction(ata, request, details, mintOwner).value, request, details).Ok?
      <==> ServerWillAccept(SIGNER, request, details)
  {
    BuiltFits(ata, SIGNER, request, details, mintOwner);
    BuiltIsAcceptedIff(
      ata, BuiltTransaction(ata, request, details, mintOwner).value, SIGNER, request, details, mintOwner);
  }

  lemma {:induction false} HalvesTotal()
    ensures SplitsTotal(HALVES.splits) == TWO_64 && WrappingSplitsTotal(HALVES.splits) == 0
  {
    var splits := HALVES.splits;
    assert splits[..1] == [HalfTo(3)] && splits[..1][..0] == [];
    assert SplitsTotal(splits[..1]) == HALF;
    WrappedTotal(splits);
  }

  lemma {:induction false} HalvesBuild(ata: Derivation)
    ensures B.Build(ata, SIGNER, LAMPORT, HALVES, None).Ok?
    ensures |B.Build(ata, SIGNER, LAMPORT, HALVES, None).value.instructions| == 5
  {
    HalvesTotal();
    var c := B.Context(SIGNER, SIGNER, false, None);
    var splits := HALVES.splits;
    assert splits[..1] == [HalfTo(3)] && splits[..1][..0] == [];
    assert B.SplitSteps(c, splits[..1]).Ok? && |B.SplitSteps(c, splits[..1]).value| == 1;
    assert B.SplitSteps(c, splits).Ok? && |B.SplitSteps(c, splits).value| == 2;
  }

  /** A charge of one lamport whose splits wrap around is built and accepted, and moves 2^64 + 1 lamports. */
  lemma {:induction false} OverflowIsAccepted(ata: Derivation)
    requires Injective(ata)
    ensures BuiltTransaction(ata, LAMPORT, HALVES, None).Some?
    ensures var tx := BuiltTransaction(ata, LAMPORT, HALVES, None).value;
      && Verify(ata, tx, LAMPORT, HALVES).Ok?
      && Paid(Present(Effects(ata, Sol, tx)), None) == TWO_64 + 1
  {
    HalvesBuild(ata);
    BuiltWithin(ata, LAMPORT, HALVES, None);
    HalvesPaid(ata, BuiltTransaction(ata, LAMPORT, HALVES, None).value);
  }

  lemma {:induction false} HalvesPaid(ata: Derivation, tx: Transaction)
    requires Injective(ata) && Verify(ata, tx, LAMPORT, HALVES).Ok?
    ensures Paid(Present(Effects(ata, Sol, tx)), None) == TWO_64 + 1
  {
    var t := ChargeTerms(tx, LAMPORT, HALVES).value;
    assert t.asset == Sol;
    AcceptedTotals(ata, tx, LAMPORT, HALVES);
    HalvesTotal();
    TermsPrimary(tx, LAMPORT, HALVES);
    DemandedTotal(t.recipient, t.primary, None, HALVES.splits);
  }

  /** A present but empty memo is built and then refused. */
  lemma {:induction false} EmptyMemoIsRefused(ata: Derivation)
    requires Injective(ata)
    ensures var request := LAMPORT.(externalId := Some([]));
      && BuiltTransaction(ata, request, PLAIN, None).Some?
      && Verify(ata, BuiltTransaction(ata, request, PLAIN, None).value, request, PLAIN).Err?
  {
    BuiltWithin(ata, LAMPORT.(externalId := Some([])), PLAIN, None);
  }

  /** A sponsor that is the signer itself is built and then refused. */
  lemma {:induction false} SelfSponsorIsRefused(ata: Derivation)
    requires Injective(ata)
    ensures var details := PLAIN.(feePayer := true, feePayerKey := Some(Key(SIGNER)));
      && BuiltTransaction(ata, LAMPORT, details, None).Some?
      && Verify(ata, BuiltTransaction(ata, LAMPORT, details, None).value, LAMPORT, details).Err?
  {
    BuiltWithin(ata, LAMPORT, PLAIN.(feePayer := true, feePayerKey := Some(Key(SIGNER))), None);
  }

  /** One base unit of a token by its mint address, with no token program named. */
  const UNNAMED: ChargeRequest := LAMPORT.(currency := Mint(Key(Address([9]))))

  const SIX_DECIMALS: MethodDetails := PLAIN.(decimals := Some(6))

  lemma {:induction false} UnnamedRunsUnder2022(ata: Derivation)
    requires Injective(ata)
    ensures BuiltTransaction(ata, UNNAMED, SIX_DECIMALS, Some(Token2022Program)).Some?
    ensures var tx := BuiltTransaction(ata, UNNAMED, SIX_DECIMALS, Some(Token2022Program)).value;
      && Verify(ata, tx, UNNAMED, SIX_DECIMALS).Ok?
      && |tx.instructions| == 3 && KeyAt(tx, tx.instructions[2].program) == Some(Token2022Program)
  {
    UnnamedBuild(ata);
    BuiltWithin(ata, UNNAMED, SIX_DECIMALS, Some(Token2022Program));
    var unsigned := B.Build(ata, SIGNER, UNNAMED, SIX_DECIMALS, Some(Token2022Program)).value;
    PlacedProgram(unsigned, 2);
  }

  lemma {:induction false} UnnamedBuild(ata: Derivation)
    ensures var built := B.Build(ata, SIGNER, UNNAMED, SIX_DECIMALS, Some(Token2022Program));
      built.Ok? && |built.value.instructions| == 3 && built.value.instructions[2].program == Token2022Program
  {
  }

  lemma {:induction false} PlacedProgram(unsigned: B.Unsigned, i: nat)
    requires Fits(Keys(unsigned.payer, unsigned.instructions)) && i < |unsigned.instructions|
    ensures var tx := Placed(unsigned);
      |tx.instructions| == |unsigned.instructions| && KeyAt(tx, tx.instructions[i].program) == Some(unsigned.instructions[i].program)
  {
    PlacedResolves(unsigned.payer, unsigned.instructions, i);
  }

  /** A payment under Token-2022 that names no program is accepted before broadcast and refused in parsed form. */
  lemma {:induction false} UnnamedProgramIsRefused(ata: Derivation, outer: seq<ParsedInstruction>, inner: seq<ParsedInstruction>)
    requires Injective(ata) && BuiltTransaction(ata, UNNAMED, SIX_DECIMALS, Some(Token2022Program)).Some?
    requires Reported(BuiltTransaction(ata, UNNAMED, SIX_DECIMALS, Some(Token2022Program)).value, outer)
    ensures Verify(
      ata, BuiltTransaction(ata, UNNAMED, SIX_DECIMALS, Some(Token2022Program)).value, UNNAMED, SIX_DECIMALS).Ok?
    ensures VerifyParsed(ata, outer + inner, UNNAMED, SIX_DECIMALS, TokenProgram).Err?
  {
    var tx := BuiltTransaction(ata, UNNAMED, SIX_DECIMALS, Some(Token2022Program)).value;
    UnnamedRunsUnder2022(ata);
    VerifiersAgreeIff(ata, tx, outer, inner, UNNAMED, SIX_DECIMALS, TokenProgram);
    assert !RunsUnder(tx, tx.instructions[2], Key(TokenProgram));
  }
}
