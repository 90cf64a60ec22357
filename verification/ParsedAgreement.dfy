/** The two verifiers against each other: when a transaction accepted before broadcast also passes in parsed form. */
module ParsedAgreement {
  import opened Common
  import opened Charge
  import opened FirstFit
  import opened ChargeVerifier
  import opened ChargeGuarantees
  import opened ParsedVerifier

  /**
   How an RPC node reports an instruction, for the instruction kinds a payment may contain: it names the program,
   and parses System transfers, Token transferChecked, memos and idempotent account creations.
   */
  ghost predicate ReportedAs(tx: Transaction, ix: CompiledInstruction, p: ParsedInstruction) {
    KeyAt(tx, ix.program).Some? ==>
      var program := KeyAt(tx, ix.program).value;
      && p.programId == Some(Key(program))
      && (program == ComputeBudgetProgram ==> p.parsed == Unparsed)
      && (program == MemoProgram ==> p.parsed == ParsedText(ix.data))
      && (program == SystemProgram && |ix.data| >= 12 && FromLE(ix.data[0..4]) == 2 && |ix.accounts| >= 2 ==>
            && IsObject(p, "transfer")
            && p.parsed.info.value.lamports == Some(FromLE(ix.data[4..12]))
            && FieldIs(tx, p, "destination", ix.accounts[1]))
      && (IsTokenProgram(program) && |ix.data| >= 10 && ix.data[0] == 12 && |ix.accounts| >= 4 ==>
            && IsObject(p, "transferChecked")
            && p.parsed.info.value.tokenAmount == Some(FromLE(ix.data[1..9]))
            && FieldIs(tx, p, "mint", ix.accounts[1])
            && FieldIs(tx, p, "destination", ix.accounts[2]))
      && (program == AssociatedTokenProgram && ix.data == [1] && |ix.accounts| == 6 ==>
            && IsObject(p, "createIdempotent")
            && FieldIs(tx, p, "source", ix.accounts[0])
            && FieldIs(tx, p, "account", ix.accounts[1])
            && FieldIs(tx, p, "wallet", ix.accounts[2])
            && FieldIs(tx, p, "mint", ix.accounts[3])
            && FieldIs(tx, p, "tokenProgram", ix.accounts[5]))
  }

  predicate IsObject(p: ParsedInstruction, kind: string) {
    p.parsed.ParsedObject? && p.parsed.kind == kind && p.parsed.info.Some?
  }

  predicate FieldIs(tx: Transaction, p: ParsedInstruction, name: string, account: byte)
    requires p.parsed.ParsedObject? && p.parsed.info.Some?
  {
    KeyAt(tx, account).Some? ==>
      name in p.parsed.info.value.keys && p.parsed.info.value.keys[name] == Key(KeyAt(tx, account).value)
  }

  ghost predicate Reported(tx: Transaction, ixs: seq<ParsedInstruction>) {
    && |ixs| == |tx.instructions|
    && forall i :: 0 <= i < |ixs| ==> ReportedAs(tx, tx.instructions[i], ixs[i])
  }

  /** The instruction runs under the token program `insisted`, or under none. */
  predicate RunsUnder(tx: Transaction, ix: CompiledInstruction, insisted: KeyText) {
    match KeyAt(tx, ix.program)
    case None => true
    case Some(program) =>
      && (IsTokenProgram(program) ==> Key(program) == insisted)
      && (program == AssociatedTokenProgram && |ix.accounts| == 6 && KeyAt(tx, ix.accounts[5]).Some? ==>
            Key(KeyAt(tx, ix.accounts[5]).value) == insisted)
  }

  predicate AllRunUnder(tx: Transaction, insisted: KeyText) {
    forall i :: 0 <= i < |tx.instructions| ==> RunsUnder(tx, tx.instructions[i], insisted)
  }

  // ── Same terms ──

  lemma {:induction false} SameParsedTerms(tx: Transaction, request: ChargeRequest, details: MethodDetails, defaultProgram: Pubkey)
    requires ChargeTerms(tx, request, details).Ok?
    ensures DeriveParsedTerms(request, details, defaultProgram).Ok?
    ensures var t := ChargeTerms(tx, request, details).value;
            var p := DeriveParsedTerms(request, details, defaultProgram).value;
            && p.recipient == t.recipient && p.primary == t.primary && p.policy == t.policy && p.payer == t.feePayer
            && p.mint == (if t.asset.Sol? then None else Some(t.asset.mint))
            && p.tokenProgram == InsistedProgram(details, defaultProgram)
            && (t.asset.Spl? && t.asset.tokenProgram.Some? ==> p.tokenProgram == Key(t.asset.tokenProgram.value))
  {
  }

  // ── Transfers ──

  /** A money instruction that does something, seen through the report, answers by what it does. */
  lemma {:induction false} ReportedTransferProbe(
    ata: Derivation, tx: Transaction, i: nat, p: ParsedInstruction, asset: Asset, tokenProgram: KeyText, recipient: Pubkey, amount: nat)
    requires Injective(ata)
    requires i < |tx.instructions| && ReportedAs(tx, tx.instructions[i], p)
    requires KeyAt(tx, tx.instructions[i].program).Some?
    requires TouchesMoneyOrMemo(KeyAt(tx, tx.instructions[i].program).value) ==> EffectAt(ata, asset, tx, i).Some?
    requires asset.Sol? ==> KeyAt(tx, tx.instructions[i].program) != Some(AssociatedTokenProgram)
    requires asset.Sol? ==> KeyAt(tx, tx.instructions[i].program).value in {SystemProgram, MemoProgram, ComputeBudgetProgram}
    requires asset.Spl? ==> RunsUnder(tx, tx.instructions[i], tokenProgram)
    ensures ParsedTransferProbe(ata, p, if asset.Sol? then None else Some(asset.mint), tokenProgram, recipient, amount) ==
            if EffectAt(ata, asset, tx, i) == Some(Pay(recipient, amount)) then Hit else Skip
  {
    var ix := tx.instructions[i];
    var accounts := AccountsAt(tx, i);
    assert forall j :: 0 <= j < |ix.accounts| ==> accounts[j] == KeyAt(tx, ix.accounts[j]);
  }

  lemma {:induction false} ReportedMemoProbe(tx: Transaction, ata: Derivation, asset: Asset, i: nat, p: ParsedInstruction, memo: seq<byte>)
    requires i < |tx.instructions| && ReportedAs(tx, tx.instructions[i], p)
    requires KeyAt(tx, tx.instructions[i].program).Some?
    ensures ParsedMemoProbe(p, memo) == if EffectAt(ata, asset, tx, i) == Some(Note(memo)) then Hit else Skip
  {
  }

  /** Which instructions an accepted transaction contains, instruction by instruction. */
  ghost predicate Accountable(ata: Derivation, tx: Transaction, asset: Asset, i: nat)
    requires i < |tx.instructions|
  {
    && KeyAt(tx, tx.instructions[i].program).Some?
    && var program := KeyAt(tx, tx.instructions[i].program).value;
    && (TouchesMoneyOrMemo(program) ==> EffectAt(ata, asset, tx, i).Some?)
    && (asset.Sol? ==> program in {SystemProgram, MemoProgram, ComputeBudgetProgram})
  }

  predicate MovesMoneyOrMemo(tx: Transaction, i: nat)
    requires i < |tx.instructions|
  {
    KeyAt(tx, tx.instructions[i].program).Some? && TouchesMoneyOrMemo(KeyAt(tx, tx.instructions[i].program).value)
  }

  lemma {:induction false} AcceptedIsAccountable(ata: Derivation, tx: Transaction, request: ChargeRequest, details: MethodDetails, i: nat)
    requires Injective(ata)
    requires Verify(ata, tx, request, details).Ok?
    requires i < |tx.instructions|
    ensures Accountable(ata, tx, ChargeTerms(tx, request, details).value.asset, i)
  {
    AcceptedExactly(ata, tx, request, details);
    var t := ChargeTerms(tx, request, details).value;
    assert InstructionAllowed(ata, tx, i, MatchedBy(ata, tx, request, details), t.asset, t.policy.allowed, AtaPayer(tx, t.feePayer));
  }

  lemma {:induction false} ParsedRowsAnswer(
    ata: Derivation, tx: Transaction, ixs: seq<ParsedInstruction>, request: ChargeRequest, details: MethodDetails,
    asset: Asset, p: ParsedTerms)
    requires Injective(ata) && Reported(tx, ixs)
    requires WellFormedSplits(details.splits)
    requires p.mint == if asset.Sol? then None else Some(asset.mint)
    requires asset.Spl? ==> AllRunUnder(tx, p.tokenProgram)
    requires forall i :: 0 <= i < |tx.instructions| ==> Accountable(ata, tx, asset, i)
    requires forall k :: 0 <= k < |ExpectedMemos(request.externalId, details.splits)| ==>
               |ExpectedMemos(request.externalId, details.splits)[k]| <= MAX_MEMO_BYTES
    ensures AnswersByOffer(ParsedRows(ata, ixs, request, details, p),
                           Demanded(p.recipient, p.primary, request.externalId, details.splits), Effects(ata, asset, tx), {})
  {
    var splits := details.splits;
    var rows := ParsedRows(ata, ixs, request, details, p);
    var wants := Demanded(p.recipient, p.primary, request.externalId, splits);
    var keys := Effects(ata, asset, tx);
    var memos := ExpectedMemos(request.externalId, splits);
    forall k | 0 <= k < |rows| ensures RowByOffer(rows[k], wants[k], keys, {}) {
      if k <= |splits| {
        ParsedTransferRowAt(ata, ixs, request, details, p, k);
        ParsedTransferRowAnswers(ata, tx, ixs, asset, p, wants[k].to, wants[k].amount);
      } else {
        ParsedMemoRowAt(ata, ixs, request, details, p, k);
        ParsedMemoRowAnswers(ata, tx, ixs, asset, memos[k - 1 - |splits|]);
      }
    }
  }

  lemma {:induction false} ParsedTransferRowAt(
    ata: Derivation, ixs: seq<ParsedInstruction>, request: ChargeRequest, details: MethodDetails, p: ParsedTerms, k: nat)
    requires WellFormedSplits(details.splits) && k <= |details.splits|
    ensures k < |ParsedRows(ata, ixs, request, details, p)|
    ensures var want := Demanded(p.recipient, p.primary, request.externalId, details.splits)[k];
      && want.Pay?
      && ParsedRows(ata, ixs, request, details, p)[k]
         == ParsedTransferRow(ata, ixs, p.mint, p.tokenProgram, want.to, Some(want.amount))
  {
  }

  lemma {:induction false} ParsedMemoRowAt(
    ata: Derivation, ixs: seq<ParsedInstruction>, request: ChargeRequest, details: MethodDetails, p: ParsedTerms, k: nat)
    requires WellFormedSplits(details.splits)
    requires |details.splits| < k < |ParsedRows(ata, ixs, request, details, p)|
    ensures var memo := ExpectedMemos(request.externalId, details.splits)[k - 1 - |details.splits|];
      && ParsedRows(ata, ixs, request, details, p)[k] == ParsedMemoRow(ixs, memo)
      && Demanded(p.recipient, p.primary, request.externalId, details.splits)[k] == Note(memo)
  {
  }

  lemma {:induction false} ParsedRowAt(
    ata: Derivation, ixs: seq<ParsedInstruction>, request: ChargeRequest, details: MethodDetails, p: ParsedTerms, k: nat)
    requires RecipientsParse(details.splits)
    requires k < |ParsedRows(ata, ixs, request, details, p)|
    ensures var row := ParsedRows(ata, ixs, request, details, p)[k];
      if k == 0 then row == ParsedTransferRow(ata, ixs, p.mint, p.tokenProgram, p.recipient, Some(p.primary))
      else if k <= |details.splits| then
        var split := details.splits[k - 1];
        row == ParsedTransferRow(ata, ixs, p.mint, p.tokenProgram, split.recipient.key, split.amount)
      else row == ParsedMemoRow(ixs, ExpectedMemos(request.externalId, details.splits)[k - 1 - |details.splits|])
  {
  }

  lemma {:induction false} ParsedTransferRowAnswers(
    ata: Derivation, tx: Transaction, ixs: seq<ParsedInstruction>, asset: Asset, p: ParsedTerms, to: Pubkey, amount: nat)
    requires Injective(ata) && Reported(tx, ixs)
    requires p.mint == if asset.Sol? then None else Some(asset.mint)
    requires asset.Spl? ==> AllRunUnder(tx, p.tokenProgram)
    requires forall i :: 0 <= i < |tx.instructions| ==> Accountable(ata, tx, asset, i)
    ensures RowByOffer(ParsedTransferRow(ata, ixs, p.mint, p.tokenProgram, to, Some(amount)), Pay(to, amount), Effects(ata, asset, tx), {})
  {
    var row, keys := ParsedTransferRow(ata, ixs, p.mint, p.tokenProgram, to, Some(amount)), Effects(ata, asset, tx);
    forall i | 0 <= i < |keys| ensures row.probes.value[i] == if keys[i] == Some(Pay(to, amount)) then Hit else Skip {
      assert Accountable(ata, tx, asset, i);
      ReportedTransferProbe(ata, tx, i, ixs[i], asset, p.tokenProgram, to, amount);
    }
  }

  lemma {:induction false} ParsedMemoRowAnswers(
    ata: Derivation, tx: Transaction, ixs: seq<ParsedInstruction>, asset: Asset, memo: seq<byte>)
    requires Reported(tx, ixs) && |memo| <= MAX_MEMO_BYTES
    requires forall i :: 0 <= i < |tx.instructions| ==> Accountable(ata, tx, asset, i)
    ensures RowByOffer(ParsedMemoRow(ixs, memo), Note(memo), Effects(ata, asset, tx), {})
  {
    var row, keys := ParsedMemoRow(ixs, memo), Effects(ata, asset, tx);
    forall i | 0 <= i < |keys| ensures row.probes.value[i] == if keys[i] == Some(Note(memo)) then Hit else Skip {
      assert Accountable(ata, tx, asset, i);
      ReportedMemoProbe(tx, ata, asset, i, ixs[i], memo);
    }
  }

  lemma {:induction false} AcceptedMemosFit(ata: Derivation, tx: Transaction, request: ChargeRequest, details: MethodDetails)
    requires Verify(ata, tx, request, details).Ok?
    ensures forall k :: 0 <= k < |ExpectedMemos(request.externalId, details.splits)| ==>
              |ExpectedMemos(request.externalId, details.splits)[k]| <= MAX_MEMO_BYTES
  {
    var t := ChargeTerms(tx, request, details).value;
    var rows := RowsFor(ata, tx, request, details, t);
    var memos := ExpectedMemos(request.externalId, details.splits);
    MatchedRowsAreWellFormed(rows, {});
    forall k | 0 <= k < |memos| ensures |memos[k]| <= MAX_MEMO_BYTES {
      assert rows[1 + |details.splits| + k] == MemoRow(tx, memos[k]);
    }
  }

  lemma {:induction false} ParsedMatchSucceeds(
    ata: Derivation, tx: Transaction, ixs: seq<ParsedInstruction>, request: ChargeRequest, details: MethodDetails,
    defaultProgram: Pubkey)
    requires Injective(ata) && Reported(tx, ixs)
    requires Verify(ata, tx, request, details).Ok?
    requires request.currency.Native? || AllRunUnder(tx, InsistedProgram(details, defaultProgram))
    ensures DeriveParsedTerms(request, details, defaultProgram).Ok?
    ensures var p := DeriveParsedTerms(request, details, defaultProgram).value;
            var m := MatchAll(ParsedRows(ata, ixs, request, details, p), {});
            && m.Ok?
            && forall i :: 0 <= i < |ixs| && MovesMoneyOrMemo(tx, i) ==> i in m.value
  {
    SameParsedTerms(tx, request, details, defaultProgram);
    var t := ChargeTerms(tx, request, details).value;
    var p := DeriveParsedTerms(request, details, defaultProgram).value;
    AcceptedOffers(ata, tx, request, details);
    AcceptedMemosFit(ata, tx, request, details);
    ParsedRowsAnswer(ata, tx, ixs, request, details, t.asset, p);
    MatchesEverything(ParsedRows(ata, ixs, request, details, p),
                      Demanded(p.recipient, p.primary, request.externalId, details.splits), Effects(ata, t.asset, tx));
    forall i | 0 <= i < |ixs| && MovesMoneyOrMemo(tx, i)
      ensures i in MatchAll(ParsedRows(ata, ixs, request, details, p), {}).value
    {
      assert Accountable(ata, tx, t.asset, i);
      assert Effects(ata, t.asset, tx)[i] == EffectAt(ata, t.asset, tx, i);
    }
  }

  lemma {:induction false} AcceptedOffers(ata: Derivation, tx: Transaction, request: ChargeRequest, details: MethodDetails)
    requires Injective(ata)
    requires Verify(ata, tx, request, details).Ok?
    ensures WellFormedSplits(details.splits)
    ensures var t := ChargeTerms(tx, request, details).value;
      && Offered(Effects(ata, t.asset, tx), {}) == multiset(Demanded(t.recipient, t.primary, request.externalId, details.splits))
      && forall i :: 0 <= i < |tx.instructions| ==> Accountable(ata, tx, t.asset, i)
  {
    var t := ChargeTerms(tx, request, details).value;
    AcceptedExactly(ata, tx, request, details);
    OfferedIsPresent(Effects(ata, t.asset, tx));
    forall i | 0 <= i < |tx.instructions| ensures Accountable(ata, tx, t.asset, i) {
      AcceptedIsAccountable(ata, tx, request, details, i);
    }
  }

  // ── Allowlists ──

  lemma {:induction false} CreationSeenInReport(
    ata: Derivation, tx: Transaction, i: nat, ixs: seq<ParsedInstruction>, asset: Asset, allowed: set<Pubkey>, feePayer: Option<Pubkey>,
    insisted: KeyText)
    requires Reported(tx, ixs) && i < |ixs|
    requires KeyAt(tx, tx.instructions[i].program) == Some(AssociatedTokenProgram)
    requires |tx.keys| > 0
    requires AtaCreation(ata, tx, tx.instructions[i], asset, allowed, AtaPayer(tx, feePayer)).Ok?
    requires RunsUnder(tx, tx.instructions[i], insisted)
    ensures ParsedAtaCreation(ata, ixs[i], if asset.Sol? then None else Some(asset.mint), allowed, insisted, feePayer) ==
            AtaCreation(ata, tx, tx.instructions[i], asset, allowed, AtaPayer(tx, feePayer))
  {
    var p := ixs[i];
    assert ReportedAs(tx, tx.instructions[i], p);
  }

  lemma {:induction false} ParsedAllowlistFollows(
    ata: Derivation, tx: Transaction, ixs: seq<ParsedInstruction>, matched: set<nat>, matched': set<nat>, asset: Asset,
    policy: AtaCreationPolicy, feePayer: Option<Pubkey>, insisted: KeyText)
    requires Reported(tx, ixs)
    requires AllowlistHolds(ata, tx, matched, asset, policy, feePayer)
    requires asset.Sol? || AllRunUnder(tx, insisted)
    requires forall i :: 0 <= i < |ixs| && MovesMoneyOrMemo(tx, i) ==> i in matched'
    ensures ParsedAllowlistHolds(ata, ixs, matched', if asset.Sol? then None else Some(asset.mint), policy, insisted, feePayer)
  {
    var mint := if asset.Sol? then None else Some(asset.mint);
    var payer := AtaPayer(tx, feePayer);
    forall i | 0 <= i < |ixs| ensures ParsedAllowed(ata, ixs, i, matched', mint, policy.allowed, insisted, feePayer) {
      assert ReportedAs(tx, tx.instructions[i], ixs[i]);
      assert InstructionAllowed(ata, tx, i, matched, asset, policy.allowed, payer);
      if KeyAt(tx, tx.instructions[i].program) == Some(AssociatedTokenProgram) {
        CreationSeenInReport(ata, tx, i, ixs, asset, policy.allowed, feePayer, insisted);
      }
    }
    forall owner | owner in policy.required
      ensures ParsedCreated(ata, ixs, mint, policy.allowed, insisted, feePayer, owner)
    {
      assert Created(ata, tx, asset, policy.allowed, payer, owner);
      var i :| 0 <= i < |tx.instructions| && CreatesFor(ata, tx, i, asset, policy.allowed, payer, owner);
      assert ReportedAs(tx, tx.instructions[i], ixs[i]);
      CreationSeenInReport(ata, tx, i, ixs, asset, policy.allowed, feePayer, insisted);
      assert ParsedCreatesFor(ata, ixs, i, mint, policy.allowed, insisted, feePayer, owner);
    }
  }

  // ── Inner instructions ──

  /** An instruction that answers no expectation, as the allowlist sees it. */
  predicate AllowedUnmatched(ata: Derivation, ix: ParsedInstruction, p: ParsedTerms) {
    var program := ParsedProgramId(ix);
    || program == Some(Key(ComputeBudgetProgram))
    || (&& program == Some(Key(AssociatedTokenProgram))
        && ParsedAtaCreation(ata, ix, p.mint, p.policy.allowed, p.tokenProgram, p.payer).Ok?)
  }

  /** The inner instructions do nothing but set the compute budget and create token accounts the charge allows. */
  predicate InnerAllowed(ata: Derivation, inner: seq<ParsedInstruction>, p: ParsedTerms) {
    forall j :: 0 <= j < |inner| ==> AllowedUnmatched(ata, inner[j], p)
  }

  predicate AllowlistFor(ata: Derivation, ixs: seq<ParsedInstruction>, matched: set<nat>, p: ParsedTerms) {
    ParsedAllowlistHolds(ata, ixs, matched, p.mint, p.policy, p.tokenProgram, p.payer)
  }

  predicate AllAllowedFor(ata: Derivation, ixs: seq<ParsedInstruction>, matched: set<nat>, p: ParsedTerms) {
    AllParsedAllowed(ata, ixs, matched, p.mint, p.policy.allowed, p.tokenProgram, p.payer)
  }

  lemma {:induction false} RowsExtend(
    ata: Derivation, outer: seq<ParsedInstruction>, inner: seq<ParsedInstruction>, request: ChargeRequest,
    details: MethodDetails, p: ParsedTerms, k: nat)
    requires RecipientsParse(details.splits)
    requires k < |ParsedRows(ata, outer, request, details, p)|
    ensures |ParsedRows(ata, outer + inner, request, details, p)| == |ParsedRows(ata, outer, request, details, p)|
    ensures RowExtends(ParsedRows(ata, outer, request, details, p)[k], ParsedRows(ata, outer + inner, request, details, p)[k])
  {
    ParsedRowAt(ata, outer, request, details, p, k);
    ParsedRowAt(ata, outer + inner, request, details, p, k);
  }

  /** The outer instructions that answer the expectations still do when inner ones follow. */
  lemma {:induction false} MatchedWithInner(
    ata: Derivation, outer: seq<ParsedInstruction>, inner: seq<ParsedInstruction>, request: ChargeRequest,
    details: MethodDetails, p: ParsedTerms)
    requires RecipientsParse(details.splits)
    requires MatchAll(ParsedRows(ata, outer, request, details, p), {}).Ok?
    ensures MatchAll(ParsedRows(ata, outer + inner, request, details, p), {})
      == MatchAll(ParsedRows(ata, outer, request, details, p), {})
  {
    var rows, rows' := ParsedRows(ata, outer, request, details, p), ParsedRows(ata, outer + inner, request, details, p);
    forall k | 0 <= k < |rows| ensures RowExtends(rows[k], rows'[k]) {
      RowsExtend(ata, outer, inner, request, details, p, k);
    }
    MatchAllExtends(rows, rows', {});
  }

  lemma {:induction false} MatchedIsOuter(
    ata: Derivation, outer: seq<ParsedInstruction>, request: ChargeRequest, details: MethodDetails, p: ParsedTerms, i: nat)
    requires RecipientsParse(details.splits)
    requires MatchAll(ParsedRows(ata, outer, request, details, p), {}).Ok?
    requires i in MatchAll(ParsedRows(ata, outer, request, details, p), {}).value
    ensures i < |outer|
  {
    var rows := ParsedRows(ata, outer, request, details, p);
    ConsumedIsHit(rows, {}, i);
    var k :| 0 <= k < |rows| && RowHits(rows[k], i);
    ParsedRowAt(ata, outer, request, details, p, k);
  }

  lemma {:induction false} AllowedWithInner(
    ata: Derivation, outer: seq<ParsedInstruction>, inner: seq<ParsedInstruction>, matched: set<nat>, p: ParsedTerms)
    requires forall i :: i in matched ==> i < |outer|
    requires AllAllowedFor(ata, outer, matched, p)
    ensures AllAllowedFor(ata, outer + inner, matched, p) <==> InnerAllowed(ata, inner, p)
  {
    var all := outer + inner;
    forall i | 0 <= i < |outer|
      ensures ParsedAllowed(ata, all, i, matched, p.mint, p.policy.allowed, p.tokenProgram, p.payer)
    {
      assert ParsedAllowed(ata, outer, i, matched, p.mint, p.policy.allowed, p.tokenProgram, p.payer);
    }
    forall j | 0 <= j < |inner|
      ensures ParsedAllowed(ata, all, |outer| + j, matched, p.mint, p.policy.allowed, p.tokenProgram, p.payer)
        <==> AllowedUnmatched(ata, inner[j], p)
    {
      assert all[|outer| + j] == inner[j];
    }
    if InnerAllowed(ata, inner, p) {
      forall i | 0 <= i < |all|
        ensures ParsedAllowed(ata, all, i, matched, p.mint, p.policy.allowed, p.tokenProgram, p.payer)
      {
        assert i >= |outer| ==> AllowedUnmatched(ata, inner[i - |outer|], p);
      }
    } else {
      var j :| 0 <= j < |inner| && !AllowedUnmatched(ata, inner[j], p);
      assert !ParsedAllowed(ata, all, |outer| + j, matched, p.mint, p.policy.allowed, p.tokenProgram, p.payer);
    }
  }

  lemma {:induction false} CreatedWithInner(
    ata: Derivation, outer: seq<ParsedInstruction>, inner: seq<ParsedInstruction>, p: ParsedTerms, owner: Pubkey)
    requires ParsedCreated(ata, outer, p.mint, p.policy.allowed, p.tokenProgram, p.payer, owner)
    ensures ParsedCreated(ata, outer + inner, p.mint, p.policy.allowed, p.tokenProgram, p.payer, owner)
  {
    var i :| 0 <= i < |outer| && ParsedCreatesFor(ata, outer, i, p.mint, p.policy.allowed, p.tokenProgram, p.payer, owner);
    assert (outer + inner)[i] == outer[i];
    assert ParsedCreatesFor(ata, outer + inner, i, p.mint, p.policy.allowed, p.tokenProgram, p.payer, owner);
  }

  lemma {:induction false} AllowlistWithInner(
    ata: Derivation, outer: seq<ParsedInstruction>, inner: seq<ParsedInstruction>, matched: set<nat>, p: ParsedTerms)
    requires forall i :: i in matched ==> i < |outer|
    requires AllowlistFor(ata, outer, matched, p)
    ensures AllowlistFor(ata, outer + inner, matched, p) <==> InnerAllowed(ata, inner, p)
  {
    AllowedWithInner(ata, outer, inner, matched, p);
    forall owner | owner in p.policy.required
      ensures ParsedCreated(ata, outer + inner, p.mint, p.policy.allowed, p.tokenProgram, p.payer, owner)
    {
      CreatedWithInner(ata, outer, inner, p, owner);
    }
  }

  // ── The other direction ──

  /** The report of the outer instructions, before the inner ones. */
  ghost predicate Begins(tx: Transaction, ixs: seq<ParsedInstruction>) {
    |tx.instructions| <= |ixs| && Reported(tx, ixs[..|tx.instructions|])
  }

  lemma {:induction false} ParsedAcceptedRunsUnder(
    ata: Derivation, tx: Transaction, ixs: seq<ParsedInstruction>, request: ChargeRequest, details: MethodDetails,
    defaultProgram: Pubkey, i: nat)
    requires Injective(ata) && Begins(tx, ixs)
    requires Verify(ata, tx, request, details).Ok?
    requires VerifyParsed(ata, ixs, request, details, defaultProgram).Ok?
    requires !request.currency.Native?
    requires i < |tx.instructions|
    ensures RunsUnder(tx, tx.instructions[i], InsistedProgram(details, defaultProgram))
  {
    var p := DeriveParsedTerms(request, details, defaultProgram).value;
    SameParsedTerms(tx, request, details, defaultProgram);
    AcceptedIsAccountable(ata, tx, request, details, i);
    ParsedAcceptedAllows(ata, ixs, request, details, defaultProgram, i);
    assert ReportedAs(tx, tx.instructions[i], ixs[i]) by {
      assert ixs[..|tx.instructions|][i] == ixs[i];
    }
    var program := KeyAt(tx, tx.instructions[i].program).value;
    if IsTokenProgram(program) {
      TokenRunsUnder(ata, ixs, request, details, p, i);
      KeyOfProgram(tx, tx.instructions[i], ixs[i], p.tokenProgram);
    } else if program == AssociatedTokenProgram {
      AllowedCreationFields(ata, tx, request, details, i);
      CreationRunsUnder(ata, tx, tx.instructions[i], ixs[i], p);
    }
  }

  lemma {:induction false} ParsedAcceptedAllows(
    ata: Derivation, ixs: seq<ParsedInstruction>, request: ChargeRequest, details: MethodDetails, defaultProgram: Pubkey, i: nat)
    requires VerifyParsed(ata, ixs, request, details, defaultProgram).Ok? && i < |ixs|
    ensures var p := DeriveParsedTerms(request, details, defaultProgram).value;
      var m := MatchAll(ParsedRows(ata, ixs, request, details, p), {});
      m.Ok? && ParsedAllowed(ata, ixs, i, m.value, p.mint, p.policy.allowed, p.tokenProgram, p.payer)
  {
    var p := DeriveParsedTerms(request, details, defaultProgram).value;
    var m := MatchAll(ParsedRows(ata, ixs, request, details, p), {});
    assert AllAllowedFor(ata, ixs, m.value, p);
  }

  /** A token instruction that the parsed check admits runs under the program it insists on. */
  lemma {:induction false} TokenRunsUnder(
    ata: Derivation, ixs: seq<ParsedInstruction>, request: ChargeRequest, details: MethodDetails, p: ParsedTerms, i: nat)
    requires RecipientsParse(details.splits) && p.mint.Some? && i < |ixs|
    requires ParsedProgramId(ixs[i]).Some? && ParsedProgramId(ixs[i]).value.Key? && IsTokenProgram(ParsedProgramId(ixs[i]).value.key)
    requires var m := MatchAll(ParsedRows(ata, ixs, request, details, p), {});
      m.Ok? && ParsedAllowed(ata, ixs, i, m.value, p.mint, p.policy.allowed, p.tokenProgram, p.payer)
    ensures ixs[i].programId == Some(p.tokenProgram)
  {
    var rows := ParsedRows(ata, ixs, request, details, p);
    ConsumedIsHit(rows, {}, i);
    var k :| 0 <= k < |rows| && RowHits(rows[k], i);
    ParsedHitRunsUnder(ata, ixs, request, details, p, k, i);
  }

  lemma {:induction false} KeyOfProgram(tx: Transaction, ix: CompiledInstruction, p: ParsedInstruction, insisted: KeyText)
    requires ReportedAs(tx, ix, p) && p.programId == Some(insisted)
    requires KeyAt(tx, ix.program).Some? && IsTokenProgram(KeyAt(tx, ix.program).value)
    ensures RunsUnder(tx, ix, insisted)
  {
  }

  lemma {:induction false} CreationRunsUnder(
    ata: Derivation, tx: Transaction, ix: CompiledInstruction, r: ParsedInstruction, p: ParsedTerms)
    requires ReportedAs(tx, ix, r) && KeyAt(tx, ix.program) == Some(AssociatedTokenProgram)
    requires |ix.accounts| == 6 && ix.data == [1] && KeyAt(tx, ix.accounts[5]).Some?
    requires ParsedAtaCreation(ata, r, p.mint, p.policy.allowed, p.tokenProgram, p.payer).Ok?
    ensures RunsUnder(tx, ix, p.tokenProgram)
  {
    assert FieldIs(tx, r, "tokenProgram", ix.accounts[5]);
  }

  lemma {:induction false} ParsedHitRunsUnder(
    ata: Derivation, ixs: seq<ParsedInstruction>, request: ChargeRequest, details: MethodDetails, p: ParsedTerms, k: nat, i: nat)
    requires RecipientsParse(details.splits)
    requires p.mint.Some?
    requires k < |ParsedRows(ata, ixs, request, details, p)| && i < |ixs|
    requires RowHits(ParsedRows(ata, ixs, request, details, p)[k], i)
    ensures ParsedProgramId(ixs[i]) == Some(Key(MemoProgram)) || ixs[i].programId == Some(p.tokenProgram)
  {
    ParsedRowAt(ata, ixs, request, details, p, k);
  }

  lemma {:induction false} AllowedCreationFields(ata: Derivation, tx: Transaction, request: ChargeRequest, details: MethodDetails, i: nat)
    requires Verify(ata, tx, request, details).Ok?
    requires i < |tx.instructions|
    requires KeyAt(tx, tx.instructions[i].program) == Some(AssociatedTokenProgram)
    ensures |tx.instructions[i].accounts| == 6 && tx.instructions[i].data == [1]
    ensures KeyAt(tx, tx.instructions[i].accounts[5]).Some?
  {
    var t := ChargeTerms(tx, request, details).value;
    assert InstructionAllowed(ata, tx, i, MatchedBy(ata, tx, request, details), t.asset, t.policy.allowed, AtaPayer(tx, t.feePayer));
  }

  /**
   A transaction accepted before broadcast whose instructions are reported faithfully, with inner instructions after
   them, passes the parsed check if and only if it is a SOL payment or all its token instructions and account creations
   run under the token program the parsed check insists on, and the inner instructions only set the compute budget or
   create token accounts the charge allows.
   */
  lemma {:induction false} VerifiersAgreeIff(
    ata: Derivation, tx: Transaction, outer: seq<ParsedInstruction>, inner: seq<ParsedInstruction>, request: ChargeRequest,
    details: MethodDetails, defaultProgram: Pubkey)
    requires Injective(ata) && Reported(tx, outer)
    requires Verify(ata, tx, request, details).Ok?
    ensures DeriveParsedTerms(request, details, defaultProgram).Ok?
    ensures VerifyParsed(ata, outer + inner, request, details, defaultProgram).Ok? <==>
            && (request.currency.Native? || AllRunUnder(tx, InsistedProgram(details, defaultProgram)))
            && InnerAllowed(ata, inner, DeriveParsedTerms(request, details, defaultProgram).value)
  {
    var insisted := InsistedProgram(details, defaultProgram);
    SameParsedTerms(tx, request, details, defaultProgram);
    if request.currency.Native? || AllRunUnder(tx, insisted) {
      RunningIsAllowedIff(ata, tx, outer, inner, request, details, defaultProgram);
    } else if VerifyParsed(ata, outer + inner, request, details, defaultProgram).Ok? {
      assert (outer + inner)[..|tx.instructions|] == outer;
      forall i | 0 <= i < |tx.instructions| ensures RunsUnder(tx, tx.instructions[i], insisted) {
        ParsedAcceptedRunsUnder(ata, tx, outer + inner, request, details, defaultProgram, i);
      }
    }
  }

  /** Without a mismatch of token programs, the inner instructions decide. */
  lemma {:induction false} RunningIsAllowedIff(
    ata: Derivation, tx: Transaction, outer: seq<ParsedInstruction>, inner: seq<ParsedInstruction>, request: ChargeRequest,
    details: MethodDetails, defaultProgram: Pubkey)
    requires Injective(ata) && Reported(tx, outer)
    requires Verify(ata, tx, request, details).Ok?
    requires request.currency.Native? || AllRunUnder(tx, InsistedProgram(details, defaultProgram))
    ensures DeriveParsedTerms(request, details, defaultProgram).Ok?
    ensures VerifyParsed(ata, outer + inner, request, details, defaultProgram).Ok?
      <==> InnerAllowed(ata, inner, DeriveParsedTerms(request, details, defaultProgram).value)
  {
    OuterPasses(ata, tx, outer, request, details, defaultProgram);
    var p := DeriveParsedTerms(request, details, defaultProgram).value;
    var matched := MatchAll(ParsedRows(ata, outer, request, details, p), {}).value;
    MatchedWithInner(ata, outer, inner, request, details, p);
    forall i | i in matched ensures i < |outer| {
      MatchedIsOuter(ata, outer, request, details, p, i);
    }
    AllowlistWithInner(ata, outer, inner, matched, p);
  }

  lemma {:induction false} OuterPasses(
    ata: Derivation, tx: Transaction, outer: seq<ParsedInstruction>, request: ChargeRequest, details: MethodDetails,
    defaultProgram: Pubkey)
    requires Injective(ata) && Reported(tx, outer)
    requires Verify(ata, tx, request, details).Ok?
    requires request.currency.Native? || AllRunUnder(tx, InsistedProgram(details, defaultProgram))
    ensures DeriveParsedTerms(request, details, defaultProgram).Ok?
    ensures var p := DeriveParsedTerms(request, details, defaultProgram).value;
      var m := MatchAll(ParsedRows(ata, outer, request, details, p), {});
      m.Ok? && AllowlistFor(ata, outer, m.value, p)
  {
    ParsedMatchSucceeds(ata, tx, outer, request, details, defaultProgram);
    SameParsedTerms(tx, request, details, defaultProgram);
    var t := ChargeTerms(tx, request, details).value;
    var p := DeriveParsedTerms(request, details, defaultProgram).value;
    ParsedAllowlistFollows(ata, tx, outer, MatchedBy(ata, tx, request, details),
                           MatchAll(ParsedRows(ata, outer, request, details, p), {}).value,
                           t.asset, t.policy, t.feePayer, InsistedProgram(details, defaultProgram));
  }

  /** An inner System or Token instruction, as the creation of a token account has them, is refused. */
  lemma {:induction false} InnerTransferRefuses(
    ata: Derivation, tx: Transaction, outer: seq<ParsedInstruction>, inner: seq<ParsedInstruction>, request: ChargeRequest,
    details: MethodDetails, defaultProgram: Pubkey, j: nat)
    requires Injective(ata) && Reported(tx, outer)
    requires Verify(ata, tx, request, details).Ok?
    requires j < |inner| && ParsedProgramId(inner[j]).Some? && ParsedProgramId(inner[j]).value.Key?
    requires TouchesMoneyOrMemo(ParsedProgramId(inner[j]).value.key)
    ensures VerifyParsed(ata, outer + inner, request, details, defaultProgram).Err?
  {
    VerifiersAgreeIff(ata, tx, outer, inner, request, details, defaultProgram);
    assert !AllowedUnmatched(ata, inner[j], DeriveParsedTerms(request, details, defaultProgram).value);
  }

  /** With `tokenProgram` set in the challenge the two verifiers agree up to the inner instructions. */
  lemma {:induction false} NamedTokenProgramAgrees(
    ata: Derivation, tx: Transaction, outer: seq<ParsedInstruction>, inner: seq<ParsedInstruction>, request: ChargeRequest,
    details: MethodDetails, defaultProgram: Pubkey)
    requires Injective(ata) && Reported(tx, outer)
    requires Verify(ata, tx, request, details).Ok?
    requires details.tokenProgram.Some?
    ensures DeriveParsedTerms(request, details, defaultProgram).Ok?
    ensures VerifyParsed(ata, outer + inner, request, details, defaultProgram).Ok?
      <==> InnerAllowed(ata, inner, DeriveParsedTerms(request, details, defaultProgram).value)
  {
    VerifiersAgreeIff(ata, tx, outer, inner, request, details, defaultProgram);
    if !request.currency.Native? {
      forall i | 0 <= i < |tx.instructions|
        ensures RunsUnder(tx, tx.instructions[i], InsistedProgram(details, defaultProgram))
      {
        AcceptedRunsUnderNamed(ata, tx, request, details, i);
      }
    }
  }

  lemma {:induction false} AcceptedRunsUnderNamed(ata: Derivation, tx: Transaction, request: ChargeRequest, details: MethodDetails, i: nat)
    requires Verify(ata, tx, request, details).Ok?
    requires !request.currency.Native? && details.tokenProgram.Some?
    requires i < |tx.instructions|
    ensures RunsUnder(tx, tx.instructions[i], details.tokenProgram.value)
  {
    var t := ChargeTerms(tx, request, details).value;
    var matched := MatchedBy(ata, tx, request, details);
    assert InstructionAllowed(ata, tx, i, matched, t.asset, t.policy.allowed, AtaPayer(tx, t.feePayer));
    if IsTokenProgram(KeyAt(tx, tx.instructions[i].program).value) {
      MatchedRunsUnder(ata, tx, t, request, details, i);
    }
  }

  lemma {:induction false} MatchedRunsUnder(ata: Derivation, tx: Transaction, t: Terms, request: ChargeRequest, details: MethodDetails, i: nat)
    requires RecipientsParse(details.splits)
    requires t.asset.Spl? && t.asset.tokenProgram.Some?
    requires MatchAll(RowsFor(ata, tx, request, details, t), {}).Ok?
    requires i < |tx.instructions| && i in MatchAll(RowsFor(ata, tx, request, details, t), {}).value
    ensures KeyAt(tx, tx.instructions[i].program) == Some(MemoProgram)
            || KeyAt(tx, tx.instructions[i].program) == t.asset.tokenProgram
  {
    var rows := RowsFor(ata, tx, request, details, t);
    ConsumedIsHit(rows, {}, i);
    var k :| 0 <= k < |rows| && RowHits(rows[k], i);
    HitRunsUnder(ata, tx, t, request, details, k, i);
  }

  lemma {:induction false} HitRunsUnder(ata: Derivation, tx: Transaction, t: Terms, request: ChargeRequest, details: MethodDetails, k: nat, i: nat)
    requires RecipientsParse(details.splits)
    requires t.asset.Spl? && t.asset.tokenProgram.Some?
    requires k < |RowsFor(ata, tx, request, details, t)| && i < |tx.instructions|
    requires RowHits(RowsFor(ata, tx, request, details, t)[k], i)
    ensures KeyAt(tx, tx.instructions[i].program) == Some(MemoProgram)
            || KeyAt(tx, tx.instructions[i].program) == t.asset.tokenProgram
  {
    var rows := RowsFor(ata, tx, request, details, t);
    if k <= |details.splits| {
      var to := if k == 0 then t.recipient else details.splits[k - 1].recipient.key;
      var amount := if k == 0 then Some(t.primary) else details.splits[k - 1].amount;
      assert rows[k] == TransferRow(ata, tx, t.asset, to, amount, t.feePayer);
    } else {
      assert rows[k] == MemoRow(tx, ExpectedMemos(request.externalId, details.splits)[k - 1 - |details.splits|]);
    }
  }
}
