/** The charge request, the transaction that pays it, and what the transaction's instructions do. */
module Charge {
  import opened Common

  /** A 32-byte address. The six programs a payment may call are told apart from all other addresses. */
  datatype Pubkey =
    | SystemProgram
    | TokenProgram
    | Token2022Program
    | AssociatedTokenProgram
    | ComputeBudgetProgram
    | MemoProgram
    | Address(bytes: seq<byte>)

  /** An address as it arrives in JSON: base58 text that denotes a key, or text that does not parse. */
  datatype KeyText = Key(key: Pubkey) | Malformed

  /** How the chain derives the associated token account of an owner, a token program and a mint. */
  type Derivation = (Pubkey, Pubkey, Pubkey) -> Pubkey

  ghost predicate Injective(ata: Derivation) {
    forall owner, program, mint, owner', program', mint' ::
      ata(owner, program, mint) == ata(owner', program', mint') ==>
        owner == owner' && program == program' && mint == mint'
  }

  /** A currency after stablecoin resolution: native SOL, a known symbol with its mint, or a mint address. */
  datatype Currency = Native | Symbol(mint: Pubkey) | Mint(text: KeyText)

  /** The mint a currency resolves to; absent for SOL and for text that is not an address. */
  function MintOf(currency: Currency): Option<Pubkey> {
    match currency
    case Native => None
    case Symbol(mint) => Some(mint)
    case Mint(Key(mint)) => Some(mint)
    case Mint(Malformed) => None
  }

  /** `amount` is absent when its text is not an unsigned 64-bit decimal. */
  datatype Split = Split(recipient: KeyText, amount: Option<u64>, ataCreationRequired: bool, memo: Option<seq<byte>>)

  datatype MethodDetails = MethodDetails(
    decimals: Option<byte>,
    tokenProgram: Option<KeyText>,
    feePayer: bool,
    feePayerKey: Option<KeyText>,
    splits: seq<Split>)

  datatype ChargeRequest = ChargeRequest(
    amount: Option<u64>,
    currency: Currency,
    recipient: Option<KeyText>,
    externalId: Option<seq<byte>>)

  /** An instruction of a compiled transaction: accounts are indexes into the key table. */
  datatype CompiledInstruction = CompiledInstruction(program: byte, accounts: seq<byte>, data: seq<byte>)

  datatype Transaction = Transaction(lookups: nat, keys: seq<Pubkey>, instructions: seq<CompiledInstruction>)

  function KeyAt(tx: Transaction, index: byte): Option<Pubkey> {
    if index < |tx.keys| then Some(tx.keys[index]) else None
  }

  const MAX_SPLITS: nat := 8
  const MAX_MEMO_BYTES: nat := 566

  predicate IsTokenProgram(p: Pubkey) { p == TokenProgram || p == Token2022Program }

  // ── Amounts ──

  function AmountOrZero(split: Split): u64 {
    match split.amount case Some(amount) => amount case None => 0
  }

  /** The total of the split amounts, with the wrap-around of an unchecked 64-bit sum. */
  function WrappingSplitsTotal(splits: seq<Split>): u64 {
    if splits == [] then 0
    else WrappingAdd(WrappingSplitsTotal(splits[..|splits| - 1]), AmountOrZero(splits[|splits| - 1]))
  }

  function SplitsTotal(splits: seq<Split>): nat {
    if splits == [] then 0
    else SplitsTotal(splits[..|splits| - 1]) + AmountOrZero(splits[|splits| - 1])
  }

  lemma {:induction false} WrappedTotal(splits: seq<Split>)
    ensures WrappingSplitsTotal(splits) == SplitsTotal(splits) % TWO_64
  {
    if splits != [] {
      WrappedTotal(splits[..|splits| - 1]);
    }
  }

  // ── The asset a charge is paid in ──

  datatype Asset = Sol | Spl(mint: Pubkey, tokenProgram: Option<Pubkey>, decimals: Option<byte>)

  // ── Effects: what a transaction does, independently of any verifier ──

  /** A payment of the charged asset to a wallet, or a memo. */
  datatype Effect = Pay(to: Pubkey, amount: nat) | Note(memo: seq<byte>)

  ghost function OwnerOf(ata: Derivation, account: Pubkey, program: Pubkey, mint: Pubkey): (owner: Option<Pubkey>)
    ensures owner.Some? ==> ata(owner.value, program, mint) == account
    ensures owner.None? ==> forall o :: ata(o, program, mint) != account
  {
    if owner :| ata(owner, program, mint) == account then Some(owner) else None
  }

  ghost function EffectOf(ata: Derivation, asset: Asset, program: Pubkey, accounts: seq<Option<Pubkey>>, data: seq<byte>)
    : Option<Effect>
  {
    if program == MemoProgram then Some(Note(data))
    else if asset.Sol? then
      if program == SystemProgram && |data| >= 12 && FromLE(data[0..4]) == 2 && |accounts| >= 2 && accounts[1].Some?
      then Some(Pay(accounts[1].value, FromLE(data[4..12]))) else None
    else
      if && IsTokenProgram(program) && |data| >= 10 && data[0] == 12 && |accounts| >= 4
         && accounts[1] == Some(asset.mint) && accounts[2].Some?
      then
        match OwnerOf(ata, accounts[2].value, program, asset.mint)
        case Some(owner) => Some(Pay(owner, FromLE(data[1..9])))
        case None => None
      else None
  }

  function AccountsAt(tx: Transaction, i: nat): seq<Option<Pubkey>>
    requires i < |tx.instructions|
  {
    var accounts := tx.instructions[i].accounts;
    seq(|accounts|, j requires 0 <= j < |accounts| => KeyAt(tx, accounts[j]))
  }

  ghost function EffectAt(ata: Derivation, asset: Asset, tx: Transaction, i: nat): Option<Effect>
    requires i < |tx.instructions|
  {
    match KeyAt(tx, tx.instructions[i].program)
    case Some(program) => EffectOf(ata, asset, program, AccountsAt(tx, i), tx.instructions[i].data)
    case None => None
  }

  ghost function Effects(ata: Derivation, asset: Asset, tx: Transaction): seq<Option<Effect>> {
    seq(|tx.instructions|, i requires 0 <= i < |tx.instructions| => EffectAt(ata, asset, tx, i))
  }

  // ── What a charge asks for ──

  function NonEmptyMemo(memo: Option<seq<byte>>): seq<seq<byte>> {
    if memo.Some? && memo.value != [] then [memo.value] else []
  }

  function SplitMemos(splits: seq<Split>): seq<seq<byte>> {
    if splits == [] then [] else SplitMemos(splits[..|splits| - 1]) + NonEmptyMemo(splits[|splits| - 1].memo)
  }

  function ExpectedMemos(externalId: Option<seq<byte>>, splits: seq<Split>): seq<seq<byte>> {
    NonEmptyMemo(externalId) + SplitMemos(splits)
  }

  function Notes(memos: seq<seq<byte>>): seq<Effect> {
    seq(|memos|, k requires 0 <= k < |memos| => Note(memos[k]))
  }

  predicate WellFormedSplits(splits: seq<Split>) {
    forall k :: 0 <= k < |splits| ==> splits[k].recipient.Key? && splits[k].amount.Some?
  }

  function SplitPayments(splits: seq<Split>): seq<Effect>
    requires WellFormedSplits(splits)
  {
    seq(|splits|, k requires 0 <= k < |splits| => Pay(splits[k].recipient.key, splits[k].amount.value))
  }

  /** The payments and memos a charge demands: the primary payment, one payment per split, the memos. */
  function Demanded(recipient: Pubkey, primary: nat, externalId: Option<seq<byte>>, splits: seq<Split>): seq<Effect>
    requires WellFormedSplits(splits)
  {
    [Pay(recipient, primary)] + SplitPayments(splits) + Notes(ExpectedMemos(externalId, splits))
  }

  // ── Totals ──

  /** The amount paid by a list of effects, to one wallet or (when `payee` is absent) to anyone. */
  function Paid(effects: seq<Effect>, payee: Option<Pubkey>): nat {
    if effects == [] then 0
    else
      Paid(effects[1..], payee) +
      if effects[0].Pay? && (payee == None || payee == Some(effects[0].to)) then effects[0].amount else 0
  }

  /** The effects that are present, in instruction order. */
  function Present(effects: seq<Option<Effect>>): seq<Effect> {
    if effects == [] then []
    else Present(effects[..|effects| - 1]) +
         if effects[|effects| - 1].Some? then [effects[|effects| - 1].value] else []
  }

  /** One payment counts for its own payee and for the total, and for nobody else. */
  lemma {:induction false} PaidOne(to: Pubkey, amount: nat, payee: Option<Pubkey>)
    ensures Paid([Pay(to, amount)], payee) == if payee in {None, Some(to)} then amount else 0
  {
    assert [Pay(to, amount)][1..] == [];
    assert Paid([], payee) == 0;
  }

  lemma {:induction false} PaidConcat(a: seq<Effect>, b: seq<Effect>, payee: Option<Pubkey>)
    ensures Paid(a + b, payee) == Paid(a, payee) + Paid(b, payee)
  {
    if a == [] {
      assert a + b == b;
    } else {
      assert (a + b)[1..] == a[1..] + b;
      PaidConcat(a[1..], b, payee);
    }
  }

  lemma {:induction false} PaidWithout(effects: seq<Effect>, i: nat, payee: Option<Pubkey>)
    requires i < |effects|
    ensures Paid(effects, payee) == Paid([effects[i]], payee) + Paid(effects[..i] + effects[i + 1..], payee)
    ensures multiset(effects) == multiset{effects[i]} + multiset(effects[..i] + effects[i + 1..])
  {
    var before, at, after := effects[..i], [effects[i]], effects[i + 1..];
    assert effects == before + (at + after);
    PaidConcat(before, at + after, payee);
    PaidConcat(at, after, payee);
    PaidConcat(before, after, payee);
  }

  lemma {:induction false} Cancel<K>(k: K, a: multiset<K>, b: multiset<K>)
    requires multiset{k} + a == multiset{k} + b
    ensures a == b
  {
    assert a == (multiset{k} + a) - multiset{k};
  }

  /** Totals depend on the multiset of effects only. */
  lemma {:induction false} PaidByMultiset(a: seq<Effect>, b: seq<Effect>, payee: Option<Pubkey>)
    requires multiset(a) == multiset(b)
    ensures Paid(a, payee) == Paid(b, payee)
  {
    if a == [] {
      assert |multiset(b)| == 0;
    } else {
      assert a[0] in multiset(b);
      var i :| 0 <= i < |b| && b[i] == a[0];
      var a', b' := a[..0] + a[1..], b[..i] + b[i + 1..];
      SameRest(a, b, i);
      PaidByMultiset(a', b', payee);
      PaidWithout(a, 0, payee);
      PaidWithout(b, i, payee);
    }
  }

  lemma {:induction false} SameRest(a: seq<Effect>, b: seq<Effect>, i: nat)
    requires a != [] && i < |b| && b[i] == a[0] && multiset(a) == multiset(b)
    ensures multiset(a[..0] + a[1..]) == multiset(b[..i] + b[i + 1..])
  {
    PaidWithout(a, 0, None);
    PaidWithout(b, i, None);
    Cancel(a[0], multiset(a[..0] + a[1..]), multiset(b[..i] + b[i + 1..]));
  }

  /** More effects pay no less. */
  lemma {:induction false} PaidMonotone(a: seq<Effect>, b: seq<Effect>, payee: Option<Pubkey>)
    requires multiset(a) <= multiset(b)
    ensures Paid(a, payee) <= Paid(b, payee)
  {
    if a != [] {
      assert a[0] in multiset(b);
      var i :| 0 <= i < |b| && b[i] == a[0];
      var a', b' := a[..0] + a[1..], b[..i] + b[i + 1..];
      PaidWithout(a, 0, payee);
      PaidWithout(b, i, payee);
      assert multiset(a') <= multiset(b') by {
        IncludedRest(a[0], multiset(a'), multiset(b'));
      }
      PaidMonotone(a', b', payee);
    }
  }

  lemma {:induction false} IncludedRest<K>(k: K, a: multiset<K>, b: multiset<K>)
    requires multiset{k} + a <= multiset{k} + b
    ensures a <= b
  {
    assert a == (multiset{k} + a) - multiset{k} && b == (multiset{k} + b) - multiset{k};
  }

  lemma {:induction false} NotesPayNothing(memos: seq<seq<byte>>, payee: Option<Pubkey>)
    ensures Paid(Notes(memos), payee) == 0
  {
    if memos != [] {
      assert Notes(memos)[1..] == Notes(memos[1..]);
      NotesPayNothing(memos[1..], payee);
    }
  }

  lemma {:induction false} SplitPaymentsPayTotal(splits: seq<Split>)
    requires WellFormedSplits(splits)
    ensures Paid(SplitPayments(splits), None) == SplitsTotal(splits)
  {
    if splits != [] {
      var last := |splits| - 1;
      SplitPaymentsPayTotal(splits[..last]);
      assert SplitPayments(splits) == SplitPayments(splits[..last]) + [Pay(splits[last].recipient.key, splits[last].amount.value)];
      PaidConcat(SplitPayments(splits[..last]), [Pay(splits[last].recipient.key, splits[last].amount.value)], None);
    }
  }

  lemma {:induction false} DemandedTotal(recipient: Pubkey, primary: nat, externalId: Option<seq<byte>>, splits: seq<Split>)
    requires WellFormedSplits(splits)
    ensures Paid(Demanded(recipient, primary, externalId, splits), None) == primary + SplitsTotal(splits)
  {
    var memos := ExpectedMemos(externalId, splits);
    PaidConcat([Pay(recipient, primary)] + SplitPayments(splits), Notes(memos), None);
    PaidConcat([Pay(recipient, primary)], SplitPayments(splits), None);
    NotesPayNothing(memos, None);
    SplitPaymentsPayTotal(splits);
  }
}
