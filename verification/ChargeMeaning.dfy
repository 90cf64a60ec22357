/** What a charge asks for and what instructions do, read off the challenge and the bytes of the transaction. */
module ChargeMeaning {
  import opened Common
  import opened Charge

  // ── Numbers in instruction data ──

  /** The 32-bit number at a position, least significant byte first. */
  function Word(d: seq<byte>, at: nat): nat
    requires at + 4 <= |d|
  {
    d[at] as nat + 0x100 * d[at + 1] as nat + 0x1_0000 * d[at + 2] as nat + 0x100_0000 * d[at + 3] as nat
  }

  /** The 64-bit number at a position, least significant byte first. */
  function LongWord(d: seq<byte>, at: nat): nat
    requires at + 8 <= |d|
  {
    Word(d, at) + 0x1_0000_0000 * Word(d, at + 4)
  }

  lemma {:induction false} FromLEStep(bytes: seq<byte>)
    requires bytes != []
    ensures FromLE(bytes) == bytes[0] + 256 * FromLE(bytes[1..])
  {
  }

  lemma {:induction false} FromLEOfFour(a: byte, b: byte, c: byte, d: byte, rest: seq<byte>)
    ensures FromLE([a, b, c, d] + rest) == a + 0x100 * b + 0x1_0000 * c + 0x100_0000 * d + 0x1_0000_0000 * FromLE(rest)
  {
    var s := [a, b, c, d] + rest;
    assert s[1..] == [b, c, d] + rest && s[1..][1..] == [c, d] + rest && s[1..][1..][1..] == [d] + rest;
    assert s[1..][1..][1..][1..] == rest;
    FromLEStep(s);
    FromLEStep(s[1..]);
    FromLEStep(s[1..][1..]);
    FromLEStep(s[1..][1..][1..]);
  }

  /** Little-endian fields are the numbers spelled out. */
  lemma {:induction false} WordIs(d: seq<byte>, at: nat)
    requires at + 4 <= |d|
    ensures FromLE(d[at..at + 4]) == Word(d, at)
  {
    assert d[at..at + 4] == [d[at], d[at + 1], d[at + 2], d[at + 3]] + [];
    FromLEOfFour(d[at], d[at + 1], d[at + 2], d[at + 3], []);
    assert FromLE([]) == 0;
  }

  lemma {:induction false} LongWordIs(d: seq<byte>, at: nat)
    requires at + 8 <= |d|
    ensures FromLE(d[at..at + 8]) == LongWord(d, at)
  {
    assert d[at..at + 8] == [d[at], d[at + 1], d[at + 2], d[at + 3]] + d[at + 4..at + 8];
    FromLEOfFour(d[at], d[at + 1], d[at + 2], d[at + 3], d[at + 4..at + 8]);
    WordIs(d, at + 4);
  }

  /** Data that sets a compute-unit limit of at most 200,000, or a price of at most 5,000,000 micro-lamports a unit. */
  predicate IsBudget(d: seq<byte>) {
    || (|d| == 5 && d[0] == 2 && Word(d, 1) <= 200_000)
    || (|d| == 9 && d[0] == 3 && LongWord(d, 1) <= 5_000_000)
  }

  // ── What the challenge asks for ──

  /** The sum of the split amounts that are numbers. */
  function Total(splits: seq<Split>): nat {
    if splits == [] then 0
    else (if splits[0].amount.Some? then splits[0].amount.value else 0) + Total(splits[1..])
  }

  function Payments(splits: seq<Split>): seq<Effect>
    requires forall k :: 0 <= k < |splits| ==> splits[k].recipient.Key? && splits[k].amount.Some?
  {
    if splits == [] then [] else [Pay(splits[0].recipient.key, splits[0].amount.value)] + Payments(splits[1..])
  }

  /** A memo that is absent or empty asks for nothing. */
  function Remark(memo: Option<seq<byte>>): seq<Effect> {
    match memo
    case None => []
    case Some(text) => if |text| == 0 then [] else [Note(text)]
  }

  function Remarks(splits: seq<Split>): seq<Effect> {
    if splits == [] then [] else Remark(splits[0].memo) + Remarks(splits[1..])
  }

  /** The amount for the main recipient: the charge less the sum of the splits, which wraps around at 64 bits. */
  function MainAmount(request: ChargeRequest, details: MethodDetails): int
    requires request.amount.Some?
  {
    request.amount.value - Total(details.splits) % 0x1_0000_0000_0000_0000
  }

  /** A charge that can be paid: numbers and addresses parse, memos are short, and something is left for the recipient. */
  predicate IsPayable(request: ChargeRequest, details: MethodDetails) {
    && request.amount.Some? && MainAmount(request, details) > 0
    && request.recipient.Some? && request.recipient.value.Key?
    && (forall k :: 0 <= k < |details.splits| ==> details.splits[k].recipient.Key? && details.splits[k].amount.Some?)
    && (request.externalId.Some? ==> |request.externalId.value| <= 566)
    && forall k :: 0 <= k < |details.splits| && details.splits[k].memo.Some? ==> |details.splits[k].memo.value| <= 566
  }

  /** The payments and memos the charge demands, in the order in which they are looked for. */
  function Demands(request: ChargeRequest, details: MethodDetails): seq<Effect>
    requires IsPayable(request, details)
  {
    [Pay(request.recipient.value.key, MainAmount(request, details))] + Payments(details.splits)
    + (Remark(request.externalId) + Remarks(details.splits))
  }

  /** The split marks its recipient's token account for creation. */
  predicate IsMarked(details: MethodDetails, owner: Pubkey) {
    exists k :: 0 <= k < |details.splits| && details.splits[k].ataCreationRequired && details.splits[k].recipient == Key(owner)
  }

  predicate NothingMarked(details: MethodDetails) {
    forall k :: 0 <= k < |details.splits| ==> !details.splits[k].ataCreationRequired
  }

  /** A sponsor pays and is named. */
  predicate IsSponsored(details: MethodDetails) {
    details.feePayer && details.feePayerKey.Some?
  }

  predicate IsSplitOwner(details: MethodDetails, owner: Pubkey) {
    exists k :: 0 <= k < |details.splits| && details.splits[k].recipient == Key(owner)
  }

  /** Accounts may be created for every split recipient, or only for the marked ones when a sponsor pays. */
  predicate MayCreate(details: MethodDetails, sponsored: bool, owner: Pubkey) {
    if sponsored then IsMarked(details, owner) else IsSplitOwner(details, owner)
  }

  // ── The same in the check's terms ──

  lemma {:induction false} TotalIs(splits: seq<Split>)
    ensures Total(splits) == SplitsTotal(splits)
    decreases splits
  {
    if splits != [] {
      var last := |splits| - 1;
      TotalSnoc(splits[..last], splits[last]);
      TotalIs(splits[..last]);
      assert splits[..last] + [splits[last]] == splits;
    }
  }

  lemma {:induction false} AmountIs(request: ChargeRequest, details: MethodDetails)
    requires request.amount.Some?
    ensures MainAmount(request, details) == request.amount.value - WrappingSplitsTotal(details.splits)
  {
    WrappedTotal(details.splits);
    TotalIs(details.splits);
  }

  lemma {:induction false} TotalSnoc(splits: seq<Split>, split: Split)
    ensures Total(splits + [split]) == Total(splits) + if split.amount.Some? then split.amount.value else 0
    decreases splits
  {
    if splits == [] {
      assert [split][1..] == [] && splits + [split] == [split];
    } else {
      assert (splits + [split])[1..] == splits[1..] + [split];
      TotalSnoc(splits[1..], split);
    }
  }

  lemma {:induction false} PaymentsAt(splits: seq<Split>, k: nat)
    requires forall j :: 0 <= j < |splits| ==> splits[j].recipient.Key? && splits[j].amount.Some?
    requires k < |splits|
    ensures |Payments(splits)| == |splits|
    ensures Payments(splits)[k] == Pay(splits[k].recipient.key, splits[k].amount.value)
    decreases splits
  {
    if |splits| > 1 {
      PaymentsAt(splits[1..], if k == 0 then 0 else k - 1);
    } else {
      assert Payments(splits[1..]) == [];
    }
  }

  lemma {:induction false} PaymentsAre(splits: seq<Split>)
    requires WellFormedSplits(splits)
    ensures Payments(splits) == SplitPayments(splits)
  {
    if splits != [] {
      PaymentsAt(splits, 0);
    }
    forall k | 0 <= k < |splits| ensures Payments(splits)[k] == SplitPayments(splits)[k] {
      PaymentsAt(splits, k);
    }
  }

  lemma {:induction false} RemarksSnoc(splits: seq<Split>, split: Split)
    ensures Remarks(splits + [split]) == Remarks(splits) + Remark(split.memo)
    decreases splits
  {
    if splits == [] {
      assert [split][1..] == [] && splits + [split] == [split];
      assert Remark(split.memo) + [] == [] + Remark(split.memo);
    } else {
      assert (splits + [split])[1..] == splits[1..] + [split];
      RemarksSnoc(splits[1..], split);
      assert Remark(splits[0].memo) + (Remarks(splits[1..]) + Remark(split.memo))
        == Remark(splits[0].memo) + Remarks(splits[1..]) + Remark(split.memo);
    }
  }

  lemma {:induction false} NotesConcat(a: seq<seq<byte>>, b: seq<seq<byte>>)
    ensures Notes(a + b) == Notes(a) + Notes(b)
  {
  }

  lemma {:induction false} RemarkIs(memo: Option<seq<byte>>)
    ensures Remark(memo) == Notes(NonEmptyMemo(memo))
  {
  }

  lemma {:induction false} RemarksAre(splits: seq<Split>)
    ensures Remarks(splits) == Notes(SplitMemos(splits))
    decreases splits
  {
    if splits != [] {
      var last := |splits| - 1;
      RemarksAre(splits[..last]);
      RemarksSnoc(splits[..last], splits[last]);
      RemarkIs(splits[last].memo);
      NotesConcat(SplitMemos(splits[..last]), NonEmptyMemo(splits[last].memo));
      assert splits[..last] + [splits[last]] == splits;
    }
  }

  lemma {:induction false} DemandsAre(request: ChargeRequest, details: MethodDetails)
    requires IsPayable(request, details)
    ensures Demands(request, details)
      == Demanded(request.recipient.value.key, MainAmount(request, details), request.externalId, details.splits)
  {
    PaymentsAre(details.splits);
    RemarkIs(request.externalId);
    RemarksAre(details.splits);
    NotesConcat(NonEmptyMemo(request.externalId), SplitMemos(details.splits));
  }

  lemma {:induction false} MemosAreShort(request: ChargeRequest, details: MethodDetails)
    ensures var memos := ExpectedMemos(request.externalId, details.splits);
      (forall k :: 0 <= k < |memos| ==> |memos[k]| <= 566)
      <==> && (request.externalId.Some? ==> |request.externalId.value| <= 566)
           && forall k :: 0 <= k < |details.splits| && details.splits[k].memo.Some? ==> |details.splits[k].memo.value| <= 566
  {
    assert AreShort(ExpectedMemos(request.externalId, details.splits))
      <==> forall k :: 0 <= k < |ExpectedMemos(request.externalId, details.splits)| ==>
        |ExpectedMemos(request.externalId, details.splits)[k]| <= 566;
    SplitMemosAreShort(details.splits);
    var a, b := NonEmptyMemo(request.externalId), SplitMemos(details.splits);
    ShortConcat(a, b);
    NonEmptyIsShort(request.externalId);
  }

  predicate AreShort(memos: seq<seq<byte>>) {
    forall k :: 0 <= k < |memos| ==> |memos[k]| <= 566
  }

  lemma {:induction false} ShortConcat(a: seq<seq<byte>>, b: seq<seq<byte>>)
    ensures AreShort(a + b) <==> AreShort(a) && AreShort(b)
  {
    if AreShort(a + b) {
      assert forall k :: 0 <= k < |a| ==> (a + b)[k] == a[k];
      assert forall k :: 0 <= k < |b| ==> (a + b)[|a| + k] == b[k];
    }
  }

  lemma {:induction false} NonEmptyIsShort(memo: Option<seq<byte>>)
    ensures AreShort(NonEmptyMemo(memo)) <==> (memo.Some? ==> |memo.value| <= 566)
  {
    if memo.Some? && memo.value != [] {
      assert NonEmptyMemo(memo)[0] == memo.value;
    }
  }

  lemma {:induction false} SplitMemosAreShort(splits: seq<Split>)
    ensures AreShort(SplitMemos(splits))
      <==> forall k :: 0 <= k < |splits| && splits[k].memo.Some? ==> |splits[k].memo.value| <= 566
    decreases splits
  {
    if splits != [] {
      var last := |splits| - 1;
      SplitMemosAreShort(splits[..last]);
      ShortConcat(SplitMemos(splits[..last]), NonEmptyMemo(splits[last].memo));
      NonEmptyIsShort(splits[last].memo);
      assert forall k :: 0 <= k < last ==> splits[..last][k] == splits[k];
    }
  }
}
