/** What the Go server accepts: first-fit matching loses nothing, and the memos are exact. */
module GoGuarantees {
  import opened Common
  import opened Charge
  import opened FirstFit
  import opened Numbers
  import opened Texts
  import opened Units
  import opened GoVerifier

  predicate ValidAsset(asset: GoAsset) {
    asset.Token? ==> IsTokenProgram(asset.program)
  }

  /** The accounts of the instructions of the asset's program can be resolved. */
  predicate Resolvable(ixs: seq<GoInstruction>, asset: GoAsset) {
    forall i :: 0 <= i < |ixs| && ixs[i].program == AssetProgram(asset) ==> ixs[i].resolves
  }

  /** How far the search for a transfer can get: to the first instruction of the asset's program that does not resolve. */
  function Reach(ixs: seq<GoInstruction>, asset: GoAsset): (n: nat)
    ensures n <= |ixs|
    ensures forall i :: 0 <= i < n && ixs[i].program == AssetProgram(asset) ==> ixs[i].resolves
    ensures n < |ixs| ==> ixs[n].program == AssetProgram(asset) && !ixs[n].resolves
  {
    if ixs == [] || (ixs[0].program == AssetProgram(asset) && !ixs[0].resolves) then 0 else 1 + Reach(ixs[1..], asset)
  }

  /** The instructions that can answer a transfer. */
  function Reached(ixs: seq<GoInstruction>, asset: GoAsset): (r: seq<GoInstruction>)
    ensures Resolvable(r, asset)
  {
    ixs[..Reach(ixs, asset)]
  }

  /** What the instructions do for a charge in this asset. */
  function Offers(ixs: seq<GoInstruction>, asset: GoAsset): seq<Option<Want>> {
    seq(|ixs|, i requires 0 <= i < |ixs| => Offer(ixs[i], asset))
  }

  predicate AllArrivals(wants: seq<Want>) {
    forall k :: 0 <= k < |wants| ==> wants[k].Arrival?
  }

  predicate AllMemos(wants: seq<Want>) {
    forall k :: 0 <= k < |wants| ==> wants[k].Memo?
  }

  /** The memos have the length the server allows. */
  predicate MemosFit(wants: seq<Want>) {
    forall k :: 0 <= k < |wants| && wants[k].Memo? ==> |wants[k].value| <= MAX_MEMO_BYTES
  }

  lemma {:induction false} HitsAreOffers(ixs: seq<GoInstruction>, asset: GoAsset, wants: seq<Want>)
    requires ValidAsset(asset)
    ensures HitsMean(Rows(ixs, asset, wants), wants, Offers(ixs, asset))
  {
    forall k | 0 <= k < |wants| ensures RowHitsMean(Rows(ixs, asset, wants)[k], wants[k], Offers(ixs, asset)) {
    }
  }

  lemma {:induction false} AnswersAreOffers(ixs: seq<GoInstruction>, asset: GoAsset, wants: seq<Want>)
    requires ValidAsset(asset) && Resolvable(ixs, asset) && MemosFit(wants)
    ensures AnswersByOffer(Rows(ixs, asset, wants), wants, Offers(ixs, asset), {})
  {
    forall k | 0 <= k < |wants| ensures RowByOffer(Rows(ixs, asset, wants)[k], wants[k], Offers(ixs, asset), {}) {
    }
  }

  // ── The search for transfers stops at the first instruction that does not resolve ──

  predicate Below(taken: set<nat>, n: nat) {
    forall i :: i in taken ==> i < n
  }

  /** The scan over all probes finds what the scan over a prefix finds, when the probe after the prefix fails. */
  lemma {:induction false} ScanPrefix(probes: seq<Probe<GoError>>, n: nat, taken: set<nat>, from: nat)
    requires from <= n <= |probes| && Below(taken, n) && (n < |probes| ==> probes[n].Fail?)
    ensures Scan(probes, taken, from).Found? <==> Scan(probes[..n], taken, from).Found?
    ensures Scan(probes[..n], taken, from).Found? ==> Scan(probes, taken, from) == Scan(probes[..n], taken, from)
    decreases n - from
  {
    if from < n {
      assert probes[..n][from] == probes[from];
      ScanPrefix(probes, n, taken, from + 1);
    }
  }

  lemma {:induction false} ArrivalPrefix(ixs: seq<GoInstruction>, asset: GoAsset, want: Want, taken: set<nat>)
    requires want.Arrival? && Below(taken, Reach(ixs, asset))
    ensures var whole := MatchRow(RowOf(ixs, asset, want), taken);
      var prefix := MatchRow(RowOf(Reached(ixs, asset), asset, want), taken);
      && (whole.Ok? <==> prefix.Ok?)
      && (prefix.Ok? ==> whole == prefix && Below(prefix.value, Reach(ixs, asset)))
  {
    var n, probes := Reach(ixs, asset), Probes(ixs, asset, want);
    assert probes[..n] == Probes(Reached(ixs, asset), asset, want);
    ScanPrefix(probes, n, taken, 0);
  }

  lemma {:induction false} ArrivalsPrefix(ixs: seq<GoInstruction>, asset: GoAsset, arrivals: seq<Want>, taken: set<nat>)
    requires AllArrivals(arrivals) && Below(taken, Reach(ixs, asset))
    ensures var whole := MatchAll(Rows(ixs, asset, arrivals), taken);
      var prefix := MatchAll(Rows(Reached(ixs, asset), asset, arrivals), taken);
      (whole.Ok? <==> prefix.Ok?) && (prefix.Ok? ==> whole == prefix)
    decreases arrivals
  {
    if arrivals != [] {
      ArrivalPrefix(ixs, asset, arrivals[0], taken);
      RowsCons(ixs, asset, arrivals);
      RowsCons(Reached(ixs, asset), asset, arrivals);
      var first := MatchRow(RowOf(Reached(ixs, asset), asset, arrivals[0]), taken);
      if first.Ok? {
        ArrivalsPrefix(ixs, asset, arrivals[1..], first.value);
      }
    }
  }

  lemma {:induction false} RowsCons(ixs: seq<GoInstruction>, asset: GoAsset, wants: seq<Want>)
    requires wants != []
    ensures Rows(ixs, asset, wants)[0] == RowOf(ixs, asset, wants[0])
    ensures Rows(ixs, asset, wants)[1..] == Rows(ixs, asset, wants[1..])
  {
  }

  /** The transfers are matched exactly when they can be assigned among the instructions within reach. */
  lemma {:induction false} ArrivalsIff(ixs: seq<GoInstruction>, asset: GoAsset, arrivals: seq<Want>)
    requires ValidAsset(asset) && AllArrivals(arrivals)
    ensures MatchAll(Rows(ixs, asset, arrivals), {}).Ok? <==> Assignable(Reached(ixs, asset), asset, arrivals)
  {
    var within := Reached(ixs, asset);
    ArrivalsPrefix(ixs, asset, arrivals, {});
    AnswersAreOffers(within, asset, arrivals);
    MatchAllIff(Rows(within, asset, arrivals), arrivals, Offers(within, asset), {});
    AssignableIff(within, asset, arrivals);
  }

  lemma {:induction false} MemosAnswer(ixs: seq<GoInstruction>, asset: GoAsset, memos: seq<Want>, taken: set<nat>)
    requires ValidAsset(asset) && AllMemos(memos) && MemosFit(memos)
    ensures AnswersByOffer(Rows(ixs, asset, memos), memos, Offers(ixs, asset), taken)
  {
    forall k | 0 <= k < |memos| ensures RowByOffer(Rows(ixs, asset, memos)[k], memos[k], Offers(ixs, asset), taken) {
    }
  }

  /** Consuming transfers leaves every memo. */
  lemma {:induction false} MemosRemain(offered: multiset<Want>, left: multiset<Want>, arrivals: seq<Want>, memos: seq<Want>)
    requires AllArrivals(arrivals) && AllMemos(memos) && offered == left + multiset(arrivals)
    ensures multiset(memos) <= left <==> multiset(memos) <= offered
  {
    forall w ensures multiset(memos)[w] <= left[w] <==> multiset(memos)[w] <= offered[w] {
      if w.Memo? {
        OnlyArrivals(arrivals, w);
      } else {
        OnlyMemos(memos, w);
      }
    }
  }

  /** The memos are matched after the transfers exactly when they are among all memos offered. */
  lemma {:induction false} MemosIff(ixs: seq<GoInstruction>, asset: GoAsset, arrivals: seq<Want>, memos: seq<Want>)
    requires ValidAsset(asset) && AllArrivals(arrivals) && AllMemos(memos) && MemosFit(memos)
    requires MatchAll(Rows(ixs, asset, arrivals), {}).Ok?
    ensures MatchAll(Rows(ixs, asset, arrivals + memos), {}).Ok? <==> multiset(memos) <= Offered(Offers(ixs, asset), {})
  {
    var offers := Offers(ixs, asset);
    var taken := MatchAll(Rows(ixs, asset, arrivals), {}).value;
    HitsAreOffers(ixs, asset, arrivals);
    MatchAllConsumes(Rows(ixs, asset, arrivals), arrivals, offers, {});
    MemosAnswer(ixs, asset, memos, taken);
    MatchAllIff(Rows(ixs, asset, memos), memos, offers, taken);
    MemosRemain(Offered(offers, {}), Offered(offers, taken), arrivals, memos);
    RowsConcat(ixs, asset, arrivals, memos);
    MatchAllConcat(Rows(ixs, asset, arrivals), Rows(ixs, asset, memos), {});
  }

  lemma {:induction false} RowsConcat(ixs: seq<GoInstruction>, asset: GoAsset, a: seq<Want>, b: seq<Want>)
    ensures Rows(ixs, asset, a + b) == Rows(ixs, asset, a) + Rows(ixs, asset, b)
  {
  }

  lemma {:induction false} ArrivalsFirst(ixs: seq<GoInstruction>, asset: GoAsset, arrivals: seq<Want>, memos: seq<Want>)
    requires MatchAll(Rows(ixs, asset, arrivals + memos), {}).Ok?
    ensures MatchAll(Rows(ixs, asset, arrivals), {}).Ok?
  {
    RowsConcat(ixs, asset, arrivals, memos);
    MatchAllConcat(Rows(ixs, asset, arrivals), Rows(ixs, asset, memos), {});
  }

  lemma {:induction false} LongMemoFails(rows: seq<Row<GoError>>, k: nat, taken: set<nat>)
    requires k < |rows| && rows[k].probes.None?
    ensures MatchAll(rows, taken).Err?
    decreases rows
  {
    if k > 0 && MatchRow(rows[0], taken).Ok? {
      LongMemoFails(rows[1..], k - 1, MatchRow(rows[0], taken).value);
    }
  }

  /** The number of times a want occurs among the offers and among the wants. */
  ghost predicate SameMemos(offered: multiset<Want>, memos: seq<Want>) {
    forall v :: offered[Memo(v)] == multiset(memos)[Memo(v)]
  }

  lemma {:induction false} OnlyArrivals(wants: seq<Want>, w: Want)
    requires AllArrivals(wants) && w.Memo?
    ensures multiset(wants)[w] == 0
  {
  }

  lemma {:induction false} OnlyMemos(wants: seq<Want>, w: Want)
    requires AllMemos(wants) && w.Arrival?
    ensures multiset(wants)[w] == 0
  {
  }

  lemma {:induction false} LeftoverIff(ixs: seq<GoInstruction>, asset: GoAsset, taken: set<nat>)
    requires ValidAsset(asset)
    ensures LeftoverMemo(ixs, taken) <==> exists v :: Memo(v) in Offered(Offers(ixs, asset), taken)
  {
    var offers := Offers(ixs, asset);
    if LeftoverMemo(ixs, taken) {
      var i :| 0 <= i < |ixs| && i !in taken && ixs[i].program == MemoProgram;
      OfferedTake(offers, taken, i);
      assert Memo(ixs[i].data) in Offered(offers, taken);
    }
    if v :| Memo(v) in Offered(offers, taken) {
      var i := OfferedAt(offers, taken, Memo(v));
    }
  }

  /** When all wants are met, no memo is left exactly when the memos offered are the memos wanted. */
  lemma {:induction false} NoLeftoverIff(ixs: seq<GoInstruction>, asset: GoAsset, arrivals: seq<Want>, memos: seq<Want>)
    requires ValidAsset(asset) && AllArrivals(arrivals) && AllMemos(memos)
    requires MatchAll(Rows(ixs, asset, arrivals + memos), {}).Ok?
    ensures var taken := MatchAll(Rows(ixs, asset, arrivals + memos), {}).value;
      !LeftoverMemo(ixs, taken) <==> SameMemos(Offered(Offers(ixs, asset), {}), memos)
  {
    var offers, wants := Offers(ixs, asset), arrivals + memos;
    var taken := MatchAll(Rows(ixs, asset, wants), {}).value;
    HitsAreOffers(ixs, asset, wants);
    MatchAllConsumes(Rows(ixs, asset, wants), wants, offers, {});
    LeftoverIff(ixs, asset, taken);
    forall v ensures Offered(offers, {})[Memo(v)] == Offered(offers, taken)[Memo(v)] + multiset(memos)[Memo(v)] {
      OnlyArrivals(arrivals, Memo(v));
      assert multiset(wants) == multiset(arrivals) + multiset(memos);
    }
  }

  lemma {:induction false} SameMemosInclude(offered: multiset<Want>, memos: seq<Want>)
    requires AllMemos(memos) && SameMemos(offered, memos)
    ensures multiset(memos) <= offered
  {
    forall w ensures multiset(memos)[w] <= offered[w] {
      if w.Memo? {
        assert w == Memo(w.value);
      } else {
        OnlyMemos(memos, w);
      }
    }
  }

  /** The transfers can be assigned to instructions, each to one of its own. */
  ghost predicate Assignable(ixs: seq<GoInstruction>, asset: GoAsset, arrivals: seq<Want>) {
    exists chosen :: IsAssignment(chosen, arrivals, Offers(ixs, asset), {})
  }

  lemma {:induction false} AssignableIff(ixs: seq<GoInstruction>, asset: GoAsset, arrivals: seq<Want>)
    ensures Assignable(ixs, asset, arrivals) <==> multiset(arrivals) <= Offered(Offers(ixs, asset), {})
  {
    var offers := Offers(ixs, asset);
    if multiset(arrivals) <= Offered(offers, {}) {
      var chosen := OffersAssign(arrivals, offers, {});
    }
    if chosen :| IsAssignment(chosen, arrivals, offers, {}) {
      AssignmentOffers(chosen, arrivals, offers, {});
    }
  }

  /**
   * First-fit is optimal: the expectations are settled exactly when some injective assignment of the transfers to
   * instructions within reach exists and the memo instructions are the expected memos, each of them short enough.
   */
  lemma {:induction false} SettleIff(ixs: seq<GoInstruction>, asset: GoAsset, arrivals: seq<Want>, memos: seq<Want>)
    requires ValidAsset(asset) && AllArrivals(arrivals) && AllMemos(memos)
    ensures Settle(ixs, asset, arrivals + memos).Ok?
      <==> && Assignable(Reached(ixs, asset), asset, arrivals)
           && SameMemos(Offered(Offers(ixs, asset), {}), memos)
           && MemosFit(memos)
  {
    var wants, offered := arrivals + memos, Offered(Offers(ixs, asset), {});
    var rows := Rows(ixs, asset, wants);
    if !MemosFit(memos) {
      var k :| 0 <= k < |memos| && memos[k].Memo? && |memos[k].value| > MAX_MEMO_BYTES;
      assert wants[|arrivals| + k] == memos[k];
      LongMemoFails(rows, |arrivals| + k, {});
    } else {
      ArrivalsIff(ixs, asset, arrivals);
      if MatchAll(rows, {}).Ok? {
        ArrivalsFirst(ixs, asset, arrivals, memos);
        NoLeftoverIff(ixs, asset, arrivals, memos);
      } else if MatchAll(Rows(ixs, asset, arrivals), {}).Ok? {
        MemosIff(ixs, asset, arrivals, memos);
        if SameMemos(offered, memos) {
          SameMemosInclude(offered, memos);
        }
      }
    }
  }

  lemma {:induction false} SplitMemosAreMemos(splits: seq<GoSplit>)
    ensures AllMemos(SplitMemoWants(splits))
  {
    if splits != [] {
      SplitMemosAreMemos(splits[..|splits| - 1]);
    }
  }

  /** Where every account resolves, everything is within reach. */
  lemma {:induction false} ResolvableIsReached(ixs: seq<GoInstruction>, asset: GoAsset)
    ensures Reached(ixs, asset) == ixs <==> Resolvable(ixs, asset)
  {
    if Resolvable(ixs, asset) {
      assert Reach(ixs, asset) == |ixs|;
    }
  }

  /** The verifier as a whole, for every charge and every transaction. */
  lemma {:induction false} AcceptedIff(
      ixs: seq<GoInstruction>, amount: u64, asset: GoAsset, recipient: Pubkey, externalId: seq<byte>,
      splits: seq<GoSplit>, ata: Derivation)
    requires ValidAsset(asset)
    ensures var expected := ExpectedTransfers(amount, recipient, splits, ScanUint, ParseAmount);
      var memos := MemoWants(externalId, splits);
      VerifyGo(ixs, amount, asset, recipient, externalId, splits, ata, ScanUint, ParseAmount).Ok?
      <==> && expected.Ok?
           && Assignable(Reached(ixs, asset), asset, Arrivals(ata, asset, expected.value))
           && SameMemos(Offered(Offers(ixs, asset), {}), memos)
           && MemosFit(memos)
  {
    var expected := ExpectedTransfers(amount, recipient, splits, ScanUint, ParseAmount);
    SplitMemosAreMemos(splits);
    if expected.Ok? {
      SettleIff(ixs, asset, Arrivals(ata, asset, expected.value), MemoWants(externalId, splits));
    }
  }

  /** The transfers expected of an accepted transaction make up the charge exactly when the splits do not wrap. */
  lemma {:induction false} AcceptedTotalIff(
      ixs: seq<GoInstruction>, amount: u64, asset: GoAsset, recipient: Pubkey, externalId: seq<byte>,
      splits: seq<GoSplit>, ata: Derivation)
    requires VerifyGo(ixs, amount, asset, recipient, externalId, splits, ata, ScanUint, ParseAmount).Ok?
    ensures AllRead(splits, ScanUint)
    ensures TotalOf(ExpectedTransfers(amount, recipient, splits, ScanUint, ParseAmount).value) == amount
      <==> ReadTotal(splits, ScanUint) < TWO_64
  {
    SourceReadersAgree();
    ExpectedTotalIff(amount, recipient, splits, ScanUint, ParseAmount);
  }
}
