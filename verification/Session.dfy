/** The client side of a payment session: cumulative vouchers, and commits over a transport that may fail. */
module Session {
  import opened Common
  import opened Numbers

  datatype MeteringDirective = MeteringDirective(
    deliveryId: string, sessionId: string, amount: string, currency: string, sequence: u64, expiresAt: int)

  datatype VoucherData = VoucherData(channelId: string, cumulative: string, expiresAt: int, nonce: Option<u64>)

  datatype SignedVoucher = SignedVoucher(data: VoucherData, signature: string)

  datatype SessionError = WrongSession | InvalidAmount | ZeroAmount | NotAboveWatermark | SigningFailed | TransportFailed | InvalidVoucher

  datatype SessionState = SessionState(channelId: string, cumulative: u64, nonce: u64, expiresAt: int)

  // ── The session as values. `signature` and `receipt` are absent when the signer or the transport fails. ──

  function PrepareVoucher(s: SessionState, cumulative: u64, signature: Option<string>): Result<SignedVoucher, SessionError> {
    if cumulative <= s.cumulative then Err(NotAboveWatermark)
    else if signature.None? then Err(SigningFailed)
    else Ok(SignedVoucher(VoucherData(s.channelId, ToText(cumulative), s.expiresAt, Some(WrappingAdd(s.nonce, 1))), signature.value))
  }

  function PrepareIncrement(s: SessionState, amount: u64, signature: Option<string>): Result<SignedVoucher, SessionError> {
    PrepareVoucher(s, WrappingAdd(s.cumulative, amount), signature)
  }

  function Max(a: u64, b: u64): u64 { if a < b then b else a }

  function RecordVoucher(s: SessionState, v: SignedVoucher): Result<SessionState, SessionError> {
    match ParseU64(v.data.cumulative)
    case None => Err(InvalidVoucher)
    case Some(cumulative) =>
      if cumulative <= s.cumulative then Err(NotAboveWatermark)
      else
        var nonce := if v.data.nonce.Some? then v.data.nonce.value else WrappingAdd(s.nonce, 1);
        Ok(s.(cumulative := cumulative, nonce := Max(s.nonce, nonce)))
  }

  /** The state after a voucher of this session for `total`: a nonce that wraps around does not move it back. */
  function Advanced(s: SessionState, total: u64): SessionState {
    s.(cumulative := total, nonce := Max(s.nonce, WrappingAdd(s.nonce, 1)))
  }

  datatype CommitPayload = CommitPayload(deliveryId: string, voucher: SignedVoucher)

  /** The payload handed to the transport, when the directive gets that far. */
  function PreparePayload(s: SessionState, d: MeteringDirective, signature: Option<string>): Result<CommitPayload, SessionError> {
    if d.sessionId != s.channelId then Err(WrongSession)
    else
      match ParseU64(d.amount)
      case None => Err(InvalidAmount)
      case Some(amount) =>
        if amount == 0 then Err(ZeroAmount)
        else
          match PrepareIncrement(s, amount, signature)
          case Err(error) => Err(error)
          case Ok(voucher) => Ok(CommitPayload(d.deliveryId, voucher))
  }

  function CommitDirective(s: SessionState, d: MeteringDirective, signature: Option<string>, receipt: Option<string>)
    : (SessionState, Result<string, SessionError>)
  {
    match PreparePayload(s, d, signature)
    case Err(error) => (s, Err(error))
    case Ok(payload) =>
      if receipt.None? then (s, Err(TransportFailed))
      else
        match RecordVoucher(s, payload.voucher)
        case Err(error) => (s, Err(error))
        case Ok(s') => (s', Ok(receipt.value))
  }

  // ── The objects that hold it ──

  class ActiveSession {
    const channelId: string
    var cumulative: u64
    var nonce: u64
    var expiresAt: int

    function State(): SessionState
      reads this
    {
      SessionState(channelId, cumulative, nonce, expiresAt)
    }

    constructor (channelId: string, expiresAt: int)
      ensures State() == SessionState(channelId, 0, 0, expiresAt)
    {
      this.channelId := channelId;
      cumulative, nonce := 0, 0;
      this.expiresAt := expiresAt;
    }

    method SetExpiresAt(expiresAt: int)
      modifies this
      ensures State() == old(State()).(expiresAt := expiresAt)
    {
      this.expiresAt := expiresAt;
    }

    method Prepare(target: u64, signature: Option<string>) returns (r: Result<SignedVoucher, SessionError>)
      ensures r == PrepareVoucher(State(), target, signature)
    {
      if target <= cumulative { return Err(NotAboveWatermark); }
      var data := VoucherData(channelId, ToText(target), expiresAt, Some(WrappingAdd(nonce, 1)));
      if signature.None? { return Err(SigningFailed); }
      return Ok(SignedVoucher(data, signature.value));
    }

    method Record(voucher: SignedVoucher) returns (r: Result<(), SessionError>)
      modifies this
      ensures r.Ok? <==> RecordVoucher(old(State()), voucher).Ok?
      ensures r.Ok? ==> State() == RecordVoucher(old(State()), voucher).value
      ensures r.Err? ==> State() == old(State()) && r.error == RecordVoucher(old(State()), voucher).error
    {
      var parsed := ParseU64(voucher.data.cumulative);
      if parsed.None? { return Err(InvalidVoucher); }
      if parsed.value <= cumulative { return Err(NotAboveWatermark); }
      cumulative := parsed.value;
      nonce := Max(nonce, if voucher.data.nonce.Some? then voucher.data.nonce.value else WrappingAdd(nonce, 1));
      return Ok(());
    }

    method SignVoucher(target: u64, signature: Option<string>) returns (r: Result<SignedVoucher, SessionError>)
      modifies this
      ensures r == PrepareVoucher(old(State()), target, signature)
      ensures r.Ok? ==> State() == Advanced(old(State()), target)
      ensures r.Err? ==> State() == old(State())
    {
      r := Prepare(target, signature);
      if r.Err? { return; }
      ParseToText(target);
      var recorded := Record(r.value);
      assert recorded.Ok?;
    }

    method SignIncrement(amount: u64, signature: Option<string>) returns (r: Result<SignedVoucher, SessionError>)
      modifies this
      ensures r == PrepareIncrement(old(State()), amount, signature)
      ensures r.Ok? ==> old(cumulative) + amount < TWO_64 && State() == Advanced(old(State()), old(cumulative) + amount)
      ensures r.Err? ==> State() == old(State())
    {
      r := SignVoucher(WrappingAdd(cumulative, amount), signature);
    }

    /** Sign one last voucher for a positive final increment, none otherwise. */
    method CloseAction(finalIncrement: Option<u64>, signature: Option<string>) returns (r: Result<Option<SignedVoucher>, SessionError>)
      modifies this
      ensures finalIncrement.None? || finalIncrement.value == 0 ==> r == Ok(None) && State() == old(State())
      ensures finalIncrement.Some? && finalIncrement.value > 0 ==>
                match PrepareIncrement(old(State()), finalIncrement.value, signature)
                case Err(error) => r == Err(error) && State() == old(State())
                case Ok(voucher) =>
                  && r == Ok(Some(voucher))
                  && old(cumulative) + finalIncrement.value < TWO_64
                  && State() == Advanced(old(State()), old(cumulative) + finalIncrement.value)
    {
      if finalIncrement.Some? && finalIncrement.value > 0 {
        var voucher := SignIncrement(finalIncrement.value, signature);
        if voucher.Err? { return Err(voucher.error); }
        return Ok(Some(voucher.value));
      }
      return Ok(None);
    }
  }

  class SessionConsumer {
    const session: ActiveSession

    constructor (session: ActiveSession)
      ensures this.session == session
    {
      this.session := session;
    }

    method Commit(d: MeteringDirective, signature: Option<string>, receipt: Option<string>) returns (r: Result<string, SessionError>)
      modifies session
      ensures (session.State(), r) == CommitDirective(old(session.State()), d, signature, receipt)
    {
      if d.sessionId != session.channelId { return Err(WrongSession); }
      var amount := ParseU64(d.amount);
      if amount.None? { return Err(InvalidAmount); }
      if amount.value == 0 { return Err(ZeroAmount); }
      var voucher := session.Prepare(WrappingAdd(session.cumulative, amount.value), signature);
      if voucher.Err? { return Err(voucher.error); }
      if receipt.None? { return Err(TransportFailed); }
      var recorded := session.Record(voucher.value);
      if recorded.Err? { return Err(recorded.error); }
      return Ok(receipt.value);
    }
  }

  // ── One commit, exactly ──

  /** What a commit needs, all of it visible before the call except the signer's and the transport's answers. */
  predicate Acceptable(s: SessionState, d: MeteringDirective) {
    && d.sessionId == s.channelId
    && ParseU64(d.amount).Some?
    && ParseU64(d.amount).value > 0
    && s.cumulative + ParseU64(d.amount).value < TWO_64
  }

  lemma {:induction false} WrappedIncrementIff(s: SessionState, amount: u64)
    requires amount > 0
    ensures WrappingAdd(s.cumulative, amount) > s.cumulative <==> s.cumulative + amount < TWO_64
  {
    if s.cumulative + amount >= TWO_64 {
      assert (s.cumulative + amount) % TWO_64 == s.cumulative + amount - TWO_64;
    }
  }

  /** A voucher that the session itself prepared for a larger total is recorded without fail. */
  lemma {:induction false} RecordsOwn(s: SessionState, total: u64, signature: string)
    requires total > s.cumulative
    ensures PrepareVoucher(s, total, Some(signature)).Ok?
    ensures RecordVoucher(s, PrepareVoucher(s, total, Some(signature)).value) == Ok(Advanced(s, total))
  {
    ParseToText(total);
  }

  lemma {:induction false} IncrementIs(s: SessionState, amount: u64)
    requires s.cumulative + amount < TWO_64
    ensures WrappingAdd(s.cumulative, amount) == s.cumulative + amount
  {
  }

  /** A payload is prepared exactly for an acceptable directive with a signature, and is recorded without fail. */
  lemma {:induction false} PreparedIff(s: SessionState, d: MeteringDirective, signature: Option<string>)
    ensures PreparePayload(s, d, signature).Ok? <==> Acceptable(s, d) && signature.Some?
    ensures PreparePayload(s, d, signature).Ok? ==>
              RecordVoucher(s, PreparePayload(s, d, signature).value.voucher)
              == Ok(Advanced(s, s.cumulative + ParseU64(d.amount).value))
  {
    var amount := ParseU64(d.amount);
    if amount.Some? && amount.value > 0 {
      WrappedIncrementIff(s, amount.value);
      if signature.Some? && s.cumulative + amount.value < TWO_64 {
        IncrementIs(s, amount.value);
        RecordsOwn(s, s.cumulative + amount.value, signature.value);
      }
    }
  }

  /**
   A commit succeeds if and only if the directive is for this session, its amount is a positive number that does not
   push the total past 64 bits, and signer and transport succeed; recording never fails after the transport succeeded.
   The total then grows by exactly the amount, and every other outcome leaves the state as it was.
   */
  lemma {:induction false} CommitExactly(s: SessionState, d: MeteringDirective, signature: Option<string>, receipt: Option<string>)
    ensures CommitDirective(s, d, signature, receipt).1.Ok? <==> Acceptable(s, d) && signature.Some? && receipt.Some?
    ensures CommitDirective(s, d, signature, receipt).1.Ok? ==>
              && CommitDirective(s, d, signature, receipt).0.cumulative == s.cumulative + ParseU64(d.amount).value
              && CommitDirective(s, d, signature, receipt).0.nonce == Max(s.nonce, WrappingAdd(s.nonce, 1))
    ensures CommitDirective(s, d, signature, receipt).1.Err? ==> CommitDirective(s, d, signature, receipt).0 == s
    ensures CommitDirective(s, d, signature, receipt).0.channelId == s.channelId
    ensures CommitDirective(s, d, signature, receipt).0.expiresAt == s.expiresAt
  {
    PreparedIff(s, d, signature);
  }

  /** What a commit answers: the receipt, or the first thing that is in its way. */
  lemma {:induction false} CommitAnswers(s: SessionState, d: MeteringDirective, signature: Option<string>, receipt: Option<string>)
    ensures CommitDirective(s, d, signature, receipt).1 ==
            if d.sessionId != s.channelId then Err(WrongSession)
            else if ParseU64(d.amount).None? then Err(InvalidAmount)
            else if ParseU64(d.amount).value == 0 then Err(ZeroAmount)
            else if s.cumulative + ParseU64(d.amount).value >= 0x1_0000_0000_0000_0000 then Err(NotAboveWatermark)
            else if signature.None? then Err(SigningFailed)
            else if receipt.None? then Err(TransportFailed)
            else Ok(receipt.value)
  {
    CommitExactly(s, d, signature, receipt);
    var amount := ParseU64(d.amount);
    if amount.Some? && amount.value > 0 {
      WrappedIncrementIff(s, amount.value);
    }
  }

  /** A voucher is prepared exactly for a total above the watermark, and says the session's channel, expiry and next number. */
  lemma {:induction false} PrepareExactly(s: SessionState, total: u64, signature: Option<string>)
    ensures total <= s.cumulative ==> PrepareVoucher(s, total, signature) == Err(NotAboveWatermark)
    ensures total > s.cumulative && signature.None? ==> PrepareVoucher(s, total, signature) == Err(SigningFailed)
    ensures total > s.cumulative && signature.Some? ==>
              var r := PrepareVoucher(s, total, signature);
              && r.Ok? && r.value.signature == signature.value
              && r.value.data.channelId == s.channelId && r.value.data.expiresAt == s.expiresAt
              && ParseU64(r.value.data.cumulative) == Some(total) && r.value.data.cumulative == ToText(total)
              && (s.nonce + 1 < 0x1_0000_0000_0000_0000 ==> r.value.data.nonce == Some(s.nonce + 1))
  {
    ParseToText(total);
  }

  /** Recording any voucher moves the total to a larger one and the number forward to the voucher's, or fails. */
  lemma {:induction false} RecordMovesForward(s: SessionState, v: SignedVoucher)
    ensures RecordVoucher(s, v).Ok? <==> ParseU64(v.data.cumulative).Some? && ParseU64(v.data.cumulative).value > s.cumulative
    ensures RecordVoucher(s, v) == Err(InvalidVoucher) <==> ParseU64(v.data.cumulative).None?
    ensures RecordVoucher(s, v) == Err(NotAboveWatermark)
      <==> ParseU64(v.data.cumulative).Some? && ParseU64(v.data.cumulative).value <= s.cumulative
    ensures RecordVoucher(s, v).Ok? ==>
              var next := RecordVoucher(s, v).value;
              && Some(next.cumulative) == ParseU64(v.data.cumulative)
              && next.channelId == s.channelId && next.expiresAt == s.expiresAt
              && next.nonce >= s.nonce
              && (v.data.nonce.Some? ==>
                    next.nonce == if v.data.nonce.value > s.nonce then v.data.nonce.value else s.nonce)
              && (v.data.nonce.None? && s.nonce + 1 < 0x1_0000_0000_0000_0000 ==> next.nonce == s.nonce + 1)
  {
  }

  // ── Any run of commits ──

  datatype Attempt = Attempt(directive: MeteringDirective, signature: Option<string>, receipt: Option<string>)

  function Succeeds(s: SessionState, a: Attempt): bool {
    CommitDirective(s, a.directive, a.signature, a.receipt).1.Ok?
  }

  function Run(s: SessionState, attempts: seq<Attempt>): SessionState {
    if attempts == [] then s
    else
      var before := Run(s, attempts[..|attempts| - 1]);
      var a := attempts[|attempts| - 1];
      CommitDirective(before, a.directive, a.signature, a.receipt).0
  }

  /** The amounts of the attempts that succeeded, in order. */
  function Committed(s: SessionState, attempts: seq<Attempt>): seq<nat> {
    if attempts == [] then []
    else
      var init, a := attempts[..|attempts| - 1], attempts[|attempts| - 1];
      Committed(s, init) +
      if Succeeds(Run(s, init), a) && ParseU64(a.directive.amount).Some? then [ParseU64(a.directive.amount).value] else []
  }

  function Sum(amounts: seq<nat>): nat {
    if amounts == [] then 0 else Sum(amounts[..|amounts| - 1]) + amounts[|amounts| - 1]
  }

  lemma {:induction false} AttemptStep(s: SessionState, a: Attempt)
    requires s.nonce <= s.cumulative
    ensures var after := CommitDirective(s, a.directive, a.signature, a.receipt).0;
            if Succeeds(s, a) then
              && ParseU64(a.directive.amount).Some? && ParseU64(a.directive.amount).value > 0
              && after == s.(cumulative := s.cumulative + ParseU64(a.directive.amount).value, nonce := s.nonce + 1)
            else after == s
  {
    CommitExactly(s, a.directive, a.signature, a.receipt);
    CommittedState(s, CommitDirective(s, a.directive, a.signature, a.receipt).0, a);
  }

  lemma {:induction false} CommittedState(s: SessionState, after: SessionState, a: Attempt)
    requires s.nonce <= s.cumulative && after.channelId == s.channelId && after.expiresAt == s.expiresAt
    requires Succeeds(s, a) ==>
               && Acceptable(s, a.directive)
               && after.cumulative == s.cumulative + ParseU64(a.directive.amount).value
               && after.nonce == Max(s.nonce, WrappingAdd(s.nonce, 1))
    ensures Succeeds(s, a) ==>
      after == s.(cumulative := s.cumulative + ParseU64(a.directive.amount).value, nonce := s.nonce + 1)
  {
    if Succeeds(s, a) {
      NonceFits(s, ParseU64(a.directive.amount).value);
    }
  }

  lemma {:induction false} SumSnoc(amounts: seq<nat>, amount: nat)
    ensures Sum(amounts + [amount]) == Sum(amounts) + amount
  {
    assert (amounts + [amount])[..|amounts|] == amounts;
  }

  /** The session reached from `s` by committing `amounts`. */
  predicate Reached(s: SessionState, amounts: seq<nat>, now: SessionState) {
    && now.cumulative == s.cumulative + Sum(amounts)
    && now.nonce == s.nonce + |amounts|
    && now.nonce <= now.cumulative
    && now.channelId == s.channelId && now.expiresAt == s.expiresAt
  }

  lemma {:induction false} ReachedStep(s: SessionState, amounts: seq<nat>, before: SessionState, a: Attempt)
    requires Reached(s, amounts, before)
    ensures var after := CommitDirective(before, a.directive, a.signature, a.receipt).0;
            if Succeeds(before, a) && ParseU64(a.directive.amount).Some?
            then Reached(s, amounts + [ParseU64(a.directive.amount).value], after)
            else Reached(s, amounts, after)
  {
    AttemptStep(before, a);
    if Succeeds(before, a) {
      SumSnoc(amounts, ParseU64(a.directive.amount).value);
    }
  }

  /**
   Conservation over any run with a transport that may fail at any call: the total is the starting total plus the
   amounts of the successful commits and nothing ever wraps.
   */
  lemma {:induction false} RunConserves(s: SessionState, attempts: seq<Attempt>)
    ensures Run(s, attempts).cumulative == s.cumulative + Sum(Committed(s, attempts))
  {
    if attempts != [] {
      var init, a := attempts[..|attempts| - 1], attempts[|attempts| - 1];
      RunConserves(s, init);
      CommitExactly(Run(s, init), a.directive, a.signature, a.receipt);
      if Succeeds(Run(s, init), a) {
        SumSnoc(Committed(s, init), ParseU64(a.directive.amount).value);
      } else {
        assert Committed(s, init) + [] == Committed(s, init);
      }
    }
  }

  /** From a session whose vouchers were numbered one by one, as `new` starts it, the nonce counts the commits too. */
  lemma {:induction false} RunCounts(s: SessionState, attempts: seq<Attempt>)
    requires s.nonce <= s.cumulative
    ensures Reached(s, Committed(s, attempts), Run(s, attempts))
  {
    if attempts != [] {
      var init, a := attempts[..|attempts| - 1], attempts[|attempts| - 1];
      RunCounts(s, init);
      ReachedStep(s, Committed(s, init), Run(s, init), a);
      assert Committed(s, init) + [] == Committed(s, init);
    }
  }

  /** After a failed commit a retry hands the transport the very same payload. */
  lemma {:induction false} RetryPreparesTheSame(s: SessionState, a: Attempt, signature: Option<string>)
    requires !Succeeds(s, a)
    ensures PreparePayload(Run(s, [a]), a.directive, signature) == PreparePayload(s, a.directive, signature)
  {
    assert [a][..0] == [];
    CommitExactly(s, a.directive, a.signature, a.receipt);
  }

  /**
   The payload is for directive `d` and the channel of session `s`, and authorizes the amount on top of `total`, until
   the session's expiry and as voucher number `number`.
   */
  predicate Authorizes(payload: CommitPayload, s: SessionState, d: MeteringDirective, total: nat, number: nat) {
    && payload.deliveryId == d.deliveryId && d.sessionId == s.channelId
    && ParseU64(d.amount).Some? && ParseU64(d.amount).value > 0
    && payload.voucher.data.channelId == s.channelId
    && payload.voucher.data.expiresAt == s.expiresAt
    && payload.voucher.data.cumulative == ToText(total + ParseU64(d.amount).value)
    && ParseU64(payload.voucher.data.cumulative) == Some(total + ParseU64(d.amount).value)
    && payload.voucher.data.nonce == Some(number)
  }

  lemma {:induction false} PayloadIsNext(s: SessionState, d: MeteringDirective, signature: Option<string>)
    requires s.nonce <= s.cumulative
    requires PreparePayload(s, d, signature).Ok?
    ensures Authorizes(PreparePayload(s, d, signature).value, s, d, s.cumulative, s.nonce + 1)
    ensures signature == Some(PreparePayload(s, d, signature).value.voucher.signature)
  {
    var amount := ParseU64(d.amount).value;
    WrappedIncrementIff(s, amount);
    NonceFits(s, amount);
    ParseToText(WrappingAdd(s.cumulative, amount));
  }

  lemma {:induction false} NonceFits(s: SessionState, amount: u64)
    requires s.nonce <= s.cumulative && amount > 0 && s.cumulative + amount < TWO_64
    ensures WrappingAdd(s.nonce, 1) == s.nonce + 1
    ensures WrappingAdd(s.cumulative, amount) == s.cumulative + amount
  {
  }

  /**
   Exposure: in every state a run can reach (`RunCounts`), a payload handed to the transport authorizes exactly
   what was committed before it plus its own amount, whatever failed in between.
   */
  lemma {:induction false} PayloadAuthorizes(
    s: SessionState, amounts: seq<nat>, now: SessionState, d: MeteringDirective, signature: Option<string>)
    requires Reached(s, amounts, now)
    requires PreparePayload(now, d, signature).Ok?
    ensures Authorizes(PreparePayload(now, d, signature).value, s, d, s.cumulative + Sum(amounts), s.nonce + |amounts| + 1)
    ensures signature == Some(PreparePayload(now, d, signature).value.voucher.signature)
  {
    PayloadIsNext(now, d, signature);
  }
}
