/** Replay protection of the Go server: reserve a signature, settle the payment, roll the reservation back on failure. */
module Replay {
  import opened Common
  import Base58

  // ── The store ──

  /** The in-memory store; each method is one critical section under the store's lock. */
  class MemoryStore {
    var data: map<string, string>

    constructor ()
      ensures data == map[]
    {
      data := map[];
    }

    method Get(key: string) returns (value: Option<string>)
      ensures value == if key in data then Some(data[key]) else None
    {
      if key !in data {
        return None;
      }
      value := Some(data[key]);
    }

    method Put(key: string, value: string)
      modifies this
      ensures data == old(data)[key := value]
    {
      data := data[key := value];
    }

    method Delete(key: string)
      modifies this
      ensures data == old(data) - {key}
    {
      data := data - {key};
    }

    /** Insert unless the key is taken; exactly one of several callers with the same key succeeds. */
    method PutIfAbsent(key: string, value: string) returns (inserted: bool)
      modifies this
      ensures inserted <==> key !in old(data)
      ensures data == if inserted then old(data)[key := value] else old(data)
    {
      if key in data {
        return false;
      }
      data := data[key := value];
      return true;
    }
  }

  // ── One verification as a sequence of atomic steps ──

  datatype Credential = Transaction | Signature

  /** Where a verification stands. Every phase from `Simulating` to `RollingBack` holds the reservation. */
  datatype Phase =
    | Reserving | Simulating | Sending | Confirming | Decoding | Checking | RollingBack
    | Receipt | Refused | Burned

  datatype Verification = Verification(credential: Credential, key: string, phase: Phase)

  predicate Finished(v: Verification) {
    v.phase.Receipt? || v.phase.Refused? || v.phase.Burned?
  }

  /**
   * The next step of a verification, where `ok` says whether the call it makes succeeds. A rollback whose deletion fails
   * leaves the key behind.
   */
  function Advance(v: Verification, data: map<string, string>, ok: bool): (Verification, map<string, string>) {
    match v.phase
    case Reserving =>
      if !ok || v.key in data then (v.(phase := Refused), data)
      else (v.(phase := if v.credential.Transaction? then Simulating else Decoding), data[v.key := "true"])
    case Simulating => (v.(phase := if ok then Sending else RollingBack), data)
    case Sending => (v.(phase := if ok then Confirming else RollingBack), data)
    case Confirming => (v.(phase := if ok then Checking else RollingBack), data)
    case Decoding => (v.(phase := if ok then Checking else RollingBack), data)
    case Checking => (v.(phase := if ok then Receipt else RollingBack), data)
    case RollingBack => if ok then (v.(phase := Refused), data - {v.key}) else (v.(phase := Burned), data)
    case Receipt => (v, data)
    case Refused => (v, data)
    case Burned => (v, data)
  }

  function Distance(p: Phase): nat {
    match p
    case Reserving => 6
    case Simulating => 5
    case Sending => 4
    case Confirming => 3
    case Decoding => 3
    case Checking => 2
    case RollingBack => 1
    case Receipt => 0
    case Refused => 0
    case Burned => 0
  }

  /** A verification on its own, with the answers its calls get. */
  function RunAlone(v: Verification, data: map<string, string>, answers: Phase -> bool): (Verification, map<string, string>)
    decreases Distance(v.phase)
  {
    if Finished(v) then (v, data)
    else
      var next := Advance(v, data, answers(v.phase));
      RunAlone(next.0, next.1, answers)
  }

  /** The calls that stand between the reservation and the receipt all succeed. */
  predicate AllSucceed(credential: Credential, answers: Phase -> bool) {
    match credential
    case Transaction => answers(Simulating) && answers(Sending) && answers(Confirming) && answers(Checking)
    case Signature => answers(Decoding) && answers(Checking)
  }

  /**
   A verification by itself, exactly: a key that is taken is refused, success leaves the key behind, and a failure at
   any later point leaves the store as it was, unless the deletion itself fails.
   */
  lemma {:induction false} AloneExactly(credential: Credential, key: string, data: map<string, string>, answers: Phase -> bool)
    ensures RunAlone(Verification(credential, key, Reserving), data, answers) ==
            if key in data || !answers(Reserving) then (Verification(credential, key, Refused), data)
            else if AllSucceed(credential, answers) then (Verification(credential, key, Receipt), data[key := "true"])
            else if answers(RollingBack) then (Verification(credential, key, Refused), data)
            else (Verification(credential, key, Burned), data[key := "true"])
  {
    var held := data[key := "true"];
    RunRollBack(credential, key, held, answers);
    if key !in data {
      assert held - {key} == data;
    }
    match credential
    case Transaction => RunReserved(key, held, answers);
    case Signature => RunDecoding(key, held, answers);
  }

  lemma {:induction false} RunRollBack(credential: Credential, key: string, data: map<string, string>, answers: Phase -> bool)
    ensures RunAlone(Verification(credential, key, RollingBack), data, answers) ==
            if answers(RollingBack) then (Verification(credential, key, Refused), data - {key})
            else (Verification(credential, key, Burned), data)
  {
  }

  lemma {:induction false} RunChecking(credential: Credential, key: string, data: map<string, string>, answers: Phase -> bool)
    ensures RunAlone(Verification(credential, key, Checking), data, answers) ==
            if answers(Checking) then (Verification(credential, key, Receipt), data)
            else RunAlone(Verification(credential, key, RollingBack), data, answers)
  {
  }

  lemma {:induction false} RunDecoding(key: string, data: map<string, string>, answers: Phase -> bool)
    ensures RunAlone(Verification(Signature, key, Decoding), data, answers) ==
            if AllSucceed(Signature, answers) then (Verification(Signature, key, Receipt), data)
            else RunAlone(Verification(Signature, key, RollingBack), data, answers)
  {
    RunChecking(Signature, key, data, answers);
  }

  lemma {:induction false} RunReserved(key: string, data: map<string, string>, answers: Phase -> bool)
    ensures RunAlone(Verification(Transaction, key, Simulating), data, answers) ==
            if AllSucceed(Transaction, answers) then (Verification(Transaction, key, Receipt), data)
            else RunAlone(Verification(Transaction, key, RollingBack), data, answers)
  {
    RunChecking(Transaction, key, data, answers);
    assert RunAlone(Verification(Transaction, key, Confirming), data, answers)
      == RunAlone(Verification(Transaction, key, if answers(Confirming) then Checking else RollingBack), data, answers);
    assert RunAlone(Verification(Transaction, key, Sending), data, answers)
      == RunAlone(Verification(Transaction, key, if answers(Sending) then Confirming else RollingBack), data, answers);
  }

  /** The deferred clean-up of a verification that keeps its reservation only on success. */
  method RollBack(store: MemoryStore, key: string, answers: Phase -> bool) returns (phase: Phase)
    modifies store
    ensures forall c ::
      RunAlone(Verification(c, key, RollingBack), old(store.data), answers) == (Verification(c, key, phase), store.data)
    ensures phase.Refused? || phase.Burned?
  {
    if answers(RollingBack) {
      store.Delete(key);
      phase := Refused;
    } else {
      phase := Burned;
    }
  }

  method VerifyTransaction(store: MemoryStore, key: string, answers: Phase -> bool) returns (phase: Phase)
    modifies store
    ensures RunAlone(Verification(Transaction, key, Reserving), old(store.data), answers)
      == (Verification(Transaction, key, phase), store.data)
  {
    ghost var whole := RunAlone(Verification(Transaction, key, Reserving), store.data, answers);
    if !answers(Reserving) {
      return Refused;
    }
    var inserted := store.PutIfAbsent(key, "true");
    if !inserted {
      return Refused;
    }
    assert whole == RunAlone(Verification(Transaction, key, Simulating), store.data, answers);
    if !answers(Simulating) {
      phase := RollBack(store, key, answers);
      return;
    }
    assert whole == RunAlone(Verification(Transaction, key, Sending), store.data, answers);
    if !answers(Sending) {
      phase := RollBack(store, key, answers);
      return;
    }
    assert whole == RunAlone(Verification(Transaction, key, Confirming), store.data, answers);
    if !answers(Confirming) {
      phase := RollBack(store, key, answers);
      return;
    }
    assert whole == RunAlone(Verification(Transaction, key, Checking), store.data, answers);
    if !answers(Checking) {
      phase := RollBack(store, key, answers);
      return;
    }
    assert whole == RunAlone(Verification(Transaction, key, Receipt), store.data, answers);
    phase := Receipt;
  }

  method VerifySignature(store: MemoryStore, key: string, answers: Phase -> bool) returns (phase: Phase)
    modifies store
    ensures RunAlone(Verification(Signature, key, Reserving), old(store.data), answers)
      == (Verification(Signature, key, phase), store.data)
  {
    ghost var whole := RunAlone(Verification(Signature, key, Reserving), store.data, answers);
    if !answers(Reserving) {
      return Refused;
    }
    var inserted := store.PutIfAbsent(key, "true");
    if !inserted {
      return Refused;
    }
    assert whole == RunAlone(Verification(Signature, key, Decoding), store.data, answers);
    if !answers(Decoding) {
      phase := RollBack(store, key, answers);
      return;
    }
    assert whole == RunAlone(Verification(Signature, key, Checking), store.data, answers);
    if !answers(Checking) {
      phase := RollBack(store, key, answers);
      return;
    }
    assert whole == RunAlone(Verification(Signature, key, Receipt), store.data, answers);
    phase := Receipt;
  }

  // ── Interleaved runs ──

  datatype State = State(data: map<string, string>, running: seq<Verification>)

  /** A request arrives, one verification makes its next step, or one dies without cleaning up. */
  datatype Event = Arrive(credential: Credential, key: string) | Act(who: nat, ok: bool) | Die(who: nat)

  function Next(s: State, e: Event): State {
    match e
    case Arrive(credential, key) => s.(running := s.running + [Verification(credential, key, Reserving)])
    case Act(who, ok) =>
      if who >= |s.running| then s
      else
        var next := Advance(s.running[who], s.data, ok);
        State(next.1, s.running[who := next.0])
    case Die(who) =>
      if who >= |s.running| || Finished(s.running[who]) then s
      else
        var v := s.running[who];
        s.(running := s.running[who := v.(phase := if v.phase.Reserving? then Refused else Burned)])
  }

  function Run(s: State, events: seq<Event>): State
    decreases events
  {
    if events == [] then s else Run(Next(s, events[0]), events[1..])
  }

  /** The verification holds the reservation of its key or has a receipt for it. */
  predicate Claims(v: Verification) {
    !v.phase.Reserving? && !v.phase.Refused? && !v.phase.Burned?
  }

  /** The verification accounts for its key being in the store. */
  predicate Marks(v: Verification) {
    Claims(v) || v.phase.Burned?
  }

  /** No two verifications account for the same key, and the store holds just their keys beside those of the start. */
  ghost predicate Safe(s: State, initial: set<string>) {
    && (forall i, j :: 0 <= i < j < |s.running| && Marks(s.running[i]) && Marks(s.running[j])
          ==> s.running[i].key != s.running[j].key)
    && (forall i :: 0 <= i < |s.running| && Marks(s.running[i]) ==>
          s.running[i].key in s.data && s.running[i].key !in initial)
    && (forall k :: k in s.data ==>
          k in initial || exists i :: 0 <= i < |s.running| && Marks(s.running[i]) && s.running[i].key == k)
    && (forall k :: k in initial ==> k in s.data)
  }

  /** What a step of one verification does to its key. */
  lemma {:induction false} AdvanceMarks(v: Verification, data: map<string, string>, ok: bool)
    requires Marks(v) ==> v.key in data
    ensures var next := Advance(v, data, ok);
      && next.0.key == v.key
      && (Marks(next.0) ==> v.key in next.1)
      && (forall k :: k != v.key ==> (k in next.1 <==> k in data))
      && (v.key in next.1 <==> (v.key in data && !(Marks(v) && !Marks(next.0))) || (Marks(next.0) && !Marks(v)))
      && (Marks(next.0) && !Marks(v) ==> v.key !in data)
      && (!Marks(next.0) && Marks(v) ==> v.key !in next.1)
  {
  }

  lemma {:induction false} ActIsSafe(s: State, who: nat, ok: bool, initial: set<string>)
    requires Safe(s, initial) && who < |s.running|
    ensures Safe(Next(s, Act(who, ok)), initial)
  {
    var v := s.running[who];
    var s' := Next(s, Act(who, ok));
    AdvanceMarks(v, s.data, ok);
    assert forall i :: 0 <= i < |s.running| && i != who ==> s'.running[i] == s.running[i];
    forall k | k in s'.data
      ensures k in initial || exists i :: 0 <= i < |s'.running| && Marks(s'.running[i]) && s'.running[i].key == k
    {
      if k == v.key && Marks(s'.running[who]) {
      } else if k !in initial {
        var i :| 0 <= i < |s.running| && Marks(s.running[i]) && s.running[i].key == k;
        assert i != who ==> s'.running[i] == s.running[i];
      }
    }
  }

  lemma {:induction false} ArriveIsSafe(s: State, credential: Credential, key: string, initial: set<string>)
    requires Safe(s, initial)
    ensures Safe(Next(s, Arrive(credential, key)), initial)
  {
    var s' := Next(s, Arrive(credential, key));
    forall k | k in s'.data
      ensures k in initial || exists i :: 0 <= i < |s'.running| && Marks(s'.running[i]) && s'.running[i].key == k
    {
      if k !in initial {
        var i :| 0 <= i < |s.running| && Marks(s.running[i]) && s.running[i].key == k;
        assert s'.running[i] == s.running[i];
      }
    }
  }

  lemma {:induction false} DieIsSafe(s: State, who: nat, initial: set<string>)
    requires Safe(s, initial)
    ensures Safe(Next(s, Die(who)), initial)
  {
    var s' := Next(s, Die(who));
    assert forall i :: 0 <= i < |s.running| ==>
      (Marks(s'.running[i]) <==> Marks(s.running[i])) && s'.running[i].key == s.running[i].key;
  }

  lemma {:induction false} NextIsSafe(s: State, e: Event, initial: set<string>)
    requires Safe(s, initial)
    ensures Safe(Next(s, e), initial)
  {
    match e
    case Arrive(credential, key) => ArriveIsSafe(s, credential, key, initial);
    case Act(who, ok) => if who < |s.running| { ActIsSafe(s, who, ok, initial); }
    case Die(who) => DieIsSafe(s, who, initial);
  }

  /** Every run keeps the store and the verifications consistent, whichever steps fail. */
  lemma {:induction false} RunIsSafe(s: State, events: seq<Event>, initial: set<string>)
    requires Safe(s, initial)
    ensures Safe(Run(s, events), initial)
    decreases events
  {
    if events != [] {
      NextIsSafe(s, events[0], initial);
      RunIsSafe(Next(s, events[0]), events[1..], initial);
    }
  }

  /** At most one verification of a key is under way or has succeeded, in every run from any store. */
  lemma {:induction false} AtMostOneClaim(data: map<string, string>, events: seq<Event>, i: nat, j: nat)
    ensures var s := Run(State(data, []), events);
      i < |s.running| && j < |s.running| && i != j && Claims(s.running[i]) && Claims(s.running[j])
      ==> s.running[i].key != s.running[j].key
  {
    RunIsSafe(State(data, []), events, data.Keys);
  }

  /**
   * A signature credential is keyed by its text. Base58 texts of one on-chain signature are equal, so one signature has
   * at most one verification under way or successful, however it is written.
   */
  lemma {:induction false} OneClaimPerSignature(
      data: map<string, string>, events: seq<Event>, prefix: string, a: string, b: string, i: nat, j: nat)
    requires Base58.DecodeOf(a).Some? && Base58.DecodeOf(a) == Base58.DecodeOf(b)
    ensures var s := Run(State(data, []), events);
      && i < |s.running| && s.running[i].key == prefix + a && Claims(s.running[i])
      && j < |s.running| && s.running[j].key == prefix + b && Claims(s.running[j])
      ==> i == j
  {
    Base58.DecodeInjective(a, b);
    if i != j {
      AtMostOneClaim(data, events, i, j);
    }
  }

  lemma {:induction false} ReceiptStays(s: State, events: seq<Event>, i: nat)
    requires i < |s.running| && s.running[i].phase.Receipt?
    ensures i < |Run(s, events).running| && Run(s, events).running[i] == s.running[i]
    decreases events
  {
    if events != [] {
      ReceiptStays(Next(s, events[0]), events[1..], i);
    }
  }

  lemma {:induction false} RunConcat(s: State, before: seq<Event>, after: seq<Event>)
    ensures Run(s, before + after) == Run(Run(s, before), after)
    decreases before
  {
    if before == [] {
      assert before + after == after;
    } else {
      assert (before + after)[1..] == before[1..] + after;
      RunConcat(Next(s, before[0]), before[1..], after);
    }
  }

  /**
   * A receipt is final: however the run goes on, the key stays in the store and no other verification of it, earlier or
   * later, holds the reservation or gets a receipt.
   */
  lemma {:induction false} SuccessIsNeverFollowed(data: map<string, string>, before: seq<Event>, after: seq<Event>, i: nat, j: nat)
    requires var s := Run(State(data, []), before); i < |s.running| && s.running[i].phase.Receipt?
    ensures var v, s' := Run(State(data, []), before).running[i], Run(State(data, []), before + after);
      && v.key in s'.data
      && (j < |s'.running| && j != i && Claims(s'.running[j]) ==> s'.running[j].key != v.key)
  {
    var s := Run(State(data, []), before);
    RunConcat(State(data, []), before, after);
    ReceiptStays(s, after, i);
    RunIsSafe(State(data, []), before + after, data.Keys);
  }

  /** A key that was there from the start, say after a crash, never gets a receipt. */
  lemma {:induction false} OldKeysStayConsumed(data: map<string, string>, events: seq<Event>, i: nat)
    ensures var s := Run(State(data, []), events);
      i < |s.running| && s.running[i].key in data ==> !Claims(s.running[i])
  {
    RunIsSafe(State(data, []), events, data.Keys);
  }

  /** In any run, a verification that fails after reserving and then cleans up frees its key and nothing else. */
  lemma {:induction false} FailureFreesKey(s: State, who: nat)
    requires who < |s.running| && s.running[who].phase in {Simulating, Sending, Confirming, Decoding, Checking}
    ensures var v := s.running[who];
      Run(s, [Act(who, false), Act(who, true)]) == State(s.data - {v.key}, s.running[who := v.(phase := Refused)])
  {
    var v := s.running[who];
    var failed := Next(s, Act(who, false));
    assert failed == State(s.data, s.running[who := v.(phase := RollingBack)]);
    assert Next(failed, Act(who, true)) == State(s.data - {v.key}, s.running[who := v.(phase := Refused)]);
    RunTwo(s, Act(who, false), Act(who, true));
  }

  lemma {:induction false} RunTwo(s: State, first: Event, second: Event)
    ensures Run(s, [first, second]) == Next(Next(s, first), second)
  {
    assert [first, second][1..] == [second] && [second][1..] == [];
    assert Run(Next(s, first), [second]) == Run(Next(Next(s, first), second), []);
  }

  function Repeat(e: Event, n: nat): seq<Event> {
    if n == 0 then [] else [e] + Repeat(e, n - 1)
  }

  /** How many successful steps are missing to the receipt. */
  function Missing(v: Verification): nat {
    match v.phase
    case Reserving => if v.credential.Transaction? then 5 else 3
    case Simulating => 4
    case Sending => 3
    case Confirming => 2
    case Decoding => 2
    case Checking => 1
    case _ => 0
  }

  lemma {:induction false} StepsToReceipt(s: State, who: nat, n: nat)
    requires who < |s.running| && n == Missing(s.running[who])
    requires s.running[who].phase.Reserving? ==> s.running[who].key !in s.data
    requires s.running[who].phase.Receipt? || n > 0
    ensures var end := Run(s, Repeat(Act(who, true), n));
      who < |end.running| && end.running[who] == s.running[who].(phase := Receipt)
    decreases n
  {
    if n > 0 {
      var s' := Next(s, Act(who, true));
      assert Repeat(Act(who, true), n)[1..] == Repeat(Act(who, true), n - 1);
      StepsToReceipt(s', who, n - 1);
    }
  }

  /** A key that nothing accounts for is open: a new request whose steps succeed gets the receipt. */
  lemma {:induction false} FreeKeyCanBePaid(s: State, credential: Credential, key: string, initial: set<string>)
    requires Safe(s, initial) && key !in initial
    requires forall i :: 0 <= i < |s.running| && s.running[i].key == key ==> !Marks(s.running[i])
    ensures var who := |s.running|;
      var end := Run(Next(s, Arrive(credential, key)), Repeat(Act(who, true), if credential.Transaction? then 5 else 3));
      who < |end.running| && end.running[who] == Verification(credential, key, Receipt)
  {
    StepsToReceipt(Next(s, Arrive(credential, key)), |s.running|, if credential.Transaction? then 5 else 3);
  }
}
