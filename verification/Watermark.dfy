/** The in-memory channel store and its compare-and-swap watermark under concurrent workers. */
module Watermark {
  import opened Common

  // ── The store ──

  datatype PendingDelivery = PendingDelivery(deliveryId: string, amount: u64, sequence: u64, expiresAt: int)

  datatype CommittedDelivery = CommittedDelivery(deliveryId: string, amount: u64, cumulative: u64, voucherSignature: string)

  datatype ChannelState = ChannelState(
    channelId: string, authorizedSigner: string, deposit: u64, cumulative: u64, finalized: bool,
    highestVoucherSignature: Option<string>, highestVoucherExpiresAt: Option<int>, closeRequestedAt: Option<u64>,
    operator: Option<string>, nextDeliverySequence: u64,
    pendingDeliveries: seq<PendingDelivery>, committedDeliveries: seq<CommittedDelivery>)

  type Channels = map<string, ChannelState>

  datatype StoreError = NotFound | UpdateRefused

  /** Compare and swap: the watermark moves only if it is where the caller expects it. */
  function Advanced(data: Channels, id: string, expected: u64, new_: u64): (Channels, Result<bool, StoreError>) {
    if id !in data then (data, Err(NotFound))
    else if data[id].cumulative == expected then (data[id := data[id].(cumulative := new_)], Ok(true))
    else (data, Ok(false))
  }

  function Deposited(data: Channels, id: string, deposit: u64): Channels {
    if id in data then data[id := data[id].(deposit := deposit)] else data
  }

  function Finalized(data: Channels, id: string): Channels {
    if id in data then data[id := data[id].(finalized := true)] else data
  }

  /** The store behind its mutex: each method is one atomic step. */
  class MemoryChannelStore {
    var data: Channels

    constructor ()
      ensures data == map[]
    {
      data := map[];
    }

    method GetChannel(id: string) returns (r: Option<ChannelState>)
      ensures r == if id in data then Some(data[id]) else None
    {
      if id in data {
        return Some(data[id]);
      }
      r := None;
    }

    method PutChannel(id: string, state: ChannelState)
      modifies this
      ensures data == old(data)[id := state]
    {
      data := data[id := state];
    }

    /** Read, modify and write in one step; a refusing updater changes nothing. */
    method UpdateChannel(id: string, updater: Option<ChannelState> -> Result<ChannelState, StoreError>)
        returns (r: Result<ChannelState, StoreError>)
      modifies this
      ensures r == updater(if id in old(data) then Some(old(data)[id]) else None)
      ensures data == if r.Ok? then old(data)[id := r.value] else old(data)
    {
      var current := GetChannel(id);
      r := updater(current);
      if r.Ok? {
        data := data[id := r.value];
      }
    }

    method AdvanceCumulative(id: string, expected: u64, new_: u64) returns (r: Result<bool, StoreError>)
      modifies this
      ensures (data, r) == Advanced(old(data), id, expected, new_)
    {
      if id !in data {
        return Err(NotFound);
      }
      if data[id].cumulative != expected {
        return Ok(false);
      }
      data := data[id := data[id].(cumulative := new_)];
      r := Ok(true);
    }

    method UpdateDeposit(id: string, deposit: u64) returns (found: bool)
      modifies this
      ensures found <==> id in old(data)
      ensures data == Deposited(old(data), id, deposit)
    {
      found := id in data;
      if found {
        data := data[id := data[id].(deposit := deposit)];
      }
    }

    method MarkFinalized(id: string) returns (found: bool)
      modifies this
      ensures found <==> id in old(data)
      ensures data == Finalized(old(data), id)
    {
      found := id in data;
      if found {
        data := data[id := data[id].(finalized := true)];
      }
    }
  }

  // ── Workers ──

  type Positive = n: u64 | n > 0 witness 1

  /** A worker reads the watermark, then tries to move it by its amount. */
  datatype Progress = Idle | HasRead(at: u64) | Won(from: u64, to: u64) | Lost(at: u64) | Failed

  datatype Worker = Worker(channel: string, amount: Positive, progress: Progress)

  datatype State = State(data: Channels, workers: seq<Worker>)

  datatype Event =
    | Join(channel: string, amount: Positive)
    | Read(who: nat)
    | Swap(who: nat)
    | SetDeposit(channel: string, deposit: u64)
    | Finalize(channel: string)

  function ReadStep(w: Worker, data: Channels): Worker {
    if !w.progress.Idle? then w
    else if w.channel !in data then w.(progress := Failed)
    else w.(progress := HasRead(data[w.channel].cumulative))
  }

  /** A sum that does not fit in 64 bits cannot be passed. */
  function SwapStep(w: Worker, data: Channels): (Worker, Channels) {
    if !w.progress.HasRead? then (w, data)
    else if w.progress.at + w.amount >= TWO_64 then (w.(progress := Failed), data)
    else
      var from, to := w.progress.at, w.progress.at + w.amount;
      var r := Advanced(data, w.channel, from, to);
      match r.1
      case Ok(true) => (w.(progress := Won(from, to)), r.0)
      case Ok(false) => (w.(progress := Lost(from)), r.0)
      case Err(_) => (w.(progress := Failed), r.0)
  }

  function Next(s: State, e: Event): State {
    match e
    case Join(channel, amount) => s.(workers := s.workers + [Worker(channel, amount, Idle)])
    case Read(who) =>
      if who < |s.workers| then s.(workers := s.workers[who := ReadStep(s.workers[who], s.data)]) else s
    case Swap(who) =>
      if who < |s.workers| then
        var r := SwapStep(s.workers[who], s.data);
        State(r.1, s.workers[who := r.0])
      else s
    case SetDeposit(channel, deposit) => s.(data := Deposited(s.data, channel, deposit))
    case Finalize(channel) => s.(data := Finalized(s.data, channel))
  }

  function Run(s: State, events: seq<Event>): State
    decreases events
  {
    if events == [] then s else Run(Next(s, events[0]), events[1..])
  }

  // ── What every run keeps ──

  function WonAmount(w: Worker, channel: string): nat {
    if w.channel == channel && w.progress.Won? then w.amount else 0
  }

  /** The sum of the amounts of the successful calls on a channel. */
  function TotalWon(workers: seq<Worker>, channel: string): nat {
    if workers == [] then 0 else WonAmount(workers[0], channel) + TotalWon(workers[1..], channel)
  }

  lemma {:induction false} TotalWonConcat(a: seq<Worker>, b: seq<Worker>, channel: string)
    ensures TotalWon(a + b, channel) == TotalWon(a, channel) + TotalWon(b, channel)
  {
    if a == [] {
      assert a + b == b;
    } else {
      assert (a + b)[1..] == a[1..] + b;
      TotalWonConcat(a[1..], b, channel);
    }
  }

  lemma {:induction false} TotalWonUpdate(workers: seq<Worker>, who: nat, w: Worker, channel: string)
    requires who < |workers|
    ensures TotalWon(workers[who := w], channel)
      == TotalWon(workers, channel) - WonAmount(workers[who], channel) + WonAmount(w, channel)
  {
    if who == 0 {
      assert workers[0 := w][1..] == workers[1..];
    } else {
      assert workers[who := w][1..] == workers[1..][who - 1 := w];
      TotalWonUpdate(workers[1..], who - 1, w, channel);
    }
  }

  /** Worker `i` moved the watermark of the channel. */
  predicate Wins(workers: seq<Worker>, i: int, channel: string) {
    0 <= i < |workers| && workers[i].channel == channel && workers[i].progress.Won?
  }

  /** The interval of worker `i` contains `x`. */
  predicate Covers(workers: seq<Worker>, i: int, channel: string, x: int) {
    Wins(workers, i, channel) && workers[i].progress.from < x <= workers[i].progress.to
  }

  ghost predicate Covered(workers: seq<Worker>, channel: string, x: int) {
    exists i :: Covers(workers, i, channel, x)
  }

  /** The intervals of the winners lie between the two watermarks, as long as their amounts. */
  ghost predicate InBounds(workers: seq<Worker>, channel: string, first: nat, last: nat) {
    && first <= last
    && forall i :: Wins(workers, i, channel) ==>
         var p := workers[i].progress;
         first <= p.from && p.to <= last && p.to == p.from + workers[i].amount
  }

  ghost predicate Disjoint(workers: seq<Worker>, channel: string) {
    forall i, j :: Wins(workers, i, channel) && Wins(workers, j, channel) && i != j ==>
      workers[i].progress.to <= workers[j].progress.from || workers[j].progress.to <= workers[i].progress.from
  }

  ghost predicate Complete(workers: seq<Worker>, channel: string, first: nat, last: nat) {
    forall x :: first < x <= last ==> Covered(workers, channel, x)
  }

  /** A pending or rejected worker read a watermark that was current at some time; a rejected one was overtaken. */
  ghost predicate Fair(workers: seq<Worker>, channel: string, first: nat, last: nat) {
    forall i :: 0 <= i < |workers| && workers[i].channel == channel ==>
      && (workers[i].progress.HasRead? ==> first <= workers[i].progress.at <= last)
      && (workers[i].progress.Lost? ==> first <= workers[i].progress.at < last)
  }

  /** The winners' intervals tile the way from the first watermark to the last. */
  ghost predicate Tiles(workers: seq<Worker>, channel: string, first: nat, last: nat) {
    && InBounds(workers, channel, first, last)
    && Disjoint(workers, channel)
    && Complete(workers, channel, first, last)
    && Fair(workers, channel, first, last)
    && last == first + TotalWon(workers, channel)
  }

  ghost predicate Conserved(s: State, channel: string, first: nat) {
    channel in s.data && Tiles(s.workers, channel, first, s.data[channel].cumulative)
  }

  lemma {:induction false} SameWinnersCover(workers: seq<Worker>, workers': seq<Worker>, channel: string, first: nat, last: nat)
    requires Complete(workers, channel, first, last)
    requires |workers| <= |workers'|
    requires forall i :: Wins(workers, i, channel) ==> workers'[i] == workers[i]
    ensures Complete(workers', channel, first, last)
  {
    forall x | first < x <= last ensures Covered(workers', channel, x) {
      assert Covered(workers, channel, x);
      var i :| Covers(workers, i, channel, x);
      assert Covers(workers', i, channel, x);
    }
  }

  lemma {:induction false} JoinConserves(s: State, channel: string, first: nat, e: Event)
    requires Conserved(s, channel, first) && e.Join?
    ensures Conserved(Next(s, e), channel, first)
  {
    var w := Worker(e.channel, e.amount, Idle);
    TotalWonConcat(s.workers, [w], channel);
    assert TotalWon([w], channel) == 0;
    var workers' := s.workers + [w];
    assert forall i :: Wins(workers', i, channel) <==> Wins(s.workers, i, channel);
    SameWinnersCover(s.workers, workers', channel, first, s.data[channel].cumulative);
  }

  /** Replacing a worker that has not won by one that has not won either. */
  lemma {:induction false} NoWinKeepsTiles(workers: seq<Worker>, who: nat, w: Worker, channel: string, first: nat, last: nat)
    requires Tiles(workers, channel, first, last) && who < |workers|
    requires !workers[who].progress.Won? && !w.progress.Won? && w.channel == workers[who].channel
    requires w.channel == channel && w.progress.HasRead? ==> first <= w.progress.at <= last
    requires w.channel == channel && w.progress.Lost? ==> first <= w.progress.at < last
    ensures Tiles(workers[who := w], channel, first, last)
  {
    TotalWonUpdate(workers, who, w, channel);
    assert forall i :: Wins(workers[who := w], i, channel) <==> Wins(workers, i, channel);
    SameWinnersCover(workers, workers[who := w], channel, first, last);
  }

  /** Replacing a worker by the winner of the interval that starts at the last watermark. */
  lemma {:induction false} WinExtendsTiles(workers: seq<Worker>, who: nat, w: Worker, channel: string, first: nat, last: nat)
    requires Tiles(workers, channel, first, last) && who < |workers|
    requires !workers[who].progress.Won? && w.channel == channel == workers[who].channel
    requires w.progress.Won? && w.progress.from == last && w.progress.to == last + w.amount
    ensures Tiles(workers[who := w], channel, first, last + w.amount)
  {
    var workers' := workers[who := w];
    TotalWonUpdate(workers, who, w, channel);
    assert forall i :: Wins(workers', i, channel) <==> Wins(workers, i, channel) || i == who;
    SameWinnersCover(workers, workers', channel, first, last);
    assert Complete(workers', channel, first, last + w.amount) by {
      forall x | first < x <= last + w.amount ensures Covered(workers', channel, x) {
        if x <= last {
          assert Complete(workers', channel, first, last);
        } else {
          assert Covers(workers', who, channel, x);
        }
      }
    }
  }

  /** A winner on another channel. */
  lemma {:induction false} OtherWinKeepsTiles(workers: seq<Worker>, who: nat, w: Worker, channel: string, first: nat, last: nat)
    requires Tiles(workers, channel, first, last) && who < |workers|
    requires w.channel == workers[who].channel != channel
    ensures Tiles(workers[who := w], channel, first, last)
  {
    TotalWonUpdate(workers, who, w, channel);
    assert forall i :: Wins(workers[who := w], i, channel) <==> Wins(workers, i, channel);
    SameWinnersCover(workers, workers[who := w], channel, first, last);
  }

  lemma {:induction false} ReadConserves(s: State, channel: string, first: nat, who: nat)
    requires Conserved(s, channel, first) && who < |s.workers|
    ensures Conserved(Next(s, Read(who)), channel, first)
  {
    var w := s.workers[who];
    if w.progress.Idle? {
      NoWinKeepsTiles(s.workers, who, ReadStep(w, s.data), channel, first, s.data[channel].cumulative);
    } else {
      assert s.workers[who := w] == s.workers;
    }
  }

  lemma {:induction false} SwapConserves(s: State, channel: string, first: nat, who: nat)
    requires Conserved(s, channel, first) && who < |s.workers|
    ensures Conserved(Next(s, Swap(who)), channel, first)
  {
    var w, last := s.workers[who], s.data[channel].cumulative;
    var r := SwapStep(w, s.data);
    if !w.progress.HasRead? {
      assert s.workers[who := w] == s.workers;
    } else if w.channel != channel {
      OtherWinKeepsTiles(s.workers, who, r.0, channel, first, last);
    } else if r.0.progress.Won? {
      WinExtendsTiles(s.workers, who, r.0, channel, first, last);
    } else {
      NoWinKeepsTiles(s.workers, who, r.0, channel, first, last);
    }
  }

  lemma {:induction false} NextConserves(s: State, e: Event, channel: string, first: nat)
    requires Conserved(s, channel, first)
    ensures Conserved(Next(s, e), channel, first)
  {
    match e
    case Join(_, _) => JoinConserves(s, channel, first, e);
    case Read(who) => if who < |s.workers| { ReadConserves(s, channel, first, who); }
    case Swap(who) => if who < |s.workers| { SwapConserves(s, channel, first, who); }
    case SetDeposit(_, _) =>
    case Finalize(_) =>
  }

  lemma {:induction false} RunKeepsConserved(s: State, events: seq<Event>, channel: string, first: nat)
    requires Conserved(s, channel, first)
    ensures Conserved(Run(s, events), channel, first)
    decreases events
  {
    if events != [] {
      NextConserves(s, events[0], channel, first);
      RunKeepsConserved(Next(s, events[0]), events[1..], channel, first);
    }
  }

  /**
   * For every interleaving of workers, top-ups and finalisations, the intervals of the successful calls on a channel tile
   * the way from its first watermark to its last, which is the first plus the amounts won.
   */
  lemma {:induction false} WinnersTile(data: Channels, events: seq<Event>, channel: string)
    requires channel in data
    ensures var s := Run(State(data, []), events);
      channel in s.data && Tiles(s.workers, channel, data[channel].cumulative, s.data[channel].cumulative)
  {
    RunKeepsConserved(State(data, []), events, channel, data[channel].cumulative);
  }

  /** A worker is turned away only because another moved the watermark it had read. */
  lemma {:induction false} LoserWasOvertaken(data: Channels, events: seq<Event>, channel: string, i: nat)
    requires channel in data
    ensures var s := Run(State(data, []), events);
      i < |s.workers| && s.workers[i].channel == channel && s.workers[i].progress.Lost?
      ==> Covered(s.workers, channel, s.workers[i].progress.at + 1)
  {
    WinnersTile(data, events, channel);
  }

  // ── Other fields and other channels ──

  /** Moving the watermark changes nothing else, and top-ups and finalisation do not move it. */
  lemma {:induction false} FieldsAreIndependent(data: Channels, id: string, other: string, expected: u64, new_: u64, deposit: u64)
    requires id in data && other in data
    ensures var a := Advanced(data, id, expected, new_).0;
      a[other] == if other == id && data[id].cumulative == expected then data[id].(cumulative := new_) else data[other]
    ensures Deposited(data, id, deposit)[other].cumulative == data[other].cumulative
    ensures Finalized(data, id)[other].cumulative == data[other].cumulative
    ensures Finalized(Deposited(Advanced(data, id, expected, new_).0, id, deposit), id)
      == Advanced(Deposited(Finalized(data, id), id, deposit), id, expected, new_).0
  {
    assert Finalized(Deposited(Advanced(data, id, expected, new_).0, id, deposit), id)
      == Advanced(Deposited(Finalized(data, id), id, deposit), id, expected, new_).0;
  }

  /** The deposit that the last top-up of the channel sets, else `otherwise`. */
  function LastDeposit(events: seq<Event>, channel: string, otherwise: u64): u64
    decreases events
  {
    if events == [] then otherwise
    else
      LastDeposit(events[1..], channel,
                  if events[0].SetDeposit? && events[0].channel == channel then events[0].deposit else otherwise)
  }

  predicate IsFinalized(events: seq<Event>, channel: string) {
    exists i :: 0 <= i < |events| && events[i] == Finalize(channel)
  }

  lemma {:induction false} IsFinalizedCons(events: seq<Event>, channel: string)
    requires events != []
    ensures IsFinalized(events, channel) <==> events[0] == Finalize(channel) || IsFinalized(events[1..], channel)
  {
    if i :| 0 <= i < |events| && events[i] == Finalize(channel) {
      if i > 0 {
        assert events[1..][i - 1] == Finalize(channel);
      }
    }
    if j :| 0 <= j < |events[1..]| && events[1..][j] == Finalize(channel) {
      assert events[j + 1] == Finalize(channel);
    }
  }

  lemma {:induction false} NextFields(s: State, e: Event, channel: string)
    ensures channel in Next(s, e).data <==> channel in s.data
    ensures channel in s.data ==>
              var c := Next(s, e).data[channel];
              c == s.data[channel].(
                cumulative := c.cumulative,
                deposit := if e.SetDeposit? && e.channel == channel then e.deposit else s.data[channel].deposit,
                finalized := e == Finalize(channel) || s.data[channel].finalized)
  {
  }

  /** After any run a channel has the deposit last set, is finalized once it was finalized, and is otherwise as before. */
  lemma {:induction false} RunFields(s: State, events: seq<Event>, channel: string)
    ensures channel in Run(s, events).data <==> channel in s.data
    ensures channel in s.data ==>
              var c := Run(s, events).data[channel];
              c == s.data[channel].(
                cumulative := c.cumulative,
                deposit := LastDeposit(events, channel, s.data[channel].deposit),
                finalized := IsFinalized(events, channel) || s.data[channel].finalized)
    decreases events
  {
    if events != [] {
      NextFields(s, events[0], channel);
      RunFields(Next(s, events[0]), events[1..], channel);
      IsFinalizedCons(events, channel);
    }
  }

  /** A swap wins exactly where the watermark still is what was read and the sum fits, and then moves it by the amount. */
  lemma {:induction false} SwapExactly(s: State, who: nat)
    requires who < |s.workers| && s.workers[who].progress.HasRead? && s.workers[who].channel in s.data
    ensures var w := s.workers[who];
      var at, sum := w.progress.at, w.progress.at + w.amount;
      var here := s.data[w.channel].cumulative;
      var next := Next(s, Swap(who));
      && next.workers == s.workers[who := w.(progress :=
           if sum >= 0x1_0000_0000_0000_0000 then Failed else if here == at then Won(at, sum) else Lost(at))]
      && next.data[w.channel].cumulative == (if sum < 0x1_0000_0000_0000_0000 && here == at then sum else here)
  {
  }

  /** A worker that nobody gets in the way of wins, when its amount fits. */
  lemma {:induction false} UndisturbedWins(s: State, who: nat)
    requires who < |s.workers| && s.workers[who].progress.Idle? && s.workers[who].channel in s.data
    requires s.data[s.workers[who].channel].cumulative + s.workers[who].amount < TWO_64
    ensures var w := s.workers[who];
      var here := s.data[w.channel].cumulative;
      var end := Next(Next(s, Read(who)), Swap(who));
      && end.workers[who] == w.(progress := Won(here, here + w.amount))
      && end.data[w.channel].cumulative == here + w.amount
  {
    SwapExactly(Next(s, Read(who)), who);
  }

  /** A worker may join at any time, and wins when nobody gets in its way. */
  lemma {:induction false} NewcomerWins(s: State, channel: string, amount: Positive)
    requires channel in s.data && s.data[channel].cumulative + amount < TWO_64
    ensures var who, here := |s.workers|, s.data[channel].cumulative;
      var end := Next(Next(Next(s, Join(channel, amount)), Read(who)), Swap(who));
      && end.workers == s.workers + [Worker(channel, amount, Won(here, here + amount))]
      && end.data[channel].cumulative == here + amount
  {
    UndisturbedWins(Next(s, Join(channel, amount)), |s.workers|);
  }

  /** The answers of the compare-and-swap: an unknown channel, a moved watermark, or success. */
  lemma {:induction false} AdvanceAnswers(data: Channels, id: string, expected: u64, new_: u64)
    ensures Advanced(data, id, expected, new_).1 ==
            if id !in data then Err(NotFound) else Ok(data[id].cumulative == expected)
  {
  }
}
