/** A metered response stream: messages for the application, and the directive that is committed at the end. */
module MeteredStream {
  import opened Common
  import opened Numbers
  import opened Sse
  import opened Session
  import Texts

  datatype MeteringUsage = MeteringUsage(deliveryId: string, amount: string)

  /** The JSON decoders of the three payload kinds; absent means the text does not decode. */
  datatype Codec<M> = Codec(directive: string -> Option<MeteringDirective>, usage: string -> Option<MeteringUsage>, message: string -> Option<M>)

  datatype StreamError = BadJson | UsageMismatch | BadUsageAmount | NoDirective

  datatype MeteredEvent<M> = Metering(directive: MeteringDirective) | Usage(usage: MeteringUsage) | Message(message: M) | Done | Other

  function ParseMeteredSseEvent<M>(codec: Codec<M>, e: SseEvent): Result<MeteredEvent<M>, StreamError> {
    var name := if e.event.Some? then e.event.value else "message";
    if name == "mpp.metering" || name == "metering" then
      match codec.directive(e.data) case Some(d) => Ok(Metering(d)) case None => Err(BadJson)
    else if name == "mpp.usage" || name == "usage" then
      match codec.usage(e.data) case Some(u) => Ok(Usage(u)) case None => Err(BadJson)
    else if name == "done" then Ok(Done)
    else if name == "message" && Texts.TrimSpace(e.data) == "[DONE]" then Ok(Done)
    else if name == "message" then
      match codec.message(e.data) case Some(m) => Ok(Message(m)) case None => Err(BadJson)
    else Ok(Other)
  }

  datatype State = State(directive: Option<MeteringDirective>, finalAmount: Option<u64>, done: bool)

  const START: State := State(None, None, false)

  function ApplyEvent<M>(codec: Codec<M>, s: State, e: SseEvent): Result<(State, Option<M>), StreamError> {
    match ParseMeteredSseEvent(codec, e)
    case Err(error) => Err(error)
    case Ok(Metering(d)) => Ok((s.(directive := Some(d)), None))
    case Ok(Usage(u)) =>
      if s.directive.Some? && u.deliveryId != s.directive.value.deliveryId then Err(UsageMismatch)
      else
        (match ParseU64(u.amount)
         case None => Err(BadUsageAmount)
         case Some(amount) => Ok((s.(finalAmount := Some(amount)), None)))
    case Ok(Message(m)) => Ok((s, Some(m)))
    case Ok(Done) => Ok((s.(done := true), None))
    case Ok(Other) => Ok((s, None))
  }

  function DirectiveForCommit(s: State): Result<MeteringDirective, StreamError> {
    if s.directive.None? then Err(NoDirective)
    else Ok(if s.finalAmount.Some? then s.directive.value.(amount := ToText(s.finalAmount.value)) else s.directive.value)
  }

  function Queued<M>(m: Option<M>): seq<M> {
    if m.Some? then [m.value] else []
  }

  /** Applying events in order: the state and messages up to the first error, and that error. */
  datatype Applied<M> = Applied(state: State, messages: seq<M>, error: Option<StreamError>)

  function ApplyAll<M>(codec: Codec<M>, s: State, events: seq<SseEvent>): Applied<M>
    decreases events
  {
    if events == [] then Applied(s, [], None)
    else
      match ApplyEvent(codec, s, events[0])
      case Err(error) => Applied(s, [], Some(error))
      case Ok((s', message)) =>
        var rest := ApplyAll(codec, s', events[1..]);
        Applied(rest.state, Queued(message) + rest.messages, rest.error)
  }

  /** Continuing with `rest` after queueing `queued` completes `all` after `start`. */
  ghost predicate Leads<M>(rest: Applied<M>, queued: seq<M>, all: Applied<M>, start: seq<M>) {
    rest.state == all.state && rest.error == all.error && queued + rest.messages == start + all.messages
  }

  lemma {:induction false} LeadsOn<M>(rest: Applied<M>, message: Option<M>, queued: seq<M>, all: Applied<M>, start: seq<M>)
    requires Leads(Applied(rest.state, Queued(message) + rest.messages, rest.error), queued, all, start)
    ensures Leads(rest, queued + Queued(message), all, start)
    ensures message.None? ==> Leads(rest, queued, all, start)
  {
    assert queued + (Queued(message) + rest.messages) == (queued + Queued(message)) + rest.messages;
    assert queued + [] == queued;
  }

  lemma {:induction false} LeadsNowhere<M>(s: State, error: StreamError, queued: seq<M>, all: Applied<M>, start: seq<M>)
    requires Leads(Applied(s, [], Some(error)), queued, all, start)
    ensures all.state == s && all.error == Some(error) && queued == start + all.messages
  {
    assert queued + [] == queued;
  }

  // ── The stream object ──

  /** A stream over a response whose chunks still to be read are `chunks`. */
  class MeteredSseStream<M(0)> {
    const codec: Codec<M>
    const decoder: SseDecoder
    var chunks: seq<string>
    var pending: seq<M>
    var state: State

    ghost function View(): Snapshot<M>
      reads this, decoder
    {
      Snapshot(chunks, decoder.buffer, decoder.current, pending, state)
    }

    constructor (codec: Codec<M>, chunks: seq<string>)
      ensures this.codec == codec && fresh(decoder)
      ensures View() == Begin(chunks)
    {
      this.codec := codec;
      decoder := new SseDecoder();
      this.chunks, pending, state := chunks, [], START;
    }

    /** Apply a batch of decoded events, queueing their messages. */
    method ApplyBatch(events: seq<SseEvent>) returns (error: Option<StreamError>)
      modifies this
      ensures chunks == old(chunks)
      ensures var a := ApplyAll(codec, old(state), events);
              state == a.state && pending == old(pending) + a.messages && error == a.error
    {
      ghost var all := ApplyAll(codec, state, events);
      ghost var start := pending;
      var i := 0;
      assert events[0..] == events;
      while i < |events|
        invariant 0 <= i <= |events|
        invariant chunks == old(chunks)
        invariant Leads(ApplyAll(codec, state, events[i..]), pending, all, start)
      {
        assert events[i..][0] == events[i] && events[i..][1..] == events[i + 1..];
        match ApplyEvent(codec, state, events[i]) {
          case Err(e) =>
            LeadsNowhere(state, e, pending, all, start);
            return Some(e);
          case Ok((next, message)) =>
            LeadsOn(ApplyAll(codec, next, events[i + 1..]), message, pending, all, start);
            state := next;
            if message.Some? { pending := pending + [message.value]; }
        }
        i := i + 1;
      }
      assert pending + [] == pending;
      return None;
    }

    method Next() returns (r: Result<Option<M>, StreamError>)
      modifies this, decoder
      ensures Step(codec, old(View())) == (View(), r)
    {
      ghost var start := View();
      while true
        invariant Step(codec, View()) == Step(codec, start)
        decreases |chunks|, if state.done then 0 else 1
      {
        if |pending| > 0 {
          var message := pending[0];
          pending := pending[1..];
          return Ok(Some(message));
        }
        if state.done { return Ok(None); }
        if |chunks| > 0 {
          var chunk := chunks[0];
          chunks := chunks[1..];
          var events := decoder.PushChunk(chunk);
          var error := ApplyBatch(events);
          if error.Some? { return Err(error.value); }
        } else {
          var events := decoder.Finish();
          var error := ApplyBatch(events);
          if error.Some? { return Err(error.value); }
          state := state.(done := true);
        }
      }
    }

    /** Read the rest of the stream and hand over the directive to commit. */
    method Ack() returns (r: Result<MeteringDirective, StreamError>)
      modifies this, decoder
      ensures r == AckOf(codec, old(View()))
    {
      ghost var start := View();
      if !state.done {
        var more := true;
        while more
          invariant more ==> Remaining(codec, View()).outcome == Remaining(codec, start).outcome
          invariant !more ==> Remaining(codec, start).outcome == Ok(state)
          decreases more, |chunks|, !state.done, |pending|
        {
          ghost var before := View();
          var next := Next();
          RemainingStep(codec, before);
          if next.Err? { return Err(next.error); }
          more := next.value.Some?;
        }
      }
      return DirectiveForCommit(state);
    }
  }

  // ── The stream as values ──

  datatype Snapshot<M> = Snapshot(chunks: seq<string>, buffer: string, current: SseEvent, pending: seq<M>, state: State)

  function Begin<M>(chunks: seq<string>): Snapshot<M> {
    Snapshot(chunks, "", EMPTY, [], START)
  }

  /** One read: the next chunk, or the end of the response. */
  function ReadOnce<M>(codec: Codec<M>, s: Snapshot<M>): (Snapshot<M>, Option<StreamError>) {
    if s.chunks != [] then
      var d := Drain(s.buffer + s.chunks[0], s.current);
      var a := ApplyAll(codec, s.state, d.events);
      (Snapshot(s.chunks[1..], d.buffer, d.current, s.pending + a.messages, a.state), a.error)
    else
      var (current, events) := Finished(s.buffer, s.current);
      var a := ApplyAll(codec, s.state, events);
      var state := if a.error.None? then a.state.(done := true) else a.state;
      (Snapshot([], "", current, s.pending + a.messages, state), a.error)
  }

  function Step<M>(codec: Codec<M>, s: Snapshot<M>): (Snapshot<M>, Result<Option<M>, StreamError>)
    decreases |s.chunks|, if s.state.done then 0 else 1
  {
    if s.pending != [] then (s.(pending := s.pending[1..]), Ok(Some(s.pending[0])))
    else if s.state.done then (s, Ok(None))
    else
      var (s', error) := ReadOnce(codec, s);
      if error.Some? then (s', Err(error.value)) else Step(codec, s')
  }

  /** Everything the stream still yields: the messages in order, then the final state or the error that ends it. */
  datatype Rest<M> = Rest(messages: seq<M>, outcome: Result<State, StreamError>)

  function Remaining<M>(codec: Codec<M>, s: Snapshot<M>): Rest<M>
    decreases |s.chunks|, !s.state.done, |s.pending|
  {
    if s.pending != [] then
      var rest := Remaining(codec, s.(pending := s.pending[1..]));
      Rest([s.pending[0]] + rest.messages, rest.outcome)
    else if s.state.done then Rest([], Ok(s.state))
    else
      var (s', error) := ReadOnce(codec, s);
      if error.Some? then Rest([], Err(error.value)) else Remaining(codec, s')
  }

  function AckOf<M>(codec: Codec<M>, s: Snapshot<M>): Result<MeteringDirective, StreamError> {
    if s.state.done then DirectiveForCommit(s.state)
    else
      match Remaining(codec, s).outcome
      case Err(error) => Err(error)
      case Ok(state) => DirectiveForCommit(state)
  }

  /** Reading step by step yields what remains, in order. */
  lemma {:induction false} RemainingStep<M>(codec: Codec<M>, s: Snapshot<M>)
    ensures var (s', r) := Step(codec, s);
            match r
            case Err(error) => Remaining(codec, s).outcome == Err(error)
            case Ok(None) => Remaining(codec, s) == Rest([], Ok(s'.state)) && s'.state.done
            case Ok(Some(m)) =>
              && Remaining(codec, s) == Rest([m] + Remaining(codec, s').messages, Remaining(codec, s').outcome)
              && |s'.chunks| <= |s.chunks|
              && (|s'.chunks| == |s.chunks| && s'.state.done == s.state.done ==> |s'.pending| < |s.pending|)
              && (s.state.done ==> s'.state.done)
    decreases |s.chunks|, !s.state.done
  {
    if s.pending == [] && !s.state.done {
      var (s', error) := ReadOnce(codec, s);
      if error.None? { RemainingStep(codec, s'); }
    }
  }

  // ── What the events mean ──

  /** White space around the marker. */
  predicate IsDoneText(text: string) {
    exists i :: 0 <= i <= |text| - 6 && text[i..i + 6] == "[DONE]" && IsBlank(text[..i]) && IsBlank(text[i + 6..])
  }

  predicate IsBlank(text: string) {
    forall i :: 0 <= i < |text| ==> Texts.IsSpace(text[i])
  }

  predicate IsPlain(e: SseEvent) {
    e.event.None? || e.event.value == "message"
  }

  predicate IsDone(e: SseEvent) {
    e.event == Some("done") || (IsPlain(e) && IsDoneText(e.data))
  }

  predicate IsMessage(e: SseEvent) {
    IsPlain(e) && !IsDoneText(e.data)
  }

  predicate IsMetering(e: SseEvent) {
    e.event == Some("mpp.metering") || e.event == Some("metering")
  }

  predicate IsUsage(e: SseEvent) {
    e.event == Some("mpp.usage") || e.event == Some("usage")
  }

  lemma {:induction false} TrimmedIsDone(text: string)
    requires Texts.TrimSpace(text) == "[DONE]"
    ensures IsDoneText(text)
  {
    var left := Texts.TrimLeft(text, Texts.IsSpace);
    Texts.TrimmedLeft(text, Texts.IsSpace);
    Texts.TrimmedRight(left, Texts.IsSpace);
    var i := |text| - |left|;
    assert left[..6] == "[DONE]" && IsBlank(left[6..]);
    assert text[i..i + 6] == left[..6];
    assert text[i + 6..] == left[6..];
    assert IsBlank(text[..i]);
  }

  lemma {:induction false} DoneIsTrimmed(text: string, i: nat)
    requires i <= |text| - 6 && text[i..i + 6] == "[DONE]" && IsBlank(text[..i]) && IsBlank(text[i + 6..])
    ensures Texts.TrimSpace(text) == "[DONE]"
  {
    var marked := text[i..];
    assert text[i] == text[i..i + 6][0] == '[';
    assert marked[5] == text[i..i + 6][5] == ']';
    assert marked[6..] == text[i + 6..] && marked[..6] == text[i..i + 6];
    Texts.TrimsLeft(text, i, Texts.IsSpace);
    BlankAfter(marked, 6);
    Texts.TrimsRight(marked, 6, Texts.IsSpace);
  }

  lemma {:induction false} BlankAfter(text: string, n: nat)
    requires n <= |text| && IsBlank(text[n..])
    ensures forall i :: n <= i < |text| ==> Texts.IsSpace(text[i])
  {
    forall i | n <= i < |text| ensures Texts.IsSpace(text[i]) {
      assert text[n..][i - n] == text[i];
    }
  }

  lemma {:induction false} DoneTextIff(text: string)
    ensures Texts.TrimSpace(text) == "[DONE]" <==> IsDoneText(text)
  {
    if Texts.TrimSpace(text) == "[DONE]" {
      TrimmedIsDone(text);
    } else if IsDoneText(text) {
      var i :| 0 <= i <= |text| - 6 && text[i..i + 6] == "[DONE]" && IsBlank(text[..i]) && IsBlank(text[i + 6..]);
      DoneIsTrimmed(text, i);
    }
  }

  lemma {:induction false} ParsedPlain<M>(codec: Codec<M>, e: SseEvent)
    requires IsPlain(e)
    ensures ParseMeteredSseEvent(codec, e)
      == if IsDoneText(e.data) then Ok(Done)
         else match codec.message(e.data) case Some(m) => Ok(Message(m)) case None => Err(BadJson)
  {
    DoneTextIff(e.data);
  }

  lemma {:induction false} ParsedNamed<M>(codec: Codec<M>, e: SseEvent)
    requires !IsPlain(e)
    ensures ParseMeteredSseEvent(codec, e)
      == if IsMetering(e) then
           match codec.directive(e.data) case Some(d) => Ok(Metering(d)) case None => Err(BadJson)
         else if IsUsage(e) then
           match codec.usage(e.data) case Some(u) => Ok(Usage(u)) case None => Err(BadJson)
         else if IsDone(e) then Ok(Done) else Ok(Other)
  {
  }

  lemma {:induction false} KindsDiffer(e: SseEvent)
    ensures IsPlain(e) ==> !IsMetering(e) && !IsUsage(e) && (IsDone(e) <==> IsDoneText(e.data))
    ensures IsMetering(e) ==> !IsUsage(e) && !IsDone(e)
    ensures IsUsage(e) ==> !IsDone(e)
  {
    assert "message"[0] == 'm' && "mpp.metering"[1] == 'p' && "metering"[2] == 't' && "message"[2] == 's';
    assert "mpp.usage"[4] == 'u' && "mpp.metering"[4] == 'm' && "usage"[0] == 'u' && "done"[0] == 'd' && "metering"[1] == 'e';
  }

  /** What applying one event does, by the event's own name and data. */
  lemma {:induction false} EventMeans<M>(codec: Codec<M>, s: State, e: SseEvent)
    ensures IsDone(e) ==> ApplyEvent(codec, s, e) == Ok((s.(done := true), None))
    ensures IsMessage(e) ==>
              ApplyEvent(codec, s, e)
              == match codec.message(e.data) case Some(m) => Ok((s, Some(m))) case None => Err(BadJson)
    ensures IsMetering(e) ==>
              ApplyEvent(codec, s, e)
              == match codec.directive(e.data) case Some(d) => Ok((s.(directive := Some(d)), None)) case None => Err(BadJson)
    ensures IsUsage(e) ==>
              ApplyEvent(codec, s, e)
              == match codec.usage(e.data)
                 case None => Err(BadJson)
                 case Some(u) =>
                   if s.directive.Some? && s.directive.value.deliveryId != u.deliveryId then Err(UsageMismatch)
                   else if ParseU64(u.amount).None? then Err(BadUsageAmount)
                   else Ok((s.(finalAmount := ParseU64(u.amount)), None))
    ensures !IsDone(e) && !IsMessage(e) && !IsMetering(e) && !IsUsage(e) ==> ApplyEvent(codec, s, e) == Ok((s, None))
  {
    KindsDiffer(e);
    if IsPlain(e) {
      ParsedPlain(codec, e);
    } else {
      ParsedNamed(codec, e);
    }
  }

  // ── Every chunking yields the batch result ──

  lemma {:induction false} ApplyAllConcat<M>(codec: Codec<M>, s: State, a: seq<SseEvent>, b: seq<SseEvent>)
    ensures var first := ApplyAll(codec, s, a);
            ApplyAll(codec, s, a + b) ==
            if first.error.Some? then first
            else
              var second := ApplyAll(codec, first.state, b);
              Applied(second.state, first.messages + second.messages, second.error)
    decreases a
  {
    if a == [] {
      assert a + b == b;
      assert [] + ApplyAll(codec, s, b).messages == ApplyAll(codec, s, b).messages;
    } else {
      assert (a + b)[0] == a[0] && (a + b)[1..] == a[1..] + b;
      match ApplyEvent(codec, s, a[0])
      case Err(_) =>
      case Ok((s', message)) =>
        ApplyAllConcat(codec, s', a[1..], b);
        var first := ApplyAll(codec, s', a[1..]);
        QueueFirst(Queued(message), first.messages, ApplyAll(codec, first.state, b).messages);
    }
  }

  lemma {:induction false} QueueFirst<T>(a: seq<T>, b: seq<T>, c: seq<T>)
    ensures a + (b + c) == (a + b) + c
  {
  }

  predicate HasDone(events: seq<SseEvent>) {
    exists i :: 0 <= i < |events| && IsDone(events[i])
  }

  lemma {:induction false} HasDoneCons(events: seq<SseEvent>)
    requires events != []
    ensures HasDone(events) <==> IsDone(events[0]) || HasDone(events[1..])
  {
    if i :| 0 <= i < |events| && IsDone(events[i]) {
      if i > 0 {
        assert IsDone(events[1..][i - 1]);
      }
    }
    if j :| 0 <= j < |events[1..]| && IsDone(events[1..][j]) {
      assert IsDone(events[j + 1]);
    }
  }

  /** Applying events without an error ends the stream exactly when one of them is the done marker. */
  lemma {:induction false} DoneIff<M>(codec: Codec<M>, s: State, events: seq<SseEvent>)
    requires ApplyAll(codec, s, events).error.None?
    ensures ApplyAll(codec, s, events).state.done <==> s.done || HasDone(events)
    decreases events
  {
    if events != [] {
      HasDoneCons(events);
      EventMeans(codec, s, events[0]);
      DoneIff(codec, ApplyEvent(codec, s, events[0]).value.0, events[1..]);
    }
  }

  /** The events still to be decoded. */
  function Future(buffer: string, current: SseEvent, chunks: seq<string>): seq<SseEvent>
    decreases |chunks|
  {
    if chunks == [] then Finished(buffer, current).1
    else
      var d := Drain(buffer + chunks[0], current);
      d.events + Future(d.buffer, d.current, chunks[1..])
  }

  lemma {:induction false} PendingFirst<M>(codec: Codec<M>, s: Snapshot<M>)
    ensures Remaining(codec, s) ==
            Rest(s.pending + Remaining(codec, s.(pending := [])).messages, Remaining(codec, s.(pending := [])).outcome)
    decreases |s.pending|
  {
    var rest := Remaining(codec, s.(pending := []));
    if s.pending == [] {
      assert s.(pending := []) == s;
      assert [] + rest.messages == rest.messages;
    } else {
      var tail := s.(pending := s.pending[1..]);
      PendingFirst(codec, tail);
      assert tail.(pending := []) == s.(pending := []);
      PendingOne(codec, s);
      ConsTail(s.pending, rest.messages);
    }
  }

  lemma {:induction false} PendingOne<M>(codec: Codec<M>, s: Snapshot<M>)
    requires s.pending != []
    ensures var rest := Remaining(codec, s.(pending := s.pending[1..]));
      Remaining(codec, s) == Rest([s.pending[0]] + rest.messages, rest.outcome)
  {
  }

  lemma {:induction false} ConsTail<T>(a: seq<T>, b: seq<T>)
    requires a != []
    ensures [a[0]] + (a[1..] + b) == a + b
  {
  }

  // ── Which events a stream consumes ──

  /** The events applied before the stream ends: those of every chunk up to the first that brings the done marker. */
  function ConsumedFrom(buffer: string, current: SseEvent, chunks: seq<string>): seq<SseEvent>
    decreases |chunks|
  {
    if chunks == [] then Finished(buffer, current).1
    else
      var d := Drain(buffer + chunks[0], current);
      if HasDone(d.events) then d.events else d.events + ConsumedFrom(d.buffer, d.current, chunks[1..])
  }

  function Consumed(chunks: seq<string>): seq<SseEvent> {
    ConsumedFrom("", EMPTY, chunks)
  }

  /** What remains of a stream yields the messages of the applied events, or some of them before the first error. */
  ghost predicate Delivers<M>(rest: Rest<M>, a: Applied<M>) {
    match a.error
    case Some(error) => rest.outcome == Err(error) && rest.messages <= a.messages
    case None => rest == Rest(a.messages, Ok(a.state.(done := true)))
  }

  lemma {:induction false} AtEndOfResponse<M>(codec: Codec<M>, s: Snapshot<M>)
    requires !s.state.done && s.pending == [] && s.chunks == []
    ensures Delivers(Remaining(codec, s), ApplyAll(codec, s.state, Finished(s.buffer, s.current).1))
  {
    var (s', error) := ReadOnce(codec, s);
    assert [] + s'.pending == s'.pending;
    PendingFirst(codec, s');
    assert s'.pending + [] == s'.pending;
  }

  /** Reading one chunk. */
  lemma {:induction false} AfterOneChunk<M>(codec: Codec<M>, s: Snapshot<M>)
    requires !s.state.done && s.pending == [] && s.chunks != []
    ensures var d := Drain(s.buffer + s.chunks[0], s.current);
            var first := ApplyAll(codec, s.state, d.events);
            var rest := Remaining(codec, Snapshot(s.chunks[1..], d.buffer, d.current, [], first.state));
            Remaining(codec, s) ==
            if first.error.Some? then Rest([], Err(first.error.value)) else Rest(first.messages + rest.messages, rest.outcome)
  {
    var d := Drain(s.buffer + s.chunks[0], s.current);
    var first := ApplyAll(codec, s.state, d.events);
    var (next, error) := ReadOnce(codec, s);
    assert [] + first.messages == first.messages;
    assert next == Snapshot(s.chunks[1..], d.buffer, d.current, first.messages, first.state);
    PendingFirst(codec, next);
  }

  lemma {:induction false} DeliversMore<M>(first: Applied<M>, second: Applied<M>, rest: Rest<M>)
    requires first.error.None? && Delivers(rest, second)
    ensures Delivers(Rest(first.messages + rest.messages, rest.outcome),
                     Applied(second.state, first.messages + second.messages, second.error))
  {
  }

  /** What remains of an open stream is what its consumed events make of it. */
  lemma {:induction false} RemainingIsConsumed<M>(codec: Codec<M>, s: Snapshot<M>)
    requires !s.state.done && s.pending == []
    ensures Delivers(Remaining(codec, s), ApplyAll(codec, s.state, ConsumedFrom(s.buffer, s.current, s.chunks)))
    decreases |s.chunks|
  {
    if s.chunks == [] {
      AtEndOfResponse(codec, s);
    } else {
      var d := Drain(s.buffer + s.chunks[0], s.current);
      var first := ApplyAll(codec, s.state, d.events);
      var s' := Snapshot(s.chunks[1..], d.buffer, d.current, [], first.state);
      AfterOneChunk(codec, s);
      if first.error.Some? {
        FirstErrorStays(codec, s.state, d.events, ConsumedFrom(d.buffer, d.current, s.chunks[1..]));
      } else {
        DoneIff(codec, s.state, d.events);
        if first.state.done {
          assert first.messages + [] == first.messages;
        } else {
          RemainingIsConsumed(codec, s');
          ApplyAllConcat(codec, s.state, d.events, ConsumedFrom(d.buffer, d.current, s.chunks[1..]));
          DeliversMore(
            first, ApplyAll(codec, first.state, ConsumedFrom(d.buffer, d.current, s.chunks[1..])),
            Remaining(codec, s'));
        }
      }
    }
  }

  lemma {:induction false} FirstErrorStays<M>(codec: Codec<M>, s: State, now: seq<SseEvent>, later: seq<SseEvent>)
    requires ApplyAll(codec, s, now).error.Some?
    ensures ApplyAll(codec, s, now + later) == ApplyAll(codec, s, now)
  {
    ApplyAllConcat(codec, s, now, later);
  }

  /** The consumed events are the first of all events. */
  lemma {:induction false} ConsumedIsPrefix(buffer: string, current: SseEvent, chunks: seq<string>)
    ensures ConsumedFrom(buffer, current, chunks) <= Future(buffer, current, chunks)
    decreases |chunks|
  {
    if chunks != [] {
      var d := Drain(buffer + chunks[0], current);
      ConsumedIsPrefix(d.buffer, d.current, chunks[1..]);
      PrefixAfter(d.events, ConsumedFrom(d.buffer, d.current, chunks[1..]), Future(d.buffer, d.current, chunks[1..]));
    }
  }

  lemma {:induction false} PrefixAfter<T>(a: seq<T>, b: seq<T>, c: seq<T>)
    requires b <= c
    ensures a <= a + c && a + b <= a + c
  {
  }

  lemma {:induction false} FutureIsBatch(before: seq<string>, after: seq<string>)
    ensures var p := PushAll(before);
            p.events + Future(p.buffer, p.current, after) == BatchDecode(Concat(before + after))
    decreases |after|
  {
    if after == [] {
      assert before + after == before;
      ChunkIndependence(before);
    } else {
      var next := before + [after[0]];
      assert next[..|next| - 1] == before;
      assert next + after[1..] == before + after;
      FutureIsBatch(next, after[1..]);
      var p := PushAll(before);
      var d := Drain(p.buffer + after[0], p.current);
      Regroup(p.events, d.events, Future(d.buffer, d.current, after[1..]));
    }
  }

  lemma {:induction false} Regroup(a: seq<SseEvent>, b: seq<SseEvent>, c: seq<SseEvent>)
    ensures a + (b + c) == (a + b) + c
  {
  }

  // ── What the batch result is ──

  /** The application messages among the events, in order. */
  function Messages<M>(codec: Codec<M>, events: seq<SseEvent>): seq<M> {
    if events == [] then []
    else
      (if IsMessage(events[0]) && codec.message(events[0].data).Some? then [codec.message(events[0].data).value] else [])
      + Messages(codec, events[1..])
  }

  /** The amount of the last usage event, else `otherwise`. */
  function LastUsage<M>(codec: Codec<M>, events: seq<SseEvent>, otherwise: Option<u64>): Option<u64> {
    if events == [] then otherwise
    else
      LastUsage(codec, events[1..],
                if IsUsage(events[0]) && codec.usage(events[0].data).Some? then ParseU64(codec.usage(events[0].data).value.amount)
                else otherwise)
  }

  /** The last metering directive, else `otherwise`. */
  function LastDirective<M>(codec: Codec<M>, events: seq<SseEvent>, otherwise: Option<MeteringDirective>): Option<MeteringDirective> {
    if events == [] then otherwise
    else
      LastDirective(codec, events[1..],
                    if IsMetering(events[0]) && codec.directive(events[0].data).Some? then codec.directive(events[0].data)
                    else otherwise)
  }

  /** What is wrong with an event after a directive: data that does not decode, or usage that does not fit. */
  function Fault<M>(codec: Codec<M>, directive: Option<MeteringDirective>, e: SseEvent): Option<StreamError> {
    if IsMessage(e) && codec.message(e.data).None? then Some(BadJson)
    else if IsMetering(e) && codec.directive(e.data).None? then Some(BadJson)
    else if !IsUsage(e) then None
    else if codec.usage(e.data).None? then Some(BadJson)
    else if directive.Some? && codec.usage(e.data).value.deliveryId != directive.value.deliveryId then Some(UsageMismatch)
    else if ParseU64(codec.usage(e.data).value.amount).None? then Some(BadUsageAmount)
    else None
  }

  /** The first fault, each event being judged by the last directive before it. */
  function FirstFault<M>(codec: Codec<M>, directive: Option<MeteringDirective>, events: seq<SseEvent>): Option<StreamError>
    decreases events
  {
    if events == [] then None
    else if Fault(codec, directive, events[0]).Some? then Fault(codec, directive, events[0])
    else FirstFault(codec, LastDirective(codec, [events[0]], directive), events[1..])
  }

  lemma {:induction false} DirectiveAfter<M>(codec: Codec<M>, s: State, e: SseEvent)
    requires ApplyEvent(codec, s, e).Ok?
    ensures ApplyEvent(codec, s, e).value.0.directive == LastDirective(codec, [e], s.directive)
  {
    EventMeans(codec, s, e);
    assert [e][1..] == [];
  }

  lemma {:induction false} FaultIs<M>(codec: Codec<M>, s: State, e: SseEvent)
    ensures match ApplyEvent(codec, s, e)
            case Err(error) => Fault(codec, s.directive, e) == Some(error)
            case Ok(_) => Fault(codec, s.directive, e).None?
  {
    EventMeans(codec, s, e);
  }

  lemma {:induction false} AppliedFails<M>(codec: Codec<M>, s: State, events: seq<SseEvent>)
    ensures ApplyAll(codec, s, events).error == FirstFault(codec, s.directive, events)
    decreases events
  {
    if events != [] {
      FaultIs(codec, s, events[0]);
      match ApplyEvent(codec, s, events[0])
      case Err(_) =>
      case Ok((s', _)) =>
        DirectiveAfter(codec, s, events[0]);
        AppliedFails(codec, s', events[1..]);
    }
  }

  lemma {:induction false} AppliedMeans<M>(codec: Codec<M>, s: State, events: seq<SseEvent>)
    requires ApplyAll(codec, s, events).error.None?
    ensures ApplyAll(codec, s, events).messages == Messages(codec, events)
    ensures ApplyAll(codec, s, events).state.finalAmount == LastUsage(codec, events, s.finalAmount)
    ensures ApplyAll(codec, s, events).state.directive == LastDirective(codec, events, s.directive)
    decreases events
  {
    if events != [] {
      EventMeans(codec, s, events[0]);
      AppliedMeans(codec, ApplyEvent(codec, s, events[0]).value.0, events[1..]);
    }
  }

  lemma {:induction false} FutureFromStart(chunks: seq<string>)
    ensures Future("", EMPTY, chunks) == BatchDecode(Concat(chunks))
  {
    FutureIsBatch([], chunks);
    NothingFirst(chunks);
    NothingFirst(Future("", EMPTY, chunks));
  }

  lemma {:induction false} NothingFirst<T>(a: seq<T>)
    ensures [] + a == a
  {
  }

  /** The directive that acknowledging hands over after these events. */
  function AckAfter<M>(codec: Codec<M>, events: seq<SseEvent>): Result<MeteringDirective, StreamError> {
    var usage, directive := LastUsage(codec, events, None), LastDirective(codec, events, None);
    if directive.None? then Err(NoDirective)
    else if usage.None? then Ok(directive.value)
    else Ok(directive.value.(amount := ToText(usage.value)))
  }

  /**
   Every stream, however it is cut into chunks: it consumes the first of the events that the whole text decodes to.
   Without an error among those it yields their messages in order, and acknowledging commits the metering directive with
   the last usage amount, or with its own reserved amount when the stream reported no usage. Otherwise the first error
   ends it.
   */
  lemma {:induction false} StreamResult<M>(codec: Codec<M>, chunks: seq<string>)
    ensures Consumed(chunks) <= BatchDecode(Concat(chunks))
    ensures var events := Consumed(chunks);
            var rest, error := Remaining(codec, Begin(chunks)), FirstFault(codec, None, events);
            && (error.None? ==> rest.messages == Messages(codec, events) && AckOf(codec, Begin(chunks)) == AckAfter(codec, events))
            && (error.Some? ==> rest.outcome == Err(error.value) && AckOf(codec, Begin(chunks)) == Err(error.value))
  {
    var events := Consumed(chunks);
    ConsumedIsPrefix("", EMPTY, chunks);
    FutureFromStart(chunks);
    RemainingIsConsumed<M>(codec, Begin(chunks));
    AppliedFails(codec, START, events);
    if ApplyAll(codec, START, events).error.None? {
      AppliedMeans(codec, START, events);
    }
  }

  // ── When the chunking does not matter ──

  /** No event follows the done marker. */
  predicate NothingAfterDone(events: seq<SseEvent>) {
    forall i :: 0 <= i < |events| - 1 ==> !IsDone(events[i])
  }

  lemma {:induction false} ConsumesAll(buffer: string, current: SseEvent, chunks: seq<string>)
    requires NothingAfterDone(Future(buffer, current, chunks))
    ensures ConsumedFrom(buffer, current, chunks) == Future(buffer, current, chunks)
    decreases |chunks|
  {
    if chunks != [] {
      var d := Drain(buffer + chunks[0], current);
      var later := Future(d.buffer, d.current, chunks[1..]);
      DoneIsLast(d.events, later);
      if HasDone(d.events) {
        assert d.events + [] == d.events;
      } else {
        ConsumesAll(d.buffer, d.current, chunks[1..]);
      }
    }
  }

  lemma {:induction false} DoneIsLast(now: seq<SseEvent>, later: seq<SseEvent>)
    requires NothingAfterDone(now + later)
    ensures HasDone(now) ==> later == []
    ensures NothingAfterDone(later)
  {
    if i :| 0 <= i < |now| && IsDone(now[i]) {
      assert (now + later)[i] == now[i];
    }
    forall i | 0 <= i < |later| - 1 ensures !IsDone(later[i]) {
      assert (now + later)[|now| + i] == later[i];
    }
  }

  /** A text cut into its characters. */
  function Characters(text: string): seq<string> {
    seq(|text|, i requires 0 <= i < |text| => [text[i]])
  }

  lemma {:induction false} CharactersConcat(text: string)
    ensures Concat(Characters(text)) == text
  {
    if text != "" {
      var last := |text| - 1;
      assert Characters(text)[..last] == Characters(text[..last]);
      CharactersConcat(text[..last]);
    }
  }

  /** The events up to the first done marker. */
  function UpToDone(events: seq<SseEvent>): seq<SseEvent> {
    if events == [] then []
    else if IsDone(events[0]) then [events[0]]
    else [events[0]] + UpToDone(events[1..])
  }

  lemma {:induction false} UpToDoneIff(events: seq<SseEvent>)
    ensures UpToDone(events) == events <==> NothingAfterDone(events)
  {
    if events != [] {
      UpToDoneIff(events[1..]);
      assert events == [events[0]] + events[1..];
      if IsDone(events[0]) {
        assert |events| == 1 ==> events[1..] == [];
      } else {
        RestAfterDone(events);
        SameTail(events[0], UpToDone(events[1..]), events[1..]);
      }
    }
  }

  lemma {:induction false} SameTail<T>(x: T, a: seq<T>, b: seq<T>)
    ensures [x] + a == [x] + b <==> a == b
  {
    if [x] + a == [x] + b {
      assert ([x] + a)[1..] == a && ([x] + b)[1..] == b;
    }
  }

  lemma {:induction false} RestAfterDone(events: seq<SseEvent>)
    requires events != [] && !IsDone(events[0])
    ensures NothingAfterDone(events[1..]) <==> NothingAfterDone(events)
  {
    if NothingAfterDone(events[1..]) {
      forall i | 0 <= i < |events| - 1 ensures !IsDone(events[i]) {
        if i > 0 {
          assert events[1..][i - 1] == events[i];
        }
      }
    }
  }

  /** One more character completes at most one event. */
  lemma {:induction false} OneCharacter(buffer: string, c: char, current: SseEvent)
    requires '\n' !in buffer
    ensures |Drain(buffer + [c], current).events| <= 1
  {
    var s := buffer + [c];
    assert forall i :: 0 <= i < |buffer| ==> s[i] == buffer[i];
    if c == '\n' {
      assert s[|buffer|] == c && IndexOfIs(s, |buffer|);
      assert s[|buffer| + 1..] == "";
    } else {
      assert IndexOfIs(s, -1);
    }
  }

  predicate IndexOfIs(s: string, i: int) {
    Texts.IndexOf(s, '\n') == i
  }

  lemma {:induction false} FinishedOne(buffer: string, current: SseEvent)
    ensures |Finished(buffer, current).1| <= 1
  {
  }

  /** Fed character by character, a stream consumes exactly the events up to the done marker. */
  lemma {:induction false} CharactersConsume(buffer: string, current: SseEvent, chunks: seq<string>)
    requires '\n' !in buffer && forall i :: 0 <= i < |chunks| ==> |chunks[i]| == 1
    ensures ConsumedFrom(buffer, current, chunks) == UpToDone(Future(buffer, current, chunks))
    decreases |chunks|
  {
    if chunks == [] {
      FinishedOne(buffer, current);
      UpToDoneOfOne(Finished(buffer, current).1);
    } else {
      var d := Drain(buffer + chunks[0], current);
      assert chunks[0] == [chunks[0][0]];
      OneCharacter(buffer, chunks[0][0], current);
      CharactersConsume(d.buffer, d.current, chunks[1..]);
      UpToDoneConcat(d.events, Future(d.buffer, d.current, chunks[1..]));
    }
  }

  lemma {:induction false} UpToDoneOfOne(events: seq<SseEvent>)
    requires |events| <= 1
    ensures UpToDone(events) == events
  {
    if events != [] {
      assert events[1..] == [] && [events[0]] + [] == events;
    }
  }

  lemma {:induction false} UpToDoneConcat(now: seq<SseEvent>, later: seq<SseEvent>)
    requires |now| <= 1
    ensures UpToDone(now + later) == if HasDone(now) then now else now + UpToDone(later)
  {
    if now == [] {
      assert now + later == later && now + UpToDone(later) == UpToDone(later);
    } else {
      assert (now + later)[1..] == later && now == [now[0]];
    }
  }

  /** Every chunking of a text consumes all its events if and only if nothing follows the done marker. */
  lemma {:induction false} ChunkingIrrelevantIff(text: string)
    ensures (forall chunks :: Concat(chunks) == text ==> Consumed(chunks) == BatchDecode(text))
      <==> NothingAfterDone(BatchDecode(text))
  {
    if NothingAfterDone(BatchDecode(text)) {
      forall chunks | Concat(chunks) == text ensures Consumed(chunks) == BatchDecode(text) {
        FutureFromStart(chunks);
        ConsumesAll("", EMPTY, chunks);
      }
    } else {
      var chunks := Characters(text);
      CharactersConcat(text);
      FutureFromStart(chunks);
      CharactersConsume("", EMPTY, chunks);
      UpToDoneIff(BatchDecode(text));
    }
  }

  // ── What acknowledging costs ──

  /** The amount that acknowledging commits: the last usage, else the reserved amount of the directive. */
  function AckAmount<M>(codec: Codec<M>, events: seq<SseEvent>): Option<u64> {
    var usage, directive := LastUsage(codec, events, None), LastDirective(codec, events, None);
    if usage.Some? then usage else if directive.Some? then ParseU64(directive.value.amount) else None
  }

  /** The committed directive's amount is read back as exactly the last usage amount, or as the reserved amount. */
  lemma {:induction false} CommittedAmount<M>(codec: Codec<M>, chunks: seq<string>)
    requires AckOf(codec, Begin(chunks)).Ok?
    ensures ParseU64(AckOf(codec, Begin(chunks)).value.amount) == AckAmount(codec, Consumed(chunks))
  {
    var usage := LastUsage(codec, Consumed(chunks), None);
    StreamResult<M>(codec, chunks);
    if usage.Some? {
      ParseToText(usage.value);
    }
  }

  /** Acknowledging a stream and committing charges the session exactly that amount, or nothing at all. */
  lemma {:induction false} AckCharges<M>(
    codec: Codec<M>, chunks: seq<string>, session: SessionState, signature: Option<string>, receipt: Option<string>)
    requires AckOf(codec, Begin(chunks)).Ok?
    ensures var (after, r) := CommitDirective(session, AckOf(codec, Begin(chunks)).value, signature, receipt);
            var amount := AckAmount(codec, Consumed(chunks));
            && (r.Ok? ==> amount.Some? && amount.value > 0 && after.cumulative == session.cumulative + amount.value)
            && (r.Err? ==> after == session)
  {
    CommittedAmount<M>(codec, chunks);
    CommitExactly(session, AckOf(codec, Begin(chunks)).value, signature, receipt);
  }
}
