/** The incremental Server-Sent Events decoder and the batch decoder it must agree with. */
module Sse {
  import opened Common
  import opened Texts
  import opened Numbers

  datatype SseEvent = SseEvent(event: Option<string>, data: string, id: Option<string>, retry: Option<u64>)

  /** The event being collected; nothing collected yet when every field is empty. */
  const EMPTY: SseEvent := SseEvent(None, "", None, None)

  // ── Lines ──

  /** A complete line without its terminator: at most one carriage return is dropped. */
  function StripCr(line: string): string {
    if line != "" && line[|line| - 1] == '\r' then line[..|line| - 1] else line
  }

  function TrimCr(line: string): string {
    if line != "" && line[|line| - 1] == '\r' then TrimCr(line[..|line| - 1]) else line
  }

  function DispatchCurrent(current: SseEvent): (SseEvent, Option<SseEvent>) {
    if current == EMPTY then (EMPTY, None) else (EMPTY, Some(current))
  }

  /** The field name before the colon, and the value after it without one leading space. */
  function SplitField(line: string): (string, string) {
    var colon := IndexOf(line, ':');
    if colon < 0 then (line, "")
    else
      var raw := line[colon + 1..];
      (line[..colon], if raw != "" && raw[0] == ' ' then raw[1..] else raw)
  }

  function SetField(current: SseEvent, field: string, value: string): SseEvent {
    match field
    case "event" => current.(event := Some(value))
    case "data" => current.(data := (if current.data != "" then current.data + "\n" else "") + value)
    case "id" => current.(id := Some(value))
    case "retry" => current.(retry := ParseU64(value))
    case _ => current
  }

  function ProcessLine(current: SseEvent, line: string): (SseEvent, Option<SseEvent>) {
    if line == "" then DispatchCurrent(current)
    else if line[0] == ':' then (current, None)
    else
      var (field, value) := SplitField(line);
      (SetField(current, field, value), None)
  }

  // ── Draining a buffer ──

  datatype Decoded = Decoded(buffer: string, current: SseEvent, events: seq<SseEvent>)

  function Emitted(event: Option<SseEvent>): seq<SseEvent> {
    if event.Some? then [event.value] else []
  }

  /** Process every complete line of the buffer; keep the rest. */
  function Drain(buffer: string, current: SseEvent): (d: Decoded)
    ensures '\n' !in d.buffer
    decreases |buffer|
  {
    var index := IndexOf(buffer, '\n');
    if index < 0 then Decoded(buffer, current, [])
    else
      var (current', event) := ProcessLine(current, StripCr(buffer[..index]));
      var rest := Drain(buffer[index + 1..], current');
      Decoded(rest.buffer, rest.current, Emitted(event) + rest.events)
  }

  /** What is still to be drained completes `all` after the events already emitted. */
  ghost predicate DrainsTo(buffer: string, current: SseEvent, events: seq<SseEvent>, all: Decoded) {
    var d := Drain(buffer, current);
    all == Decoded(d.buffer, d.current, events + d.events)
  }

  lemma {:induction false} DrainsOn(
      buffer: string, current: SseEvent, events: seq<SseEvent>, event: Option<SseEvent>, before: Decoded, all: Decoded)
    requires before
      == Decoded(Drain(buffer, current).buffer, Drain(buffer, current).current, Emitted(event) + Drain(buffer, current).events)
    requires all == Decoded(before.buffer, before.current, events + before.events)
    ensures DrainsTo(buffer, current, events + Emitted(event), all)
  {
    var more := Drain(buffer, current).events;
    assert events + (Emitted(event) + more) == events + Emitted(event) + more;
  }

  lemma {:induction false} DrainsFromStart(buffer: string, current: SseEvent)
    ensures DrainsTo(buffer, current, [], Drain(buffer, current))
  {
    assert [] + Drain(buffer, current).events == Drain(buffer, current).events;
  }

  lemma {:induction false} DrainsToEnd(buffer: string, current: SseEvent, events: seq<SseEvent>, all: Decoded)
    requires DrainsTo(buffer, current, events, all) && IndexOf(buffer, '\n') < 0
    ensures all == Decoded(buffer, current, events)
  {
    assert events + [] == events;
  }

  function Finished(buffer: string, current: SseEvent): (SseEvent, seq<SseEvent>) {
    var (current', event) := if buffer != "" then ProcessLine(current, TrimCr(buffer)) else (current, None);
    var (last, final) := DispatchCurrent(current');
    (last, Emitted(event) + Emitted(final))
  }

  class SseDecoder {
    var buffer: string
    var current: SseEvent

    constructor ()
      ensures buffer == "" && current == EMPTY
    {
      buffer, current := "", EMPTY;
    }

    method PushChunk(chunk: string) returns (events: seq<SseEvent>)
      modifies this
      ensures Decoded(buffer, current, events) == Drain(old(buffer) + chunk, old(current))
    {
      buffer := buffer + chunk;
      events := [];
      ghost var all := Drain(buffer, current);
      var index := IndexOf(buffer, '\n');
      DrainsFromStart(buffer, current);
      while index >= 0
        invariant index == IndexOf(buffer, '\n')
        invariant DrainsTo(buffer, current, events, all)
        decreases |buffer|
      {
        ghost var before := Drain(buffer, current);
        var event := TakeLine(index);
        DrainsOn(buffer, current, events, event, before, all);
        if event.Some? {
          events := events + [event.value];
        } else {
          assert events + [] == events;
        }
        index := IndexOf(buffer, '\n');
      }
      DrainsToEnd(buffer, current, events, all);
    }

    /** Cut the first complete line off the buffer and process it. */
    method TakeLine(index: int) returns (event: Option<SseEvent>)
      requires index == IndexOf(buffer, '\n') && index >= 0
      modifies this
      ensures buffer == old(buffer)[index + 1..]
      ensures (current, event) == ProcessLine(old(current), StripCr(old(buffer)[..index]))
      ensures Drain(old(buffer), old(current)) ==
              Decoded(Drain(buffer, current).buffer, Drain(buffer, current).current, Emitted(event) + Drain(buffer, current).events)
    {
      var line := buffer[..index];
      buffer := buffer[index + 1..];
      if line != "" && line[|line| - 1] == '\r' {
        line := line[..|line| - 1];
      }
      event := ProcessOne(line);
    }

    /** Process one line: it changes the event being collected, or completes it. */
    method ProcessOne(line: string) returns (event: Option<SseEvent>)
      modifies this`current
      ensures (current, event) == ProcessLine(old(current), line)
    {
      var next := ProcessLine(current, line);
      current, event := next.0, next.1;
    }

    method Finish() returns (events: seq<SseEvent>)
      modifies this
      ensures buffer == ""
      ensures (current, events) == Finished(old(buffer), old(current))
    {
      events := [];
      ghost var first: Option<SseEvent> := None;
      if buffer != "" {
        var line := buffer;
        buffer := "";
        var event := ProcessOne(TrimCr(line));
        first := event;
        if event.Some? {
          events := events + [event.value];
        }
      }
      assert events == Emitted(first);
      var last := DispatchCurrent(current);
      current := last.0;
      if last.1.Some? {
        events := events + [last.1.value];
      }
      assert events == Emitted(first) + Emitted(last.1);
    }
  }

  // ── The batch decoder ──

  datatype Text = Text(lines: seq<string>, rest: string)

  /** The complete lines of a text and what follows the last newline. */
  function SplitLines(text: string): Text
    decreases |text|
  {
    var index := IndexOf(text, '\n');
    if index < 0 then Text([], text)
    else
      var more := SplitLines(text[index + 1..]);
      Text([text[..index]] + more.lines, more.rest)
  }

  function RunLines(current: SseEvent, lines: seq<string>): (SseEvent, seq<SseEvent>)
    decreases lines
  {
    if lines == [] then (current, [])
    else
      var (current', event) := ProcessLine(current, StripCr(lines[0]));
      var (last, events) := RunLines(current', lines[1..]);
      (last, Emitted(event) + events)
  }

  function BatchDecode(text: string): seq<SseEvent> {
    var split := SplitLines(text);
    var (current, events) := RunLines(EMPTY, split.lines);
    events + Finished(split.rest, current).1
  }

  // ── Chunk independence ──

  function Concat(chunks: seq<string>): string {
    if chunks == [] then "" else Concat(chunks[..|chunks| - 1]) + chunks[|chunks| - 1]
  }

  /** Feeding chunks one by one from a fresh decoder. */
  function PushAll(chunks: seq<string>): Decoded {
    if chunks == [] then Decoded("", EMPTY, [])
    else
      var before := PushAll(chunks[..|chunks| - 1]);
      var step := Drain(before.buffer + chunks[|chunks| - 1], before.current);
      Decoded(step.buffer, step.current, before.events + step.events)
  }

  lemma {:induction false} RunLinesConcat(current: SseEvent, a: seq<string>, b: seq<string>)
    ensures RunLines(current, a + b) ==
            var (middle, first) := RunLines(current, a);
            var (last, second) := RunLines(middle, b);
            (last, first + second)
    decreases a
  {
    if a == [] {
      assert a + b == b;
      assert [] + RunLines(current, b).1 == RunLines(current, b).1;
    } else {
      assert (a + b)[0] == a[0] && (a + b)[1..] == a[1..] + b;
      var (current', event) := ProcessLine(current, StripCr(a[0]));
      RunLinesConcat(current', a[1..], b);
      var (middle, first) := RunLines(current', a[1..]);
      var (last, second) := RunLines(middle, b);
      assert Emitted(event) + (first + second) == (Emitted(event) + first) + second;
    }
  }

  lemma {:induction false} RunLinesCons(current: SseEvent, line: string, lines: seq<string>)
    ensures var (next, event) := ProcessLine(current, StripCr(line));
      RunLines(current, [line] + lines) == (RunLines(next, lines).0, Emitted(event) + RunLines(next, lines).1)
  {
    assert ([line] + lines)[1..] == lines;
  }

  lemma {:induction false} DrainCons(buffer: string, current: SseEvent)
    requires '\n' in buffer
    ensures var index := IndexOf(buffer, '\n');
      var (next, event) := ProcessLine(current, StripCr(buffer[..index]));
      var rest := Drain(buffer[index + 1..], next);
      Drain(buffer, current) == Decoded(rest.buffer, rest.current, Emitted(event) + rest.events)
  {
  }

  lemma {:induction false} DrainIsRunLines(buffer: string, current: SseEvent)
    ensures var split := SplitLines(buffer);
            var (last, events) := RunLines(current, split.lines);
            Drain(buffer, current) == Decoded(split.rest, last, events)
    decreases |buffer|
  {
    if '\n' in buffer {
      var line, rest := buffer[..IndexOf(buffer, '\n')], buffer[IndexOf(buffer, '\n') + 1..];
      DrainCons(buffer, current);
      DrainIsRunLines(rest, ProcessLine(current, StripCr(line)).0);
      SplitLinesCons(buffer);
      RunLinesCons(current, line, SplitLines(rest).lines);
    }
  }

  lemma {:induction false} SplitLinesCons(text: string)
    requires '\n' in text
    ensures var index := IndexOf(text, '\n');
      var more := SplitLines(text[index + 1..]);
      SplitLines(text) == Text([text[..index]] + more.lines, more.rest)
  {
  }

  lemma {:induction false} IndexOfAppend(a: string, b: string, c: char)
    requires c in a
    ensures IndexOf(a + b, c) == IndexOf(a, c)
  {
    if a[0] == c {
      assert (a + b)[0] == c;
    } else {
      assert (a + b)[1..] == a[1..] + b;
      assert a == [a[0]] + a[1..];
      IndexOfAppend(a[1..], b, c);
    }
  }

  lemma {:induction false} SplitLinesConcat(a: string, b: string)
    ensures var first := SplitLines(a);
            var second := SplitLines(first.rest + b);
            SplitLines(a + b) == Text(first.lines + second.lines, second.rest)
    decreases |a|
  {
    if '\n' in a {
      var index := IndexOf(a, '\n');
      var tail := a[index + 1..];
      SplitLinesConcat(tail, b);
      SplitLinesAppend(a, b);
      SplitLinesCons(a);
      ConcatLines(a[..index], SplitLines(tail).lines, SplitLines(SplitLines(tail).rest + b).lines);
    } else {
      assert SplitLines(a) == Text([], a);
      assert [] + SplitLines(a + b).lines == SplitLines(a + b).lines;
    }
  }

  lemma {:induction false} ConcatLines(line: string, a: seq<string>, b: seq<string>)
    ensures [line] + (a + b) == [line] + a + b
  {
  }

  lemma {:induction false} SplitLinesAppend(a: string, b: string)
    requires '\n' in a
    ensures var tail := a[IndexOf(a, '\n') + 1..];
            SplitLines(a + b) == Text([a[..IndexOf(a, '\n')]] + SplitLines(tail + b).lines, SplitLines(tail + b).rest)
  {
    var index := IndexOf(a, '\n');
    IndexOfAppend(a, b, '\n');
    assert (a + b)[..index] == a[..index];
    assert (a + b)[index + 1..] == a[index + 1..] + b;
  }

  /** After any chunks the decoder stands where the concatenated text puts it. */
  lemma {:induction false} PushAllIsBatch(chunks: seq<string>)
    ensures var split := SplitLines(Concat(chunks));
            var (current, events) := RunLines(EMPTY, split.lines);
            PushAll(chunks) == Decoded(split.rest, current, events)
  {
    if chunks != [] {
      var init, last := chunks[..|chunks| - 1], chunks[|chunks| - 1];
      PushAllIsBatch(init);
      var before := PushAll(init);
      DrainIsRunLines(before.buffer + last, before.current);
      SplitLinesConcat(Concat(init), last);
      RunLinesConcat(EMPTY, SplitLines(Concat(init)).lines, SplitLines(before.buffer + last).lines);
    }
  }

  /** However a text is cut into chunks, pushing them and finishing yields the events of the batch decoder. */
  lemma {:induction false} ChunkIndependence(chunks: seq<string>)
    ensures var pushed := PushAll(chunks);
            && pushed.events + Finished(pushed.buffer, pushed.current).1 == BatchDecode(Concat(chunks))
            && '\n' !in pushed.buffer
  {
    PushAllIsBatch(chunks);
    SplitRestHasNoNewline(Concat(chunks));
  }

  lemma {:induction false} SplitRestHasNoNewline(text: string)
    ensures '\n' !in SplitLines(text).rest
    decreases |text|
  {
    var index := IndexOf(text, '\n');
    if index >= 0 { SplitRestHasNoNewline(text[index + 1..]); }
  }
}
