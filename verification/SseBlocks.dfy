/** What the event-stream decoder makes of a text: blocks of comments and fields, line by line. */
module SseBlocks {
  import opened Common
  import opened Texts
  import opened Numbers
  import opened Sse

  // ── Lines ──

  /** A line that is not blank: a comment, a field without a colon, or a field with a value that a space may precede. */
  datatype Entry = Comment(text: string) | Bare(name: string) | Tight(name: string, value: string) | Spaced(name: string, value: string)

  function LineOf(e: Entry): string {
    match e
    case Comment(text) => ":" + text
    case Bare(name) => name
    case Tight(name, value) => name + ":" + value
    case Spaced(name, value) => name + ": " + value
  }

  predicate IsEntry(e: Entry) {
    match e
    case Comment(_) => true
    case Bare(name) => name != "" && ':' !in name
    case Tight(name, value) => name != "" && ':' !in name && (value == "" || value[0] != ' ')
    case Spaced(name, _) => name != "" && ':' !in name
  }

  /** The entry can stand on a line of its own: no line break in it and no carriage return at its end. */
  predicate FitsLine(e: Entry) {
    IsEntry(e) && '\n' !in LineOf(e) && LineOf(e)[|LineOf(e)| - 1] != '\r'
  }

  /** Every line that is not blank is one of these. */
  lemma {:induction false} EveryLineIsEntry(line: string) returns (e: Entry)
    requires line != ""
    ensures IsEntry(e) && LineOf(e) == line
  {
    var colon := IndexOf(line, ':');
    if colon < 0 {
      e := Bare(line);
    } else if colon == 0 {
      e := Comment(line[1..]);
    } else {
      var name, value := line[..colon], line[colon + 1..];
      assert line == name + ":" + value;
      if value != "" && value[0] == ' ' {
        e := Spaced(name, value[1..]);
        assert name + ": " + value[1..] == name + ":" + value;
      } else {
        e := Tight(name, value);
      }
    }
  }

  // ── Blocks ──

  function NameOf(e: Entry): string {
    if e.Comment? then "" else e.name
  }

  function ValueOf(e: Entry): string {
    if e.Tight? || e.Spaced? then e.value else ""
  }

  /** The value of the last field with this name. */
  function LastOf(block: seq<Entry>, name: string): Option<string> {
    if block == [] then None
    else
      var last := block[|block| - 1];
      if NameOf(last) == name then Some(ValueOf(last)) else LastOf(block[..|block| - 1], name)
  }

  /** The data fields joined by line breaks; empty ones in front leave no trace. */
  function DataOf(block: seq<Entry>): string {
    if block == [] then ""
    else
      var before, last := DataOf(block[..|block| - 1]), block[|block| - 1];
      if NameOf(last) != "data" then before
      else if before == "" then ValueOf(last)
      else before + "\n" + ValueOf(last)
  }

  /** The last `retry` counts, and not at all when it is no number. */
  function EventOf(block: seq<Entry>): SseEvent {
    var retry := LastOf(block, "retry");
    SseEvent(LastOf(block, "event"), DataOf(block), LastOf(block, "id"), if retry.Some? then ParseU64(retry.value) else None)
  }

  /** A block that sets nothing is no event. */
  function EventsOf(block: seq<Entry>): seq<SseEvent> {
    var e := EventOf(block);
    if e.event.None? && e.data == "" && e.id.None? && e.retry.None? then [] else [e]
  }

  // ── Texts ──

  function Cr(crlf: bool): string {
    if crlf then "\r" else ""
  }

  /** The lines of a block, with or without the carriage returns. */
  function Raw(block: seq<Entry>, crlf: bool): seq<string> {
    seq(|block|, i requires 0 <= i < |block| => LineOf(block[i]) + Cr(crlf))
  }

  /** Blocks, each ended by a blank line. */
  function RawBlocks(blocks: seq<seq<Entry>>, crlf: bool): seq<string> {
    if blocks == [] then [] else Raw(blocks[0], crlf) + [Cr(crlf)] + RawBlocks(blocks[1..], crlf)
  }

  function Ended(lines: seq<string>): string {
    if lines == [] then "" else lines[0] + "\n" + Ended(lines[1..])
  }

  function AllEvents(blocks: seq<seq<Entry>>): seq<SseEvent> {
    if blocks == [] then [] else EventsOf(blocks[0]) + AllEvents(blocks[1..])
  }

  predicate AllFit(block: seq<Entry>) {
    forall i :: 0 <= i < |block| ==> FitsLine(block[i])
  }

  // ── One line ──

  lemma {:induction false} ColonIs(name: string, rest: string)
    requires ':' !in name
    ensures IndexOf(name + ":" + rest, ':') == |name|
  {
    var line := name + ":" + rest;
    assert line[|name|] == ':';
    assert forall j :: 0 <= j < |name| ==> line[j] == name[j];
  }

  lemma {:induction false} FieldParts(e: Entry)
    requires IsEntry(e) && !e.Comment?
    ensures LineOf(e) != "" && LineOf(e)[0] != ':'
    ensures SplitField(LineOf(e)) == (NameOf(e), ValueOf(e))
  {
    var line := LineOf(e);
    assert line[0] == e.name[0];
    if !e.Bare? {
      var raw := if e.Tight? then e.value else " " + e.value;
      assert line == e.name + ":" + raw;
      ColonIs(e.name, raw);
      assert line[..|e.name|] == e.name && line[|e.name| + 1..] == raw;
      assert e.Spaced? ==> raw[1..] == e.value;
    }
  }

  /** The event being collected after a field. */
  function After(current: SseEvent, name: string, value: string): SseEvent {
    if name == "event" then SseEvent(Some(value), current.data, current.id, current.retry)
    else if name == "data" then
      SseEvent(current.event, if current.data == "" then value else current.data + "\n" + value, current.id, current.retry)
    else if name == "id" then SseEvent(current.event, current.data, Some(value), current.retry)
    else if name == "retry" then SseEvent(current.event, current.data, current.id, ParseU64(value))
    else current
  }

  lemma {:induction false} SetIsAfter(current: SseEvent, name: string, value: string)
    ensures SetField(current, name, value) == After(current, name, value)
  {
    assert "" + value == value;
  }

  lemma {:induction false} FieldLine(current: SseEvent, e: Entry)
    requires IsEntry(e) && !e.Comment?
    ensures ProcessLine(current, LineOf(e)) == (After(current, NameOf(e), ValueOf(e)), None)
  {
    FieldParts(e);
    SetIsAfter(current, NameOf(e), ValueOf(e));
  }

  lemma {:induction false} EntryLine(block: seq<Entry>, e: Entry)
    requires IsEntry(e)
    ensures ProcessLine(EventOf(block), LineOf(e)) == (EventOf(block + [e]), None)
  {
    assert (block + [e])[..|block|] == block;
    if !e.Comment? {
      FieldLine(EventOf(block), e);
    }
  }

  lemma {:induction false} Stripped(e: Entry, crlf: bool)
    requires FitsLine(e)
    ensures StripCr(LineOf(e) + Cr(crlf)) == LineOf(e)
    ensures TrimCr(LineOf(e) + Cr(crlf)) == LineOf(e)
  {
    var line := LineOf(e);
    assert TrimCr(line) == line;
    assert (line + "\r")[..|line|] == line;
    assert line + "" == line;
  }

  // ── One block ──

  lemma {:induction false} RunOne(current: SseEvent, line: string)
    ensures RunLines(current, [line]) == (ProcessLine(current, StripCr(line)).0, Emitted(ProcessLine(current, StripCr(line)).1))
  {
    assert [line][1..] == [];
    var (next, event) := ProcessLine(current, StripCr(line));
    assert RunLines(next, []) == (next, []);
    assert Emitted(event) + [] == Emitted(event);
  }

  lemma {:induction false} BlockLines(block: seq<Entry>, crlf: bool)
    requires AllFit(block)
    ensures RunLines(EMPTY, Raw(block, crlf)) == (EventOf(block), [])
    decreases block
  {
    if block != [] {
      var init, e := block[..|block| - 1], block[|block| - 1];
      assert init + [e] == block;
      BlockLines(init, crlf);
      BlockStep(init, e, crlf);
    }
  }

  lemma {:induction false} BlockStep(block: seq<Entry>, e: Entry, crlf: bool)
    requires FitsLine(e) && RunLines(EMPTY, Raw(block, crlf)) == (EventOf(block), [])
    ensures RunLines(EMPTY, Raw(block + [e], crlf)) == (EventOf(block + [e]), [])
  {
    var line := LineOf(e) + Cr(crlf);
    RawSnoc(block, e, crlf);
    Stripped(e, crlf);
    EntryLine(block, e);
    RunAfter(EMPTY, Raw(block, crlf), line, EventOf(block), []);
    assert [] + Emitted(None) == [];
  }

  lemma {:induction false} RawSnoc(block: seq<Entry>, e: Entry, crlf: bool)
    ensures Raw(block + [e], crlf) == Raw(block, crlf) + [LineOf(e) + Cr(crlf)]
  {
  }

  /** One more line after others. */
  lemma {:induction false} RunAfter(current: SseEvent, lines: seq<string>, line: string, middle: SseEvent, events: seq<SseEvent>)
    requires RunLines(current, lines) == (middle, events)
    ensures var (last, event) := ProcessLine(middle, StripCr(line));
      RunLines(current, lines + [line]) == (last, events + Emitted(event))
  {
    RunLinesConcat(current, lines, [line]);
    RunOne(middle, line);
  }

  lemma {:induction false} BlankStripped(crlf: bool)
    ensures StripCr(Cr(crlf)) == ""
  {
  }

  lemma {:induction false} WholeBlock(block: seq<Entry>, crlf: bool)
    requires AllFit(block)
    ensures RunLines(EMPTY, Raw(block, crlf) + [Cr(crlf)]) == (EMPTY, EventsOf(block))
  {
    BlockLines(block, crlf);
    BlankStripped(crlf);
    RunAfter(EMPTY, Raw(block, crlf), Cr(crlf), EventOf(block), []);
    assert [] + EventsOf(block) == EventsOf(block);
  }

  lemma {:induction false} WholeBlocks(blocks: seq<seq<Entry>>, crlf: bool)
    requires forall k :: 0 <= k < |blocks| ==> AllFit(blocks[k])
    ensures RunLines(EMPTY, RawBlocks(blocks, crlf)) == (EMPTY, AllEvents(blocks))
    decreases blocks
  {
    if blocks != [] {
      WholeBlock(blocks[0], crlf);
      WholeBlocks(blocks[1..], crlf);
      RunLinesConcat(EMPTY, Raw(blocks[0], crlf) + [Cr(crlf)], RawBlocks(blocks[1..], crlf));
    }
  }

  // ── Whole texts ──

  lemma {:induction false} FirstLine(line: string, rest: string)
    requires '\n' !in line
    ensures IndexOf(line + "\n" + rest, '\n') == |line|
  {
    var text := line + "\n" + rest;
    assert text[|line|] == '\n';
    assert forall j :: 0 <= j < |line| ==> text[j] == line[j];
  }

  lemma {:induction false} SplitEnded(lines: seq<string>, rest: string)
    requires '\n' !in rest && forall k :: 0 <= k < |lines| ==> '\n' !in lines[k]
    ensures SplitLines(Ended(lines) + rest) == Text(lines, rest)
    decreases lines
  {
    if lines == [] {
      assert Ended(lines) + rest == rest;
    } else {
      var line, more := lines[0], Ended(lines[1..]) + rest;
      var text := line + "\n" + more;
      assert Ended(lines) + rest == text;
      FirstLine(line, more);
      assert text[..|line|] == line && text[|line| + 1..] == more;
      SplitEnded(lines[1..], rest);
      assert [line] + lines[1..] == lines;
    }
  }

  lemma {:induction false} RawHasNoBreak(block: seq<Entry>, crlf: bool)
    requires AllFit(block)
    ensures forall k :: 0 <= k < |Raw(block, crlf)| ==> '\n' !in Raw(block, crlf)[k]
  {
  }

  lemma {:induction false} BlocksHaveNoBreak(blocks: seq<seq<Entry>>, crlf: bool)
    requires forall k :: 0 <= k < |blocks| ==> AllFit(blocks[k])
    ensures forall k :: 0 <= k < |RawBlocks(blocks, crlf)| ==> '\n' !in RawBlocks(blocks, crlf)[k]
    decreases blocks
  {
    if blocks != [] {
      RawHasNoBreak(blocks[0], crlf);
      BlocksHaveNoBreak(blocks[1..], crlf);
    }
  }

  /** The last line of a text may lack its line break. */
  function Unfinished(last: Option<Entry>, crlf: bool): string {
    if last.Some? then LineOf(last.value) + Cr(crlf) else ""
  }

  function Appended(block: seq<Entry>, last: Option<Entry>): seq<Entry> {
    if last.Some? then block + [last.value] else block
  }

  lemma {:induction false} FinishedBlock(block: seq<Entry>, last: Option<Entry>, crlf: bool)
    requires last.Some? ==> FitsLine(last.value)
    ensures Finished(Unfinished(last, crlf), EventOf(block)).1 == EventsOf(Appended(block, last))
  {
    if last.Some? {
      Stripped(last.value, crlf);
      EntryLine(block, last.value);
    }
  }

  /**
   Every text of blocks decodes to the events of its blocks, in order: the data fields of a block joined by line breaks,
   its last event name, id and retry. The last block may lack its blank line, and its last line the line break.
   */
  lemma {:induction false} BlocksDecode(blocks: seq<seq<Entry>>, tail: seq<Entry>, last: Option<Entry>, crlf: bool)
    requires (forall k :: 0 <= k < |blocks| ==> AllFit(blocks[k])) && AllFit(tail) && (last.Some? ==> FitsLine(last.value))
    ensures BatchDecode(Ended(RawBlocks(blocks, crlf) + Raw(tail, crlf)) + Unfinished(last, crlf))
      == AllEvents(blocks) + EventsOf(Appended(tail, last))
  {
    var lines := RawBlocks(blocks, crlf) + Raw(tail, crlf);
    BlocksHaveNoBreak(blocks, crlf);
    RawHasNoBreak(tail, crlf);
    SplitEnded(lines, Unfinished(last, crlf));
    WholeBlocks(blocks, crlf);
    BlockLines(tail, crlf);
    RunLinesConcat(EMPTY, RawBlocks(blocks, crlf), Raw(tail, crlf));
    FinishedBlock(tail, last, crlf);
    assert AllEvents(blocks) + [] == AllEvents(blocks);
  }
}
