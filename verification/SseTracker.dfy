/** Reading server-sent events from a body that arrives in chunks cut anywhere. */
module SseTracker {
  import opened JsMaps
  import Strings

  // ----- Lines -----

  function Chomp(line: string): string {
    if line != "" && line[|line| - 1] == '\r' then line[..|line| - 1] else line
  }

  /** The first line feed, or the length of the text. */
  function FirstBreak(text: string): (i: nat)
    ensures i <= |text| && (forall j :: 0 <= j < i ==> text[j] != '\n') && (i < |text| ==> text[i] == '\n')
  {
    if text == "" || text[0] == '\n' then 0 else 1 + FirstBreak(text[1..])
  }

  /** The complete lines of a text, and what follows the last line break. */
  datatype Pieces = Pieces(lines: seq<string>, rest: string)

  /** `text.split(/\r?\n/)` with its last piece taken off: a carriage return belongs to the break
      only right before a line feed. */
  function Split(text: string): Pieces
    decreases |text|
  {
    var i := FirstBreak(text);
    if i == |text| then Pieces([], text)
    else
      var tail := Split(text[i + 1..]);
      Pieces([Chomp(text[..i])] + tail.lines, tail.rest)
  }

  lemma {:induction false} BreakOfConcat(a: string, b: string)
    ensures FirstBreak(a) < |a| ==> FirstBreak(a + b) == FirstBreak(a)
    decreases |a|
  {
    if a != "" && a[0] != '\n' {
      assert (a + b)[1..] == a[1..] + b;
      BreakOfConcat(a[1..], b);
    }
  }

  lemma SlicesOfConcat(a: string, b: string, i: nat)
    requires i < |a|
    ensures (a + b)[..i] == a[..i] && (a + b)[i + 1..] == a[i + 1..] + b
  {
  }

  lemma LinesAssociate(line: string, a: seq<string>, b: seq<string>)
    ensures [line] + (a + b) == ([line] + a) + b
  {
  }

  lemma SplitFirst(text: string, line: string, rest: string)
    requires FirstBreak(text) < |text| && line == text[..FirstBreak(text)] && rest == text[FirstBreak(text) + 1..]
    ensures Split(text) == Pieces([Chomp(line)] + Split(rest).lines, Split(rest).rest)
  {
  }

  /** Splitting a text that arrives in two parts: what the first part leaves unfinished is put in
      front of the second. A carriage return cut from its line feed is unfinished. */
  lemma {:induction false} SplitConcat(a: string, b: string)
    ensures Split(a + b).lines == Split(a).lines + Split(Split(a).rest + b).lines
    ensures Split(a + b).rest == Split(Split(a).rest + b).rest
    decreases |a|
  {
    var i := FirstBreak(a);
    if i == |a| {
      assert Split(a) == Pieces([], a);
    } else {
      var line, rest := a[..i], a[i + 1..];
      BreakOfConcat(a, b);
      SlicesOfConcat(a, b, i);
      SplitFirst(a, line, rest);
      SplitFirst(a + b, line, rest + b);
      SplitConcat(rest, b);
      LinesAssociate(Chomp(line), Split(rest).lines, Split(Split(rest).rest + b).lines);
    }
  }

  /** The text again, from its lines and the breaks after them. */
  function Written(lines: seq<string>, breaks: seq<string>, rest: string): string
    requires |breaks| == |lines|
  {
    if lines == [] then rest else lines[0] + breaks[0] + Written(lines[1..], breaks[1..], rest)
  }

  predicate Unbroken(line: string) {
    forall i :: 0 <= i < |line| ==> line[i] != '\n'
  }

  /** A break is a line feed, with the carriage return before it if there is one. */
  predicate BreaksAfter(line: string, b: string) {
    Unbroken(line) && if b == "\n" then line == "" || line[|line| - 1] != '\r' else b == "\r\n"
  }

  lemma ChompIs(line: string)
    requires Unbroken(line)
    ensures exists b :: BreaksAfter(Chomp(line), b) && Chomp(line) + b == line + "\n"
  {
    if line != "" && line[|line| - 1] == '\r' {
      assert Chomp(line) + "\r\n" == line + "\n";
      assert BreaksAfter(Chomp(line), "\r\n");
    } else {
      assert BreaksAfter(Chomp(line), "\n");
    }
  }

  lemma WrittenCons(line: string, b: string, lines: seq<string>, breaks: seq<string>, rest: string)
    requires |breaks| == |lines|
    ensures Written([line] + lines, [b] + breaks, rest) == line + b + Written(lines, breaks, rest)
  {
    assert ([line] + lines)[1..] == lines && ([b] + breaks)[1..] == breaks;
  }

  lemma CutAt(text: string, i: nat)
    requires i < |text| && text[i] == '\n'
    ensures text == text[..i] + "\n" + text[i + 1..]
  {
  }

  /** Splitting cuts a text at its line breaks, and nowhere else, and loses nothing. */
  lemma {:induction false} SplitCuts(text: string) returns (breaks: seq<string>)
    ensures var p := Split(text);
      && |breaks| == |p.lines| && Written(p.lines, breaks, p.rest) == text && Unbroken(p.rest)
      && forall i :: 0 <= i < |breaks| ==> BreaksAfter(p.lines[i], breaks[i])
    decreases |text|
  {
    var i := FirstBreak(text);
    breaks := [];
    if i < |text| {
      var line, rest := text[..i], text[i + 1..];
      SplitFirst(text, line, rest);
      var tail := SplitCuts(rest);
      hide Split, Written, Chomp, BreaksAfter;
      ChompIs(line);
      var b :| BreaksAfter(Chomp(line), b) && Chomp(line) + b == line + "\n";
      breaks := [b] + tail;
      WrittenCons(Chomp(line), b, Split(rest).lines, tail, Split(rest).rest);
      CutAt(text, i);
    }
  }

  // ----- Events -----

  datatype Payload = Payload(kind: Option<string>, status: Option<string>, message: Option<string>)

  datatype Tracked = Tracked(pendingId: Option<string>, pendingData: Option<string>, events: nat, lastEvent: Option<string>,
                             lastId: Option<string>, turnStatus: Option<string>, turnError: Option<string>, turnDone: bool)

  const UNTRACKED := Tracked(None, None, 0, None, None, None, None, false)

  /** Counts the event and takes over what it says about the turn. */
  function Record(t: Tracked, id: Option<string>, p: Payload): Tracked {
    var kind := p.kind.Or(Some("message")).value;
    var about := kind == "turn.done" || kind == "turn.update";
    t.(events := t.events + 1, lastEvent := Some(kind), lastId := id.Or(t.lastId),
       turnDone := t.turnDone || kind == "turn.done",
       turnStatus := if about then p.status.Or(t.turnStatus) else t.turnStatus,
       turnError := if about then p.message.Or(t.turnError) else t.turnError,
       pendingId := None, pendingData := None)
  }

  function PayloadOf(read: string -> Payload, data: Option<string>): Payload {
    if data.None? then Payload(None, None, None) else read(data.value)
  }

  function Dispatch(read: string -> Payload, t: Tracked): Tracked {
    if t.pendingId.None? && t.pendingData.None? then t
    else Record(t, t.pendingId, PayloadOf(read, t.pendingData))
  }

  function JoinData(data: Option<string>, more: string): string {
    if data.None? then more else data.value + "\n" + more
  }

  function ReadLine(read: string -> Payload, t: Tracked, line: string): Tracked {
    if line == "" then Dispatch(read, t)
    else if "id:" <= line then t.(pendingId := Some(Strings.Trim(line[3..])))
    else if "data:" <= line then t.(pendingData := Some(JoinData(t.pendingData, Strings.Trim(line[5..]))))
    else t
  }

  function ReadLines(read: string -> Payload, t: Tracked, lines: seq<string>): Tracked {
    if lines == [] then t else ReadLine(read, ReadLines(read, t, lines[..|lines| - 1]), lines[|lines| - 1])
  }

  lemma {:induction false} ReadLinesConcat(read: string -> Payload, t: Tracked, a: seq<string>, b: seq<string>)
    ensures ReadLines(read, t, a + b) == ReadLines(read, ReadLines(read, t, a), b)
    decreases b
  {
    if b == [] {
      assert a + b == a;
    } else {
      ReadLinesConcat(read, t, a, b[..|b| - 1]);
      assert (a + b)[..|a + b| - 1] == a + b[..|b| - 1];
    }
  }

  // ----- Chunks -----

  function Concat(chunks: seq<string>): string {
    if chunks == [] then "" else Concat(chunks[..|chunks| - 1]) + chunks[|chunks| - 1]
  }

  lemma ChunkAdds(read: string -> Payload, before: string, chunk: string)
    ensures var more := Split(Split(before).rest + chunk);
      && Split(before + chunk).rest == more.rest
      && ReadLines(read, UNTRACKED, Split(before + chunk).lines)
        == ReadLines(read, ReadLines(read, UNTRACKED, Split(before).lines), more.lines)
  {
    SplitConcat(before, chunk);
    ReadLinesConcat(read, UNTRACKED, Split(before).lines, Split(Split(before).rest + chunk).lines);
  }

  class Tracker {
    const read: string -> Payload
    var lineBuffer: string
    var tracked: Tracked

    constructor (read: string -> Payload)
      ensures this.read == read && lineBuffer == "" && tracked == UNTRACKED
    {
      this.read, lineBuffer, tracked := read, "", UNTRACKED;
    }

    /** The tracker has read exactly `text`, in whatever pieces. */
    ghost predicate HasRead(text: string)
      reads this
    {
      lineBuffer == Split(text).rest && tracked == ReadLines(read, UNTRACKED, Split(text).lines)
    }

    method ReadComplete(lines: seq<string>)
      modifies this`tracked
      ensures tracked == ReadLines(read, old(tracked), lines)
    {
      for i := 0 to |lines|
        invariant tracked == ReadLines(read, old(tracked), lines[..i])
      {
        assert lines[..i + 1][..i] == lines[..i];
        tracked := ReadLine(read, tracked, lines[i]);
      }
      assert lines[..|lines|] == lines;
    }

    /** Splits what is buffered and new, keeps the unfinished last line, reads the others. */
    method OnChunk(chunk: string, ghost before: string)
      requires HasRead(before)
      modifies this
      ensures HasRead(before + chunk)
    {
      ChunkAdds(read, before, chunk);
      var pieces := Split(lineBuffer + chunk);
      lineBuffer := pieces.rest;
      ReadComplete(pieces.lines);
    }

    /** Every way of cutting the text into chunks leads to the same state. */
    method OnChunks(chunks: seq<string>)
      requires HasRead("")
      modifies this
      ensures HasRead(Concat(chunks))
    {
      for i := 0 to |chunks|
        invariant HasRead(Concat(chunks[..i]))
      {
        assert chunks[..i + 1][..i] == chunks[..i];
        OnChunk(chunks[i], Concat(chunks[..i]));
      }
      assert chunks[..|chunks|] == chunks;
    }
  }

  // ----- What the lines mean -----

  /** The value of a block's last id line, if any. */
  function IdOf(block: seq<string>): Option<string> {
    if block == [] then None
    else
      var line := block[|block| - 1];
      if "id:" <= line then Some(Strings.Trim(line[3..])) else IdOf(block[..|block| - 1])
  }

  /** The values of a block's data lines, in order. */
  function DataLines(block: seq<string>): seq<string> {
    if block == [] then []
    else
      var line := block[|block| - 1];
      DataLines(block[..|block| - 1]) + if "data:" <= line then [Strings.Trim(line[5..])] else []
  }

  function Joined(lines: seq<string>): string
    requires lines != []
  {
    if |lines| == 1 then lines[0] else Joined(lines[..|lines| - 1]) + "\n" + lines[|lines| - 1]
  }

  function DataOf(block: seq<string>): Option<string> {
    if DataLines(block) == [] then None else Some(Joined(DataLines(block)))
  }

  lemma DataOfMore(block: seq<string>)
    requires block != []
    ensures var before, line := DataOf(block[..|block| - 1]), block[|block| - 1];
      DataOf(block) == if "data:" <= line then Some(JoinData(before, Strings.Trim(line[5..]))) else before
  {
    var front, line := block[..|block| - 1], block[|block| - 1];
    if "data:" <= line {
      var lines := DataLines(front);
      assert DataLines(block) == lines + [Strings.Trim(line[5..])];
      assert DataLines(block)[..|lines|] == lines;
    } else {
      assert DataLines(block) == DataLines(front);
    }
  }

  lemma {:induction false} BlockPending(read: string -> Payload, t: Tracked, block: seq<string>)
    requires t.pendingId.None? && t.pendingData.None? && "" !in block
    ensures ReadLines(read, t, block) == t.(pendingId := IdOf(block), pendingData := DataOf(block))
    decreases block
  {
    if block != [] {
      var line := block[|block| - 1];
      BlockPending(read, t, block[..|block| - 1]);
      DataOfMore(block);
      hide DataOf;
      assert line in block;
      assert !("id:" <= line && "data:" <= line) by {
        if "id:" <= line {
          assert line[0] == "id:"[0] == 'i';
        }
        if "data:" <= line {
          assert line[0] == "data:"[0] == 'd';
        }
      }
    }
  }

  /** A block of lines closed by a blank line is one event, with the block's id and data, or none
      when it has neither. */
  lemma BlockIsOneEvent(read: string -> Payload, t: Tracked, block: seq<string>)
    requires t.pendingId.None? && t.pendingData.None? && "" !in block
    ensures ReadLines(read, t, block + [""])
      == if IdOf(block).None? && DataOf(block).None? then t else Record(t, IdOf(block), PayloadOf(read, DataOf(block)))
  {
    BlockPending(read, t, block);
    assert (block + [""])[..|block|] == block;
  }

  // ----- What is known of the turn -----

  /** An event as it was dispatched. */
  datatype Dispatched = Dispatched(id: Option<string>, payload: Payload)

  function RecordAll(t: Tracked, events: seq<Dispatched>): Tracked {
    if events == [] then t
    else
      var last := events[|events| - 1];
      Record(RecordAll(t, events[..|events| - 1]), last.id, last.payload)
  }

  function KindOf(e: Dispatched): string {
    if e.payload.kind.Some? then e.payload.kind.value else "message"
  }

  predicate IsAboutTurn(e: Dispatched) {
    KindOf(e) == "turn.done" || KindOf(e) == "turn.update"
  }

  /** The last of the values that the events give, by whatever `says` reads in each. */
  function LastSaid(events: seq<Dispatched>, says: Dispatched -> Option<string>): Option<string> {
    if events == [] then None
    else if says(events[|events| - 1]).Some? then says(events[|events| - 1])
    else LastSaid(events[..|events| - 1], says)
  }

  /** After any events: how many there were, the kind of the last, the last id that any had, whether the
      turn is done, and the last status and message that an event about the turn gave. */
  lemma {:induction false} EventsTell(events: seq<Dispatched>)
    ensures var t := RecordAll(UNTRACKED, events);
      && t.events == |events|
      && (events != [] ==> t.lastEvent == Some(KindOf(events[|events| - 1])))
      && t.lastId == LastSaid(events, (e: Dispatched) => e.id)
      && (t.turnDone <==> exists i :: 0 <= i < |events| && KindOf(events[i]) == "turn.done")
      && t.turnStatus == LastSaid(events, (e: Dispatched) => if IsAboutTurn(e) then e.payload.status else None)
      && t.turnError == LastSaid(events, (e: Dispatched) => if IsAboutTurn(e) then e.payload.message else None)
    decreases events
  {
    if events != [] {
      var front, last := events[..|events| - 1], events[|events| - 1];
      EventsTell(front);
      assert forall i :: 0 <= i < |front| ==> front[i] == events[i];
    }
  }

  /** Blocks of lines, each closed by a blank line. */
  function Closed(blocks: seq<seq<string>>): seq<string> {
    if blocks == [] then [] else Closed(blocks[..|blocks| - 1]) + (blocks[|blocks| - 1] + [""])
  }

  /** The events of those blocks: one for each that has an id or data. */
  function EventsOf(read: string -> Payload, blocks: seq<seq<string>>): seq<Dispatched> {
    if blocks == [] then []
    else
      var last := blocks[|blocks| - 1];
      EventsOf(read, blocks[..|blocks| - 1])
      + if IdOf(last).None? && DataOf(last).None? then []
        else [Dispatched(IdOf(last), if DataOf(last).Some? then read(DataOf(last).value) else Payload(None, None, None))]
  }

  lemma RecordAllMore(t: Tracked, events: seq<Dispatched>, e: Dispatched)
    ensures RecordAll(t, events + [e]) == Record(RecordAll(t, events), e.id, e.payload)
    ensures var after := Record(RecordAll(t, events), e.id, e.payload); after.pendingId.None? && after.pendingData.None?
  {
    assert (events + [e])[..|events|] == events;
  }

  /** Reading the lines is recording the events of their blocks. */
  lemma {:induction false} BlocksAreEvents(read: string -> Payload, blocks: seq<seq<string>>)
    requires forall i :: 0 <= i < |blocks| ==> "" !in blocks[i]
    ensures var t := ReadLines(read, UNTRACKED, Closed(blocks));
      t == RecordAll(UNTRACKED, EventsOf(read, blocks)) && t.pendingId.None? && t.pendingData.None?
    decreases blocks
  {
    if blocks != [] {
      var front, last := blocks[..|blocks| - 1], blocks[|blocks| - 1];
      BlocksAreEvents(read, front);
      ReadLinesConcat(read, UNTRACKED, Closed(front), last + [""]);
      BlockIsOneEvent(read, ReadLines(read, UNTRACKED, Closed(front)), last);
      RecordAllMore(UNTRACKED, EventsOf(read, front), Dispatched(IdOf(last), PayloadOf(read, DataOf(last))));
      assert EventsOf(read, front) + [] == EventsOf(read, front);
      hide ReadLines, IdOf, DataOf, PayloadOf, Record, RecordAll;
    }
  }
}
