/** The parts a thread's bucket is rendered to, and why live and reloaded buckets render alike. */
module Rendering {
  import opened JsMaps
  import Compaction
  import Deltas
  import Events
  import Fold
  import Strings
  import TimeOrder

  /** `asked` is the question text an open ask-user call shows, and `index` counts a message's images. */
  datatype Part =
    | CompactionPart(started: Id, status: CompactionStatus)
    | ReasoningPart(text: string)
    | TextPart(text: string)
    | ImagePart(url: string, index: nat)
    | ToolPart(call: Id, name: string, args: string, result: Option<Events.Result>, isError: bool,
               approved: Option<Option<bool>>, reason: Option<string>, asked: Option<Option<string>>)

  datatype CompactionStatus = Compacted(finished: Id) | Stopped | Broken | Compacting

  /** How and when the turn being built has ended, if it has. */
  datatype ParentTerminal = ParentCancelled | ParentFailed
  datatype Parent = Parent(terminal: Option<ParentTerminal>, settled: Option<int>)

  // ----- One message -----

  /** An answer hides the question; a decision replaces the pending approval; a denial is the
      result of a call that has none. */
  function ToolCallToPart(b: Fold.Bucket, call: Deltas.ToolCall): Part {
    var result := if call.id in b.results then Some(Events.ResultText(b.results[call.id])) else None;
    var decision := if call.id in b.decisions then Some(b.decisions[call.id]) else None;
    var denied := result.None? && decision.Some? && !decision.value.approved;
    ToolPart(
      call.id, call.name, call.args,
      if denied then Some(Events.ResultError(DenialText(decision.value))) else result,
      denied,
      if decision.Some? then Some(Some(decision.value.approved)) else if call.id in b.approvals then Some(None) else None,
      if decision.Some? then decision.value.reason else None,
      if call.id in b.questions && result.None? then Some(b.questions[call.id].asked) else None)
  }

  function DenialText(d: Events.Decision): string {
    if Deltas.Truthy(d.reason) then d.reason.value else "Tool approval denied"
  }

  function JoinText(blocks: seq<Deltas.Block>): string {
    if blocks == [] then ""
    else
      (match blocks[0]
       case TextBlock(text) => text
       case RefusalBlock(refusal) => refusal
       case ImageBlock(_) => "")
      + JoinText(blocks[1..])
  }

  function ExtractText(m: Deltas.Message): string {
    match m.content
    case Absent => Deltas.Given(m.refusal)
    case Text(text) => text
    case Blocks(blocks) => JoinText(blocks)
  }

  /** Blocks that still have a URL once it is trimmed, numbered from `index` on. */
  function ImagesFrom(blocks: seq<Deltas.Block>, index: nat): seq<Part>
    decreases blocks
  {
    if blocks == [] then []
    else if blocks[0].ImageBlock? && Strings.Trim(blocks[0].url) != "" then
      [ImagePart(Strings.Trim(blocks[0].url), index)] + ImagesFrom(blocks[1..], index + 1)
    else ImagesFrom(blocks[1..], index)
  }

  function ToolParts(b: Fold.Bucket, calls: Deltas.Calls): seq<Part> {
    if calls == [] then []
    else (if calls[0].Some? then [ToolCallToPart(b, calls[0].value)] else []) + ToolParts(b, calls[1..])
  }

  function BuildAssistantContent(b: Fold.Bucket, m: Deltas.Message): seq<Part> {
    (if Deltas.Truthy(m.reasoning) then [ReasoningPart(m.reasoning.value)] else [])
    + (if ExtractText(m) != "" then [TextPart(ExtractText(m))] else [])
    + ImagesFrom(Deltas.NormalizedBlocks(m.content), 0)
    + ToolParts(b, Deltas.CallList(m))
  }

  // ----- One thread -----

  function Entries(b: Fold.Bucket): seq<TimeOrder.Entry>
    requires b.events.Valid()
  {
    seq(|b.events.keys|, i requires 0 <= i < |b.events.keys| => TimeOrder.Entry(b.events.keys[i], b.events.vals[b.events.keys[i]]))
  }

  /** The noise that a cancel leaves on a child thread. No letter outside ASCII becomes one of these
      in lower case. */
  predicate AbortShaped(message: string) {
    Strings.Contains(Strings.Lower(message), "stream aborted") || Strings.Contains(Strings.Lower(message), "aborterror")
  }

  /** The thread was still at work, or stopped by the cancel, when its turn was cancelled. */
  predicate CancelledIn(b: Fold.Bucket, parent: Parent) {
    parent.terminal == Some(ParentCancelled) && (!b.done || (b.error.Some? && AbortShaped(b.error.value)))
  }

  /** A compaction without its finish is at work only while its thread and turn are. */
  function StatusOf(b: Fold.Bucket, parent: Parent, finished: Option<Id>): CompactionStatus {
    if finished.Some? then Compacted(finished.value)
    else if CancelledIn(b, parent) then Stopped
    else if b.error.Some? || (!b.done && parent.terminal == Some(ParentFailed)) then Broken
    else Compacting
  }

  /** `scope` restricts the root thread to some of its messages; `models` are the messages shown. */
  function PartsOf(b: Fold.Bucket, order: seq<TimeOrder.Entry>, e: TimeOrder.Entry, scope: Option<set<Id>>,
                   models: set<Id>, parent: Parent): seq<Part> {
    match e.event.body
    case CompactionStarted =>
      if Compaction.ShouldIncludeStarted(order, e.id, e.event.at, scope, parent.settled)
      then [CompactionPart(e.id, StatusOf(b, parent, Compaction.FinishedForStarted(order, e.id)))] else []
    case ModelMessage(message) => if e.id in models then BuildAssistantContent(b, message) else []
    case _ => []
  }

  function Walk(b: Fold.Bucket, order: seq<TimeOrder.Entry>, entries: seq<TimeOrder.Entry>, scope: Option<set<Id>>,
                models: set<Id>, parent: Parent): seq<Part> {
    if entries == [] then []
    else
      Walk(b, order, entries[..|entries| - 1], scope, models, parent)
      + PartsOf(b, order, entries[|entries| - 1], scope, models, parent)
  }

  // ----- One part per tool call -----

  function IndexOf(parts: seq<Part>, call: Id): Option<nat> {
    if parts == [] then None
    else if parts[|parts| - 1].ToolPart? && parts[|parts| - 1].call == call then Some(|parts| - 1)
    else IndexOf(parts[..|parts| - 1], call)
  }

  lemma {:induction false} IndexOfExact(parts: seq<Part>, call: Id)
    ensures var i := IndexOf(parts, call);
      if i.Some? then i.value < |parts| && parts[i.value].ToolPart? && parts[i.value].call == call
      else forall j :: 0 <= j < |parts| ==> !(parts[j].ToolPart? && parts[j].call == call)
    decreases parts
  {
    if parts != [] {
      IndexOfExact(parts[..|parts| - 1], call);
    }
  }

  /** A repeated tool call takes the place of its first occurrence. */
  function Push(parts: seq<Part>, p: Part): seq<Part> {
    if !p.ToolPart? || IndexOf(parts, p.call).None? then parts + [p]
    else
      IndexOfExact(parts, p.call);
      parts[IndexOf(parts, p.call).value := p]
  }

  function PushAll(parts: seq<Part>, more: seq<Part>): seq<Part>
    decreases more
  {
    if more == [] then parts else Push(PushAll(parts, more[..|more| - 1]), more[|more| - 1])
  }

  /** The calls of the tool parts in the order of their first occurrence, and `None` for every
      other part. */
  function Slots(raw: seq<Part>): seq<Option<Id>> {
    if raw == [] then []
    else
      var before, last := Slots(raw[..|raw| - 1]), raw[|raw| - 1];
      if !last.ToolPart? then before + [None] else AddKey(before, Some(last.call))
  }

  function SlotOf(p: Part): Option<Id> {
    if p.ToolPart? then Some(p.call) else None
  }

  function SlotsOf(parts: seq<Part>): seq<Option<Id>> {
    seq(|parts|, i requires 0 <= i < |parts| => SlotOf(parts[i]))
  }

  function LastOf(raw: seq<Part>, call: Id): Option<Part> {
    if raw == [] then None
    else if raw[|raw| - 1].ToolPart? && raw[|raw| - 1].call == call then Some(raw[|raw| - 1])
    else LastOf(raw[..|raw| - 1], call)
  }

  ghost predicate OnePerCall(parts: seq<Part>) {
    forall i, j :: 0 <= i < j < |parts| && parts[i].ToolPart? && parts[j].ToolPart? ==> parts[i].call != parts[j].call
  }

  ghost predicate IsLatest(raw: seq<Part>, p: Part) {
    p.ToolPart? ==> LastOf(raw, p.call) == Some(p)
  }

  lemma PushSlots(parts: seq<Part>, p: Part)
    requires OnePerCall(parts)
    ensures OnePerCall(Push(parts, p))
    ensures SlotsOf(Push(parts, p)) == if p.ToolPart? then AddKey(SlotsOf(parts), Some(p.call)) else SlotsOf(parts) + [None]
  {
    if p.ToolPart? {
      IndexOfExact(parts, p.call);
      var i := IndexOf(parts, p.call);
      if i.Some? {
        assert SlotsOf(parts)[i.value] == Some(p.call);
      } else {
        forall j | 0 <= j < |SlotsOf(parts)| ensures SlotsOf(parts)[j] != Some(p.call) {
          assert SlotsOf(parts)[j] == SlotOf(parts[j]);
        }
      }
    }
  }

  lemma LastOfSnoc(raw: seq<Part>, p: Part, call: Id)
    ensures LastOf(raw + [p], call) == if p.ToolPart? && p.call == call then Some(p) else LastOf(raw, call)
  {
    assert (raw + [p])[..|raw|] == raw;
  }

  /** No two tool parts share a call; every call stands where it first occurred, with what it was
      when it occurred last; nothing else is lost or moved. */
  lemma {:induction false} Collapsed(raw: seq<Part>)
    ensures OnePerCall(PushAll([], raw))
    ensures SlotsOf(PushAll([], raw)) == Slots(raw)
    ensures forall i :: 0 <= i < |PushAll([], raw)| ==> IsLatest(raw, PushAll([], raw)[i])
    decreases raw
  {
    if raw != [] {
      var front, last := raw[..|raw| - 1], raw[|raw| - 1];
      Collapsed(front);
      var before := PushAll([], front);
      PushSlots(before, last);
      assert raw == front + [last];
      var after := PushAll([], raw);
      if last.ToolPart? {
        IndexOfExact(before, last.call);
      }
      forall i | 0 <= i < |after| ensures IsLatest(raw, after[i]) {
        if after[i].ToolPart? {
          LastOfSnoc(front, last, after[i].call);
          if i < |before| && after[i] == before[i] {
            assert IsLatest(front, before[i]);
          }
        }
      }
    }
  }

  lemma {:induction false} PushAllConcat(parts: seq<Part>, a: seq<Part>, b: seq<Part>)
    ensures PushAll(parts, a + b) == PushAll(PushAll(parts, a), b)
    decreases b
  {
    if b == [] {
      assert a + b == a;
    } else {
      PushAllConcat(parts, a, b[..|b| - 1]);
      assert (a + b)[..|a + b| - 1] == a + b[..|b| - 1];
    }
  }

  function ModelsShown(b: Fold.Bucket, scope: Option<set<Id>>): set<Id> {
    if scope.Some? then scope.value else set i | 0 <= i < |b.modelIds| :: b.modelIds[i]
  }

  function ThreadParts(b: Fold.Bucket, scope: Option<set<Id>>, parent: Parent): seq<Part>
    requires b.events.Valid()
  {
    var order := TimeOrder.InTimeOrder(Entries(b));
    var models := ModelsShown(b, scope);
    PushAll([], Walk(b, order, order, scope, models, parent))
  }

  /** Every key of the index points at that call's part. */
  ghost predicate Indexed(parts: seq<Part>, index: map<Id, nat>) {
    && (forall call | call in index :: index[call] < |parts| && parts[index[call]].ToolPart? && parts[index[call]].call == call)
    && (forall i :: 0 <= i < |parts| && parts[i].ToolPart? ==> parts[i].call in index && index[parts[i].call] == i)
  }

  method PushPart(parts: seq<Part>, index: map<Id, nat>, p: Part) returns (after: seq<Part>, reindexed: map<Id, nat>)
    requires Indexed(parts, index)
    ensures after == Push(parts, p) && Indexed(after, reindexed)
  {
    after, reindexed := parts, index;
    if p.ToolPart? {
      IndexOfExact(parts, p.call);
      if p.call in index {
        after := parts[index[p.call] := p];
        return;
      }
      reindexed := index[p.call := |parts|];
    }
    after := parts + [p];
  }

  method PushParts(parts: seq<Part>, index: map<Id, nat>, more: seq<Part>)
    returns (after: seq<Part>, reindexed: map<Id, nat>)
    requires Indexed(parts, index)
    ensures after == PushAll(parts, more) && Indexed(after, reindexed)
  {
    after, reindexed := parts, index;
    for k := 0 to |more|
      invariant Indexed(after, reindexed) && after == PushAll(parts, more[..k])
    {
      assert more[..k + 1][..k] == more[..k];
      after, reindexed := PushPart(after, reindexed, more[k]);
    }
    assert more[..|more|] == more;
  }

  lemma WalkOne(b: Fold.Bucket, order: seq<TimeOrder.Entry>, i: nat, scope: Option<set<Id>>, models: set<Id>,
                parent: Parent)
    requires i < |order|
    ensures PushAll([], Walk(b, order, order[..i + 1], scope, models, parent))
      == PushAll(PushAll([], Walk(b, order, order[..i], scope, models, parent)), PartsOf(b, order, order[i], scope, models, parent))
  {
    assert order[..i + 1][..i] == order[..i];
    PushAllConcat([], Walk(b, order, order[..i], scope, models, parent), PartsOf(b, order, order[i], scope, models, parent));
  }

  /** The walk, with its index of tool calls. */
  method BuildThreadAssistantParts(b: Fold.Bucket, scope: Option<set<Id>>, parent: Parent) returns (parts: seq<Part>)
    requires b.events.Valid()
    ensures parts == ThreadParts(b, scope, parent)
  {
    var order := TimeOrder.InTimeOrder(Entries(b));
    var models := ModelsShown(b, scope);
    var index: map<Id, nat> := map[];
    parts := [];
    for i := 0 to |order|
      invariant Indexed(parts, index)
      invariant parts == PushAll([], Walk(b, order, order[..i], scope, models, parent))
    {
      var more := PartsOf(b, order, order[i], scope, models, parent);
      parts, index := PushParts(parts, index, more);
      WalkOne(b, order, i, scope, models, parent);
    }
    assert order[..|order|] == order;
  }
}
