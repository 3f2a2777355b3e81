/** What the user sees of a message and of a thread: its text, its reasoning, its images, and of every
    tool call the answer or decision that the fold holds. */
module RenderingMeaning {
  import opened JsMaps
  import opened Rendering
  import Compaction
  import Deltas
  import Events
  import Fold
  import Strings
  import TimeOrder

  // ----- One message -----

  /** The text and the refusals of blocks, in order. */
  function Joined(blocks: seq<Deltas.Block>): string {
    if blocks == [] then ""
    else
      Joined(blocks[..|blocks| - 1])
      + match blocks[|blocks| - 1]
        case TextBlock(text) => text
        case RefusalBlock(refusal) => refusal
        case ImageBlock(_) => ""
  }

  /** What a message says: its text, the text of its blocks, or its refusal when it has no content. */
  function Says(m: Deltas.Message): string {
    match m.content
    case Text(text) => text
    case Blocks(blocks) => Joined(blocks)
    case Absent => if m.refusal.Some? then m.refusal.value else ""
  }

  /** The image addresses of blocks, blank ones left out. */
  function Addresses(blocks: seq<Deltas.Block>): seq<string> {
    if blocks == [] then []
    else
      var last := blocks[|blocks| - 1];
      Addresses(blocks[..|blocks| - 1])
      + if last.ImageBlock? && Strings.Trim(last.url) != "" then [Strings.Trim(last.url)] else []
  }

  function BlocksIn(m: Deltas.Message): seq<Deltas.Block> {
    if m.content.Blocks? then m.content.blocks else []
  }

  /** The calls of a message, in slot order. */
  function CallsIn(m: Deltas.Message): seq<Deltas.ToolCall> {
    if m.calls.Some? then Present(m.calls.value) else []
  }

  function Present(calls: Deltas.Calls): seq<Deltas.ToolCall> {
    if calls == [] then []
    else Present(calls[..|calls| - 1]) + if calls[|calls| - 1].Some? then [calls[|calls| - 1].value] else []
  }

  /** The part shows the call, with its answer or else its denial as the result; the decision, or that
      one is awaited; and the question while it is not answered. */
  predicate Shows(b: Fold.Bucket, c: Deltas.ToolCall, p: Part) {
    && p.ToolPart? && p.call == c.id && p.name == c.name && p.args == c.args
    && (c.id in b.results ==> p.result == Some(Events.ResultText(b.results[c.id])) && !p.isError)
    && (c.id !in b.results ==>
          if c.id in b.decisions && !b.decisions[c.id].approved then
            var reason := b.decisions[c.id].reason;
            p.isError && p.result == Some(Events.ResultError(if reason.Some? && reason.value != "" then reason.value else "Tool approval denied"))
          else p.result.None? && !p.isError)
    && (c.id in b.decisions ==> p.approved == Some(Some(b.decisions[c.id].approved)) && p.reason == b.decisions[c.id].reason)
    && (c.id !in b.decisions ==> p.approved == (if c.id in b.approvals then Some(None) else None) && p.reason.None?)
    && (p.asked.Some? <==> c.id in b.questions && c.id !in b.results)
    && (p.asked.Some? ==> p.asked.value == b.questions[c.id].asked)
  }

  lemma {:induction false} JoinConcat(a: seq<Deltas.Block>, b: seq<Deltas.Block>)
    ensures JoinText(a + b) == JoinText(a) + JoinText(b)
    decreases a
  {
    if a == [] {
      assert a + b == b;
    } else {
      assert (a + b)[0] == a[0] && (a + b)[1..] == a[1..] + b;
      JoinConcat(a[1..], b);
    }
  }

  lemma {:induction false} JoinedAlike(blocks: seq<Deltas.Block>)
    ensures JoinText(blocks) == Joined(blocks)
    decreases blocks
  {
    if blocks != [] {
      var front, last := blocks[..|blocks| - 1], blocks[|blocks| - 1];
      JoinedAlike(front);
      JoinConcat(front, [last]);
      assert blocks == front + [last] && [last][1..] == [];
    }
  }

  lemma {:induction false} ImagesConcat(a: seq<Deltas.Block>, b: seq<Deltas.Block>, index: nat)
    ensures ImagesFrom(a + b, index) == ImagesFrom(a, index) + ImagesFrom(b, index + |ImagesFrom(a, index)|)
    decreases a
  {
    if a == [] {
      assert a + b == b;
    } else {
      assert (a + b)[0] == a[0] && (a + b)[1..] == a[1..] + b;
      var shown := a[0].ImageBlock? && Strings.Trim(a[0].url) != "";
      ImagesConcat(a[1..], b, if shown then index + 1 else index);
    }
  }

  lemma {:induction false} ImagesAre(blocks: seq<Deltas.Block>)
    ensures var images, addresses := ImagesFrom(blocks, 0), Addresses(blocks);
      |images| == |addresses| && forall k :: 0 <= k < |images| ==> images[k] == ImagePart(addresses[k], k)
    decreases blocks
  {
    if blocks != [] {
      var front, last := blocks[..|blocks| - 1], blocks[|blocks| - 1];
      ImagesAre(front);
      ImagesConcat(front, [last], 0);
      assert blocks == front + [last] && [last][1..] == [];
    }
  }

  lemma {:induction false} ToolsConcat(b: Fold.Bucket, x: Deltas.Calls, y: Deltas.Calls)
    ensures ToolParts(b, x + y) == ToolParts(b, x) + ToolParts(b, y)
    decreases x
  {
    if x == [] {
      assert x + y == y;
    } else {
      assert (x + y)[0] == x[0] && (x + y)[1..] == x[1..] + y;
      ToolsConcat(b, x[1..], y);
    }
  }

  lemma CallShows(b: Fold.Bucket, c: Deltas.ToolCall)
    ensures Shows(b, c, ToolCallToPart(b, c))
  {
  }

  lemma {:induction false} ToolsAre(b: Fold.Bucket, calls: Deltas.Calls)
    ensures var tools, present := ToolParts(b, calls), Present(calls);
      |tools| == |present| && forall k :: 0 <= k < |tools| ==> Shows(b, present[k], tools[k])
    decreases calls
  {
    if calls != [] {
      var front, last := calls[..|calls| - 1], calls[|calls| - 1];
      ToolsAre(b, front);
      ToolsConcat(b, front, [last]);
      assert calls == front + [last] && [last][1..] == [];
      if last.Some? {
        CallShows(b, last.value);
      }
    }
  }

  /** A message is rendered to its reasoning, then what it says, then its images, numbered, then its
      tool calls in slot order; nothing blank is shown. */
  lemma MessageShows(b: Fold.Bucket, m: Deltas.Message) returns (images: seq<Part>, tools: seq<Part>)
    ensures BuildAssistantContent(b, m)
      == (if m.reasoning.Some? && m.reasoning.value != "" then [ReasoningPart(m.reasoning.value)] else [])
         + (if Says(m) != "" then [TextPart(Says(m))] else []) + images + tools
    ensures |images| == |Addresses(BlocksIn(m))|
    ensures forall k :: 0 <= k < |images| ==> images[k] == ImagePart(Addresses(BlocksIn(m))[k], k)
    ensures |tools| == |CallsIn(m)| && forall k :: 0 <= k < |tools| ==> Shows(b, CallsIn(m)[k], tools[k])
  {
    images, tools := ImagesFrom(Deltas.NormalizedBlocks(m.content), 0), ToolParts(b, Deltas.CallList(m));
    ToolsAre(b, Deltas.CallList(m));
    if m.content.Blocks? {
      JoinedAlike(m.content.blocks);
      ImagesAre(m.content.blocks);
    } else {
      NoImages(Deltas.NormalizedBlocks(m.content));
    }
  }

  lemma NoImages(blocks: seq<Deltas.Block>)
    requires |blocks| <= 1 && forall i :: 0 <= i < |blocks| ==> blocks[i].TextBlock?
    ensures ImagesFrom(blocks, 0) == []
  {
    assert blocks != [] ==> ImagesFrom(blocks[1..], 0) == [];
  }

  // ----- A thread -----

  lemma {:induction false} WalkHas(b: Fold.Bucket, order: seq<TimeOrder.Entry>, entries: seq<TimeOrder.Entry>, i: nat,
                                   scope: Option<set<Id>>, models: set<Id>, parent: Parent, p: Part)
    requires i < |entries| && p in PartsOf(b, order, entries[i], scope, models, parent)
    ensures p in Walk(b, order, entries, scope, models, parent)
    decreases entries
  {
    if i < |entries| - 1 {
      WalkHas(b, order, entries[..|entries| - 1], i, scope, models, parent, p);
    }
  }

  lemma {:induction false} PushKeeps(raw: seq<Part>, p: Part)
    requires p in raw
    ensures !p.ToolPart? ==> p in PushAll([], raw)
    ensures p.ToolPart? ==> exists q :: q in PushAll([], raw) && q.ToolPart? && q.call == p.call
    decreases raw
  {
    var front, last := raw[..|raw| - 1], raw[|raw| - 1];
    var before, after := PushAll([], front), PushAll([], raw);
    if last.ToolPart? {
      IndexOfExact(before, last.call);
      if IndexOf(before, last.call).Some? {
        assert after[IndexOf(before, last.call).value] == last;
      } else {
        assert after[|before|] == last;
      }
      assert last in after;
    } else {
      assert after[|before|] == last;
    }
    if p != last {
      assert p in front;
      PushKeeps(front, p);
      PushStill(before, last, p);
    }
  }

  lemma PushStill(before: seq<Part>, last: Part, p: Part)
    requires !p.ToolPart? ==> p in before
    requires p.ToolPart? ==> exists q :: q in before && q.ToolPart? && q.call == p.call
    ensures !p.ToolPart? ==> p in Push(before, last)
    ensures p.ToolPart? ==> exists q :: q in Push(before, last) && q.ToolPart? && q.call == p.call
  {
    var after := Push(before, last);
    if last.ToolPart? {
      IndexOfExact(before, last.call);
    }
    if !p.ToolPart? {
      var i :| 0 <= i < |before| && before[i] == p;
      assert after[i] == p;
    } else {
      var q :| q in before && q.ToolPart? && q.call == p.call;
      var i :| 0 <= i < |before| && before[i] == q;
      assert after[i] in after && after[i].ToolPart? && after[i].call == p.call;
    }
  }

  /** Everything that a message shows is seen in its thread, when the thread shows the message at all:
      its reasoning, what it says, its images, and each of its calls in the one part the call has. */
  lemma ThreadShows(b: Fold.Bucket, scope: Option<set<Id>>, parent: Parent, id: Id, p: Part)
    requires b.events.Valid() && id in b.events.vals && b.events.vals[id].body.ModelMessage?
    requires id in ModelsShown(b, scope) && p in BuildAssistantContent(b, b.events.vals[id].body.message)
    ensures !p.ToolPart? ==> p in ThreadParts(b, scope, parent)
    ensures p.ToolPart? ==> exists q :: q in ThreadParts(b, scope, parent) && q.ToolPart? && q.call == p.call
  {
    var order := TimeOrder.InTimeOrder(Entries(b));
    var i := EntryAt(b, id);
    WalkHas(b, order, order, i, scope, ModelsShown(b, scope), parent, p);
    PushKeeps(Walk(b, order, order, scope, ModelsShown(b, scope), parent), p);
  }

  lemma {:induction false} WalkFrom(b: Fold.Bucket, order: seq<TimeOrder.Entry>, entries: seq<TimeOrder.Entry>,
                                    scope: Option<set<Id>>, models: set<Id>, parent: Parent, p: Part) returns (i: nat)
    requires p in Walk(b, order, entries, scope, models, parent)
    ensures i < |entries| && p in PartsOf(b, order, entries[i], scope, models, parent)
    decreases entries
  {
    i := |entries| - 1;
    if p !in PartsOf(b, order, entries[i], scope, models, parent) {
      i := WalkFrom(b, order, entries[..|entries| - 1], scope, models, parent, p);
    }
  }

  lemma {:induction false} PushFrom(raw: seq<Part>, p: Part)
    requires p in PushAll([], raw)
    ensures p in raw
    decreases raw
  {
    if raw != [] {
      var front, last := raw[..|raw| - 1], raw[|raw| - 1];
      if last.ToolPart? {
        IndexOfExact(PushAll([], front), last.call);
      }
      if p != last {
        assert p in PushAll([], front);
        PushFrom(front, p);
        assert p in front;
      }
    }
  }

  /** And nothing else is seen but compactions: every other part is one that a message shows. */
  lemma ThreadShowsOnly(b: Fold.Bucket, scope: Option<set<Id>>, parent: Parent, p: Part) returns (id: Id)
    requires b.events.Valid() && p in ThreadParts(b, scope, parent) && !p.CompactionPart?
    ensures id in b.events.vals && b.events.vals[id].body.ModelMessage? && id in ModelsShown(b, scope)
    ensures p in BuildAssistantContent(b, b.events.vals[id].body.message)
  {
    hide BuildAssistantContent, ThreadParts, TimeOrder.InTimeOrder;
    var i := PartFrom(b, scope, parent, p);
    id := TimeOrder.InTimeOrder(Entries(b))[i].id;
  }

  /** Where a part comes from. */
  lemma PartFrom(b: Fold.Bucket, scope: Option<set<Id>>, parent: Parent, p: Part) returns (i: nat)
    requires b.events.Valid() && p in ThreadParts(b, scope, parent)
    ensures var order := TimeOrder.InTimeOrder(Entries(b));
      && i < |order| && order[i].id in b.events.vals && b.events.vals[order[i].id] == order[i].event
      && p in PartsOf(b, order, order[i], scope, ModelsShown(b, scope), parent)
  {
    hide PartsOf, Walk, PushAll, TimeOrder.InTimeOrder;
    var order := TimeOrder.InTimeOrder(Entries(b));
    PushFrom(Walk(b, order, order, scope, ModelsShown(b, scope), parent), p);
    i := WalkFrom(b, order, order, scope, ModelsShown(b, scope), parent, p);
    EntryStored(b, i);
  }

  // ----- Compactions -----

  /** The text begins with the word, in whatever case. */
  predicate Spells(word: string, s: string) {
    |word| <= |s| && forall k :: 0 <= k < |word| ==> s[k] == word[k] || ('A' <= s[k] <= 'Z' && s[k] - 'A' + 'a' == word[k])
  }

  lemma LowerSpells(word: string, s: string)
    requires forall k :: 0 <= k < |word| ==> !('A' <= word[k] <= 'Z')
    ensures word <= Strings.Lower(s) <==> Spells(word, s)
  {
  }

  lemma WordInside(message: string, word: string)
    requires forall k :: 0 <= k < |word| ==> !('A' <= word[k] <= 'Z')
    ensures Strings.Contains(Strings.Lower(message), word) <==> exists i: nat :: i <= |message| && Spells(word, message[i..])
  {
    var lower := Strings.Lower(message);
    Strings.ContainsExact(lower, word);
    forall i: nat | i <= |message| ensures word <= lower[i..] <==> Spells(word, message[i..]) {
      assert Strings.Lower(message[i..]) == lower[i..];
      LowerSpells(word, message[i..]);
    }
  }

  /** The noise of a cancel: one of two phrases anywhere in the message, in whatever case. */
  lemma AbortShapedIs(message: string)
    ensures AbortShaped(message) <==>
      exists i: nat :: i <= |message| && (Spells("stream aborted", message[i..]) || Spells("aborterror", message[i..]))
  {
    WordInside(message, "stream aborted");
    WordInside(message, "aborterror");
  }

  /** A compaction is over when its finish is there; else it was stopped with its turn, unless its
      thread had ended of itself; else it broke with its thread, or with its turn while it was at work;
      and else it goes on. */
  ghost predicate HasStatus(b: Fold.Bucket, order: seq<TimeOrder.Entry>, parent: Parent, id: Id, status: CompactionStatus) {
    var finished := Compaction.FinishedForStarted(order, id);
    var stopped := parent.terminal == Some(ParentCancelled) && (!b.done || (b.error.Some? && AbortShaped(b.error.value)));
    var failed := b.error.Some? || (!b.done && parent.terminal == Some(ParentFailed));
    match status
    case Compacted(finish) => finished == Some(finish)
    case Stopped => finished.None? && stopped
    case Broken => finished.None? && !stopped && failed
    case Compacting => finished.None? && !stopped && !failed
  }

  lemma StartedParts(b: Fold.Bucket, order: seq<TimeOrder.Entry>, e: TimeOrder.Entry, scope: Option<set<Id>>, models: set<Id>, parent: Parent)
    requires e.event.body.CompactionStarted? && Compaction.ShouldIncludeStarted(order, e.id, e.event.at, scope, parent.settled)
    ensures PartsOf(b, order, e, scope, models, parent) == [CompactionPart(e.id, StatusOf(b, parent, Compaction.FinishedForStarted(order, e.id)))]
  {
  }

  lemma CompactionSeen(b: Fold.Bucket, scope: Option<set<Id>>, parent: Parent, id: Id)
    requires b.events.Valid() && id in b.events.vals && b.events.vals[id].body.CompactionStarted?
    requires Compaction.ShouldIncludeStarted(TimeOrder.InTimeOrder(Entries(b)), id, b.events.vals[id].at, scope, parent.settled)
    ensures CompactionPart(id, StatusOf(b, parent, Compaction.FinishedForStarted(TimeOrder.InTimeOrder(Entries(b)), id)))
      in ThreadParts(b, scope, parent)
  {
    var order, models := TimeOrder.InTimeOrder(Entries(b)), ModelsShown(b, scope);
    var p := CompactionPart(id, StatusOf(b, parent, Compaction.FinishedForStarted(order, id)));
    hide ThreadParts, PartsOf, Entries, TimeOrder.InTimeOrder, StatusOf, Compaction.ShouldIncludeStarted, Compaction.FinishedForStarted;
    var i := EntryAt(b, id);
    StartedParts(b, order, order[i], scope, models, parent);
    PartSeen(b, scope, parent, i, p);
  }

  lemma PartSeen(b: Fold.Bucket, scope: Option<set<Id>>, parent: Parent, i: nat, p: Part)
    requires b.events.Valid() && i < |TimeOrder.InTimeOrder(Entries(b))| && !p.ToolPart?
    requires var order := TimeOrder.InTimeOrder(Entries(b)); p in PartsOf(b, order, order[i], scope, ModelsShown(b, scope), parent)
    ensures p in ThreadParts(b, scope, parent)
  {
    hide Walk, PushAll, TimeOrder.InTimeOrder, PartsOf;
    var order, models := TimeOrder.InTimeOrder(Entries(b)), ModelsShown(b, scope);
    WalkHas(b, order, order, i, scope, models, parent, p);
    PushKeeps(Walk(b, order, order, scope, models, parent), p);
  }

  lemma SeenCompaction(b: Fold.Bucket, scope: Option<set<Id>>, parent: Parent, id: Id, status: CompactionStatus)
    requires b.events.Valid() && id in b.events.vals && CompactionPart(id, status) in ThreadParts(b, scope, parent)
    ensures var order := TimeOrder.InTimeOrder(Entries(b));
      && Compaction.ShouldIncludeStarted(order, id, b.events.vals[id].at, scope, parent.settled)
      && status == StatusOf(b, parent, Compaction.FinishedForStarted(order, id))
  {
    hide ThreadParts, PartsOf, TimeOrder.InTimeOrder, StatusOf, Compaction.ShouldIncludeStarted;
    var order := TimeOrder.InTimeOrder(Entries(b));
    var i := PartFrom(b, scope, parent, CompactionPart(id, status));
    OnlyStarted(b, order, order[i], scope, ModelsShown(b, scope), parent, CompactionPart(id, status));
  }

  lemma OnlyStarted(b: Fold.Bucket, order: seq<TimeOrder.Entry>, e: TimeOrder.Entry, scope: Option<set<Id>>, models: set<Id>,
                    parent: Parent, p: Part)
    requires p.CompactionPart? && p in PartsOf(b, order, e, scope, models, parent)
    ensures Compaction.ShouldIncludeStarted(order, e.id, e.event.at, scope, parent.settled)
    ensures p == CompactionPart(e.id, StatusOf(b, parent, Compaction.FinishedForStarted(order, e.id)))
  {
    NoCompaction(b, e.event.body);
    hide BuildAssistantContent, StatusOf, Compaction.ShouldIncludeStarted;
  }

  /** Exactly the compactions that belong to what is shown are seen, each in its status. */
  lemma CompactionShows(b: Fold.Bucket, scope: Option<set<Id>>, parent: Parent, id: Id)
    requires b.events.Valid() && id in b.events.vals && b.events.vals[id].body.CompactionStarted?
    ensures var order := TimeOrder.InTimeOrder(Entries(b));
      && (Compaction.ShouldIncludeStarted(order, id, b.events.vals[id].at, scope, parent.settled)
          <==> exists status :: CompactionPart(id, status) in ThreadParts(b, scope, parent))
      && forall status :: CompactionPart(id, status) in ThreadParts(b, scope, parent) ==> HasStatus(b, order, parent, id, status)
  {
    hide ThreadParts, TimeOrder.InTimeOrder, Compaction.ShouldIncludeStarted, Compaction.FinishedForStarted;
    var order := TimeOrder.InTimeOrder(Entries(b));
    if Compaction.ShouldIncludeStarted(order, id, b.events.vals[id].at, scope, parent.settled) {
      CompactionSeen(b, scope, parent, id);
    }
    forall status | CompactionPart(id, status) in ThreadParts(b, scope, parent)
      ensures Compaction.ShouldIncludeStarted(order, id, b.events.vals[id].at, scope, parent.settled) && HasStatus(b, order, parent, id, status)
    {
      SeenCompaction(b, scope, parent, id, status);
    }
  }

  /** What stands in the order is stored. */
  lemma EntryStored(b: Fold.Bucket, i: nat)
    requires b.events.Valid() && i < |TimeOrder.InTimeOrder(Entries(b))|
    ensures var e := TimeOrder.InTimeOrder(Entries(b))[i]; e.id in b.events.vals && b.events.vals[e.id] == e.event
  {
    var order := TimeOrder.InTimeOrder(Entries(b));
    assert order[i] in multiset(order);
    assert order[i] in Entries(b);
  }

  lemma NoCompaction(b: Fold.Bucket, body: Events.Body)
    ensures body.ModelMessage? ==> forall p :: p in BuildAssistantContent(b, body.message) ==> !p.CompactionPart?
  {
    if body.ModelMessage? {
      var images, tools := MessageShows(b, body.message);
      hide BuildAssistantContent, Says, Addresses, CallsIn;
    }
  }

  /** Where a stored event stands in the order. */
  lemma EntryAt(b: Fold.Bucket, id: Id) returns (i: nat)
    requires b.events.Valid() && id in b.events.vals
    ensures var order := TimeOrder.InTimeOrder(Entries(b)); i < |order| && order[i] == TimeOrder.Entry(id, b.events.vals[id])
  {
    var order, e := TimeOrder.InTimeOrder(Entries(b)), TimeOrder.Entry(id, b.events.vals[id]);
    var k :| 0 <= k < |b.events.keys| && b.events.keys[k] == id;
    assert Entries(b)[k] == e && e in multiset(Entries(b));
    assert e in order;
    i :| 0 <= i < |order| && order[i] == e;
  }
}
