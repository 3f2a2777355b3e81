/** Merging streamed `model.message.delta` events into the message they extend.
    Two implementations exist, one in the client runtime and one in the SDK. */
module Deltas {
  import opened JsMaps

  datatype ToolCall = ToolCall(id: Id, name: string, args: string, info: Option<string>)

  datatype Fragment = Fragment(index: nat, id: Option<Id>, name: Option<string>, args: Option<string>,
                               info: Option<string>)

  datatype Block = TextBlock(text: string) | RefusalBlock(refusal: string) | ImageBlock(url: string)

  /** A missing `text` or `url` is the empty string. */
  datatype BlockDelta = TextDelta(index: nat, text: string) | ImageDelta(index: nat, url: string)

  datatype Content = Absent | Text(text: string) | Blocks(blocks: seq<Block>)

  /** The tool-call array may have holes: a JavaScript array can be assigned past its end. */
  type Calls = seq<Option<ToolCall>>

  datatype Message = Message(content: Content, refusal: Option<string>, reasoning: Option<string>,
                             calls: Option<Calls>, finishReason: Option<string>, usage: Option<nat>)

  datatype Delta = Delta(content: Option<string>, refusal: Option<string>, reasoning: Option<string>,
                         calls: Option<seq<Fragment>>, finishReason: Option<string>, usage: Option<nat>,
                         blocks: seq<BlockDelta>)

  predicate Truthy(s: Option<string>) {
    s.Some? && s.value != ""
  }

  function Given(s: Option<string>): string {
    if s.Some? then s.value else ""
  }

  function Append(base: Option<string>, more: Option<string>): Option<string> {
    if Truthy(more) then Some(Given(base) + more.value) else base
  }

  function CallList(m: Message): Calls {
    if m.calls.Some? then m.calls.value else []
  }

  /** `calls[index] = call`, extending the array with holes when it is too short. */
  function Put(calls: Calls, index: nat, call: ToolCall): Calls {
    if index < |calls| then calls[index := Some(call)]
    else calls + seq(index - |calls|, _ => None) + [Some(call)]
  }

  function At(calls: Calls, index: nat): Option<ToolCall> {
    if index < |calls| then calls[index] else None
  }

  // ----- The runtime's merge -----

  function RuntimeContent(c: Content, more: Option<string>): Content {
    if !Truthy(more) then c
    else match c
      case Absent => Text(more.value)
      case Text(t) => Text(t + more.value)
      case Blocks(bs) =>
        if bs != [] && bs[|bs| - 1].TextBlock?
        then Blocks(bs[|bs| - 1 := TextBlock(bs[|bs| - 1].text + more.value)])
        else Blocks(bs + [TextBlock(more.value)])
  }

  function RuntimeCall(calls: Calls, f: Fragment): Calls {
    var base := match At(calls, f.index)
      case Some(call) => call
      case None => ToolCall(Given(f.id), Given(f.name), "", f.info);
    Put(calls, f.index,
        ToolCall(if Truthy(f.id) then f.id.value else base.id,
                 if Truthy(f.name) then f.name.value else base.name,
                 base.args + Given(f.args),
                 f.info.Or(base.info)))
  }

  function RuntimeCalls(calls: Calls, fs: seq<Fragment>): Calls
    decreases fs
  {
    if fs == [] then calls else RuntimeCalls(RuntimeCall(calls, fs[0]), fs[1..])
  }

  function RuntimeMerge(m: Message, d: Delta): Message {
    Message(RuntimeContent(m.content, d.content),
            Append(m.refusal, d.refusal),
            Append(m.reasoning, d.reasoning),
            if d.calls.Some? then Some(RuntimeCalls(CallList(m), d.calls.value)) else m.calls,
            if Truthy(d.finishReason) then d.finishReason else m.finishReason,
            d.usage.Or(m.usage))
  }

  // ----- The SDK's merge -----

  function SdkContent(c: Content, more: Option<string>): Content {
    if Truthy(more) && !c.Blocks? then Text((if c.Text? then c.text else "") + more.value) else c
  }

  /** Slots are only ever appended in order, and only by a fragment that names its call. */
  function SdkCall(calls: Calls, f: Fragment): Calls {
    match At(calls, f.index)
    case Some(call) =>
      calls[f.index := Some(ToolCall(f.id.Or(Some(call.id)).value, f.name.Or(Some(call.name)).value,
                                     call.args + Given(f.args), f.info.Or(call.info)))]
    case None =>
      if f.index == |calls| && f.id.Some? && f.name.Some? && f.info.Some?
      then calls + [Some(ToolCall(f.id.value, f.name.value, Given(f.args), f.info))]
      else calls
  }

  function SdkCalls(calls: Calls, fs: seq<Fragment>): Calls
    decreases fs
  {
    if fs == [] then calls else SdkCalls(SdkCall(calls, fs[0]), fs[1..])
  }

  function SdkMerge(m: Message, d: Delta): Message {
    Message(SdkContent(m.content, d.content),
            d.refusal.Or(m.refusal),
            Append(m.reasoning, d.reasoning),
            if d.calls.Some? && d.calls.value != [] then Some(SdkCalls(CallList(m), d.calls.value)) else m.calls,
            d.finishReason.Or(m.finishReason),
            d.usage.Or(m.usage))
  }

  // ----- Content blocks, merged by the streaming layer on top of the runtime's merge -----

  function NormalizedBlocks(c: Content): seq<Block> {
    match c
    case Absent => []
    case Text(t) => if t != "" then [TextBlock(t)] else []
    case Blocks(bs) => bs
  }

  function Padded(bs: seq<Block>, length: nat): seq<Block> {
    if |bs| < length then bs + seq(length - |bs|, _ => TextBlock("")) else bs
  }

  function MergeBlock(bs: seq<Block>, d: BlockDelta): seq<Block> {
    var padded := Padded(bs, d.index + 1);
    var there := padded[d.index];
    match d
    case TextDelta(i, t) => padded[i := TextBlock(if there.TextBlock? then there.text + t else t)]
    case ImageDelta(i, u) => padded[i := ImageBlock(if there.ImageBlock? then there.url + u else u)]
  }

  function MergeBlocks(bs: seq<Block>, ds: seq<BlockDelta>): seq<Block>
    decreases ds
  {
    if ds == [] then bs else MergeBlocks(MergeBlock(bs, ds[0]), ds[1..])
  }

  /** `mergeStreamEventDelta` on a base that is a model message. */
  function MergeStream(m: Message, d: Delta): Message {
    var merged := RuntimeMerge(m, d);
    if d.blocks == [] then merged
    else merged.(content := Blocks(MergeBlocks(NormalizedBlocks(merged.content), d.blocks)))
  }

  /** The message object both implementations change in place. */
  class ModelMessageEvent {
    var content: Content
    var refusal: Option<string>
    var reasoning: Option<string>
    var calls: Option<Calls>
    var finishReason: Option<string>
    var usage: Option<nat>

    function Value(): Message
      reads this
    {
      Message(content, refusal, reasoning, calls, finishReason, usage)
    }

    constructor (m: Message)
      ensures Value() == m
    {
      content, refusal, reasoning := m.content, m.refusal, m.reasoning;
      calls, finishReason, usage := m.calls, m.finishReason, m.usage;
    }

    method MergeEventDelta(d: Delta)
      modifies this
      ensures Value() == RuntimeMerge(old(Value()), d)
    {
      content := RuntimeContent(content, d.content);
      if Truthy(d.refusal) {
        refusal := Some(Given(refusal) + d.refusal.value);
      }
      if d.calls.Some? {
        if calls.None? {
          calls := Some([]);
        }
        var fs := d.calls.value;
        ghost var before := calls.value;
        for i := 0 to |fs|
          modifies this`calls
          invariant calls.Some?
          invariant RuntimeCalls(calls.value, fs[i..]) == RuntimeCalls(before, fs)
        {
          assert fs[i..][0] == fs[i] && fs[i..][1..] == fs[i + 1..];
          calls := Some(RuntimeCall(calls.value, fs[i]));
        }
      }
      if Truthy(d.finishReason) {
        finishReason := d.finishReason;
      }
      if Truthy(d.reasoning) {
        reasoning := Some(Given(reasoning) + d.reasoning.value);
      }
      if d.usage.Some? {
        usage := d.usage;
      }
    }

    method SdkMergeEventDelta(d: Delta)
      modifies this
      ensures Value() == SdkMerge(old(Value()), d)
    {
      if Truthy(d.content) && !content.Blocks? {
        content := Text((if content.Text? then content.text else "") + d.content.value);
      }
      if Truthy(d.reasoning) {
        reasoning := Some(Given(reasoning) + d.reasoning.value);
      }
      if d.refusal.Some? {
        refusal := d.refusal;
      }
      if d.finishReason.Some? {
        finishReason := d.finishReason;
      }
      if d.usage.Some? {
        usage := d.usage;
      }
      if d.calls.Some? && d.calls.value != [] {
        if calls.None? {
          calls := Some([]);
        }
        var fs := d.calls.value;
        ghost var before := calls.value;
        for i := 0 to |fs|
          modifies this`calls
          invariant calls.Some?
          invariant SdkCalls(calls.value, fs[i..]) == SdkCalls(before, fs)
        {
          assert fs[i..][0] == fs[i] && fs[i..][1..] == fs[i + 1..];
          calls := Some(SdkCall(calls.value, fs[i]));
        }
      }
    }

    method MergeStreamEventDelta(d: Delta)
      modifies this
      ensures Value() == MergeStream(old(Value()), d)
    {
      MergeEventDelta(d);
      if d.blocks == [] {
        return;
      }
      var blocks := NormalizedBlocks(content);
      ghost var before := blocks;
      for i := 0 to |d.blocks|
        invariant MergeBlocks(blocks, d.blocks[i..]) == MergeBlocks(before, d.blocks)
      {
        assert d.blocks[i..][0] == d.blocks[i] && d.blocks[i..][1..] == d.blocks[i + 1..];
        blocks := MergeBlock(blocks, d.blocks[i]);
      }
      content := Blocks(blocks);
    }
  }

  // ----- Where the two implementations agree -----

  ghost predicate Dense(calls: Calls) {
    forall i :: 0 <= i < |calls| ==> calls[i].Some?
  }

  /** The fragment extends a slot that exists without blanking its identity, or opens the
      next slot and says what it is. */
  predicate Addressable(calls: Calls, f: Fragment) {
    if f.index < |calls| then
      && (f.id == Some("") ==> calls[f.index].Some? && calls[f.index].value.id == "")
      && (f.name == Some("") ==> calls[f.index].Some? && calls[f.index].value.name == "")
    else
      f.index == |calls| && f.id.Some? && f.name.Some? && f.info.Some?
  }

  /** One fragment: the two merges agree exactly on addressable fragments. */
  lemma FragmentAgreement(calls: Calls, f: Fragment)
    requires Dense(calls)
    ensures RuntimeCall(calls, f) == SdkCall(calls, f) <==> Addressable(calls, f)
    ensures Addressable(calls, f) ==> Dense(RuntimeCall(calls, f))
  {
    var r, s := RuntimeCall(calls, f), SdkCall(calls, f);
    if f.index < |calls| {
      assert r[f.index] == At(r, f.index) && s[f.index] == At(s, f.index);
      if Addressable(calls, f) {
        assert r == s;
      }
    } else {
      assert |r| == f.index + 1;
      if Addressable(calls, f) {
        assert "" + Given(f.args) == Given(f.args);
        assert r == s;
      } else {
        assert |s| == |calls| || |s| == |calls| + 1;
      }
    }
  }

  /** The fragments of a stream arrive in index order, each slot opened by a fragment that
      carries the call's identity and never blanked later. */
  predicate InOrder(slots: nat, fs: seq<Fragment>)
    decreases fs
  {
    fs == [] ||
    if fs[0].index < slots then
      fs[0].id != Some("") && fs[0].name != Some("") && InOrder(slots, fs[1..])
    else
      && fs[0].index == slots && fs[0].id.Some? && fs[0].name.Some? && fs[0].info.Some?
      && InOrder(slots + 1, fs[1..])
  }

  function Fragments(d: Delta): seq<Fragment> {
    if d.calls.Some? then d.calls.value else []
  }

  function AllFragments(ds: seq<Delta>): seq<Fragment> {
    if ds == [] then [] else Fragments(ds[0]) + AllFragments(ds[1..])
  }

  function RuntimeRun(m: Message, ds: seq<Delta>): Message
    decreases ds
  {
    if ds == [] then m else RuntimeRun(RuntimeMerge(m, ds[0]), ds[1..])
  }

  function SdkRun(m: Message, ds: seq<Delta>): Message
    decreases ds
  {
    if ds == [] then m else SdkRun(SdkMerge(m, ds[0]), ds[1..])
  }

  lemma {:induction false} CallsAgree(calls: Calls, fs: seq<Fragment>, rest: seq<Fragment>)
    requires Dense(calls) && InOrder(|calls|, fs + rest)
    ensures RuntimeCalls(calls, fs) == SdkCalls(calls, fs)
    ensures Dense(RuntimeCalls(calls, fs)) && InOrder(|RuntimeCalls(calls, fs)|, rest)
    decreases fs
  {
    if fs == [] {
      assert fs + rest == rest;
    } else {
      var f := fs[0];
      assert (fs + rest)[0] == f && (fs + rest)[1..] == fs[1..] + rest;
      assert Addressable(calls, f);
      FragmentAgreement(calls, f);
      CallsAgree(RuntimeCall(calls, f), fs[1..], rest);
    }
  }

  /** The same text, reasoning and tool calls are shown whichever merge built the message. */
  ghost predicate ShowsTheSame(a: Message, b: Message) {
    a.content == b.content && a.reasoning == b.reasoning && CallList(a) == CallList(b)
  }

  predicate NoText(ds: seq<Delta>) {
    forall i :: 0 <= i < |ds| ==> !Truthy(ds[i].content)
  }

  function TextSize(bs: seq<Block>): nat {
    if bs == [] then 0
    else TextSize(bs[..|bs| - 1]) + 1 + if bs[|bs| - 1].TextBlock? then |bs[|bs| - 1].text| else 0
  }

  lemma BlockTextGrows(c: Content, more: Option<string>)
    requires c.Blocks?
    ensures var after := RuntimeContent(c, more);
      after.Blocks? && if Truthy(more) then TextSize(after.blocks) > TextSize(c.blocks) else after == c
  {
    if Truthy(more) {
      var bs, after := c.blocks, RuntimeContent(c, more).blocks;
      if bs != [] && bs[|bs| - 1].TextBlock? {
        assert after[..|after| - 1] == bs[..|bs| - 1];
      } else {
        assert after[..|after| - 1] == bs;
      }
    }
  }

  /** On block content the runtime appends every text, and the SDK drops it. */
  lemma {:induction false} BlockContentRuns(a: Message, b: Message, ds: seq<Delta>)
    requires a.content.Blocks? && b.content.Blocks?
    ensures SdkRun(b, ds).content == b.content && RuntimeRun(a, ds).content.Blocks?
    ensures TextSize(RuntimeRun(a, ds).content.blocks) >= TextSize(a.content.blocks)
    ensures if NoText(ds) then RuntimeRun(a, ds).content == a.content
      else TextSize(RuntimeRun(a, ds).content.blocks) > TextSize(a.content.blocks)
    decreases ds
  {
    if ds != [] {
      BlockTextGrows(a.content, ds[0].content);
      BlockContentRuns(RuntimeMerge(a, ds[0]), SdkMerge(b, ds[0]), ds[1..]);
      assert NoText(ds) <==> !Truthy(ds[0].content) && NoText(ds[1..]) by {
        assert forall i :: 0 < i < |ds| ==> ds[i] == ds[1..][i - 1];
      }
    }
  }

  lemma {:induction false} MergersAgreeOnRest(a: Message, b: Message, ds: seq<Delta>)
    requires a.reasoning == b.reasoning && CallList(a) == CallList(b)
    requires Dense(CallList(a)) && InOrder(|CallList(a)|, AllFragments(ds))
    ensures RuntimeRun(a, ds).reasoning == SdkRun(b, ds).reasoning && CallList(RuntimeRun(a, ds)) == CallList(SdkRun(b, ds))
    decreases ds
  {
    if ds != [] {
      CallsAgree(CallList(a), Fragments(ds[0]), AllFragments(ds[1..]));
      MergersAgreeOnRest(RuntimeMerge(a, ds[0]), SdkMerge(b, ds[0]), ds[1..]);
    }
  }

  lemma {:induction false} TextContentAgrees(a: Message, b: Message, ds: seq<Delta>)
    requires a.content == b.content && !a.content.Blocks?
    ensures RuntimeRun(a, ds).content == SdkRun(b, ds).content
    decreases ds
  {
    if ds != [] {
      TextContentAgrees(RuntimeMerge(a, ds[0]), SdkMerge(b, ds[0]), ds[1..]);
    }
  }

  /** Over any stream whose fragments come in order, the two mergers show the same exactly when the
      message has no block content or the stream brings no text. */
  lemma MergersAgree(a: Message, b: Message, ds: seq<Delta>)
    requires ShowsTheSame(a, b)
    requires Dense(CallList(a)) && InOrder(|CallList(a)|, AllFragments(ds))
    ensures ShowsTheSame(RuntimeRun(a, ds), SdkRun(b, ds)) <==> !a.content.Blocks? || NoText(ds)
  {
    MergersAgreeOnRest(a, b, ds);
    if a.content.Blocks? {
      BlockContentRuns(a, b, ds);
    } else {
      TextContentAgrees(a, b, ds);
    }
  }

  /** A text delta for a message that shows an image: one merger appends the text as a new block,
      the other drops it. */
  lemma TextForBlocksIsDropped(text: string) returns (m: Message, d: Delta)
    requires text != ""
    ensures m.content == Blocks([ImageBlock("image")]) && d.content == Some(text) && d.calls.None?
    ensures RuntimeRun(m, [d]).content == Blocks([ImageBlock("image"), TextBlock(text)])
    ensures SdkRun(m, [d]) == m
    ensures !ShowsTheSame(RuntimeRun(m, [d]), SdkRun(m, [d]))
  {
    m := Message(Blocks([ImageBlock("image")]), None, None, None, None, None);
    d := Delta(Some(text), None, None, None, None, None, []);
    assert [d][1..] == [];
  }

  /** A refusal is appended by one merger and replaced by the other: on one delta they agree exactly
      when there is none yet, or the delta brings none. */
  lemma RefusalAgreement(m: Message, d: Delta)
    ensures RuntimeMerge(m, d).refusal == SdkMerge(m, d).refusal
      <==> (d.refusal.Some? ==> Given(m.refusal) == "" && (d.refusal == Some("") ==> m.refusal == d.refusal))
  {
    if Truthy(d.refusal) && Given(m.refusal) != "" {
      assert |Given(m.refusal) + d.refusal.value| > |d.refusal.value|;
    }
    assert Given(m.refusal) == "" ==> Given(m.refusal) + Given(d.refusal) == Given(d.refusal);
  }

  // ----- Streaming against concatenating -----

  function ArgsAt(calls: Calls, i: nat): string {
    match At(calls, i) case Some(call) => call.args case None => ""
  }

  /** All argument text sent for slot `i`, in order. */
  function ArgsFor(fs: seq<Fragment>, i: nat): string {
    if fs == [] then "" else (if fs[0].index == i then Given(fs[0].args) else "") + ArgsFor(fs[1..], i)
  }

  /** Whatever the order of the fragments, each slot's arguments are the concatenation of
      the pieces sent for that slot. */
  lemma {:induction false} ArgumentsConcatenate(calls: Calls, fs: seq<Fragment>, i: nat)
    ensures ArgsAt(RuntimeCalls(calls, fs), i) == ArgsAt(calls, i) + ArgsFor(fs, i)
    decreases fs
  {
    if fs != [] {
      var next := RuntimeCall(calls, fs[0]);
      ArgumentsConcatenate(next, fs[1..], i);
      assert ArgsAt(next, i) == ArgsAt(calls, i) + if fs[0].index == i then Given(fs[0].args) else "";
    }
  }

  predicate Accepts(b: Block, text: bool) {
    b == TextBlock("") || (if text then b.TextBlock? else b.ImageBlock?)
  }

  /** Slot `i` starts absent, empty or of the given kind, and every delta for it is of that kind. */
  predicate OneKind(bs: seq<Block>, ds: seq<BlockDelta>, i: nat, text: bool) {
    && (i < |bs| ==> Accepts(bs[i], text))
    && (forall k :: 0 <= k < |ds| && ds[k].index == i ==> ds[k].TextDelta? == text)
  }

  function Payload(bs: seq<Block>, i: nat): string {
    if i < |bs| then
      match bs[i] case TextBlock(t) => t case RefusalBlock(r) => r case ImageBlock(u) => u
    else
      ""
  }

  function PayloadOf(d: BlockDelta): string {
    if d.TextDelta? then d.text else d.url
  }

  /** All text (or all URL pieces) sent for slot `i`, in order. */
  function PayloadFor(ds: seq<BlockDelta>, i: nat): string {
    if ds == [] then "" else (if ds[0].index == i then PayloadOf(ds[0]) else "") + PayloadFor(ds[1..], i)
  }

  lemma BlockConcatenates(bs: seq<Block>, d: BlockDelta, i: nat, text: bool)
    requires OneKind(bs, [d], i, text)
    ensures i < |MergeBlock(bs, d)| ==> Accepts(MergeBlock(bs, d)[i], text)
    ensures Payload(MergeBlock(bs, d), i) == Payload(bs, i) + if d.index == i then PayloadOf(d) else ""
  {
    var padded := Padded(bs, d.index + 1);
    assert Payload(padded, i) == Payload(bs, i);
    if d.index == i {
      assert [d][0] == d;
      var there := padded[i];
      assert Payload(MergeBlock(bs, d), i) == Payload(padded, i) + PayloadOf(d);
    }
  }

  lemma OneKindStep(bs: seq<Block>, ds: seq<BlockDelta>, i: nat, text: bool)
    requires ds != [] && OneKind(bs, ds, i, text)
    ensures OneKind(bs, ds[..1], i, text) && OneKind(MergeBlock(bs, ds[0]), ds[1..], i, text)
  {
    assert ds[..1] == [ds[0]];
    BlockConcatenates(bs, ds[0], i, text);
  }

  lemma {:induction false} BlocksConcatenate(bs: seq<Block>, ds: seq<BlockDelta>, i: nat, text: bool)
    requires OneKind(bs, ds, i, text)
    ensures Payload(MergeBlocks(bs, ds), i) == Payload(bs, i) + PayloadFor(ds, i)
    decreases ds
  {
    if ds != [] {
      var next := MergeBlock(bs, ds[0]);
      var sent := if ds[0].index == i then PayloadOf(ds[0]) else "";
      OneKindStep(bs, ds, i, text);
      BlocksConcatenate(next, ds[1..], i, text);
      assert Payload(next, i) == Payload(bs, i) + sent by {
        assert ds[..1] == [ds[0]];
        BlockConcatenates(bs, ds[0], i, text);
      }
      assert MergeBlocks(bs, ds) == MergeBlocks(next, ds[1..]);
      Associate(Payload(bs, i), sent, PayloadFor(ds[1..], i));
    }
  }

  lemma Associate(a: string, b: string, c: string)
    ensures (a + b) + c == a + (b + c)
  {
  }
}
