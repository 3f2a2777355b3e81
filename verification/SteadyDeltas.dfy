/** Which deltas may be merged again after some of them: those that append nothing, where a block that
    is sent both text and an image starts anew. */
module SteadyDeltas {
  import opened JsMaps
  import opened Absorption
  import opened Deltas
  import SteadyBlocks

  /** The delta appends no text, reasoning, refusal or arguments. */
  predicate Inert(d: Delta) {
    && !Truthy(d.content) && !Truthy(d.refusal) && !Truthy(d.reasoning)
    && InertFragments(Fragments(d))
  }

  predicate InertFragments(fs: seq<Fragment>) {
    forall i :: 0 <= i < |fs| ==> !Truthy(fs[i].args)
  }

  predicate AllInert(ds: seq<Delta>) {
    forall i :: 0 <= i < |ds| ==> Inert(ds[i])
  }

  // ----- What deltas append -----

  function Size(m: Message, i: nat): nat {
    |Given(m.refusal)| + |Given(m.reasoning)| + |ArgsAt(CallList(m), i)|
  }

  function Weight(d: Delta, i: nat): nat {
    |Given(d.refusal)| + |Given(d.reasoning)| + |ArgsFor(Fragments(d), i)|
  }

  function Weights(ds: seq<Delta>, i: nat): nat {
    if ds == [] then 0 else Weights(ds[..|ds| - 1], i) + Weight(ds[|ds| - 1], i)
  }

  lemma MergeGrows(m: Message, d: Delta, i: nat)
    ensures Size(MergeStream(m, d), i) == Size(m, i) + Weight(d, i)
  {
    ArgumentsConcatenate(CallList(m), Fragments(d), i);
  }

  lemma {:induction false} MergesGrow(m: Message, ds: seq<Delta>, i: nat)
    ensures Size(MergeAll(m, ds), i) == Size(m, i) + Weights(ds, i)
    decreases ds
  {
    if ds != [] {
      MergesGrow(m, ds[..|ds| - 1], i);
      MergeGrows(MergeAll(m, ds[..|ds| - 1]), ds[|ds| - 1], i);
    }
  }

  lemma {:induction false} WeightOne(ds: seq<Delta>, j: nat, i: nat)
    requires j < |ds|
    ensures Weight(ds[j], i) <= Weights(ds, i)
    decreases ds
  {
    if j < |ds| - 1 {
      WeightOne(ds[..|ds| - 1], j, i);
    }
  }

  lemma {:induction false} ArgsOne(fs: seq<Fragment>, j: nat)
    requires j < |fs|
    ensures |Given(fs[j].args)| <= |ArgsFor(fs, fs[j].index)|
    decreases fs
  {
    if j > 0 {
      ArgsOne(fs[1..], j - 1);
    }
  }

  // Text goes to the last block, and no block delta reaches one that is far enough.

  function BlocksOf(ds: seq<Delta>): seq<BlockDelta> {
    if ds == [] then [] else BlocksOf(ds[..|ds| - 1]) + ds[|ds| - 1].blocks
  }

  function TextWeights(ds: seq<Delta>): nat {
    if ds == [] then 0 else TextWeights(ds[..|ds| - 1]) + |Given(ds[|ds| - 1].content)|
  }

  lemma {:induction false} TextWeightOne(ds: seq<Delta>, j: nat)
    requires j < |ds|
    ensures |Given(ds[j].content)| <= TextWeights(ds)
    decreases ds
  {
    if j < |ds| - 1 {
      TextWeightOne(ds[..|ds| - 1], j);
    }
  }

  /** The content ends in a text block at position `n`, of a given length. */
  predicate EndsInText(c: Content, n: nat, length: nat) {
    c.Blocks? && |c.blocks| == n + 1 && c.blocks[n].TextBlock? && |c.blocks[n].text| == length
  }

  lemma {:induction false} FarBlocks(bs: seq<Block>, ds: seq<BlockDelta>, n: nat)
    requires n + 1 == |bs| && forall k :: 0 <= k < |ds| ==> ds[k].index < n
    ensures |MergeBlocks(bs, ds)| == |bs| && MergeBlocks(bs, ds)[n] == bs[n]
    decreases ds
  {
    if ds != [] {
      FarBlocks(MergeBlock(bs, ds[0]), ds[1..], n);
    }
  }

  lemma {:induction false} FarText(m: Message, ds: seq<Delta>, n: nat, length: nat)
    requires EndsInText(m.content, n, length) && forall k :: 0 <= k < |BlocksOf(ds)| ==> BlocksOf(ds)[k].index < n
    ensures EndsInText(MergeAll(m, ds).content, n, length + TextWeights(ds))
    decreases ds
  {
    if ds != [] {
      var front, d := ds[..|ds| - 1], ds[|ds| - 1];
      forall k | 0 <= k < |BlocksOf(front)| ensures BlocksOf(front)[k].index < n {
        assert BlocksOf(ds)[k] == BlocksOf(front)[k];
      }
      forall k | 0 <= k < |d.blocks| ensures d.blocks[k].index < n {
        assert BlocksOf(ds)[|BlocksOf(front)| + k] == d.blocks[k];
      }
      FarText(m, front, n, length);
      var merged := RuntimeMerge(MergeAll(m, front), d);
      assert EndsInText(merged.content, n, length + TextWeights(ds));
      FarBlocks(merged.content.blocks, d.blocks, n);
    }
  }

  lemma SteadyAll(x: Message, ds: seq<Delta>)
    requires Steady(ds)
    ensures MergeAll(MergeAll(x, ds), ds) == MergeAll(x, ds)
  {
    assert ds[..|ds|] == ds;
    assert MergeAll(MergeAll(x, ds[..|ds|]), ds) == MergeAll(x, ds);
  }

  /** Merged twice, what is appended is there twice. */
  lemma SteadyAppendsNothing(ds: seq<Delta>, j: nat, i: nat)
    requires Steady(ds) && j < |ds|
    ensures Weight(ds[j], i) == 0 && Given(ds[j].content) == ""
  {
    var n := SteadyBlocks.Reach(BlocksOf(ds));
    var x := Message(Blocks(seq(n + 1, _ => TextBlock(""))), None, None, None, None, None);
    SteadyAll(x, ds);
    MergesGrow(x, ds, i);
    MergesGrow(MergeAll(x, ds), ds, i);
    WeightOne(ds, j, i);
    FarText(x, ds, n, 0);
    FarText(MergeAll(x, ds), ds, n, TextWeights(ds));
    TextWeightOne(ds, j);
  }

  lemma SteadyIsInert(ds: seq<Delta>)
    requires Steady(ds)
    ensures AllInert(ds)
  {
    forall j | 0 <= j < |ds| ensures Inert(ds[j]) {
      SteadyAppendsNothing(ds, j, 0);
      var fs := Fragments(ds[j]);
      forall k | 0 <= k < |fs| ensures !Truthy(fs[k].args) {
        SteadyAppendsNothing(ds, j, fs[k].index);
        ArgsOne(fs, k);
      }
    }
  }

  // ----- What inert deltas leave -----

  function Latest<T>(base: T, values: seq<T>): T {
    if values == [] then base else values[|values| - 1]
  }

  /** The values that fragments for slot `i` write, in order. */
  function Ids(fs: seq<Fragment>, i: nat): seq<string> {
    if fs == [] then []
    else
      var f := fs[|fs| - 1];
      Ids(fs[..|fs| - 1], i) + if f.index == i && Truthy(f.id) then [f.id.value] else []
  }

  function Names(fs: seq<Fragment>, i: nat): seq<string> {
    if fs == [] then []
    else
      var f := fs[|fs| - 1];
      Names(fs[..|fs| - 1], i) + if f.index == i && Truthy(f.name) then [f.name.value] else []
  }

  function Infos(fs: seq<Fragment>, i: nat): seq<Option<string>> {
    if fs == [] then []
    else
      var f := fs[|fs| - 1];
      Infos(fs[..|fs| - 1], i) + if f.index == i && f.info.Some? then [f.info] else []
  }

  predicate Hits(fs: seq<Fragment>, i: nat) {
    exists k :: 0 <= k < |fs| && fs[k].index == i
  }

  function Default(slot: Option<ToolCall>): ToolCall {
    slot.Or(Some(ToolCall("", "", "", None))).value
  }

  /** The slot after inert fragments: there if one of them is for it, with the latest of each value. */
  function Slot(slot: Option<ToolCall>, fs: seq<Fragment>, i: nat): Option<ToolCall> {
    if Hits(fs, i) then
      Some(ToolCall(Latest(Default(slot).id, Ids(fs, i)), Latest(Default(slot).name, Names(fs, i)),
                    Default(slot).args, Latest(Default(slot).info, Infos(fs, i))))
    else
      slot
  }

  lemma HitsSnoc(fs: seq<Fragment>, i: nat)
    requires fs != []
    ensures Hits(fs, i) <==> Hits(fs[..|fs| - 1], i) || fs[|fs| - 1].index == i
  {
    var front := fs[..|fs| - 1];
    if Hits(front, i) {
      var k :| 0 <= k < |front| && front[k].index == i;
      assert fs[k].index == i;
    }
    if Hits(fs, i) {
      var k :| 0 <= k < |fs| && fs[k].index == i;
      assert k < |front| ==> front[k].index == i;
    }
  }

  lemma {:induction false} CallsSnoc(calls: Calls, fs: seq<Fragment>, f: Fragment)
    ensures RuntimeCalls(calls, fs + [f]) == RuntimeCall(RuntimeCalls(calls, fs), f)
    decreases fs
  {
    if fs == [] {
      assert [] + [f] == [f] && [f][1..] == [];
    } else {
      assert (fs + [f])[0] == fs[0] && (fs + [f])[1..] == fs[1..] + [f];
      CallsSnoc(RuntimeCall(calls, fs[0]), fs[1..], f);
    }
  }

  lemma CallAt(calls: Calls, f: Fragment, i: nat)
    requires !Truthy(f.args)
    ensures var base := Default(At(calls, i));
      At(RuntimeCall(calls, f), i) ==
        if f.index == i then
          Some(ToolCall(if Truthy(f.id) then f.id.value else base.id, if Truthy(f.name) then f.name.value else base.name,
                        base.args, f.info.Or(base.info)))
        else At(calls, i)
    ensures |RuntimeCall(calls, f)| == if f.index < |calls| then |calls| else f.index + 1
  {
    assert forall s: string :: s + "" == s;
  }

  lemma {:induction false} NoHits(fs: seq<Fragment>, i: nat)
    requires !Hits(fs, i)
    ensures Ids(fs, i) == [] && Names(fs, i) == [] && Infos(fs, i) == []
    decreases fs
  {
    if fs != [] {
      HitsSnoc(fs, i);
      NoHits(fs[..|fs| - 1], i);
    }
  }

  lemma LatestSnoc<T>(base: T, values: seq<T>, more: seq<T>)
    requires |more| <= 1
    ensures Latest(base, values + more) == if more == [] then Latest(base, values) else more[0]
  {
    assert more == [] ==> values + more == values;
  }

  lemma SlotSnoc(slot: Option<ToolCall>, fs: seq<Fragment>, i: nat)
    requires fs != []
    ensures var f, base := fs[|fs| - 1], Default(Slot(slot, fs[..|fs| - 1], i));
      Slot(slot, fs, i) ==
        if f.index == i then
          Some(ToolCall(if Truthy(f.id) then f.id.value else base.id, if Truthy(f.name) then f.name.value else base.name,
                        base.args, f.info.Or(base.info)))
        else Slot(slot, fs[..|fs| - 1], i)
  {
    var f, front, start := fs[|fs| - 1], fs[..|fs| - 1], Default(slot);
    HitsSnoc(fs, i);
    LatestSnoc(start.id, Ids(front, i), if f.index == i && Truthy(f.id) then [f.id.value] else []);
    LatestSnoc(start.name, Names(front, i), if f.index == i && Truthy(f.name) then [f.name.value] else []);
    LatestSnoc(start.info, Infos(front, i), if f.index == i && f.info.Some? then [f.info] else []);
    if !Hits(front, i) {
      NoHits(front, i);
    }
  }

  lemma {:induction false} SlotRun(calls: Calls, fs: seq<Fragment>, i: nat)
    requires InertFragments(fs)
    ensures At(RuntimeCalls(calls, fs), i) == Slot(At(calls, i), fs, i)
    ensures |RuntimeCalls(calls, fs)| == if |calls| < Bound(fs) then Bound(fs) else |calls|
    decreases fs
  {
    if fs != [] {
      var front, f := fs[..|fs| - 1], fs[|fs| - 1];
      SlotRun(calls, front, i);
      assert fs == front + [f];
      CallsSnoc(calls, front, f);
      CallAt(RuntimeCalls(calls, front), f, i);
      SlotSnoc(At(calls, i), fs, i);
    }
  }

  lemma {:induction false} PrefixValues(first: seq<Fragment>, fs: seq<Fragment>, i: nat)
    requires first <= fs
    ensures Ids(first, i) <= Ids(fs, i) && Names(first, i) <= Names(fs, i) && Infos(first, i) <= Infos(fs, i)
    ensures (Hits(first, i) ==> Hits(fs, i)) && Bound(first) <= Bound(fs)
    decreases fs
  {
    if first != fs {
      PrefixValues(first, fs[..|fs| - 1], i);
      HitsSnoc(fs, i);
    }
  }

  lemma SlotTwice(slot: Option<ToolCall>, first: seq<Fragment>, fs: seq<Fragment>, i: nat)
    requires first <= fs
    ensures Slot(Slot(slot, first, i), fs, i) == Slot(slot, fs, i)
  {
    PrefixValues(first, fs, i);
  }

  lemma CallsTwice(calls: Calls, first: seq<Fragment>, fs: seq<Fragment>)
    requires first <= fs && InertFragments(fs)
    ensures RuntimeCalls(RuntimeCalls(calls, first), fs) == RuntimeCalls(calls, fs)
  {
    var once, again := RuntimeCalls(calls, fs), RuntimeCalls(RuntimeCalls(calls, first), fs);
    SlotRun(calls, fs, 0);
    SlotRun(calls, first, 0);
    SlotRun(RuntimeCalls(calls, first), fs, 0);
    PrefixValues(first, fs, 0);
    forall i | 0 <= i < |once| ensures once[i] == again[i] {
      SlotRun(calls, fs, i);
      SlotRun(calls, first, i);
      SlotRun(RuntimeCalls(calls, first), fs, i);
      SlotTwice(At(calls, i), first, fs, i);
      assert once[i] == At(once, i) && again[i] == At(again, i);
    }
  }

  // ----- Whole messages -----

  function FragmentsOf(ds: seq<Delta>): seq<Fragment> {
    if ds == [] then [] else FragmentsOf(ds[..|ds| - 1]) + Fragments(ds[|ds| - 1])
  }

  function Finishes(ds: seq<Delta>): seq<Option<string>> {
    if ds == [] then []
    else
      var d := ds[|ds| - 1];
      Finishes(ds[..|ds| - 1]) + if Truthy(d.finishReason) then [d.finishReason] else []
  }

  function Usages(ds: seq<Delta>): seq<Option<nat>> {
    if ds == [] then []
    else
      var d := ds[|ds| - 1];
      Usages(ds[..|ds| - 1]) + if d.usage.Some? then [d.usage] else []
  }

  predicate HasCalls(ds: seq<Delta>) {
    exists i :: 0 <= i < |ds| && ds[i].calls.Some?
  }

  lemma HasCallsSnoc(ds: seq<Delta>)
    requires ds != []
    ensures HasCalls(ds) <==> HasCalls(ds[..|ds| - 1]) || ds[|ds| - 1].calls.Some?
    ensures !HasCalls(ds) ==> Fragments(ds[|ds| - 1]) == []
  {
    var front := ds[..|ds| - 1];
    if HasCalls(front) {
      var i :| 0 <= i < |front| && front[i].calls.Some?;
      assert ds[i].calls.Some?;
    }
    if HasCalls(ds) {
      var i :| 0 <= i < |ds| && ds[i].calls.Some?;
      assert i < |front| ==> front[i].calls.Some?;
    }
  }

  lemma {:induction false} CallsConcat(calls: Calls, a: seq<Fragment>, b: seq<Fragment>)
    ensures RuntimeCalls(calls, a + b) == RuntimeCalls(RuntimeCalls(calls, a), b)
    decreases a
  {
    if a == [] {
      assert a + b == b;
    } else {
      assert (a + b)[0] == a[0] && (a + b)[1..] == a[1..] + b;
      CallsConcat(RuntimeCall(calls, a[0]), a[1..], b);
    }
  }

  lemma {:induction false} NoFragments(ds: seq<Delta>)
    requires !HasCalls(ds)
    ensures FragmentsOf(ds) == []
    decreases ds
  {
    if ds != [] {
      HasCallsSnoc(ds);
      NoFragments(ds[..|ds| - 1]);
    }
  }

  /** The content after inert deltas: their blocks are merged, and nothing else happens to it. */
  function ContentAfter(c: Content, bs: seq<BlockDelta>): Content {
    if bs == [] then c else Blocks(MergeBlocks(NormalizedBlocks(c), bs))
  }

  lemma ContentAfterConcat(c: Content, a: seq<BlockDelta>, b: seq<BlockDelta>)
    ensures ContentAfter(c, a + b) == ContentAfter(ContentAfter(c, a), b)
  {
    SteadyBlocks.BlocksConcat(NormalizedBlocks(c), a, b);
    assert [] + b == b && a + [] == a;
  }

  lemma InertMerge(m: Message, d: Delta)
    requires Inert(d)
    ensures MergeStream(m, d) == Message(ContentAfter(m.content, d.blocks), m.refusal, m.reasoning,
      if d.calls.Some? then Some(RuntimeCalls(CallList(m), d.calls.value)) else m.calls,
      if Truthy(d.finishReason) then d.finishReason else m.finishReason, d.usage.Or(m.usage))
  {
  }

  function CallsAfter(m: Message, ds: seq<Delta>): Option<Calls> {
    if HasCalls(ds) then Some(RuntimeCalls(CallList(m), FragmentsOf(ds))) else m.calls
  }

  lemma CallsAfterSnoc(m: Message, ds: seq<Delta>)
    requires ds != []
    ensures var front, d := ds[..|ds| - 1], ds[|ds| - 1];
      var before := if CallsAfter(m, front).Some? then CallsAfter(m, front).value else [];
      CallsAfter(m, ds) == if d.calls.Some? then Some(RuntimeCalls(before, d.calls.value)) else CallsAfter(m, front)
  {
    var front, d := ds[..|ds| - 1], ds[|ds| - 1];
    HasCallsSnoc(ds);
    CallsConcat(CallList(m), FragmentsOf(front), Fragments(d));
    if !HasCalls(front) {
      NoFragments(front);
      assert [] + Fragments(d) == Fragments(d);
    }
    assert FragmentsOf(front) + [] == FragmentsOf(front);
  }

  lemma {:induction false} ContentRun(m: Message, ds: seq<Delta>)
    requires AllInert(ds)
    ensures MergeAll(m, ds).content == ContentAfter(m.content, BlocksOf(ds))
    decreases ds
  {
    if ds != [] {
      var front, d := ds[..|ds| - 1], ds[|ds| - 1];
      ContentRun(m, front);
      InertMerge(MergeAll(m, front), d);
      ContentAfterConcat(m.content, BlocksOf(front), d.blocks);
      hide ContentAfter;
    }
  }

  lemma {:induction false} CallsRun(m: Message, ds: seq<Delta>)
    requires AllInert(ds)
    ensures MergeAll(m, ds).calls == CallsAfter(m, ds)
    decreases ds
  {
    if ds != [] {
      CallsRun(m, ds[..|ds| - 1]);
      CallsAfterSnoc(m, ds);
      InertMerge(MergeAll(m, ds[..|ds| - 1]), ds[|ds| - 1]);
      hide CallsAfter, ContentAfter, MergeStream, RuntimeCalls;
    }
  }

  lemma {:induction false} EndsRun(m: Message, ds: seq<Delta>)
    requires AllInert(ds)
    ensures MergeAll(m, ds).finishReason == Latest(m.finishReason, Finishes(ds)) && MergeAll(m, ds).usage == Latest(m.usage, Usages(ds))
    decreases ds
  {
    if ds != [] {
      EndsRun(m, ds[..|ds| - 1]);
      hide RuntimeCalls, RuntimeContent, MergeBlocks;
    }
  }

  /** Inert deltas leave the texts alone, merge their blocks, and write the latest of everything else. */
  lemma {:induction false} InertRun(m: Message, ds: seq<Delta>)
    requires AllInert(ds)
    ensures MergeAll(m, ds) == Message(ContentAfter(m.content, BlocksOf(ds)), m.refusal, m.reasoning, CallsAfter(m, ds),
                                       Latest(m.finishReason, Finishes(ds)), Latest(m.usage, Usages(ds)))
    decreases ds
  {
    ContentRun(m, ds);
    CallsRun(m, ds);
    EndsRun(m, ds);
    hide ContentAfter, CallsAfter;
    if ds != [] {
      InertRun(m, ds[..|ds| - 1]);
      InertMerge(MergeAll(m, ds[..|ds| - 1]), ds[|ds| - 1]);
    }
  }

  lemma {:induction false} FragmentsInert(ds: seq<Delta>)
    requires AllInert(ds)
    ensures InertFragments(FragmentsOf(ds))
    decreases ds
  {
    if ds != [] {
      FragmentsInert(ds[..|ds| - 1]);
      assert Inert(ds[|ds| - 1]);
    }
  }

  lemma {:induction false} PrefixWrites(first: seq<Delta>, ds: seq<Delta>)
    requires first <= ds
    ensures FragmentsOf(first) <= FragmentsOf(ds) && Finishes(first) <= Finishes(ds) && Usages(first) <= Usages(ds)
    ensures HasCalls(first) ==> HasCalls(ds)
    decreases ds
  {
    if first != ds {
      PrefixWrites(first, ds[..|ds| - 1]);
      HasCallsSnoc(ds);
    }
  }

  lemma {:induction false} PrefixBlocks(first: seq<Delta>, ds: seq<Delta>)
    requires first <= ds
    ensures BlocksOf(first) <= BlocksOf(ds)
    decreases ds
  {
    if first != ds {
      PrefixBlocks(first, ds[..|ds| - 1]);
    }
  }

  lemma ContentTwice(c: Content, first: seq<BlockDelta>, bs: seq<BlockDelta>)
    requires first <= bs && SteadyBlocks.Settled(bs)
    ensures ContentAfter(ContentAfter(c, first), bs) == ContentAfter(c, bs)
  {
    SteadyBlocks.BlocksTwice(NormalizedBlocks(c), first, bs);
  }

  lemma CallsAfterTwice(x: Message, first: seq<Delta>, ds: seq<Delta>)
    requires first <= ds && AllInert(ds)
    ensures CallsAfter(MergeAll(x, first), ds) == CallsAfter(x, ds)
  {
    InertRun(x, first);
    PrefixWrites(first, ds);
    FragmentsInert(ds);
    if HasCalls(first) {
      CallsTwice(CallList(x), FragmentsOf(first), FragmentsOf(ds));
    }
  }

  lemma InertTwice(x: Message, first: seq<Delta>, ds: seq<Delta>)
    requires first <= ds && AllInert(ds) && SteadyBlocks.Settled(BlocksOf(ds))
    ensures MergeAll(MergeAll(x, first), ds) == MergeAll(x, ds)
  {
    hide ContentAfter, BlocksOf, CallsAfter, MergeAll, SteadyBlocks.Settled;
    InertRun(x, first);
    InertRun(x, ds);
    InertRun(MergeAll(x, first), ds);
    PrefixWrites(first, ds);
    PrefixBlocks(first, ds);
    ContentTwice(x.content, BlocksOf(first), BlocksOf(ds));
    CallsAfterTwice(x, first, ds);
  }

  lemma SteadyIsSettled(ds: seq<Delta>)
    requires Steady(ds) && AllInert(ds)
    ensures SteadyBlocks.Settled(BlocksOf(ds))
  {
    var bs := BlocksOf(ds);
    if k :| 0 <= k < |bs| && PayloadOf(bs[k]) != "" && !SteadyBlocks.BothKinds(bs, bs[k].index) {
      var x := Message(Blocks([]), None, None, None, None, None);
      SteadyAll(x, ds);
      InertRun(x, ds);
      InertRun(MergeAll(x, ds), ds);
      SteadyBlocks.UnsettledGrows(bs, k);
    }
  }

  /** Deltas are steady exactly when none of them appends text, reasoning, refusal or arguments, and
      each of their block deltas is empty or is for a block that is sent both text and an image. */
  lemma SteadyExactly(ds: seq<Delta>)
    ensures Steady(ds) <==> AllInert(ds) && SteadyBlocks.Settled(BlocksOf(ds))
  {
    if Steady(ds) {
      SteadyIsInert(ds);
      SteadyIsSettled(ds);
    }
    if AllInert(ds) && SteadyBlocks.Settled(BlocksOf(ds)) {
      forall x: Message, k: nat | k <= |ds| ensures MergeAll(MergeAll(x, ds[..k]), ds) == MergeAll(x, ds) {
        InertTwice(x, ds[..k], ds);
      }
    }
  }
}
