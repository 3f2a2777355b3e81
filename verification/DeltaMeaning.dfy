/** What a run of deltas leaves in a message: every text the concatenation of what was sent for it, and
    of everything else the last that was given. */
module DeltaMeaning {
  import opened JsMaps
  import opened Deltas

  function Texts(ds: seq<Delta>): string {
    if ds == [] then "" else Given(ds[0].content) + Texts(ds[1..])
  }

  function Reasonings(ds: seq<Delta>): string {
    if ds == [] then "" else Given(ds[0].reasoning) + Reasonings(ds[1..])
  }

  function Refusals(ds: seq<Delta>): string {
    if ds == [] then "" else Given(ds[0].refusal) + Refusals(ds[1..])
  }

  /** The text of a list of blocks, images and refusals aside. */
  function BlockText(bs: seq<Block>): string {
    if bs == [] then ""
    else BlockText(bs[..|bs| - 1]) + if bs[|bs| - 1].TextBlock? then bs[|bs| - 1].text else ""
  }

  function TextOf(c: Content): string {
    match c
    case Absent => ""
    case Text(text) => text
    case Blocks(blocks) => BlockText(blocks)
  }

  lemma Associate3(a: string, b: string, c: string)
    ensures (a + b) + c == a + (b + c)
  {
  }

  lemma TextStep(c: Content, more: Option<string>)
    ensures TextOf(RuntimeContent(c, more)) == TextOf(c) + Given(more)
    ensures c.Blocks? ==> RuntimeContent(c, more).Blocks?
    ensures !c.Blocks? ==> RuntimeContent(c, more) == if c.Absent? && !Truthy(more) then Absent else Text(TextOf(c) + Given(more))
  {
    if Truthy(more) && c.Blocks? {
      var bs, after := c.blocks, RuntimeContent(c, more).blocks;
      if bs != [] && bs[|bs| - 1].TextBlock? {
        assert after[..|after| - 1] == bs[..|bs| - 1];
        Associate3(BlockText(bs[..|bs| - 1]), bs[|bs| - 1].text, more.value);
      } else {
        assert after[..|after| - 1] == bs;
      }
    } else {
      assert TextOf(c) + "" == TextOf(c);
    }
  }

  /** The runtime's merge appends every text, reasoning and refusal, in order. */
  lemma {:induction false} RuntimeConcatenates(m: Message, ds: seq<Delta>)
    ensures TextOf(RuntimeRun(m, ds).content) == TextOf(m.content) + Texts(ds)
    ensures RuntimeRun(m, ds).content.Blocks? <==> m.content.Blocks?
    ensures Given(RuntimeRun(m, ds).reasoning) == Given(m.reasoning) + Reasonings(ds)
    ensures Given(RuntimeRun(m, ds).refusal) == Given(m.refusal) + Refusals(ds)
    decreases ds
  {
    if ds == [] {
      assert TextOf(m.content) + "" == TextOf(m.content);
      assert Given(m.reasoning) + "" == Given(m.reasoning) && Given(m.refusal) + "" == Given(m.refusal);
    } else {
      var d := ds[0];
      RuntimeConcatenates(RuntimeMerge(m, d), ds[1..]);
      TextStep(m.content, d.content);
      Associate3(TextOf(m.content), Given(d.content), Texts(ds[1..]));
      Associate3(Given(m.reasoning), Given(d.reasoning), Reasonings(ds[1..]));
      Associate3(Given(m.refusal), Given(d.refusal), Refusals(ds[1..]));
      assert Given(Append(m.reasoning, d.reasoning)) == Given(m.reasoning) + Given(d.reasoning);
      assert Given(Append(m.refusal, d.refusal)) == Given(m.refusal) + Given(d.refusal);
    }
  }

  /** The SDK's merge does so too for text on content that has no blocks, and for reasoning; block
      content it leaves as it is, and of refusals it keeps the last. */
  lemma {:induction false} SdkConcatenates(m: Message, ds: seq<Delta>)
    ensures if m.content.Blocks? then SdkRun(m, ds).content == m.content
      else !SdkRun(m, ds).content.Blocks? && TextOf(SdkRun(m, ds).content) == TextOf(m.content) + Texts(ds)
    ensures Given(SdkRun(m, ds).reasoning) == Given(m.reasoning) + Reasonings(ds)
    ensures SdkRun(m, ds).refusal == LastGiven(m.refusal, GivenRefusals(ds))
    decreases ds
  {
    if ds == [] {
      assert TextOf(m.content) + "" == TextOf(m.content) && Given(m.reasoning) + "" == Given(m.reasoning);
    } else {
      var d := ds[0];
      SdkConcatenates(SdkMerge(m, d), ds[1..]);
      Associate3(TextOf(m.content), Given(d.content), Texts(ds[1..]));
      Associate3(Given(m.reasoning), Given(d.reasoning), Reasonings(ds[1..]));
      assert TextOf(m.content) + "" == TextOf(m.content);
      assert Given(Append(m.reasoning, d.reasoning)) == Given(m.reasoning) + Given(d.reasoning);
      if !m.content.Blocks? {
        assert TextOf(SdkMerge(m, d).content) == TextOf(m.content) + Given(d.content);
      }
    }
  }

  // ----- What is replaced -----

  function LastGiven<T>(base: Option<T>, given: seq<T>): Option<T> {
    if given == [] then base else Some(given[|given| - 1])
  }

  function GivenRefusals(ds: seq<Delta>): seq<string> {
    if ds == [] then [] else (if ds[0].refusal.Some? then [ds[0].refusal.value] else []) + GivenRefusals(ds[1..])
  }

  function GivenUsages(ds: seq<Delta>): seq<nat> {
    if ds == [] then [] else (if ds[0].usage.Some? then [ds[0].usage.value] else []) + GivenUsages(ds[1..])
  }

  /** Finish reasons; `blank` ones count for one of the mergers only. */
  function GivenReasons(ds: seq<Delta>, blank: bool): seq<string> {
    if ds == [] then []
    else
      (if ds[0].finishReason.Some? && (blank || ds[0].finishReason.value != "") then [ds[0].finishReason.value] else [])
      + GivenReasons(ds[1..], blank)
  }

  /** The finish reason and the usage are the last that were given; an empty reason is none for the
      runtime, and one for the SDK. */
  lemma LastGivenCounts(a: Message, b: Message, ds: seq<Delta>)
    ensures RuntimeRun(a, ds).usage == LastGiven(a.usage, GivenUsages(ds))
    ensures SdkRun(b, ds).usage == LastGiven(b.usage, GivenUsages(ds))
    ensures RuntimeRun(a, ds).finishReason == LastGiven(a.finishReason, GivenReasons(ds, false))
    ensures SdkRun(b, ds).finishReason == LastGiven(b.finishReason, GivenReasons(ds, true))
  {
    LastUsageCounts(a, b, ds);
    LastReasonCounts(a, b, ds);
  }

  lemma {:induction false} LastUsageCounts(a: Message, b: Message, ds: seq<Delta>)
    ensures RuntimeRun(a, ds).usage == LastGiven(a.usage, GivenUsages(ds))
    ensures SdkRun(b, ds).usage == LastGiven(b.usage, GivenUsages(ds))
    decreases ds
  {
    if ds != [] {
      LastUsageCounts(RuntimeMerge(a, ds[0]), SdkMerge(b, ds[0]), ds[1..]);
    }
  }

  lemma {:induction false} LastReasonCounts(a: Message, b: Message, ds: seq<Delta>)
    ensures RuntimeRun(a, ds).finishReason == LastGiven(a.finishReason, GivenReasons(ds, false))
    ensures SdkRun(b, ds).finishReason == LastGiven(b.finishReason, GivenReasons(ds, true))
    decreases ds
  {
    if ds != [] {
      LastReasonCounts(RuntimeMerge(a, ds[0]), SdkMerge(b, ds[0]), ds[1..]);
    }
  }

  // ----- The identity of a call -----

  /** The ids that fragments give slot `i`, in order; and likewise its names and information. */
  function GivenIds(fs: seq<Fragment>, i: nat): seq<string> {
    if fs == [] then [] else (if fs[0].index == i && Truthy(fs[0].id) then [fs[0].id.value] else []) + GivenIds(fs[1..], i)
  }

  function GivenNames(fs: seq<Fragment>, i: nat): seq<string> {
    if fs == [] then [] else (if fs[0].index == i && Truthy(fs[0].name) then [fs[0].name.value] else []) + GivenNames(fs[1..], i)
  }

  function GivenInfos(fs: seq<Fragment>, i: nat): seq<string> {
    if fs == [] then [] else (if fs[0].index == i && fs[0].info.Some? then [fs[0].info.value] else []) + GivenInfos(fs[1..], i)
  }

  function Or<T>(o: Option<T>, otherwise: T): T {
    if o.Some? then o.value else otherwise
  }

  /** A slot that is not there has nothing yet. */
  function Held(slot: Option<ToolCall>): ToolCall {
    if slot.Some? then slot.value else ToolCall("", "", "", None)
  }

  lemma OneCall(calls: Calls, f: Fragment, i: nat)
    ensures var before, after := At(calls, i), At(RuntimeCall(calls, f), i);
      if f.index != i then after == before
      else
        && after.Some?
        && after.value.id == (if Truthy(f.id) then f.id.value else Held(before).id)
        && after.value.name == (if Truthy(f.name) then f.name.value else Held(before).name)
        && after.value.info == if f.info.Some? then f.info else Held(before).info
  {
  }

  lemma LastAfter<T>(base: T, first: seq<T>, rest: seq<T>)
    requires |first| <= 1
    ensures Or(LastGiven(None, first + rest), base) == Or(LastGiven(None, rest), Or(LastGiven(None, first), base))
  {
  }

  lemma LastInfo(base: Option<string>, first: seq<string>, rest: seq<string>)
    requires |first| <= 1
    ensures LastGiven(base, first + rest) == LastGiven(LastGiven(base, first), rest)
  {
  }

  predicate Addressed(fs: seq<Fragment>, i: nat) {
    exists k :: 0 <= k < |fs| && fs[k].index == i
  }

  lemma AddressedFirst(fs: seq<Fragment>, i: nat)
    requires fs != []
    ensures Addressed(fs, i) <==> fs[0].index == i || Addressed(fs[1..], i)
  {
    if k :| 0 <= k < |fs| && fs[k].index == i {
      assert k > 0 ==> fs[1..][k - 1] == fs[k];
    }
    if k :| 0 <= k < |fs[1..]| && fs[1..][k].index == i {
      assert fs[k + 1].index == i;
    }
  }

  /** A slot is there when it was or a fragment is for it, and has the last id, name and information
      given for it, or what it had. */
  lemma {:induction false} CallsAreNamed(calls: Calls, fs: seq<Fragment>, i: nat)
    ensures var before, after := At(calls, i), At(RuntimeCalls(calls, fs), i);
      && (after.Some? <==> before.Some? || Addressed(fs, i))
      && Held(after).id == Or(LastGiven(None, GivenIds(fs, i)), Held(before).id)
      && Held(after).name == Or(LastGiven(None, GivenNames(fs, i)), Held(before).name)
      && Held(after).info == LastGiven(Held(before).info, GivenInfos(fs, i))
    decreases fs
  {
    if fs != [] {
      var f, rest := fs[0], fs[1..];
      var held := Held(At(calls, i));
      OneCall(calls, f, i);
      AddressedFirst(fs, i);
      CallsAreNamed(RuntimeCall(calls, f), rest, i);
      hide RuntimeCall, At, Addressed;
      LastAfter(held.id, if f.index == i && Truthy(f.id) then [f.id.value] else [], GivenIds(rest, i));
      LastAfter(held.name, if f.index == i && Truthy(f.name) then [f.name.value] else [], GivenNames(rest, i));
      LastInfo(held.info, if f.index == i && f.info.Some? then [f.info.value] else [], GivenInfos(rest, i));
    }
  }
}
