/** What block deltas leave in each block of a message's content, and which of them may be merged again. */
module SteadyBlocks {
  import opened Deltas

  function BlockAt(bs: seq<Block>, i: nat): Block {
    if i < |bs| then bs[i] else TextBlock("")
  }

  function Into(there: Block, d: BlockDelta): Block {
    match d
    case TextDelta(_, t) => TextBlock(if there.TextBlock? then there.text + t else t)
    case ImageDelta(_, u) => ImageBlock(if there.ImageBlock? then there.url + u else u)
  }

  /** The block after the deltas for it. */
  function BlockAfter(there: Block, ds: seq<BlockDelta>, i: nat): Block {
    if ds == [] then there
    else
      var before, d := BlockAfter(there, ds[..|ds| - 1], i), ds[|ds| - 1];
      if d.index == i then Into(before, d) else before
  }

  /** How many blocks there are at least after the deltas. */
  function Reach(ds: seq<BlockDelta>): (n: nat)
    ensures forall k :: 0 <= k < |ds| ==> ds[k].index < n
  {
    if ds == [] then 0
    else
      var rest, d := Reach(ds[..|ds| - 1]), ds[|ds| - 1];
      if d.index < rest then rest else d.index + 1
  }

  lemma {:induction false} BlocksConcat(bs: seq<Block>, a: seq<BlockDelta>, b: seq<BlockDelta>)
    ensures MergeBlocks(bs, a + b) == MergeBlocks(MergeBlocks(bs, a), b)
    decreases a
  {
    if a == [] {
      assert a + b == b;
    } else {
      assert (a + b)[0] == a[0] && (a + b)[1..] == a[1..] + b;
      BlocksConcat(MergeBlock(bs, a[0]), a[1..], b);
    }
  }

  lemma BlocksSnoc(bs: seq<Block>, ds: seq<BlockDelta>, d: BlockDelta)
    ensures MergeBlocks(bs, ds + [d]) == MergeBlock(MergeBlocks(bs, ds), d)
  {
    BlocksConcat(bs, ds, [d]);
    assert [d][0] == d && [d][1..] == [];
  }

  lemma OneBlock(bs: seq<Block>, d: BlockDelta, i: nat)
    ensures BlockAt(MergeBlock(bs, d), i) == if d.index == i then Into(BlockAt(bs, i), d) else BlockAt(bs, i)
    ensures |MergeBlock(bs, d)| == if d.index < |bs| then |bs| else d.index + 1
  {
    var padded := Padded(bs, d.index + 1);
    assert BlockAt(padded, i) == BlockAt(bs, i);
  }

  lemma {:induction false} BlockRun(bs: seq<Block>, ds: seq<BlockDelta>, i: nat)
    ensures BlockAt(MergeBlocks(bs, ds), i) == BlockAfter(BlockAt(bs, i), ds, i)
    ensures |MergeBlocks(bs, ds)| == if |bs| < Reach(ds) then Reach(ds) else |bs|
    decreases ds
  {
    if ds != [] {
      var front, d := ds[..|ds| - 1], ds[|ds| - 1];
      BlockRun(bs, front, i);
      assert ds == front + [d];
      BlocksSnoc(bs, front, d);
      OneBlock(MergeBlocks(bs, front), d, i);
    }
  }

  // ----- Deltas that may be merged again -----

  predicate SendsKind(ds: seq<BlockDelta>, i: nat, text: bool) {
    exists k :: 0 <= k < |ds| && ds[k].index == i && ds[k].TextDelta? == text
  }

  predicate BothKinds(ds: seq<BlockDelta>, i: nat) {
    SendsKind(ds, i, true) && SendsKind(ds, i, false)
  }

  /** Every delta is empty, or its block is sent both text and an image. */
  predicate Settled(ds: seq<BlockDelta>) {
    forall k :: 0 <= k < |ds| ==> PayloadOf(ds[k]) == "" || BothKinds(ds, ds[k].index)
  }

  lemma SendsKindSnoc(ds: seq<BlockDelta>, i: nat, text: bool)
    requires ds != []
    ensures SendsKind(ds, i, text) <==>
      SendsKind(ds[..|ds| - 1], i, text) || (ds[|ds| - 1].index == i && ds[|ds| - 1].TextDelta? == text)
  {
    var front := ds[..|ds| - 1];
    if SendsKind(front, i, text) {
      var k :| 0 <= k < |front| && front[k].index == i && front[k].TextDelta? == text;
      assert ds[k].index == i;
    }
    if SendsKind(ds, i, text) {
      var k :| 0 <= k < |ds| && ds[k].index == i && ds[k].TextDelta? == text;
      assert k < |front| ==> front[k].index == i;
    }
  }

  lemma {:induction false} KindAfter(there: Block, ds: seq<BlockDelta>, i: nat, text: bool)
    requires SendsKind(ds, i, text) && !SendsKind(ds, i, !text)
    ensures if text then BlockAfter(there, ds, i).TextBlock? else BlockAfter(there, ds, i).ImageBlock?
    decreases ds
  {
    SendsKindSnoc(ds, i, text);
    SendsKindSnoc(ds, i, !text);
    if ds[|ds| - 1].index != i {
      KindAfter(there, ds[..|ds| - 1], i, text);
    }
  }

  /** A change of kind starts the block anew. */
  lemma {:induction false} StartsAnew(a: Block, b: Block, ds: seq<BlockDelta>, i: nat)
    requires BothKinds(ds, i)
    ensures BlockAfter(a, ds, i) == BlockAfter(b, ds, i)
    decreases ds
  {
    var front, d := ds[..|ds| - 1], ds[|ds| - 1];
    SendsKindSnoc(ds, i, true);
    SendsKindSnoc(ds, i, false);
    if BothKinds(front, i) {
      StartsAnew(a, b, front, i);
    } else {
      KindAfter(a, front, i, !d.TextDelta?);
      KindAfter(b, front, i, !d.TextDelta?);
    }
  }

  function OfKind(there: Block, text: bool): Block {
    if text then (if there.TextBlock? then there else TextBlock(""))
    else if there.ImageBlock? then there else ImageBlock("")
  }

  lemma {:induction false} EmptyRun(there: Block, ds: seq<BlockDelta>, i: nat, text: bool)
    requires !SendsKind(ds, i, !text)
    requires forall k :: 0 <= k < |ds| && ds[k].index == i ==> PayloadOf(ds[k]) == ""
    ensures BlockAfter(there, ds, i) == if SendsKind(ds, i, text) then OfKind(there, text) else there
    decreases ds
  {
    if ds != [] {
      SendsKindSnoc(ds, i, text);
      SendsKindSnoc(ds, i, !text);
      EmptyRun(there, ds[..|ds| - 1], i, text);
      assert forall s: string :: s + "" == s;
    }
  }

  lemma BlockTwice(there: Block, first: seq<BlockDelta>, ds: seq<BlockDelta>, i: nat)
    requires first <= ds && Settled(ds)
    ensures BlockAfter(BlockAfter(there, first, i), ds, i) == BlockAfter(there, ds, i)
  {
    if BothKinds(ds, i) {
      StartsAnew(BlockAfter(there, first, i), there, ds, i);
    } else {
      var text := SendsKind(ds, i, true);
      assert !SendsKind(ds, i, !text);
      forall k | 0 <= k < |first| && first[k].index == i ensures first[k].TextDelta? == text {
        assert first[k] == ds[k];
      }
      EmptyRun(there, first, i, text);
      EmptyRun(there, ds, i, text);
      EmptyRun(BlockAfter(there, first, i), ds, i, text);
    }
  }

  lemma {:induction false} PrefixReach(first: seq<BlockDelta>, ds: seq<BlockDelta>)
    requires first <= ds
    ensures Reach(first) <= Reach(ds)
    decreases ds
  {
    if first != ds {
      PrefixReach(first, ds[..|ds| - 1]);
    }
  }

  lemma BlocksTwice(bs: seq<Block>, first: seq<BlockDelta>, ds: seq<BlockDelta>)
    requires first <= ds && Settled(ds)
    ensures MergeBlocks(MergeBlocks(bs, first), ds) == MergeBlocks(bs, ds)
  {
    var once, twice := MergeBlocks(bs, ds), MergeBlocks(MergeBlocks(bs, first), ds);
    PrefixReach(first, ds);
    BlockRun(bs, ds, 0);
    BlockRun(bs, first, 0);
    BlockRun(MergeBlocks(bs, first), ds, 0);
    forall i | 0 <= i < |once| ensures once[i] == twice[i] {
      BlockRun(bs, ds, i);
      BlockRun(bs, first, i);
      BlockRun(MergeBlocks(bs, first), ds, i);
      BlockTwice(BlockAt(bs, i), first, ds, i);
      assert once[i] == BlockAt(once, i) && twice[i] == BlockAt(twice, i);
    }
  }

  // ----- Only such deltas may -----

  lemma {:induction false} PayloadConcat(a: seq<BlockDelta>, b: seq<BlockDelta>, i: nat)
    ensures PayloadFor(a + b, i) == PayloadFor(a, i) + PayloadFor(b, i)
    decreases a
  {
    if a == [] {
      assert a + b == b;
    } else {
      assert (a + b)[0] == a[0] && (a + b)[1..] == a[1..] + b;
      PayloadConcat(a[1..], b, i);
    }
  }

  lemma {:induction false} PayloadOne(ds: seq<BlockDelta>, k: nat)
    requires k < |ds|
    ensures |PayloadOf(ds[k])| <= |PayloadFor(ds, ds[k].index)|
    decreases ds
  {
    if k > 0 {
      PayloadOne(ds[1..], k - 1);
    }
  }

  /** From no blocks, a block that is sent one kind only is longer after merging everything again. */
  lemma UnsettledGrows(ds: seq<BlockDelta>, k: nat)
    requires k < |ds| && PayloadOf(ds[k]) != "" && !BothKinds(ds, ds[k].index)
    ensures MergeBlocks(MergeBlocks([], ds), ds) != MergeBlocks([], ds)
  {
    var i, text := ds[k].index, ds[k].TextDelta?;
    assert SendsKind(ds, i, text) && !SendsKind(ds, i, !text);
    assert OneKind([], ds, i, text);
    assert OneKind([], ds + ds, i, text) by {
      forall j | 0 <= j < |ds + ds| && (ds + ds)[j].index == i ensures (ds + ds)[j].TextDelta? == text {
        assert (ds + ds)[j] == ds[if j < |ds| then j else j - |ds|];
      }
    }
    BlocksConcatenate([], ds, i, text);
    BlocksConcatenate([], ds + ds, i, text);
    BlocksConcat([], ds, ds);
    PayloadConcat(ds, ds, i);
    PayloadOne(ds, k);
  }

  /** Merging again after any number of the deltas changes nothing, exactly when they are settled. */
  lemma SettledExactly(ds: seq<BlockDelta>)
    ensures Settled(ds) <==> forall bs, first :: first <= ds ==> MergeBlocks(MergeBlocks(bs, first), ds) == MergeBlocks(bs, ds)
  {
    if Settled(ds) {
      forall bs, first | first <= ds ensures MergeBlocks(MergeBlocks(bs, first), ds) == MergeBlocks(bs, ds) {
        BlocksTwice(bs, first, ds);
      }
    } else {
      var k :| 0 <= k < |ds| && PayloadOf(ds[k]) != "" && !BothKinds(ds, ds[k].index);
      UnsettledGrows(ds, k);
      assert ds <= ds;
    }
  }
}
