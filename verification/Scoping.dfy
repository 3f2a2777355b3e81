/** Which root messages a turn group shows: by its turns' records, or as what was added since the
    group's baseline. */
module Scoping {
  import opened JsMaps
  import opened Events
  import opened Fold
  import opened Paging
  import PrependLaws
  import Replay

  /** The root messages that are not in the baseline, in order. */
  function SinceBaseline(roots: seq<Id>, baseline: seq<Id>): seq<Id> {
    if roots == [] then []
    else SinceBaseline(roots[..|roots| - 1], baseline) + if roots[|roots| - 1] in baseline then [] else [roots[|roots| - 1]]
  }

  /** The root messages of every group before the last one. */
  method ComputeGroupRootBaseline(turns: seq<TurnRecord>) returns (baseline: seq<Id>)
    ensures baseline == AllRootIds(Earlier(turns))
  {
    var start := |turns| - 1;
    while start >= 0 && !OpensGroup(turns[start].input)
      invariant -1 <= start < |turns|
      invariant forall k :: start < k < |turns| ==> !OpensGroup(turns[k].input)
    {
      start := start - 1;
    }
    StartIsUnique(turns, start);
    baseline := [];
    var i := 0;
    while i < start
      invariant 0 <= i && (start >= 0 ==> i <= start && baseline == AllRootIds(turns[..i]))
      invariant start < 0 ==> baseline == []
    {
      assert turns[..i + 1] == turns[..i] + [turns[i]];
      RootIdsSnoc(turns[..i], turns[i]);
      baseline := baseline + turns[i].rootIds;
      i := i + 1;
    }
  }

  lemma StartIsUnique(turns: seq<TurnRecord>, start: int)
    requires -1 <= start < |turns| && (start >= 0 ==> OpensGroup(turns[start].input))
    requires forall k :: start < k < |turns| ==> !OpensGroup(turns[k].input)
    ensures start == GroupStart(turns)
  {
    var i := GroupStart(turns);
  }

  lemma {:induction false} RootIdsSnoc(turns: seq<TurnRecord>, last: TurnRecord)
    ensures AllRootIds(turns + [last]) == AllRootIds(turns) + last.rootIds
    decreases turns
  {
    if turns == [] {
      assert [] + [last] == [last] && [last][1..] == [];
      assert last.rootIds + [] == [] + last.rootIds;
    } else {
      RootIdsSnoc(turns[1..], last);
      assert (turns + [last])[1..] == turns[1..] + [last];
      assert turns[0].rootIds + (AllRootIds(turns[1..]) + last.rootIds) == (turns[0].rootIds + AllRootIds(turns[1..])) + last.rootIds;
    }
  }

  lemma {:induction false} SinceMembers(roots: seq<Id>, baseline: seq<Id>)
    ensures Members(SinceBaseline(roots, baseline)) == Members(roots) - Members(baseline)
    decreases roots
  {
    if roots != [] {
      var front, last := roots[..|roots| - 1], roots[|roots| - 1];
      SinceMembers(front, baseline);
      assert roots == front + [last];
      MembersConcat(front, [last]);
      MembersConcat(SinceBaseline(front, baseline), if last in baseline then [] else [last]);
      assert last in baseline <==> last in Members(baseline);
    }
  }

  lemma {:induction false} RootIdsConcat(a: seq<TurnRecord>, b: seq<TurnRecord>)
    ensures AllRootIds(a + b) == AllRootIds(a) + AllRootIds(b)
    decreases a
  {
    if a == [] {
      assert a + b == b;
    } else {
      RootIdsConcat(a[1..], b);
      assert (a + b)[1..] == a[1..] + b;
      assert a[0].rootIds + (AllRootIds(a[1..]) + AllRootIds(b)) == (a[0].rootIds + AllRootIds(a[1..])) + AllRootIds(b);
    }
  }

  // ----- The records of an ingestion cover its root messages -----

  /** Every turn is done before the next one is created. */
  predicate Bracketed(items: seq<Item>) {
    items != [] ==>
      && Bracketed(items[..|items| - 1])
      && (IsCreated(items[|items| - 1]) ==> IngestItems(NOTHING, items[..|items| - 1]).open.None?)
  }

  /** The root messages of the turn still open. */
  function OpenTip(s: Ingestion): seq<Id> {
    if s.open.Some? then From(RootIds(s.fold), s.open.value.before) else []
  }

  ghost predicate Covered(s: Ingestion) {
    && AllRootIds(s.turns) + OpenTip(s) == RootIds(s.fold)
    && (s.open.Some? ==> s.open.value.before == |AllRootIds(s.turns)|)
  }

  lemma {:induction false} AnswersKeepRoots(f: Fold, ops: seq<Op>)
    requires forall i :: 0 <= i < |ops| ==> !ops[i].Ingested?
    ensures RootIds(Run(f, ops)) == RootIds(f)
    decreases ops
  {
    if ops != [] {
      AnswersKeepRoots(f, ops[..|ops| - 1]);
    }
  }

  lemma {:induction false} InputsAreAnswers(input: seq<InputItem>)
    ensures forall i :: 0 <= i < |InputOps(input)| ==> !InputOps(input)[i].Ingested?
    decreases input
  {
    if input != [] {
      InputsAreAnswers(input[1..]);
    }
  }

  lemma ContentGrows(f: Fold, e: Event)
    ensures RootIds(f) <= RootIds(Ingest(History, f, e))
  {
    if !Skipped(History, e) && e.thread == Some(ROOT) {
      PrependLaws.ModelIdGrowth(Named(BucketOf(f, ROOT), e), e);
    }
  }

  lemma CoveredContent(s: Ingestion, e: Event)
    requires Covered(s) && s.open.Some?
    ensures Covered(Content(s, e))
  {
    ContentGrows(s.fold, e);
    var before, after := RootIds(s.fold), RootIds(Content(s, e).fold);
    var n := s.open.value.before;
    assert before[..n] == AllRootIds(s.turns);
    assert after[..n] == before[..n];
    assert after == after[..n] + after[n..];
  }

  lemma CoveredClose(s: Ingestion, state: DoneState)
    requires Covered(s) && s.open.Some?
    ensures Covered(Close(s, state))
  {
    InputsAreAnswers(s.open.value.input);
    AnswersKeepRoots(s.fold, InputOps(s.open.value.input));
    var closed := Close(s, state);
    RootIdsSnoc(s.turns, closed.turns[|s.turns|]);
    assert AllRootIds(closed.turns) + [] == AllRootIds(closed.turns);
  }

  /** The records' root messages, and those of the open tip, are all root messages, in order. */
  lemma {:induction false} IngestionCovers(items: seq<Item>)
    requires Bracketed(items)
    ensures Covered(IngestItems(NOTHING, items))
    decreases items
  {
    if items != [] {
      var front, last := items[..|items| - 1], items[|items| - 1];
      IngestionCovers(front);
      var s := IngestItems(NOTHING, front);
      match last.event.body {
        case TurnCreated(_) => assert AllRootIds(s.turns) + [] == AllRootIds(s.turns);
        case TurnDone(state) =>
          if s.open.Some? {
            CoveredClose(s, state);
          }
        case _ =>
          if s.open.Some? {
            CoveredContent(s, last.event);
          }
      }
    }
  }

  lemma {:induction false} SinceAll(roots: seq<Id>, baseline: seq<Id>)
    requires forall i :: 0 <= i < |roots| ==> roots[i] !in baseline
    ensures SinceBaseline(roots, baseline) == roots
    decreases roots
  {
    if roots != [] {
      SinceAll(roots[..|roots| - 1], baseline);
      assert roots == roots[..|roots| - 1] + [roots[|roots| - 1]];
    }
  }

  lemma {:induction false} SinceNone(roots: seq<Id>, baseline: seq<Id>)
    requires forall i :: 0 <= i < |roots| ==> roots[i] in baseline
    ensures SinceBaseline(roots, baseline) == []
    decreases roots
  {
    if roots != [] {
      SinceNone(roots[..|roots| - 1], baseline);
    }
  }

  lemma {:induction false} SinceConcat(a: seq<Id>, b: seq<Id>, baseline: seq<Id>)
    ensures SinceBaseline(a + b, baseline) == SinceBaseline(a, baseline) + SinceBaseline(b, baseline)
    decreases b
  {
    if b == [] {
      assert a + b == a;
    } else {
      SinceConcat(a, b[..|b| - 1], baseline);
      assert (a + b)[..|a + b| - 1] == a + b[..|b| - 1];
    }
  }

  lemma PrefixScope(roots: seq<Id>, baseline: seq<Id>)
    requires baseline <= roots && Distinct(roots)
    ensures SinceBaseline(roots, baseline) == roots[|baseline|..]
  {
    var rest := roots[|baseline|..];
    assert roots == baseline + rest;
    SinceConcat(baseline, rest, baseline);
    SinceNone(baseline, baseline);
    forall i | 0 <= i < |rest| ensures rest[i] !in baseline {
      forall j | 0 <= j < |baseline| ensures baseline[j] != rest[i] {
        assert roots[j] != roots[|baseline| + i];
      }
    }
    SinceAll(rest, baseline);
    assert [] + rest == rest;
  }

  // ----- The active group -----

  /** The active group's root messages: those of its finished turns, then those of an open tip. */
  function GroupIds(s: Ingestion): seq<Id> {
    (if s.open.Some? && OpensGroup(s.open.value.input) then [] else AllRootIds(LastGroup(s.turns))) + OpenTip(s)
  }

  lemma GroupsSplit(turns: seq<TurnRecord>)
    ensures AllRootIds(turns) == AllRootIds(Earlier(turns)) + AllRootIds(LastGroup(turns))
  {
    assert turns == Earlier(turns) + LastGroup(turns);
    RootIdsConcat(Earlier(turns), LastGroup(turns));
  }

  lemma AfterPrefix(roots: seq<Id>, earlier: seq<Id>, last: seq<Id>, tip: seq<Id>)
    requires roots == (earlier + last) + tip
    ensures earlier <= roots && roots[|earlier|..] == last + tip
  {
  }

  /** The root message that an event adds. */
  function Added(roots: seq<Id>, e: Event): seq<Id> {
    if e.thread == Some(ROOT) && e.body.ModelMessage? && e.id !in roots then [e.id] else []
  }

  lemma RootAdded(f: Fold, e: Event)
    requires !IsTurnScoped(e)
    ensures RootIds(Ingest(History, f, e)) == RootIds(f) + Added(RootIds(f), e)
  {
    Replay.IngestBucket(History, f, e, ROOT);
    Replay.BucketStepFields(History, BucketOf(f, ROOT), e);
    assert RootIds(f) + [] == RootIds(f);
  }

  /** The root messages of a fold are distinct, since each is listed when it first arrives. */
  lemma {:induction false} RootsDistinct(items: seq<Item>)
    ensures Distinct(RootIds(IngestItems(NOTHING, items).fold))
    decreases items
  {
    if items != [] {
      var front, last := items[..|items| - 1], items[|items| - 1];
      RootsDistinct(front);
      RootsStayDistinct(IngestItems(NOTHING, front), last);
    }
  }

  lemma RootsStayDistinct(s: Ingestion, item: Item)
    requires Distinct(RootIds(s.fold))
    ensures Distinct(RootIds(IngestItem(s, item).fold))
  {
    if s.open.Some? && item.event.body.TurnDone? {
      InputsAreAnswers(s.open.value.input);
      AnswersKeepRoots(s.fold, InputOps(s.open.value.input));
    } else if s.open.Some? && !IsCreated(item) {
      RootAdded(s.fold, item.event);
    }
  }

  /** The root messages since the computed baseline are exactly those of the last group's turns and
      of the open tip, in order. */
  lemma SinceBaselineIsLastGroup(items: seq<Item>, s: Ingestion)
    requires Bracketed(items) && s == IngestItems(NOTHING, items)
    ensures SinceBaseline(RootIds(s.fold), AllRootIds(Earlier(s.turns))) == AllRootIds(LastGroup(s.turns)) + OpenTip(s)
  {
    IngestionCovers(items);
    RootsDistinct(items);
    var earlier, last, tip := AllRootIds(Earlier(s.turns)), AllRootIds(LastGroup(s.turns)), OpenTip(s);
    GroupsSplit(s.turns);
    AfterPrefix(RootIds(s.fold), earlier, last, tip);
    PrefixScope(RootIds(s.fold), earlier);
  }

  /** What a snapshot shows of the active group: everything since the held baseline, or since the
      one computed from the turns. */
  function ActiveScope(snap: Snapshot): seq<Id> {
    SinceBaseline(RootIds(snap.fold), if snap.baseline.Some? then snap.baseline.value else AllRootIds(Earlier(snap.turns)))
  }

  lemma SettlingKeepsRoots(s: Ingestion)
    ensures RootIds(Settled(s)) == RootIds(s.fold)
  {
    if s.open.Some? {
      var ops := InputOps(s.open.value.input);
      InputsAreAnswers(s.open.value.input);
      AnswersKeepRoots(s.fold, ops);
      AnswersKeepRoots(Run(s.fold, ops), ops);
    }
  }

  /** A snapshot of a log's ingestion, with the tip's baseline, shows the active group. */
  lemma ScopeIsGroup(snap: Snapshot, s: Ingestion, settled: bool)
    requires Bracketed(snap.history) && s == IngestItems(NOTHING, snap.history)
    requires IsIngested(snap, settled) && snap.baseline == TipBaseline(s)
    ensures ActiveScope(snap) == GroupIds(s)
  {
    SettlingKeepsRoots(s);
    SinceBaselineIsLastGroup(snap.history, s);
    if s.open.Some? && OpensGroup(s.open.value.input) {
      IngestionCovers(snap.history);
      RootsDistinct(snap.history);
      PrefixScope(RootIds(s.fold), AllRootIds(s.turns));
      assert [] + OpenTip(s) == OpenTip(s);
    }
  }

  // ----- Scrolling up -----

  /** Whether a turn is left open depends on the items from the last turn start on. */
  lemma {:induction false} OpenAfter(a: Ingestion, items: seq<Item>)
    requires items != [] && IsCreated(items[0])
    ensures IngestItems(a, items).open.None? <==> IngestItems(NOTHING, items).open.None?
    decreases items
  {
    if |items| > 1 {
      OpenAfter(a, items[..|items| - 1]);
    } else {
      assert items[..0] == [];
    }
  }

  lemma {:induction false} BracketedSuffix(before: seq<Item>, items: seq<Item>)
    requires Bracketed(before + items) && StartsTurn(items)
    ensures Bracketed(items)
    decreases items
  {
    if items != [] {
      var front, last := items[..|items| - 1], items[|items| - 1];
      assert (before + items)[..|before + items| - 1] == before + front;
      BracketedSuffix(before, front);
      if IsCreated(last) && front != [] {
        IngestItemsConcat(NOTHING, before, front);
        OpenAfter(IngestItems(NOTHING, before), front);
      }
    }
  }

  ghost predicate GroupStarted(s: Ingestion) {
    GroupStart(s.turns) >= 0 || (s.open.Some? && OpensGroup(s.open.value.input))
  }

  lemma GroupStartSnoc(turns: seq<TurnRecord>, last: TurnRecord)
    ensures GroupStart(turns + [last]) == if OpensGroup(last.input) then |turns| else GroupStart(turns)
  {
    assert (turns + [last])[..|turns|] == turns;
  }

  /** From a user's turn on, there is a last group. */
  lemma {:induction false} StartsWithGroup(items: seq<Item>)
    requires items != [] && IsCreated(items[0]) && OpensGroup(items[0].event.body.input) && Bracketed(items)
    ensures GroupStarted(IngestItems(NOTHING, items))
    decreases items
  {
    var front, last := items[..|items| - 1], items[|items| - 1];
    if front == [] {
      assert IngestItems(NOTHING, front) == NOTHING;
    } else {
      StartsWithGroup(front);
      var s := IngestItems(NOTHING, front);
      if s.open.Some? && last.event.body.TurnDone? {
        GroupStartSnoc(s.turns, Close(s, last.event.body.state).turns[|s.turns|]);
      }
    }
  }

  lemma {:induction false} PropagateKeeps(known: Option<Id>, turns: seq<TurnRecord>)
    ensures |Propagate(known, turns)| == |turns| && AllRootIds(Propagate(known, turns)) == AllRootIds(turns)
    ensures forall i :: 0 <= i < |turns| ==> Propagate(known, turns)[i] == turns[i].(sandbox := Propagate(known, turns)[i].sandbox)
    decreases turns
  {
    if turns != [] {
      PropagateKeeps(turns[0].sandbox.Or(known), turns[1..]);
    }
  }

  lemma {:induction false} SameRootIds(a: seq<TurnRecord>, b: seq<TurnRecord>)
    requires |a| == |b| && forall i :: 0 <= i < |a| ==> a[i].rootIds == b[i].rootIds
    ensures AllRootIds(a) == AllRootIds(b)
    decreases a
  {
    if a != [] {
      SameRootIds(a[1..], b[1..]);
    }
  }

  lemma CutJoined(older: seq<TurnRecord>, more: seq<TurnRecord>, i: nat)
    requires i <= |more|
    ensures (older + more)[..|older| + i] == older + more[..i] && (older + more)[|older| + i..] == more[i..]
  {
  }

  lemma {:induction false} JoinedStart(older: seq<TurnRecord>, turns: seq<TurnRecord>, carried: seq<TurnRecord>)
    requires GroupStart(turns) >= 0 && |carried| == |turns|
    requires forall i :: 0 <= i < |turns| ==> carried[i].input == turns[i].input
    ensures GroupStart(older + carried) == |older| + GroupStart(turns)
    decreases turns
  {
    var n := |turns| - 1;
    assert carried == carried[..n] + [carried[n]];
    assert older + carried == (older + carried[..n]) + [carried[n]];
    GroupStartSnoc(older + carried[..n], carried[n]);
    if !OpensGroup(turns[n].input) {
      JoinedStart(older, turns[..n], carried[..n]);
    }
  }

  /** Records put in front belong to earlier groups. */
  lemma EarlierJoined(older: seq<TurnRecord>, turns: seq<TurnRecord>, carried: seq<TurnRecord>)
    requires GroupStart(turns) >= 0 && |carried| == |turns|
    requires forall i :: 0 <= i < |turns| ==> carried[i].input == turns[i].input && carried[i].rootIds == turns[i].rootIds
    ensures AllRootIds(Earlier(older + carried)) == AllRootIds(older) + AllRootIds(Earlier(turns))
    ensures AllRootIds(LastGroup(older + carried)) == AllRootIds(LastGroup(turns))
  {
    var start := GroupStart(turns);
    JoinedStart(older, turns, carried);
    CutJoined(older, carried, start);
    RootIdsConcat(older, carried[..start]);
    SameRootIds(carried[..start], turns[..start]);
    SameRootIds(carried[start..], turns[start..]);
  }

  lemma JoinKeepsTip(a: Ingestion, newer: Ingestion, whole: Ingestion)
    requires Joins(a, newer, whole)
    ensures Tip(whole) == Tip(newer) && OpenTip(whole) == OpenTip(newer)
  {
    JoinRootIds(a.fold, newer.fold);
    if newer.open.Some? {
      FromShifted(RootIds(a.fold), RootIds(newer.fold), newer.open.value.before);
    }
  }

  /** Putting an older window in front leaves the active group alone and puts the window's root
      messages before its baseline. */
  lemma JoinKeepsGroup(a: Ingestion, newer: Ingestion, whole: Ingestion, carried: seq<TurnRecord>)
    requires Joins(a, newer, whole) && GroupStarted(newer) && carried == Propagate(a.sandbox, newer.turns)
    ensures GroupIds(whole) == GroupIds(newer) && Tip(whole) == Tip(newer)
    ensures TipBaseline(whole)
      == if newer.open.Some? then Some(AllRootIds(a.turns) + TipBaseline(newer).value) else None
  {
    PropagateKeeps(a.sandbox, newer.turns);
    RootIdsConcat(a.turns, carried);
    JoinKeepsTip(a, newer, whole);
    if GroupStart(newer.turns) >= 0 {
      EarlierJoined(a.turns, newer.turns, carried);
    }
  }

  /** The snapshot resumes the tip of its history, with the baseline of that tip's group. */
  ghost predicate HoldsTip(snap: Snapshot) {
    && snap.running == Tip(IngestItems(NOTHING, snap.history))
    && snap.baseline == TipBaseline(IngestItems(NOTHING, snap.history))
  }

  lemma HistoryBracketed(pages: Pages, snap: Snapshot) returns (before: seq<Item>)
    requires Ready(pages, snap) && Bracketed(Suffix(pages, |pages|))
    ensures Bracketed(snap.history) && before + snap.history == Suffix(pages, |pages|)
  {
    before := HistoryIsSuffix(pages, snap);
    BracketedSuffix(before, snap.history);
  }

  /** One load of older pages keeps the tip and what the active group shows. */
  lemma PrependKeepsTip(pages: Pages, snap: Snapshot, next: Snapshot, settled: bool)
    requires GroupsIndependent(Suffix(pages, |pages|)) && Bracketed(Suffix(pages, |pages|))
    requires Ready(pages, snap) && NextWindow(pages, snap, next)
    requires IsIngested(snap, settled) && HoldsTip(snap) && !StoppedInGroup(snap) && snap.history != []
    ensures HoldsTip(next) && next.running == snap.running
    ensures GroupIds(IngestItems(NOTHING, next.history)) == GroupIds(IngestItems(NOTHING, snap.history))
  {
    if snap.older.Some? {
      var w := FetchWindow(pages, snap.older.value, snap.pending);
      if w.items != [] {
        var s, newer := IngestItems(NOTHING, w.items), IngestItems(NOTHING, snap.history);
        var before := HistoryBracketed(pages, snap);
        WindowIsSeparate(pages, snap);
        DisjointIds(w.items, snap.history);
        FreshAll(s.turns, TurnIds(snap.turns));
        IngestionKept(w.items);
        ClearWindow(w.items, snap.history);
        JoinItems(s, snap.history);
        IngestItemsConcat(NOTHING, w.items, snap.history);
        StartsWithGroup(snap.history);
        JoinKeepsGroup(s, newer, IngestItems(NOTHING, next.history), Propagate(s.sandbox, newer.turns));
      }
    }
  }

  lemma FirstHoldsTip(pages: Pages)
    requires |pages| > 0
    ensures HoldsTip(LoadNewest(pages))
  {
  }

  lemma {:induction false} LoadsHoldTip(pages: Pages, snaps: seq<Snapshot>, n: nat)
    requires Scroll(pages, snaps) && n < |snaps| && snaps[0].history != []
    requires GroupsIndependent(Suffix(pages, |pages|)) && Bracketed(Suffix(pages, |pages|))
    requires forall k :: 0 <= k < n ==> !StoppedInGroup(snaps[k])
    ensures HoldsTip(snaps[n])
    ensures GroupIds(IngestItems(NOTHING, snaps[n].history)) == GroupIds(IngestItems(NOTHING, snaps[0].history))
    decreases n
  {
    if n == 0 {
      FirstHoldsTip(pages);
    } else {
      LoadsHoldTip(pages, snaps, n - 1);
      LoadsAreIngestions(pages, snaps, n - 1);
      ScrollCovers(pages, snaps, n - 1);
      PrependKeepsTip(pages, snaps[n - 1], snaps[n], true);
    }
  }

  lemma {:induction false} NeverResumes(pages: Pages, snaps: seq<Snapshot>, n: nat)
    requires Scroll(pages, snaps) && n < |snaps| && snaps[0].history == []
    ensures snaps[n].running.None? && snaps[n].baseline.None?
    decreases n
  {
    if n > 0 {
      NeverResumes(pages, snaps, n - 1);
    } else {
      assert IngestItems(NOTHING, []) == NOTHING;
    }
  }

  /** Scrolled to its start, a session whose turns are bracketed resumes its open tip, under the
      baseline that loading it at once computes, exactly when the first load reached a turn or
      there is no open tip. */
  lemma TipIsResumed(pages: Pages, snaps: seq<Snapshot>, log: seq<Item>, last: Snapshot)
    requires Scroll(pages, snaps) && |snaps| > |pages| && last == snaps[|snaps| - 1]
    requires log == Suffix(pages, |pages|) && GroupsIndependent(log) && StartsTurn(log) && Bracketed(log)
    requires forall k :: 0 <= k < |snaps| - 1 ==> !StoppedInGroup(snaps[k])
    ensures last.history == log
    ensures HoldsTip(last) <==> snaps[0].history != [] || IngestItems(NOTHING, last.history).open.None?
  {
    PagedLoadingIsLossless(pages, snaps, log, last);
    if snaps[0].history == [] {
      NeverResumes(pages, snaps, |snaps| - 1);
    } else {
      LoadsHoldTip(pages, snaps, |snaps| - 1);
    }
  }

  /** Scrolling up leaves what the active group shows as it is: after every load it is the group's
      root messages as the first load held them, although the fold and its baseline have grown. */
  lemma PrependKeepsScope(pages: Pages, snaps: seq<Snapshot>, n: nat)
    requires Scroll(pages, snaps) && n < |snaps| && snaps[0].history != []
    requires GroupsIndependent(Suffix(pages, |pages|)) && Bracketed(Suffix(pages, |pages|))
    requires forall k :: 0 <= k < n ==> !StoppedInGroup(snaps[k])
    ensures ActiveScope(snaps[n]) == ActiveScope(snaps[0])
  {
    LoadsHoldTip(pages, snaps, n);
    LoadsHoldTip(pages, snaps, 0);
    LoadsAreIngestions(pages, snaps, n);
    LoadsAreIngestions(pages, snaps, 0);
    ScrollCovers(pages, snaps, n);
    ScrollCovers(pages, snaps, 0);
    var before := HistoryBracketed(pages, snaps[n]);
    before := HistoryBracketed(pages, snaps[0]);
    ScopeIsGroup(snaps[n], IngestItems(NOTHING, snaps[n].history), true);
    ScopeIsGroup(snaps[0], IngestItems(NOTHING, snaps[0].history), true);
  }
}
