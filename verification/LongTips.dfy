/** A tip longer than a whole load. The first load then reaches no turn, so it attaches no tip,
    and nothing applies the tip's answers when scrolling up finds it. */
module LongTips {
  import opened JsMaps
  import opened Paging
  import Events
  import Fold

  lemma {:induction false} TrimNothing(items: seq<Item>)
    requires forall i :: 0 <= i < |items| ==> !IsCreated(items[i])
    ensures Trim(items) == []
    decreases items
  {
    if items != [] {
      TrimNothing(items[1..]);
    }
  }

  lemma {:induction false} ReverseAll(items: seq<Item>, created: bool)
    requires forall i :: 0 <= i < |items| ==> IsCreated(items[i]) == created
    ensures forall i :: 0 <= i < |Reverse(items)| ==> IsCreated(Reverse(items)[i]) == created
    decreases items
  {
    if items != [] {
      ReverseAll(items[1..], created);
    }
  }

  predicate NoTurn(items: seq<Item>) {
    forall i :: 0 <= i < |items| ==> !IsCreated(items[i])
  }

  /** Pages that begin no turn are read until the budget is spent, and everything is held back. */
  lemma {:induction false} ReadsOn(pages: Pages, newestFirst: seq<Item>, token: nat, budget: nat)
    requires budget > 0 && token + budget < |pages| && NoTurn(newestFirst)
    requires forall k :: token <= k < token + budget ==> NoTurn(pages[k])
    ensures FetchFrom(pages, newestFirst, token, budget).items == []
    ensures FetchFrom(pages, newestFirst, token, budget).older == Some(token + budget)
    decreases budget
  {
    var read := newestFirst + pages[token];
    assert NoTurn(read);
    ReverseAll(read, false);
    TrimNothing(Reverse(read));
    if budget > 1 {
      ReadsOn(pages, read, token + 1, budget - 1);
    }
  }

  // ----- A session with one such turn -----

  const OPENING := Item("turn", Events.Event("created", None, 0, Events.TurnCreated([Events.UserToolResponse("call", "yes")])))

  const STEP := Item("turn", Events.Event("step", None, 1, Events.CompactionStarted))

  /** Ten pages of the turn's events, and its beginning on the eleventh. */
  const PAGES: Pages := [[STEP], [STEP], [STEP], [STEP], [STEP], [STEP], [STEP], [STEP], [STEP], [STEP], [OPENING]]

  predicate IsLongTip(log: seq<Item>) {
    log != [] && log[0] == OPENING && forall i :: 0 < i < |log| ==> log[i] == STEP
  }

  lemma {:induction false} StepsOnly(n: nat)
    requires n <= 10
    ensures forall i :: 0 <= i < |Suffix(PAGES, n)| ==> Suffix(PAGES, n)[i] == STEP
    decreases n
  {
    if n > 0 {
      StepsOnly(n - 1);
      assert PAGES[n - 1] == [STEP];
      assert [STEP][1..] == [] && Reverse([STEP]) == [STEP];
    }
  }

  lemma LogIsLongTip()
    ensures IsLongTip(Suffix(PAGES, |PAGES|)) && GroupsIndependent(Suffix(PAGES, |PAGES|))
  {
    StepsOnly(10);
    assert [OPENING][1..] == [] && Reverse([OPENING]) == [OPENING];
    assert Suffix(PAGES, 11) == [OPENING] + Suffix(PAGES, 10);
  }

  lemma {:induction false} TipIsOpen(log: seq<Item>)
    requires IsLongTip(log)
    ensures IngestItems(NOTHING, log).fold == Fold.EMPTY
    ensures IngestItems(NOTHING, log).open.Some? && IngestItems(NOTHING, log).open.value.input == [Events.UserToolResponse("call", "yes")]
    decreases log
  {
    var front := log[..|log| - 1];
    if front == [] {
      assert IngestItems(NOTHING, front) == NOTHING;
    } else {
      TipIsOpen(front);
    }
  }

  lemma AnswerMatters(log: seq<Item>)
    requires IsLongTip(log)
    ensures Settled(IngestItems(NOTHING, log)) != IngestItems(NOTHING, log).fold
  {
    TipIsOpen(log);
    var input := [Events.UserToolResponse("call", "yes")];
    assert input[1..] == [] && Fold.InputOps(input) == [Fold.Answered("call", "yes")];
    var ops := Fold.InputOps(input);
    assert ops[..0] == [];
    var once := Fold.Run(Fold.EMPTY, ops);
    assert once == Fold.Answer(Fold.EMPTY, "call", "yes");
    assert Fold.Run(once, ops) == Fold.Answer(once, "call", "yes");
    assert "call" in Fold.BucketOf(Fold.Run(once, ops), Events.ROOT).results;
    assert "call" !in Fold.BucketOf(Fold.EMPTY, Events.ROOT).results;
  }

  lemma FirstLoadReachesNoTurn()
    ensures LoadNewest(PAGES).history == [] && LoadNewest(PAGES).older == Some(10)
  {
    assert Reverse([]) == [];
    ReadsOn(PAGES, [], 0, MAX_HISTORY_BOUNDARY_PAGES);
  }

  lemma {:induction false} NeverStops(snaps: seq<Snapshot>, n: nat)
    requires Scroll(PAGES, snaps) && n < |snaps|
    ensures !StoppedInGroup(snaps[n]) && (n > 0 ==> snaps[n].older.None?)
    decreases n
  {
    FirstLoadReachesNoTurn();
    if n > 0 {
      NeverStops(snaps, n - 1);
      ScrollCovers(PAGES, snaps, n - 1);
      OlderProgress(PAGES, snaps[n - 1], snaps[n]);
    }
  }

  /** Scrolling to the start of this session never gives the fold of loading it at once: the
      answer that the tip's input carries is in no bucket. */
  lemma LongTipLosesItsAnswers(snaps: seq<Snapshot>)
    requires Scroll(PAGES, snaps) && |snaps| > |PAGES|
    ensures !HoldsAll(snaps[|snaps| - 1], Suffix(PAGES, |PAGES|))
  {
    var log := Suffix(PAGES, |PAGES|);
    LogIsLongTip();
    AnswerMatters(log);
    FirstLoadReachesNoTurn();
    forall k | 0 <= k < |snaps| - 1 ensures !StoppedInGroup(snaps[k]) {
      NeverStops(snaps, k);
    }
    PagedLoadingIsLossless(PAGES, snaps, log, snaps[|snaps| - 1]);
  }
}
