/** Loading a session's history page by page: the newest window first, older windows prepended
    on scroll-up. */
module Paging {
  import opened JsMaps
  import opened Events
  import opened Fold
  import opened PrependLaws

  const MAX_HISTORY_BOUNDARY_PAGES := 10

  /** A listed event, with the turn it belongs to. */
  datatype Item = Item(turn: Id, event: Event)

  predicate IsCreated(item: Item) {
    item.event.body.TurnCreated?
  }

  /** Pages come newest first, and so do the items of a page. A page's token is its index. */
  type Pages = seq<seq<Item>>

  function Reverse(items: seq<Item>): seq<Item> {
    if items == [] then [] else Reverse(items[1..]) + [items[0]]
  }

  // ----- Windows -----

  /** Drops the events of a turn whose beginning is on an older page. */
  function Trim(items: seq<Item>): seq<Item> {
    if items == [] || IsCreated(items[0]) then items else Trim(items[1..])
  }

  datatype GroupState = UserGroup | Continuation | Incomplete

  function OldestGroupState(items: seq<Item>): GroupState {
    var trimmed := Trim(items);
    if trimmed == [] then Incomplete
    else if !exists i :: 0 <= i < |trimmed| && trimmed[i].turn == trimmed[0].turn && trimmed[i].event.body.TurnDone?
    then Incomplete
    else if IsCreated(trimmed[0]) && OpensGroup(trimmed[0].event.body.input) then UserGroup
    else Continuation
  }

  datatype Window = Window(items: seq<Item>, older: Option<nat>, pending: seq<Item>)

  function NextToken(pages: Pages, token: nat): Option<nat> {
    if token + 1 < |pages| then Some(token + 1) else None
  }

  function ToWindow(newestFirst: seq<Item>, older: Option<nat>): Window {
    var chronological := Reverse(newestFirst);
    var items := Trim(chronological);
    TrimLength(chronological);
    Window(items, older, if older.Some? then chronological[..|chronological| - |items|] else [])
  }

  /** Pages are read until the window opens on a finished user turn, the session starts, or the
      budget is spent. */
  function FetchFrom(pages: Pages, newestFirst: seq<Item>, token: nat, budget: nat): Window
    requires token < |pages| && budget > 0
    decreases budget
  {
    var read := newestFirst + pages[token];
    var window := ToWindow(read, NextToken(pages, token));
    if OldestGroupState(window.items).UserGroup? || window.older.None? || budget == 1 then window
    else FetchFrom(pages, read, window.older.value, budget - 1)
  }

  function FetchWindow(pages: Pages, token: nat, pending: seq<Item>): Window
    requires token < |pages|
  {
    FetchFrom(pages, Reverse(pending), token, MAX_HISTORY_BOUNDARY_PAGES)
  }

  lemma {:induction false} TrimLength(items: seq<Item>)
    ensures |Trim(items)| <= |items|
    ensures items == items[..|items| - |Trim(items)|] + Trim(items)
    decreases items
  {
    if items != [] && !IsCreated(items[0]) {
      TrimLength(items[1..]);
      var n := |items| - |Trim(items)|;
      assert items == [items[0]] + items[1..];
      assert items[..n] == [items[0]] + items[1..][..n - 1];
    }
  }

  lemma {:induction false} ReverseConcat(a: seq<Item>, b: seq<Item>)
    ensures Reverse(a + b) == Reverse(b) + Reverse(a)
    decreases a
  {
    if a == [] {
      assert a + b == b;
    } else {
      ReverseConcat(a[1..], b);
      assert (a + b)[1..] == a[1..] + b;
    }
  }

  lemma {:induction false} ReverseTwice(a: seq<Item>)
    ensures Reverse(Reverse(a)) == a
    decreases a
  {
    if a != [] {
      ReverseTwice(a[1..]);
      ReverseConcat(Reverse(a[1..]), [a[0]]);
      assert Reverse([a[0]]) == [a[0]] by { assert [a[0]][1..] == []; }
      assert [a[0]] + a[1..] == a;
    }
  }

  /** The newest `n` pages, in chronological order. */
  function Suffix(pages: Pages, n: nat): seq<Item>
    requires n <= |pages|
    decreases n
  {
    if n == 0 then [] else Reverse(pages[n - 1]) + Suffix(pages, n - 1)
  }

  predicate StartsTurn(items: seq<Item>) {
    items == [] || IsCreated(items[0])
  }

  lemma {:induction false} TrimStarts(items: seq<Item>, rest: seq<Item>)
    requires StartsTurn(rest)
    ensures StartsTurn(Trim(items)) && Trim(items + rest) == Trim(items) + rest
    decreases items
  {
    if items == [] {
      assert items + rest == rest;
    } else if !IsCreated(items[0]) {
      TrimStarts(items[1..], rest);
      assert (items + rest)[1..] == items[1..] + rest;
    }
  }

  /** What has been read, held back or already loaded is exactly the newest pages. */
  ghost predicate Covers(pages: Pages, older: Option<nat>, pending: seq<Item>, history: seq<Item>) {
    && StartsTurn(history)
    && match older
       case Some(token) => 0 < token < |pages| && pending + history == Suffix(pages, token)
       case None => pending == [] && history == Trim(Suffix(pages, |pages|))
  }

  lemma Split(chronological: seq<Item>, history: seq<Item>)
    requires StartsTurn(history)
    ensures var items := Trim(chronological);
      && |items| <= |chronological|
      && StartsTurn(items) && Trim(items) == items
      && StartsTurn(items + history)
      && items + history == Trim(chronological + history)
      && chronological[..|chronological| - |items|] + (items + history) == chronological + history
  {
    TrimLength(chronological);
    TrimStarts(chronological, history);
    TrimStarts(chronological, []);
    TrimTwice(chronological);
    hide Trim;
    var items := Trim(chronological);
    Regroup(chronological[..|chronological| - |items|], items, history);
    StartsBoth(items, history);
  }

  lemma {:induction false} TrimTwice(items: seq<Item>)
    ensures Trim(Trim(items)) == Trim(items)
    decreases items
  {
    if items != [] && !IsCreated(items[0]) {
      TrimTwice(items[1..]);
    }
  }

  lemma StartsBoth(items: seq<Item>, history: seq<Item>)
    requires StartsTurn(items) && StartsTurn(history)
    ensures StartsTurn(items + history)
  {
    if items == [] {
      assert items + history == history;
    }
  }

  lemma HeldBack(pages: Pages, chronological: seq<Item>, items: seq<Item>, token: nat, history: seq<Item>)
    requires token + 1 < |pages| && StartsTurn(history)
    requires chronological + history == Suffix(pages, token + 1) && items == Trim(chronological)
    ensures |items| <= |chronological|
    ensures Covers(pages, Some(token + 1), chronological[..|chronological| - |items|], items + history)
  {
    Split(chronological, history);
  }

  lemma NothingOlder(pages: Pages, chronological: seq<Item>, items: seq<Item>, history: seq<Item>)
    requires StartsTurn(history)
    requires chronological + history == Suffix(pages, |pages|) && items == Trim(chronological)
    ensures Covers(pages, None, [], items + history)
  {
    Split(chronological, history);
  }

  lemma WindowCovers(pages: Pages, newestFirst: seq<Item>, token: nat, history: seq<Item>)
    requires token < |pages| && StartsTurn(history)
    requires Reverse(newestFirst) + history == Suffix(pages, token + 1)
    ensures var w := ToWindow(newestFirst, NextToken(pages, token));
      Covers(pages, w.older, w.pending, w.items + history) && StartsTurn(w.items) && Trim(w.items) == w.items
  {
    var chronological := Reverse(newestFirst);
    Split(chronological, history);
    if token + 1 < |pages| {
      HeldBack(pages, chronological, Trim(chronological), token, history);
    } else {
      NothingOlder(pages, chronological, Trim(chronological), history);
    }
  }

  lemma ReadSuffix(pages: Pages, newestFirst: seq<Item>, token: nat, history: seq<Item>)
    requires token < |pages| && Reverse(newestFirst) + history == Suffix(pages, token)
    ensures Reverse(newestFirst + pages[token]) + history == Suffix(pages, token + 1)
  {
    ReverseConcat(newestFirst, pages[token]);
    Regroup(Reverse(pages[token]), Reverse(newestFirst), history);
  }

  lemma {:induction false} FetchCovers(pages: Pages, newestFirst: seq<Item>, token: nat, budget: nat,
                                       history: seq<Item>)
    requires token < |pages| && budget > 0 && StartsTurn(history)
    requires Reverse(newestFirst) + history == Suffix(pages, token)
    ensures var w := FetchFrom(pages, newestFirst, token, budget);
      && Covers(pages, w.older, w.pending, w.items + history)
      && StartsTurn(w.items)
      && (w.older.Some? ==> token < w.older.value <= token + budget)
      && (w.older.Some? && w.older.value < token + budget ==> w.items != [] && OpensGroup(w.items[0].event.body.input))
    decreases budget
  {
    var read := newestFirst + pages[token];
    ReadSuffix(pages, newestFirst, token, history);
    WindowCovers(pages, read, token, history);
    var w := ToWindow(read, NextToken(pages, token));
    if !(OldestGroupState(w.items).UserGroup? || w.older.None? || budget == 1) {
      FetchCovers(pages, read, token + 1, budget - 1, history);
    }
  }

  // ----- Where a load stops -----

  /** What has been read once `n` more pages are in front of the items held back, in order. */
  function ReadBack(pages: Pages, token: nat, pending: seq<Item>, n: nat): seq<Item>
    requires token + n <= |pages|
  {
    if n == 0 then pending else Reverse(pages[token + n - 1]) + ReadBack(pages, token, pending, n - 1)
  }

  /** `items` is what was read, from the first turn created on. */
  ghost predicate FromFirstTurn(read: seq<Item>, items: seq<Item>) {
    && |items| <= |read| && items == read[|read| - |items|..]
    && (items != [] ==> items[0].event.body.TurnCreated?)
    && forall i :: 0 <= i < |read| - |items| ==> !read[i].event.body.TurnCreated?
  }

  /** The items begin with a user's turn, and that turn's end is among them. */
  ghost predicate OnFinishedUserTurn(items: seq<Item>) {
    && items != [] && items[0].event.body.TurnCreated? && OpensGroup(items[0].event.body.input)
    && exists i :: 0 < i < |items| && items[i].turn == items[0].turn && items[i].event.body.TurnDone?
  }

  /** The window after `n` pages. */
  ghost predicate WindowAfter(pages: Pages, token: nat, pending: seq<Item>, n: nat, w: Window)
    requires token + n <= |pages|
  {
    var read := ReadBack(pages, token, pending, n);
    && FromFirstTurn(read, w.items)
    && w.older == (if token + n < |pages| then Some(token + n) else None)
    && w.pending == if w.older.Some? then read[..|read| - |w.items|] else []
  }

  lemma {:induction false} TrimmedFromFirst(read: seq<Item>)
    ensures FromFirstTurn(read, Trim(read))
    decreases read
  {
    if read != [] && !IsCreated(read[0]) {
      var rest := Trim(read[1..]);
      TrimmedFromFirst(read[1..]);
      forall i | 0 <= i < |read| - |rest| ensures !IsCreated(read[i]) {
        assert i > 0 ==> read[i] == read[1..][i - 1];
      }
    }
  }

  lemma NotEarlier(read: seq<Item>, a: seq<Item>, b: seq<Item>)
    requires FromFirstTurn(read, a) && FromFirstTurn(read, b)
    ensures |b| <= |a|
  {
    assert b != [] ==> b[0] == read[|read| - |b|];
  }

  lemma FirstTurnUnique(read: seq<Item>, a: seq<Item>, b: seq<Item>)
    requires FromFirstTurn(read, a) && FromFirstTurn(read, b)
    ensures a == b
  {
    NotEarlier(read, a, b);
    NotEarlier(read, b, a);
  }

  lemma StateIsFinished(items: seq<Item>)
    requires Trim(items) == items
    ensures OldestGroupState(items).UserGroup? <==> OnFinishedUserTurn(items)
  {
    if OldestGroupState(items).UserGroup? {
      var i :| 0 <= i < |items| && items[i].turn == items[0].turn && items[i].event.body.TurnDone?;
      assert i != 0;
    }
  }

  lemma ReadOn(pages: Pages, token: nat, pending: seq<Item>, n: nat)
    requires token + n < |pages|
    ensures Reverse(ReadBack(pages, token, pending, n)) + pages[token + n] == Reverse(ReadBack(pages, token, pending, n + 1))
  {
    var before, page := ReadBack(pages, token, pending, n), pages[token + n];
    ReverseConcat(Reverse(before), page);
    ReverseTwice(before);
    ReverseConcat(Reverse(page), before);
    ReverseTwice(page);
  }

  lemma OnePage(pages: Pages, token: nat, pending: seq<Item>, n: nat, w: Window)
    requires token + n < |pages|
    requires w == ToWindow(Reverse(ReadBack(pages, token, pending, n)) + pages[token + n], NextToken(pages, token + n))
    ensures WindowAfter(pages, token, pending, n + 1, w)
    ensures Reverse(ReadBack(pages, token, pending, n)) + pages[token + n] == Reverse(ReadBack(pages, token, pending, n + 1))
    ensures OldestGroupState(w.items).UserGroup? <==> OnFinishedUserTurn(w.items)
  {
    hide ReadBack, OnFinishedUserTurn, OldestGroupState;
    ReadOn(pages, token, pending, n);
    ReverseTwice(ReadBack(pages, token, pending, n + 1));
    TrimmedFromFirst(ReadBack(pages, token, pending, n + 1));
    TrimStarts(ReadBack(pages, token, pending, n + 1), []);
    TrimStays(w.items);
    StateIsFinished(w.items);
  }

  lemma TrimStays(items: seq<Item>)
    requires StartsTurn(items)
    ensures Trim(items) == items
  {
  }

  /** After `done` pages that did not suffice, the load stops at `n` pages with `w`. */
  ghost predicate StopsAt(pages: Pages, token: nat, pending: seq<Item>, done: nat, n: nat, w: Window)
    requires token <= |pages|
  {
    && done < n <= MAX_HISTORY_BOUNDARY_PAGES && token + n <= |pages|
    && WindowAfter(pages, token, pending, n, w)
    && (w.older.Some? && n < MAX_HISTORY_BOUNDARY_PAGES ==> OnFinishedUserTurn(w.items))
    && forall m, items :: done < m < n && FromFirstTurn(ReadBack(pages, token, pending, m), items) ==> !OnFinishedUserTurn(items)
  }

  lemma StopsLater(pages: Pages, token: nat, pending: seq<Item>, done: nat, first: Window, n: nat, w: Window)
    requires token + done < |pages| && WindowAfter(pages, token, pending, done + 1, first) && !OnFinishedUserTurn(first.items)
    requires StopsAt(pages, token, pending, done + 1, n, w)
    ensures StopsAt(pages, token, pending, done, n, w)
  {
    hide OnFinishedUserTurn, ReadBack, FromFirstTurn;
    forall m, items | done < m < n && FromFirstTurn(ReadBack(pages, token, pending, m), items) ensures !OnFinishedUserTurn(items) {
      if m == done + 1 {
        FirstTurnUnique(ReadBack(pages, token, pending, m), items, first.items);
      }
    }
  }

  lemma {:induction false} StopsFrom(pages: Pages, token: nat, pending: seq<Item>, done: nat, w: Window) returns (n: nat)
    requires token + done < |pages| && done < MAX_HISTORY_BOUNDARY_PAGES
    requires w == FetchFrom(pages, Reverse(ReadBack(pages, token, pending, done)), token + done, MAX_HISTORY_BOUNDARY_PAGES - done)
    ensures StopsAt(pages, token, pending, done, n, w)
    decreases MAX_HISTORY_BOUNDARY_PAGES - done
  {
    hide OnFinishedUserTurn, OldestGroupState, Reverse, ReadBack, FromFirstTurn, WindowAfter;
    var first := ToWindow(Reverse(ReadBack(pages, token, pending, done)) + pages[token + done], NextToken(pages, token + done));
    OnePage(pages, token, pending, done, first);
    n := done + 1;
    if !(OldestGroupState(first.items).UserGroup? || first.older.None? || MAX_HISTORY_BOUNDARY_PAGES - done == 1) {
      n := StopsFrom(pages, token, pending, done + 1, w);
      StopsLater(pages, token, pending, done, first, n, w);
    }
  }

  /** A load reads pages until what it has begins with a user's finished turn: with fewer pages it did
      not, and with those it read it does, unless the session starts there or the budget is spent. */
  lemma LoadStops(pages: Pages, token: nat, pending: seq<Item>) returns (n: nat)
    requires token < |pages|
    ensures var w := FetchWindow(pages, token, pending);
      && 0 < n <= MAX_HISTORY_BOUNDARY_PAGES && token + n <= |pages| && WindowAfter(pages, token, pending, n, w)
      && (w.older.Some? && n < MAX_HISTORY_BOUNDARY_PAGES ==> OnFinishedUserTurn(w.items))
      && forall m, items :: 0 < m < n && FromFirstTurn(ReadBack(pages, token, pending, m), items) ==> !OnFinishedUserTurn(items)
  {
    n := StopsFrom(pages, token, pending, 0, FetchWindow(pages, token, pending));
  }

  // ----- Ingesting a window -----

  datatype TurnRecord = TurnRecord(id: Id, createdAt: int, input: seq<InputItem>, state: DoneState,
                                   rootIds: seq<Id>, sandbox: Option<Id>)

  /** `before` is how many root messages the fold held when the turn was created. */
  datatype OpenTurn = OpenTurn(id: Id, createdAt: int, input: seq<InputItem>, before: nat, sandbox: Option<Id>)

  /** `sandbox` is the latest one, carried from turn to turn. */
  datatype Ingestion = Ingestion(fold: Fold, turns: seq<TurnRecord>, open: Option<OpenTurn>, sandbox: Option<Id>)

  const NOTHING := Ingestion(EMPTY, [], None, None)

  function RootIds(f: Fold): seq<Id> {
    BucketOf(f, ROOT).modelIds
  }

  function From(ids: seq<Id>, n: nat): seq<Id> {
    if n <= |ids| then ids[n..] else []
  }

  function Close(s: Ingestion, state: DoneState): Ingestion
    requires s.open.Some?
  {
    var open := s.open.value;
    var sandbox := open.sandbox.Or(s.sandbox);
    var record := TurnRecord(open.id, open.createdAt, open.input, state, From(RootIds(s.fold), open.before), sandbox);
    Ingestion(Run(s.fold, InputOps(open.input)), s.turns + [record], None, sandbox)
  }

  function Content(s: Ingestion, e: Event): Ingestion
    requires s.open.Some?
  {
    var first := s.open.value.sandbox.Or(if e.body.SandboxCreated? then Some(e.body.sandboxId) else None);
    s.(fold := Ingest(History, s.fold, e), open := Some(s.open.value.(sandbox := first)))
  }

  function IngestItem(s: Ingestion, item: Item): Ingestion {
    match item.event.body
    case TurnCreated(input) =>
      s.(open := Some(OpenTurn(item.turn, item.event.at, input, |RootIds(s.fold)|, None)))
    case TurnDone(state) => if s.open.Some? then Close(s, state) else s
    case _ => if s.open.Some? then Content(s, item.event) else s
  }

  function IngestItems(s: Ingestion, items: seq<Item>): Ingestion {
    if items == [] then s else IngestItem(IngestItems(s, items[..|items| - 1]), items[|items| - 1])
  }

  lemma {:induction false} IngestItemsConcat(s: Ingestion, a: seq<Item>, b: seq<Item>)
    ensures IngestItems(s, a + b) == IngestItems(IngestItems(s, a), b)
    decreases b
  {
    if b == [] {
      assert a + b == a;
    } else {
      IngestItemsConcat(s, a, b[..|b| - 1]);
      assert (a + b)[..|a + b| - 1] == a + b[..|b| - 1];
    }
  }

  /** The tip's turn is still open, so its answers are applied on their own: for the first paint,
      and again once the tip is resolved. */
  function Settled(s: Ingestion): Fold {
    if s.open.Some? then Run(Run(s.fold, InputOps(s.open.value.input)), InputOps(s.open.value.input)) else s.fold
  }

  // ----- Joining an older window in front -----

  /** A sandbox made known by an older turn reaches the turns after it that name none. */
  function Propagate(known: Option<Id>, turns: seq<TurnRecord>): seq<TurnRecord>
    decreases turns
  {
    if turns == [] then []
    else
      var turn := turns[0].(sandbox := turns[0].sandbox.Or(known));
      [turn] + Propagate(turn.sandbox, turns[1..])
  }

  function LastSandbox(known: Option<Id>, turns: seq<TurnRecord>): Option<Id>
    decreases turns
  {
    if turns == [] then known else LastSandbox(turns[0].sandbox.Or(known), turns[1..])
  }

  lemma {:induction false} PropagateConcat(known: Option<Id>, a: seq<TurnRecord>, b: seq<TurnRecord>)
    ensures Propagate(known, a + b) == Propagate(known, a) + Propagate(LastSandbox(known, a), b)
    ensures LastSandbox(known, a + b) == LastSandbox(LastSandbox(known, a), b)
    decreases a
  {
    if a == [] {
      assert a + b == b;
    } else {
      assert (a + b)[1..] == a[1..] + b;
      PropagateConcat(a[0].sandbox.Or(known), a[1..], b);
    }
  }

  /** Everything the operation does to the fold is separable from `f` wherever it happens. */
  predicate ClearItem(f: Fold, item: Item) {
    match item.event.body
    case TurnCreated(input) => forall i :: 0 <= i < |InputOps(input)| ==> Clear(f, InputOps(input)[i])
    case TurnDone(_) => true
    case _ => Clear(f, Ingested(History, item.event))
  }

  predicate ClearItems(f: Fold, items: seq<Item>) {
    forall i :: 0 <= i < |items| ==> ClearItem(f, items[i])
  }

  /** `whole` is `newer` with the older ingestion `a` in front of it. */
  ghost predicate Joins(a: Ingestion, newer: Ingestion, whole: Ingestion) {
    && whole.fold == Prepend(a.fold, newer.fold)
    && whole.turns == a.turns + Propagate(a.sandbox, newer.turns)
    && newer.sandbox == LastSandbox(None, newer.turns)
    && whole.sandbox == LastSandbox(a.sandbox, newer.turns)
    && (newer.open.None? <==> whole.open.None?)
    && (newer.open.Some? ==> whole.open.value == newer.open.value.(before := |RootIds(a.fold)| + newer.open.value.before))
    && (newer.open.Some? ==> newer.open.value.before <= |RootIds(newer.fold)|)
  }

  lemma {:induction false} SeparableWhenClear(f: Fold, start: Fold, ops: seq<Op>)
    requires forall i :: 0 <= i < |ops| ==> Clear(f, ops[i])
    ensures SeparableRun(f, start, ops)
    decreases ops
  {
    if ops != [] {
      var n := |ops| - 1;
      SeparableWhenClear(f, start, ops[..n]);
      ClearSeparates(f, Run(start, ops[..n]), ops[n]);
    }
  }

  lemma JoinRun(f: Fold, newer: Fold, ops: seq<Op>)
    requires forall i :: 0 <= i < |ops| ==> Clear(f, ops[i])
    ensures Run(Prepend(f, newer), ops) == Prepend(f, Run(newer, ops))
  {
    SeparableWhenClear(f, newer, ops);
    PrependRun(f, newer, ops);
  }

  lemma JoinRootIds(f: Fold, newer: Fold)
    ensures RootIds(Prepend(f, newer)) == RootIds(f) + RootIds(newer)
  {
    JoinedBucketIn(f, newer, ROOT);
  }

  lemma JoinedRecords(known: Option<Id>, turns: seq<TurnRecord>, last: TurnRecord)
    ensures Propagate(known, turns + [last])
      == Propagate(known, turns) + [last.(sandbox := last.sandbox.Or(LastSandbox(known, turns)))]
    ensures LastSandbox(known, turns + [last]) == last.sandbox.Or(LastSandbox(known, turns))
  {
    PropagateConcat(known, turns, [last]);
    assert [last][1..] == [];
    var rest := Propagate(LastSandbox(known, turns), [last]);
    assert rest == [last.(sandbox := last.sandbox.Or(LastSandbox(known, turns)))];
  }

  lemma {:induction false} SandboxFallsBack(known: Option<Id>, turns: seq<TurnRecord>)
    ensures LastSandbox(known, turns) == LastSandbox(None, turns).Or(known)
    decreases turns
  {
    if turns != [] {
      SandboxFallsBack(turns[0].sandbox.Or(known), turns[1..]);
      SandboxFallsBack(turns[0].sandbox, turns[1..]);
    }
  }

  lemma JoinCreated(a: Ingestion, newer: Ingestion, whole: Ingestion, item: Item)
    requires whole.fold == Prepend(a.fold, newer.fold) && IsCreated(item)
    requires whole.turns == a.turns + Propagate(a.sandbox, newer.turns)
    requires newer.sandbox == LastSandbox(None, newer.turns) && whole.sandbox == LastSandbox(a.sandbox, newer.turns)
    ensures Joins(a, IngestItem(newer, item), IngestItem(whole, item))
  {
    JoinRootIds(a.fold, newer.fold);
  }

  lemma FromShifted(a: seq<Id>, b: seq<Id>, n: nat)
    requires n <= |b|
    ensures From(a + b, |a| + n) == From(b, n)
  {
  }

  lemma JoinDone(a: Ingestion, newer: Ingestion, whole: Ingestion, state: DoneState)
    requires Joins(a, newer, whole) && newer.open.Some?
    requires forall i :: 0 <= i < |InputOps(newer.open.value.input)| ==> Clear(a.fold, InputOps(newer.open.value.input)[i])
    ensures Joins(a, Close(newer, state), Close(whole, state))
  {
    var open := newer.open.value;
    JoinRun(a.fold, newer.fold, InputOps(open.input));
    JoinRootIds(a.fold, newer.fold);
    FromShifted(RootIds(a.fold), RootIds(newer.fold), open.before);
    var alone, joined := Close(newer, state), Close(whole, state);
    var last := alone.turns[|newer.turns|];
    SandboxFallsBack(a.sandbox, newer.turns);
    JoinedRecords(a.sandbox, newer.turns, last);
    JoinedRecords(None, newer.turns, last);
    Associative(a.turns, Propagate(a.sandbox, newer.turns), joined.turns[|whole.turns|]);
  }

  lemma Associative(a: seq<TurnRecord>, b: seq<TurnRecord>, last: TurnRecord)
    ensures (a + b) + [last] == a + (b + [last])
  {
  }

  lemma RootIdsGrow(f: Fold, e: Event)
    ensures |RootIds(f)| <= |RootIds(Ingest(History, f, e))|
  {
    if !Skipped(History, e) && e.thread == Some(ROOT) {
      ModelIdGrowth(Named(BucketOf(f, ROOT), e), e);
    }
  }

  lemma JoinContent(a: Ingestion, newer: Ingestion, whole: Ingestion, e: Event)
    requires Joins(a, newer, whole) && newer.open.Some? && Clear(a.fold, Ingested(History, e))
    ensures Joins(a, Content(newer, e), Content(whole, e))
  {
    ClearSeparates(a.fold, newer.fold, Ingested(History, e));
    PrependStep(a.fold, newer.fold, Ingested(History, e));
    RootIdsGrow(newer.fold, e);
  }

  /** The open turn of `s` is one that some item created. */
  predicate OpenFrom(s: Ingestion, items: seq<Item>) {
    s.open.Some? ==> exists i :: 0 <= i < |items| && items[i].event.body == TurnCreated(s.open.value.input)
  }

  lemma {:induction false} OpenIsCreated(items: seq<Item>)
    ensures OpenFrom(IngestItems(NOTHING, items), items)
    decreases items
  {
    if items != [] {
      var front, last := items[..|items| - 1], items[|items| - 1];
      OpenIsCreated(front);
      var before, after := IngestItems(NOTHING, front), IngestItems(NOTHING, items);
      if after.open.Some? {
        if IsCreated(last) {
          assert items[|items| - 1].event.body == TurnCreated(after.open.value.input);
        } else {
          var i :| 0 <= i < |front| && front[i].event.body == TurnCreated(before.open.value.input);
          assert items[i].event.body == TurnCreated(after.open.value.input);
        }
      }
    }
  }

  lemma OpenIsClear(f: Fold, items: seq<Item>)
    requires ClearItems(f, items)
    ensures var s := IngestItems(NOTHING, items);
      s.open.Some? ==>
        forall i :: 0 <= i < |InputOps(s.open.value.input)| ==> Clear(f, InputOps(s.open.value.input)[i])
  {
    OpenIsCreated(items);
    var s := IngestItems(NOTHING, items);
    if s.open.Some? {
      var i :| 0 <= i < |items| && items[i].event.body == TurnCreated(s.open.value.input);
      assert ClearItem(f, items[i]);
    }
  }

  /** Ingesting on after an older window is joining the two windows' own ingestions, when the
      newer window starts a turn and refers to nothing of the older one. */
  lemma {:induction false} JoinItems(a: Ingestion, items: seq<Item>)
    requires items != [] && IsCreated(items[0]) && ClearItems(a.fold, items)
    requires Distinct(a.fold.threads.keys) && Distinct(a.fold.parents.keys)
    ensures Joins(a, IngestItems(NOTHING, items), IngestItems(a, items))
    decreases items
  {
    var front, last := items[..|items| - 1], items[|items| - 1];
    if front == [] {
      PrependEmpty(a.fold);
      assert a.turns + [] == a.turns;
      JoinCreated(a, NOTHING, a, last);
    } else {
      assert forall i :: 0 <= i < |front| ==> ClearItem(a.fold, front[i]) by {
        forall i | 0 <= i < |front| ensures ClearItem(a.fold, front[i]) { assert ClearItem(a.fold, items[i]); }
      }
      JoinItems(a, front);
      var newer, whole := IngestItems(NOTHING, front), IngestItems(a, front);
      assert ClearItem(a.fold, last);
      JoinItem(a, newer, whole, front, last);
    }
  }

  lemma JoinItem(a: Ingestion, newer: Ingestion, whole: Ingestion, front: seq<Item>, last: Item)
    requires newer == IngestItems(NOTHING, front) && ClearItems(a.fold, front) && ClearItem(a.fold, last)
    requires Joins(a, newer, whole)
    ensures Joins(a, IngestItem(newer, last), IngestItem(whole, last))
  {
    match last.event.body {
      case TurnCreated(_) => JoinCreated(a, newer, whole, last);
      case TurnDone(state) =>
        if newer.open.Some? {
          OpenIsClear(a.fold, front);
          JoinDone(a, newer, whole, state);
        }
      case _ =>
        if newer.open.Some? {
          JoinContent(a, newer, whole, last.event);
        }
    }
  }

  lemma JoinSettled(a: Ingestion, items: seq<Item>)
    requires items != [] && IsCreated(items[0]) && ClearItems(a.fold, items)
    requires Distinct(a.fold.threads.keys) && Distinct(a.fold.parents.keys)
    ensures Settled(IngestItems(a, items)) == Prepend(a.fold, Settled(IngestItems(NOTHING, items)))
  {
    JoinItems(a, items);
    OpenIsClear(a.fold, items);
    var newer := IngestItems(NOTHING, items);
    if newer.open.Some? {
      JoinRun(a.fold, newer.fold, InputOps(newer.open.value.input));
      JoinRun(a.fold, Run(newer.fold, InputOps(newer.open.value.input)), InputOps(newer.open.value.input));
    }
  }

  // ----- Segments that do not refer back -----

  function OpsOf(item: Item): seq<Op> {
    match item.event.body
    case TurnCreated(input) => InputOps(input)
    case TurnDone(_) => []
    case _ => [Ingested(History, item.event)]
  }

  predicate IndependentItems(older: seq<Item>, newer: seq<Item>) {
    forall i, j :: 0 <= i < |older| && 0 <= j < |newer| ==> AllIndependent(OpsOf(older[i]), OpsOf(newer[j]))
  }

  predicate DifferentTurns(older: seq<Item>, newer: seq<Item>) {
    forall i, j :: 0 <= i < |older| && 0 <= j < |newer| && IsCreated(older[i]) && IsCreated(newer[j]) ==>
      older[i].turn != newer[j].turn
  }

  /** Nothing after the start of a user's turn answers, extends or quotes anything before it. */
  predicate GroupsIndependent(log: seq<Item>) {
    forall p :: 0 < p < |log| && IsCreated(log[p]) && OpensGroup(log[p].event.body.input) ==>
      IndependentItems(log[..p], log[p..]) && DifferentTurns(log[..p], log[p..])
  }

  lemma {:induction false} ClearAfter(f: Fold, older: seq<Op>, op: Op)
    requires Clear(f, op) && forall i :: 0 <= i < |older| ==> Independent(older[i], op)
    ensures Clear(Run(f, older), op)
    decreases older
  {
    if older != [] {
      ClearAfter(f, older[..|older| - 1], op);
      ClearStep(Run(f, older[..|older| - 1]), older[|older| - 1], op);
    }
  }

  lemma {:induction false} ClearAfterItems(older: seq<Item>, op: Op)
    requires forall i, k :: 0 <= i < |older| && 0 <= k < |OpsOf(older[i])| ==> Independent(OpsOf(older[i])[k], op)
    ensures Clear(IngestItems(NOTHING, older).fold, op)
    decreases older
  {
    if older != [] {
      var front, last := older[..|older| - 1], older[|older| - 1];
      ClearAfterItems(front, op);
      var s := IngestItems(NOTHING, front);
      if s.open.Some? && last.event.body.TurnDone? {
        OpenIsCreated(front);
        var i :| 0 <= i < |front| && front[i].event.body == TurnCreated(s.open.value.input);
        assert OpsOf(older[i]) == InputOps(s.open.value.input);
        ClearAfter(s.fold, InputOps(s.open.value.input), op);
      } else if s.open.Some? && !IsCreated(last) {
        assert OpsOf(older[|older| - 1])[0] == Ingested(History, last.event);
        ClearStep(s.fold, Ingested(History, last.event), op);
      }
    }
  }

  lemma ClearWindow(older: seq<Item>, newer: seq<Item>)
    requires IndependentItems(older, newer)
    ensures ClearItems(IngestItems(NOTHING, older).fold, newer)
  {
    var f := IngestItems(NOTHING, older).fold;
    forall j | 0 <= j < |newer| ensures ClearItem(f, newer[j]) {
      forall k | 0 <= k < |OpsOf(newer[j])| ensures Clear(f, OpsOf(newer[j])[k]) {
        forall i, m | 0 <= i < |older| && 0 <= m < |OpsOf(older[i])|
          ensures Independent(OpsOf(older[i])[m], OpsOf(newer[j])[k])
        {
          assert AllIndependent(OpsOf(older[i]), OpsOf(newer[j]));
        }
        ClearAfterItems(older, OpsOf(newer[j])[k]);
      }
      if !IsCreated(newer[j]) && !newer[j].event.body.TurnDone? {
        assert OpsOf(newer[j])[0] == Ingested(History, newer[j].event);
      }
    }
  }

  // ----- What an ingestion keeps -----

  ghost predicate Listed(f: Fold) {
    Distinct(f.threads.keys) && Distinct(f.parents.keys)
  }

  lemma {:induction false} RunListed(f: Fold, ops: seq<Op>)
    requires Listed(f)
    ensures Listed(Run(f, ops))
    decreases ops
  {
    if ops != [] {
      RunListed(f, ops[..|ops| - 1]);
    }
  }

  ghost predicate Kept(s: Ingestion, items: seq<Item>) {
    && Listed(s.fold)
    && Propagate(None, s.turns) == s.turns
    && s.sandbox == LastSandbox(None, s.turns)
    && (s.open.Some? ==> CreatedIn(items, s.open.value.id))
    && forall k :: 0 <= k < |s.turns| ==> CreatedIn(items, s.turns[k].id)
  }

  predicate CreatedIn(items: seq<Item>, id: Id) {
    exists i :: 0 <= i < |items| && IsCreated(items[i]) && items[i].turn == id
  }

  lemma CreatedInMore(items: seq<Item>, last: Item, id: Id)
    requires CreatedIn(items, id) || (IsCreated(last) && last.turn == id)
    ensures CreatedIn(items + [last], id)
  {
    if CreatedIn(items, id) {
      var i :| 0 <= i < |items| && IsCreated(items[i]) && items[i].turn == id;
      assert (items + [last])[i] == items[i];
    } else {
      assert (items + [last])[|items|] == last;
    }
  }

  lemma KeptClose(s: Ingestion, items: seq<Item>, state: DoneState)
    requires Kept(s, items) && s.open.Some?
    ensures Kept(Close(s, state), items)
  {
    RunListed(s.fold, InputOps(s.open.value.input));
    JoinedRecords(None, s.turns, Close(s, state).turns[|s.turns|]);
  }

  lemma KeptContent(s: Ingestion, items: seq<Item>, e: Event)
    requires Kept(s, items) && s.open.Some?
    ensures Kept(Content(s, e), items)
  {
  }

  lemma KeptMore(s: Ingestion, items: seq<Item>, last: Item)
    requires Kept(s, items)
    ensures Kept(s, items + [last])
  {
    if s.open.Some? {
      CreatedInMore(items, last, s.open.value.id);
    }
    forall k | 0 <= k < |s.turns| ensures CreatedIn(items + [last], s.turns[k].id) {
      CreatedInMore(items, last, s.turns[k].id);
    }
  }

  lemma KeptStep(s: Ingestion, items: seq<Item>, last: Item)
    requires Kept(s, items)
    ensures Kept(IngestItem(s, last), items + [last])
  {
    KeptMore(s, items, last);
    match last.event.body {
      case TurnCreated(_) => CreatedInMore(items, last, last.turn);
      case TurnDone(state) =>
        if s.open.Some? {
          KeptClose(s, items + [last], state);
        }
      case _ =>
        if s.open.Some? {
          KeptContent(s, items + [last], last.event);
        }
    }
  }

  lemma {:induction false} IngestionKept(items: seq<Item>)
    ensures Kept(IngestItems(NOTHING, items), items)
    decreases items
  {
    if items != [] {
      IngestionKept(items[..|items| - 1]);
      KeptStep(IngestItems(NOTHING, items[..|items| - 1]), items[..|items| - 1], items[|items| - 1]);
      assert items[..|items| - 1] + [items[|items| - 1]] == items;
    }
  }

  // ----- Snapshots -----

  /** The turn that a reload resumes. */
  datatype RunningTurn = RunningTurn(id: Id, createdAt: int, input: seq<InputItem>)

  /** `baseline` are the root messages of the groups before the one being streamed. */
  datatype Snapshot = Snapshot(fold: Fold, turns: seq<TurnRecord>, history: seq<Item>,
                               older: Option<nat>, pending: seq<Item>,
                               running: Option<RunningTurn>, baseline: Option<seq<Id>>)

  function Fresh(turns: seq<TurnRecord>, known: set<Id>): seq<TurnRecord>
    decreases turns
  {
    if turns == [] then []
    else (if turns[0].id in known then [] else [turns[0]]) + Fresh(turns[1..], known)
  }

  function TurnIds(turns: seq<TurnRecord>): set<Id> {
    set i | 0 <= i < |turns| :: turns[i].id
  }

  function AllRootIds(turns: seq<TurnRecord>): seq<Id> {
    if turns == [] then [] else turns[0].rootIds + AllRootIds(turns[1..])
  }

  /** The turn that opened the last group, or -1. */
  function GroupStart(turns: seq<TurnRecord>): (i: int)
    ensures -1 <= i < |turns|
    ensures i >= 0 ==> OpensGroup(turns[i].input)
    ensures forall k :: i < k < |turns| ==> !OpensGroup(turns[k].input)
  {
    if turns == [] then -1
    else if OpensGroup(turns[|turns| - 1].input) then |turns| - 1
    else GroupStart(turns[..|turns| - 1])
  }

  function Earlier(turns: seq<TurnRecord>): seq<TurnRecord> {
    if GroupStart(turns) < 0 then [] else turns[..GroupStart(turns)]
  }

  function LastGroup(turns: seq<TurnRecord>): seq<TurnRecord> {
    if GroupStart(turns) < 0 then turns else turns[GroupStart(turns)..]
  }

  function Tip(s: Ingestion): Option<RunningTurn> {
    if s.open.Some? then Some(RunningTurn(s.open.value.id, s.open.value.createdAt, s.open.value.input)) else None
  }

  /** The tip is in no record: a user's tip has all of them before its group, and a continuation
      the groups before the last. */
  function TipBaseline(s: Ingestion): Option<seq<Id>> {
    if s.open.None? then None
    else Some(AllRootIds(if OpensGroup(s.open.value.input) then s.turns else Earlier(s.turns)))
  }

  function LoadNewest(pages: Pages): Snapshot
    requires |pages| > 0
  {
    var w := FetchWindow(pages, 0, []);
    var s := IngestItems(NOTHING, w.items);
    Snapshot(Settled(s), s.turns, w.items, w.older, w.pending, Tip(s), TipBaseline(s))
  }

  function LoadOlder(pages: Pages, snap: Snapshot): Snapshot
    requires snap.older.Some? ==> snap.older.value < |pages|
  {
    if snap.older.None? then snap
    else
      var w := FetchWindow(pages, snap.older.value, snap.pending);
      if w.items == [] then snap.(older := w.older, pending := w.pending)
      else
        var s := IngestItems(NOTHING, w.items);
        var turns := Fresh(s.turns, TurnIds(snap.turns));
        Snapshot(Prepend(s.fold, snap.fold), Propagate(None, turns + snap.turns), w.items + snap.history,
                 w.older, w.pending, snap.running,
                 if snap.baseline.Some? then Some(AllRootIds(turns) + snap.baseline.value) else None)
  }

  /** The snapshot is the one that ingesting its history at once gives, with or without the open
      tip's answers applied. */
  ghost predicate IsIngested(snap: Snapshot, settled: bool) {
    var s := IngestItems(NOTHING, snap.history);
    snap.fold == (if settled then Settled(s) else s.fold) && snap.turns == s.turns
  }

  lemma {:induction false} FreshAll(turns: seq<TurnRecord>, known: set<Id>)
    requires TurnIds(turns) !! known
    ensures Fresh(turns, known) == turns
    decreases turns
  {
    if turns != [] {
      assert turns[0].id in TurnIds(turns);
      forall id | id in TurnIds(turns[1..]) ensures id in TurnIds(turns) {
        var i :| 0 <= i < |turns[1..]| && turns[1..][i].id == id;
        assert turns[i + 1].id == id;
      }
      FreshAll(turns[1..], known);
    }
  }

  /** Which of the turns from `from` on are not known, in order. */
  lemma {:induction false} FreshPicks(turns: seq<TurnRecord>, known: set<Id>, from: nat) returns (at: seq<nat>)
    requires from <= |turns|
    ensures |at| == |Fresh(turns[from..], known)|
    ensures forall j :: 0 <= j < |at| ==> from <= at[j] < |turns| && Fresh(turns[from..], known)[j] == turns[at[j]]
    ensures forall j, k :: 0 <= j < k < |at| ==> at[j] < at[k]
    ensures forall i :: from <= i < |turns| ==> (i in at <==> turns[i].id !in known)
    decreases |turns| - from
  {
    at := [];
    if from < |turns| {
      assert turns[from..][1..] == turns[from + 1..];
      at := FreshPicks(turns, known, from + 1);
      if turns[from].id !in known {
        at := [from] + at;
      }
    }
  }

  /** The record is the same, but for a sandbox it may be given. */
  predicate SameTurn(a: TurnRecord, b: TurnRecord) {
    a == b.(sandbox := a.sandbox) && (b.sandbox.Some? ==> a.sandbox == b.sandbox)
  }

  lemma {:induction false} PropagateKeeps(known: Option<Id>, turns: seq<TurnRecord>)
    ensures var after := Propagate(known, turns); |after| == |turns| && forall i :: 0 <= i < |turns| ==> SameTurn(after[i], turns[i])
    decreases turns
  {
    if turns != [] {
      PropagateKeeps(turns[0].sandbox.Or(known), turns[1..]);
    }
  }

  /** An older load puts the records of its window in front, in order, and leaves out exactly those of
      turns that are recorded already. */
  lemma NoTurnTwice(pages: Pages, snap: Snapshot) returns (at: seq<nat>)
    requires snap.older.Some? && snap.older.value < |pages|
    ensures var older := IngestItems(NOTHING, FetchWindow(pages, snap.older.value, snap.pending).items).turns;
      var next := LoadOlder(pages, snap).turns;
      && |next| == |at| + |snap.turns|
      && (forall j, k :: 0 <= j < k < |at| ==> at[j] < at[k])
      && (forall i :: 0 <= i < |older| ==> (i in at <==> older[i].id !in TurnIds(snap.turns)))
      && (forall j :: 0 <= j < |at| ==> at[j] < |older| && SameTurn(next[j], older[at[j]]))
      && (forall j :: 0 <= j < |snap.turns| ==> SameTurn(next[|at| + j], snap.turns[j]))
  {
    var w := FetchWindow(pages, snap.older.value, snap.pending);
    var older := IngestItems(NOTHING, w.items).turns;
    at := FreshPicks(older, TurnIds(snap.turns), 0);
    assert older[0..] == older;
    var turns := Fresh(older, TurnIds(snap.turns)) + snap.turns;
    PropagateKeeps(None, turns);
  }

  lemma CreatedId(items: seq<Item>, id: Id) returns (i: int)
    requires id in TurnIds(IngestItems(NOTHING, items).turns)
    ensures 0 <= i < |items| && IsCreated(items[i]) && items[i].turn == id
  {
    var turns := IngestItems(NOTHING, items).turns;
    IngestionKept(items);
    var k :| 0 <= k < |turns| && turns[k].id == id;
    i :| 0 <= i < |items| && IsCreated(items[i]) && items[i].turn == turns[k].id;
  }

  lemma DisjointIds(older: seq<Item>, newer: seq<Item>)
    requires DifferentTurns(older, newer)
    ensures TurnIds(IngestItems(NOTHING, older).turns) !! TurnIds(IngestItems(NOTHING, newer).turns)
  {
    var ours, theirs := TurnIds(IngestItems(NOTHING, older).turns), TurnIds(IngestItems(NOTHING, newer).turns);
    if id :| id in ours && id in theirs {
      var i := CreatedId(older, id);
      var j := CreatedId(newer, id);
    }
  }

  /** Prepending a window to a snapshot that is its history's ingestion gives the ingestion of
      the longer history. */
  lemma PrependWindow(pages: Pages, snap: Snapshot, settled: bool)
    requires snap.older.Some? && snap.older.value < |pages| && IsIngested(snap, settled)
    requires var w := FetchWindow(pages, snap.older.value, snap.pending);
      && IndependentItems(w.items, snap.history) && DifferentTurns(w.items, snap.history)
      && (snap.history == [] ==> !settled)
      && StartsTurn(snap.history)
    ensures IsIngested(LoadOlder(pages, snap), settled)
  {
    var w := FetchWindow(pages, snap.older.value, snap.pending);
    if w.items != [] {
      var s, newer := IngestItems(NOTHING, w.items), IngestItems(NOTHING, snap.history);
      DisjointIds(w.items, snap.history);
      FreshAll(s.turns, TurnIds(snap.turns));
      IngestionKept(w.items);
      PropagateConcat(None, s.turns, snap.turns);
      IngestItemsConcat(NOTHING, w.items, snap.history);
      if snap.history == [] {
        assert w.items + snap.history == w.items;
        assert s.turns + [] == s.turns;
        PrependEmpty(s.fold);
      } else {
        ClearWindow(w.items, snap.history);
        JoinItems(s, snap.history);
        JoinSettled(s, snap.history);
      }
    }
  }

  // ----- Loading to the start of the session -----

  ghost predicate Ready(pages: Pages, snap: Snapshot) {
    Covers(pages, snap.older, snap.pending, snap.history)
  }

  lemma NewestCovers(pages: Pages)
    requires |pages| > 0
    ensures Ready(pages, LoadNewest(pages)) && IsIngested(LoadNewest(pages), true)
  {
    var w := FetchWindow(pages, 0, []);
    FetchCovers(pages, [], 0, MAX_HISTORY_BOUNDARY_PAGES, []);
    assert w.items + [] == w.items;
  }

  lemma OlderWindowCovers(pages: Pages, snap: Snapshot)
    requires Ready(pages, snap) && snap.older.Some?
    ensures var w := FetchWindow(pages, snap.older.value, snap.pending);
      && Covers(pages, w.older, w.pending, w.items + snap.history)
      && StartsTurn(w.items)
      && (w.older.Some? ==> snap.older.value < w.older.value <= snap.older.value + MAX_HISTORY_BOUNDARY_PAGES)
      && (w.older.Some? && w.older.value < snap.older.value + MAX_HISTORY_BOUNDARY_PAGES
          ==> w.items != [] && OpensGroup(w.items[0].event.body.input))
  {
    ReverseTwice(snap.pending);
    FetchCovers(pages, Reverse(snap.pending), snap.older.value, MAX_HISTORY_BOUNDARY_PAGES, snap.history);
  }

  lemma OlderCovers(pages: Pages, snap: Snapshot)
    requires Ready(pages, snap)
    ensures Ready(pages, LoadOlder(pages, snap))
    ensures snap.older.Some? && LoadOlder(pages, snap).older.Some? ==>
      snap.older.value < LoadOlder(pages, snap).older.value <= snap.older.value + MAX_HISTORY_BOUNDARY_PAGES
  {
    if snap.older.Some? {
      OlderWindowCovers(pages, snap);
      assert [] + snap.history == snap.history;
    }
  }

  ghost predicate NextWindow(pages: Pages, snap: Snapshot, next: Snapshot) {
    (snap.older.Some? ==> snap.older.value < |pages|) && next == LoadOlder(pages, snap)
  }

  /** The first load, and then one older window after another. */
  ghost predicate Scroll(pages: Pages, snaps: seq<Snapshot>) {
    && |pages| > 0 && |snaps| > 0
    && snaps[0] == LoadNewest(pages)
    && forall k :: 0 < k < |snaps| ==> NextWindow(pages, snaps[k - 1], snaps[k])
  }

  lemma OlderProgress(pages: Pages, snap: Snapshot, next: Snapshot)
    requires Ready(pages, snap) && NextWindow(pages, snap, next)
    ensures Ready(pages, next)
    ensures snap.older.None? ==> next == snap
    ensures snap.older.Some? && next.older.Some? ==> snap.older.value < next.older.value < |pages|
    ensures snap.history != [] ==> next.history != []
  {
    OlderCovers(pages, snap);
  }

  lemma FirstReady(pages: Pages, snap: Snapshot)
    requires |pages| > 0 && snap == LoadNewest(pages)
    ensures Ready(pages, snap) && IsIngested(snap, snap.history != [])
    ensures snap.older.Some? ==> 0 < snap.older.value < |pages|
  {
    NewestCovers(pages);
  }

  /** While older pages remain, what is held back and loaded is exactly what was fetched; and
      every load gets further, so the session start is reached. */
  lemma {:induction false} ScrollCovers(pages: Pages, snaps: seq<Snapshot>, n: nat)
    requires Scroll(pages, snaps) && n < |snaps|
    ensures Ready(pages, snaps[n])
    ensures snaps[n].older.Some? ==> n < snaps[n].older.value < |pages|
    ensures snaps[0].history != [] ==> snaps[n].history != []
    decreases n
  {
    if n == 0 {
      FirstReady(pages, snaps[0]);
    } else {
      ScrollCovers(pages, snaps, n - 1);
      OlderProgress(pages, snaps[n - 1], snaps[n]);
    }
  }

  lemma ScrollStep(pages: Pages, snaps: seq<Snapshot>, n: nat)
    requires Scroll(pages, snaps) && 0 < n < |snaps|
    ensures Ready(pages, snaps[n - 1]) && NextWindow(pages, snaps[n - 1], snaps[n])
  {
    ScrollCovers(pages, snaps, n - 1);
  }

  /** The load stopped inside a user's turn group. */
  predicate StoppedInGroup(snap: Snapshot) {
    && snap.older.Some?
    && snap.history != [] && IsCreated(snap.history[0]) && !OpensGroup(snap.history[0].event.body.input)
  }

  lemma OlderStopsOnlyAtCap(pages: Pages, snap: Snapshot)
    requires Ready(pages, snap) && snap.older.Some?
    requires StoppedInGroup(LoadOlder(pages, snap)) && LoadOlder(pages, snap).history != snap.history
    ensures LoadOlder(pages, snap).older.value == snap.older.value + MAX_HISTORY_BOUNDARY_PAGES
  {
    var w := FetchWindow(pages, snap.older.value, snap.pending);
    OlderWindowCovers(pages, snap);
    assert LoadOlder(pages, snap).history[0] == w.items[0];
  }

  lemma NextStopsOnlyAtCap(pages: Pages, snap: Snapshot, next: Snapshot)
    requires Ready(pages, snap) && NextWindow(pages, snap, next) && StoppedInGroup(next) && next.history != snap.history
    ensures snap.older.Some? && next.older.value == snap.older.value + MAX_HISTORY_BOUNDARY_PAGES
  {
    OlderProgress(pages, snap, next);
    OlderStopsOnlyAtCap(pages, snap);
  }

  lemma NewestStopsOnlyAtCap(pages: Pages)
    requires |pages| > 0 && StoppedInGroup(LoadNewest(pages))
    ensures LoadNewest(pages).older.value == MAX_HISTORY_BOUNDARY_PAGES
  {
    FetchCovers(pages, [], 0, MAX_HISTORY_BOUNDARY_PAGES, []);
  }

  /** Only the page cap can stop a load inside a group: wherever a scroll stands when it has just
      loaded something and stopped there, the last load read its full budget of pages. */
  lemma StopsOnlyAtCap(pages: Pages, snaps: seq<Snapshot>, n: nat)
    requires Scroll(pages, snaps) && n < |snaps|
    requires StoppedInGroup(snaps[n]) && (n > 0 ==> snaps[n].history != snaps[n - 1].history)
    ensures n > 0 ==> snaps[n - 1].older.Some?
    ensures snaps[n].older.value == (if n == 0 then 0 else snaps[n - 1].older.value) + MAX_HISTORY_BOUNDARY_PAGES
  {
    if n == 0 {
      NewestStopsOnlyAtCap(pages);
    } else {
      hide LoadOlder, Ready, NextWindow, Scroll;
      ScrollStep(pages, snaps, n);
      NextStopsOnlyAtCap(pages, snaps[n - 1], snaps[n]);
    }
  }

  lemma {:induction false} SuffixOfAll(pages: Pages, n: nat) returns (before: seq<Item>)
    requires n <= |pages|
    ensures before + Suffix(pages, n) == Suffix(pages, |pages|)
    decreases |pages| - n
  {
    if n == |pages| {
      before := [];
    } else {
      var older := SuffixOfAll(pages, n + 1);
      before := older + Reverse(pages[n]);
      Regroup(older, Reverse(pages[n]), Suffix(pages, n));
    }
  }

  /** The history loaded so far is the end of the log. */
  lemma HistoryIsSuffix(pages: Pages, snap: Snapshot) returns (before: seq<Item>)
    requires Ready(pages, snap)
    ensures before + snap.history == Suffix(pages, |pages|)
  {
    match snap.older {
      case Some(token) =>
        var older := SuffixOfAll(pages, token);
        before := older + snap.pending;
        Regroup(older, snap.pending, snap.history);
      case None =>
        var log := Suffix(pages, |pages|);
        TrimLength(log);
        before := log[..|log| - |snap.history|];
    }
  }

  lemma SliceIndependent(log: seq<Item>, before: seq<Item>, middle: seq<Item>, history: seq<Item>)
    requires log == before + (middle + history) && GroupsIndependent(log)
    requires history != [] ==> IsCreated(history[0]) && OpensGroup(history[0].event.body.input)
    ensures IndependentItems(middle, history) && DifferentTurns(middle, history)
  {
    var p := |before| + |middle|;
    if history != [] && p > 0 {
      assert log[p] == history[0];
      assert log[..p] == before + middle && log[p..] == history;
      forall i | 0 <= i < |middle| ensures middle[i] == log[..p][|before| + i] {}
    }
  }

  lemma WindowIsSeparate(pages: Pages, snap: Snapshot)
    requires GroupsIndependent(Suffix(pages, |pages|)) && Ready(pages, snap) && snap.older.Some?
    requires !StoppedInGroup(snap)
    ensures var w := FetchWindow(pages, snap.older.value, snap.pending);
      IndependentItems(w.items, snap.history) && DifferentTurns(w.items, snap.history)
  {
    var log := Suffix(pages, |pages|);
    var w := FetchWindow(pages, snap.older.value, snap.pending);
    if w.items != [] {
      OlderCovers(pages, snap);
      var before := HistoryIsSuffix(pages, LoadOlder(pages, snap));
      SliceIndependent(log, before, w.items, snap.history);
    }
  }

  lemma PrependIngested(pages: Pages, snap: Snapshot, next: Snapshot, settled: bool)
    requires GroupsIndependent(Suffix(pages, |pages|)) && Ready(pages, snap) && NextWindow(pages, snap, next)
    requires IsIngested(snap, settled) && !StoppedInGroup(snap) && (snap.history == [] ==> !settled)
    ensures IsIngested(next, settled)
  {
    if snap.older.Some? {
      WindowIsSeparate(pages, snap);
      PrependWindow(pages, snap, settled);
    }
  }

  /** For every log whose user turns do not refer back, and every cut of it into pages: as long
      as no load stops inside a group, each snapshot is the one that ingesting its history at
      once gives, with the open tip's answers exactly if the first load reached a turn. */
  lemma {:induction false} LoadsAreIngestions(pages: Pages, snaps: seq<Snapshot>, n: nat)
    requires Scroll(pages, snaps) && n < |snaps| && GroupsIndependent(Suffix(pages, |pages|))
    requires forall k :: 0 <= k < n ==> !StoppedInGroup(snaps[k])
    ensures IsIngested(snaps[n], snaps[0].history != [])
    decreases n
  {
    if n == 0 {
      FirstReady(pages, snaps[0]);
    } else {
      LoadsAreIngestions(pages, snaps, n - 1);
      ScrollCovers(pages, snaps, n - 1);
      PrependIngested(pages, snaps[n - 1], snaps[n], snaps[0].history != []);
    }
  }

  ghost predicate HoldsAll(snap: Snapshot, log: seq<Item>) {
    && snap.older.None? && snap.pending == [] && snap.history == log
    && snap.turns == IngestItems(NOTHING, log).turns
    && snap.fold == Settled(IngestItems(NOTHING, log))
  }

  lemma HoldsWhenSettled(snap: Snapshot, log: seq<Item>, settled: bool)
    requires IsIngested(snap, settled) && snap.older.None? && snap.pending == [] && snap.history == log
    ensures snap.turns == IngestItems(NOTHING, log).turns
    ensures HoldsAll(snap, log) <==> settled || Settled(IngestItems(NOTHING, log)) == IngestItems(NOTHING, log).fold
  {
  }

  /** Scrolling as often as there are pages reaches the start of the session. */
  lemma ScrollEnds(pages: Pages, snaps: seq<Snapshot>)
    requires Scroll(pages, snaps) && |snaps| > |pages|
    ensures var last := snaps[|snaps| - 1];
      last.older.None? && last.pending == [] && last.history == Trim(Suffix(pages, |pages|))
  {
    ScrollCovers(pages, snaps, |snaps| - 1);
  }

  /** Paged loading is lossless: scrolling to the start of a session that begins with a turn gives
      the events and turn records of ingesting the whole log at once; and it gives the fold too,
      exactly when the first load reached a turn or the open tip's answers change nothing. */
  lemma PagedLoadingIsLossless(pages: Pages, snaps: seq<Snapshot>, log: seq<Item>, last: Snapshot)
    requires Scroll(pages, snaps) && |snaps| > |pages| && last == snaps[|snaps| - 1]
    requires log == Suffix(pages, |pages|) && GroupsIndependent(log) && StartsTurn(log)
    requires forall k :: 0 <= k < |snaps| - 1 ==> !StoppedInGroup(snaps[k])
    ensures last.history == log && last.turns == IngestItems(NOTHING, log).turns
    ensures HoldsAll(last, log)
      <==> snaps[0].history != [] || Settled(IngestItems(NOTHING, log)) == IngestItems(NOTHING, log).fold
  {
    hide Scroll, IsIngested, IngestItems, Settled, GroupsIndependent, StoppedInGroup, Suffix;
    ScrollEnds(pages, snaps);
    LoadsAreIngestions(pages, snaps, |snaps| - 1);
    HoldsWhenSettled(last, log, snaps[0].history != []);
  }
}
