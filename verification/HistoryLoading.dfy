/** The loading loops of the session history, against the functions of module Paging. */
module HistoryLoading {
  import opened JsMaps
  import opened Paging
  import Events
  import Fold
  import FoldState
  import Scoping

  class SessionSnapshot {
    const fold: FoldState.PeerThreadFoldState
    const turns: seq<TurnRecord>
    const historyEvents: seq<Item>
    const olderPageToken: Option<nat>
    const pendingItems: seq<Item>
    const runningTurn: Option<RunningTurn>
    const groupRootBaseline: Option<seq<Id>>

    function Value(): Snapshot
      reads fold
    {
      Snapshot(fold.State(), turns, historyEvents, olderPageToken, pendingItems, runningTurn, groupRootBaseline)
    }

    constructor (fold: FoldState.PeerThreadFoldState, turns: seq<TurnRecord>, historyEvents: seq<Item>, window: Window,
                 running: Option<RunningTurn>, baseline: Option<seq<Id>>)
      ensures this.fold == fold
      ensures Value() == Snapshot(fold.State(), turns, historyEvents, window.older, window.pending, running, baseline)
    {
      this.fold := fold;
      this.turns := turns;
      this.historyEvents := historyEvents;
      olderPageToken, pendingItems := window.older, window.pending;
      runningTurn, groupRootBaseline := running, baseline;
    }
  }

  /** Chains pages until the window opens on a complete user turn or nothing is left. */
  method FetchSessionEventsWindow(pages: Pages, first: nat, pending: seq<Item>) returns (window: Window)
    requires first < |pages|
    ensures window == FetchWindow(pages, first, pending)
  {
    var newestFirst := Reverse(pending);
    var token: nat := first;
    window := ToWindow(newestFirst, None);
    var pageCount := 0;
    while pageCount < MAX_HISTORY_BOUNDARY_PAGES
      invariant 0 <= pageCount <= MAX_HISTORY_BOUNDARY_PAGES && token < |pages|
      invariant if pageCount < MAX_HISTORY_BOUNDARY_PAGES
        then FetchFrom(pages, newestFirst, token, MAX_HISTORY_BOUNDARY_PAGES - pageCount) == FetchWindow(pages, first, pending)
        else window == FetchWindow(pages, first, pending)
    {
      newestFirst := newestFirst + pages[token];
      window := ToWindow(newestFirst, NextToken(pages, token));
      pageCount := pageCount + 1;
      if OldestGroupState(window.items).UserGroup? || window.older.None? {
        return;
      }
      token := window.older.value;
    }
  }

  /** Folds the window's events and collects its finished turns. */
  method IngestSessionEvents(fold: FoldState.PeerThreadFoldState, items: seq<Item>)
    returns (turns: seq<TurnRecord>, ghost after: Ingestion)
    requires fold.Valid()
    modifies fold
    ensures fold.Valid()
    ensures after == IngestItems(Ingestion(old(fold.State()), [], None, None), items)
    ensures fold.State() == after.fold && turns == after.turns
  {
    ghost var before := Ingestion(fold.State(), [], None, None);
    var current: Option<OpenTurn> := None;
    var sessionSandbox: Option<Id> := None;
    turns := [];
    for i := 0 to |items|
      invariant fold.Valid()
      invariant Ingestion(fold.State(), turns, current, sessionSandbox) == IngestItems(before, items[..i])
    {
      assert items[..i + 1][..i] == items[..i];
      var item := items[i];
      var body := item.event.body;
      if body.TurnCreated? {
        var root := if fold.threads.Has(Events.ROOT) then |fold.threads.vals[Events.ROOT].modelIds| else 0;
        current := Some(OpenTurn(item.turn, item.event.at, body.input, root, None));
      } else if body.TurnDone? {
        if current.Some? {
          var turn := current.value;
          var root := if fold.threads.Has(Events.ROOT) then fold.threads.vals[Events.ROOT].modelIds else [];
          sessionSandbox := turn.sandbox.Or(sessionSandbox);
          fold.ApplyUserToolResponses(turn.input);
          turns := turns + [TurnRecord(turn.id, turn.createdAt, turn.input, body.state, From(root, turn.before), sessionSandbox)];
          current := None;
        }
      } else if current.Some? {
        fold.IngestTurnEvent(item.event);
        if body.SandboxCreated? && current.value.sandbox.None? {
          current := Some(current.value.(sandbox := Some(body.sandboxId)));
        }
      }
    }
    assert items[..|items|] == items;
    after := IngestItems(before, items);
  }

  /** The last turn created and not done. */
  method FindOpenTurnCreated(items: seq<Item>) returns (running: Option<RunningTurn>)
    ensures running == Tip(IngestItems(NOTHING, items))
  {
    running := None;
    for i := 0 to |items|
      invariant running == Tip(IngestItems(NOTHING, items[..i]))
    {
      assert items[..i + 1][..i] == items[..i];
      match items[i].event.body {
        case TurnCreated(input) => running := Some(RunningTurn(items[i].turn, items[i].event.at, input));
        case TurnDone(_) => running := None;
        case _ =>
      }
    }
    assert items[..|items|] == items;
  }

  // ----- The tip as the server knows it -----

  /** What asking for the open tip's turn gives: nothing, when it fails or cannot be asked; the turn
      still running; or the turn ended, between the listing of events and now. An input may be
      missing. */
  datatype Asked =
    | Unavailable
    | StillRunning(createdAt: int, input: Option<seq<Events.InputItem>>)
    | Ended(createdAt: int, input: Option<seq<Events.InputItem>>, state: Events.DoneState)

  /** The tip's answers, as its event has them and then as the server does. */
  function SettledBy(s: Ingestion, asked: Asked): Fold.Fold
    requires s.open.Some?
  {
    var own := s.open.value.input;
    Fold.Run(Fold.Run(s.fold, Fold.InputOps(own)), Fold.InputOps(if asked.Unavailable? then own else asked.input.Or(Some(own)).value))
  }

  function Attached(s: Ingestion, asked: Asked): RunningTurn
    requires s.open.Some?
  {
    var open := s.open.value;
    match asked
    case Unavailable => RunningTurn(open.id, open.createdAt, open.input)
    case _ => RunningTurn(open.id, asked.createdAt, asked.input.Or(Some([])).value)
  }

  /** A tip that has ended is recorded, with the root messages that no record lists. */
  function WithEnded(s: Ingestion, f: Fold.Fold, createdAt: int, input: seq<Events.InputItem>,
                     state: Events.DoneState): seq<TurnRecord>
    requires s.open.Some?
  {
    if s.open.value.id in TurnIds(s.turns) then s.turns
    else
      s.turns + [TurnRecord(s.open.value.id, createdAt, input, state,
                            Scoping.SinceBaseline(RootIds(f), AllRootIds(s.turns)), None)]
  }

  /** The first load of a session, by what asking for its open tip gives. */
  function LoadAsked(pages: Pages, asked: Asked): Snapshot
    requires |pages| > 0
  {
    var w := FetchWindow(pages, 0, []);
    var s := IngestItems(NOTHING, w.items);
    if s.open.None? then LoadNewest(pages)
    else
      var fold := SettledBy(s, asked);
      if asked.Ended? then
        var turns := WithEnded(s, fold, asked.createdAt, asked.input.Or(Some([])).value, asked.state);
        Snapshot(fold, turns, w.items, w.older, w.pending, None, None)
      else
        var running := Attached(s, asked);
        var before := if Events.OpensGroup(running.input) then s.turns else Earlier(s.turns);
        Snapshot(fold, s.turns, w.items, w.older, w.pending, Some(running), Some(AllRootIds(before)))
  }

  /** The server says no more of the tip than its event does. */
  predicate InVain(s: Ingestion, asked: Asked) {
    s.open.None? || asked.Unavailable? || asked == StillRunning(s.open.value.createdAt, Some(s.open.value.input))
  }

  /** A tip found ended is recorded as its `turn.done` event would have recorded it, but for the
      sandbox; and the fold is the one after that event, with the answers applied once more. */
  lemma EndedTipIsDone(pages: Pages, asked: Asked, s: Ingestion, at: int)
    requires |pages| > 0 && s == IngestItems(NOTHING, FetchWindow(pages, 0, []).items)
    requires Scoping.Bracketed(FetchWindow(pages, 0, []).items) && s.open.Some? && s.open.value.id !in TurnIds(s.turns)
    requires asked.Ended? && asked.createdAt == s.open.value.createdAt && asked.input == Some(s.open.value.input)
    ensures var open, snap := s.open.value, LoadAsked(pages, asked);
      var done := IngestItem(s, Item(open.id, Events.Event("", None, at, Events.TurnDone(asked.state))));
      && |done.turns| == |s.turns| + 1
      && snap.turns == s.turns + [done.turns[|s.turns|].(sandbox := None)]
      && snap.fold == Fold.Run(done.fold, Fold.InputOps(open.input)) && RootIds(snap.fold) == RootIds(done.fold)
      && snap.running.None?
  {
    var items := FetchWindow(pages, 0, []).items;
    Scoping.SettlingKeepsRoots(s);
    Scoping.IngestionCovers(items);
    Scoping.RootsDistinct(items);
    Scoping.PrefixScope(RootIds(s.fold), AllRootIds(s.turns));
    Scoping.InputsAreAnswers(s.open.value.input);
    Scoping.AnswersKeepRoots(s.fold, Fold.InputOps(s.open.value.input));
  }

  /** The first load of a session. An open tip is attached as the turn to resume, with its group's
      baseline, or recorded when it has ended by now; its answers are applied for the first paint and
      again as the server gives them. When the server says no more of it than its event, this is the
      load that everything on paging and scoping is about. */
  method BuildSnapshotFromSessionEvents(pages: Pages, asked: Asked) returns (snap: SessionSnapshot)
    requires |pages| > 0
    ensures fresh(snap) && fresh(snap.fold) && snap.fold.Valid()
    ensures snap.Value() == LoadAsked(pages, asked)
    ensures InVain(IngestItems(NOTHING, FetchWindow(pages, 0, []).items), asked) ==> snap.Value() == LoadNewest(pages)
  {
    var window := FetchSessionEventsWindow(pages, 0, []);
    var fold := new FoldState.PeerThreadFoldState();
    var turns, s := IngestSessionEvents(fold, window.items);
    var tip := FindOpenTurnCreated(window.items);
    if tip.None? {
      snap := new SessionSnapshot(fold, turns, window.items, window, None, None);
      return;
    }
    fold.ApplyUserToolResponses(tip.value.input);
    var running := tip.value;
    var answers := tip.value.input;
    if !asked.Unavailable? {
      running := RunningTurn(tip.value.id, asked.createdAt, asked.input.Or(Some([])).value);
      answers := asked.input.Or(Some(answers)).value;
    }
    fold.ApplyUserToolResponses(answers);
    if asked.Ended? {
      if running.id !in TurnIds(turns) {
        var root := if fold.threads.Has(Events.ROOT) then fold.threads.vals[Events.ROOT].modelIds else [];
        turns := turns + [TurnRecord(running.id, running.createdAt, running.input, asked.state,
                                     Scoping.SinceBaseline(root, AllRootIds(turns)), None)];
      }
      snap := new SessionSnapshot(fold, turns, window.items, window, None, None);
      return;
    }
    var baseline := AllRootIds(turns);
    if !Events.OpensGroup(running.input) {
      baseline := Scoping.ComputeGroupRootBaseline(turns);
    }
    snap := new SessionSnapshot(fold, turns, window.items, window, Some(running), Some(baseline));
  }

  /** Carries each sandbox forward onto the turns that name none. */
  method PropagateSandbox(turns: seq<TurnRecord>) returns (merged: seq<TurnRecord>)
    ensures merged == Propagate(None, turns)
  {
    merged := [];
    var known: Option<Id> := None;
    for i := 0 to |turns|
      invariant merged == Propagate(None, turns[..i]) && known == LastSandbox(None, turns[..i])
    {
      var turn := turns[i];
      JoinedRecords(None, turns[..i], turn);
      assert turns[..i] + [turn] == turns[..i + 1];
      if turn.sandbox.Some? {
        known := turn.sandbox;
        merged := merged + [turn];
      } else if known.Some? {
        merged := merged + [turn.(sandbox := known)];
      } else {
        merged := merged + [turn];
      }
    }
    assert turns[..|turns|] == turns;
  }

  /** Fetches the next older window and puts it in front, leaving the given snapshot as it is. */
  method PrependOlderSessionHistory(pages: Pages, snap: SessionSnapshot) returns (next: SessionSnapshot)
    requires snap.fold.Valid() && (snap.olderPageToken.Some? ==> snap.olderPageToken.value < |pages|)
    ensures next.Value() == LoadOlder(pages, snap.Value())
  {
    if snap.olderPageToken.None? {
      return snap;
    }
    var window := FetchSessionEventsWindow(pages, snap.olderPageToken.value, snap.pendingItems);
    if window.items == [] {
      next := new SessionSnapshot(snap.fold, snap.turns, snap.historyEvents, window, snap.runningTurn, snap.groupRootBaseline);
      return;
    }
    var olderFold := new FoldState.PeerThreadFoldState();
    var allTurns, s := IngestSessionEvents(olderFold, window.items);
    assert s == IngestItems(NOTHING, window.items);
    var olderTurns := Fresh(allTurns, TurnIds(snap.turns));
    var merged := FoldState.PrependFoldState(olderFold, snap.fold);
    var turns := PropagateSandbox(olderTurns + snap.turns);
    var baseline := if snap.groupRootBaseline.Some?
      then Some(AllRootIds(olderTurns) + snap.groupRootBaseline.value) else None;
    next := new SessionSnapshot(merged, turns, window.items + snap.historyEvents, window, snap.runningTurn, baseline);
  }
}
