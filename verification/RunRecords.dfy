/** What the run machine records of a turn, and why: how a stream that finished, was cancelled, was
    abandoned or never painted anything ends up in the turns. */
module RunRecords {
  import opened JsMaps
  import opened Events
  import opened Paging
  import opened RunMachine
  import Scoping

  const CLIENT_CANCELLED := Cancelled("client-cancelled")

  /** How a stream that came to its end has ended. */
  function EndState(a: Active): DoneState {
    match a.cancelled
    case Some(reason) => Cancelled(reason)
    case None => Finished
  }

  function Last(turns: seq<TurnRecord>): TurnRecord
    requires turns != []
  {
    turns[|turns| - 1]
  }

  // ----- What one step records -----

  /** The last record is of this turn. */
  predicate Known(s: Snap, id: Id) {
    s.turns != [] && Last(s.turns).id == id
  }

  /** The root messages since the baseline, or one made up for content that no message holds. */
  ghost predicate ListsRoots(s: Snap, after: Snap, a: Active, ids: seq<Id>, made: bool) {
    var since := Scoping.SinceBaseline(s.roots, GroupBaseline(s));
    if since == [] && a.hasContent && made then ids == ["client-abandoned-" + a.turn] && after.roots == s.roots + ids
    else ids == since && after.roots == s.roots
  }

  /** The stream is in the last record, which was there already or is new: with its own state, with the
      pending message and the answers as input, and with the time and sandbox it has. Records of other
      turns stay as they are. */
  ghost predicate RecordsStream(s: Snap, after: Snap, a: Active, state: DoneState, answers: seq<InputItem>, now: int) {
    && after.turns != [] && |after.turns| == |s.turns| + (if Known(s, a.turn) then 0 else 1)
    && (forall i :: 0 <= i < |s.turns| ==>
          if Known(s, a.turn) && s.turns[i].id == a.turn then after.turns[i].id == a.turn && after.turns[i].state == state
          else after.turns[i] == s.turns[i])
    && var r := Last(after.turns);
       && r.id == a.turn && r.state == state
       && ListsRoots(s, after, a, r.rootIds, state.Cancelled?)
       && if Known(s, a.turn) then
            && r.createdAt == Last(s.turns).createdAt && r.input == Last(s.turns).input + answers
            && r.sandbox == if a.sandbox.Some? then a.sandbox else Last(s.turns).sandbox
          else
            && r.createdAt == (if s.pending.Some? then s.pending.value.createdAt else now)
            && r.input == (if s.pending.Some? then [UserMessage(s.pending.value.content)] else []) + answers
            && r.sandbox == a.sandbox
  }

  /** A message that nothing was shown for is a record of its own. */
  ghost predicate RecordsPending(s: Snap, after: Snap)
    requires s.pending.Some?
  {
    var p := s.pending.value;
    && after.turns == s.turns + [TurnRecord(p.turn, p.createdAt, [UserMessage(p.content)], CLIENT_CANCELLED, [], None)]
    && after.roots == s.roots
  }

  /** What was in flight when something else took its place. */
  ghost predicate RecordsLeft(s: Snap, after: Snap, now: int) {
    if s.active.Some? then
      RecordsStream(s, after, s.active.value, if s.active.value.complete then EndState(s.active.value) else CLIENT_CANCELLED, [], now)
    else if s.pending.Some? then RecordsPending(s, after)
    else after.turns == s.turns && after.roots == s.roots
  }

  lemma {:induction false} UpdatedAt(turns: seq<TurnRecord>, a: Active, state: DoneState, ids: seq<Id>, more: seq<InputItem>, i: nat)
    requires i < |turns|
    ensures UpdateTurn(turns, a, state, ids, more)[i] == UpdateOne(turns[i], a, state, ids, more)
    decreases turns
  {
    if i < |turns| - 1 {
      UpdatedAt(turns[..|turns| - 1], a, state, ids, more, i);
    }
  }

  lemma RecordedStream(s: Snap, after: Snap, a: Active, state: DoneState, more: seq<InputItem>, now: int)
    requires var since := Scoping.SinceBaseline(s.roots, GroupBaseline(s));
      var ids := if state.Cancelled? then Materialized(s, a, since) else since;
      && after.turns == Recorded(s, a, state, ids, more, now)
      && after.roots == if ids == since then s.roots else s.roots + ids
    ensures RecordsStream(s, after, a, state, more, now)
  {
    if Known(s, a.turn) {
      var since := Scoping.SinceBaseline(s.roots, GroupBaseline(s));
      var ids := if state.Cancelled? then Materialized(s, a, since) else since;
      forall i | 0 <= i < |s.turns| ensures after.turns[i] == UpdateOne(s.turns[i], a, state, ids, more) {
        UpdatedAt(s.turns, a, state, ids, more, i);
      }
    }
  }

  /** A finished stream stays active, as ended, only when nothing was listed for it. */
  ghost predicate Settles(after: Snap, a: Active) {
    && after.pending.None? && after.turns != []
    && after.active == if Last(after.turns).rootIds == [] && a.cancelled.None? then Some(a.(complete := true)) else None
  }

  lemma CommitRecords(s: Snap, more: seq<InputItem>, now: int)
    requires s.active.Some? && s.active.value.complete
    ensures RecordsStream(s, CommitActiveStream(s, more, now), s.active.value, EndState(s.active.value), more, now)
    ensures Settles(CommitActiveStream(s, more, now), s.active.value)
  {
    RecordedStream(s, CommitActiveStream(s, more, now), s.active.value, EndState(s.active.value), more, now);
  }

  lemma AbandonRecords(s: Snap, now: int)
    requires s.active.Some? && !s.active.value.complete
    ensures RecordsStream(s, AbandonInFlightClientTurn(s, now), s.active.value, CLIENT_CANCELLED, [], now)
  {
    RecordedStream(s, AbandonInFlightClientTurn(s, now), s.active.value, CLIENT_CANCELLED, [], now);
  }

  lemma LeftRecords(s: Snap, after: Snap, now: int)
    requires var left := AbandonInFlightClientTurn(CommitActiveStream(s, [], now), now); after.turns == left.turns && after.roots == left.roots
    ensures RecordsLeft(s, after, now)
  {
    if s.active.Some? {
      if s.active.value.complete {
        CommitRecords(s, [], now);
        assert CommitActiveStream(s, [], now) == AbandonInFlightClientTurn(CommitActiveStream(s, [], now), now);
      } else {
        AbandonRecords(s, now);
      }
    }
  }

  /** A step of the current stream's end. */
  predicate EndsStream(w: World, step: Step, aborted: bool) {
    step.End? && step.aborted == aborted && step.generation == w.generation && w.generation in w.streams
  }

  predicate Unfinished(s: Snap) {
    s.active.Some? && !s.active.value.complete
  }

  /** What each step does to the records, and to what is in flight. */
  ghost predicate StepRecords(w: World, step: Step, t: Snap) {
    var s := w.snap;
    match step
    case Send(generation, id, now) =>
      if !Applies(w, step) then t == s
      else
        && RecordsLeft(s, t, now)
        && t.pending == Some(PendingUser(id, w.waiting[generation], now)) && t.active.None? && t.baseline == Some(t.roots)
    case Fail(_, now) =>
      if Applies(w, step) && Unfinished(s) then RecordsLeft(s, t, now) && t.pending.None? && t.active.None? else t == s
    case Continue(generation, answers, _, now) =>
      if generation == w.generation && s.active.Some? && s.active.value.complete then
        RecordsStream(s, t, s.active.value, EndState(s.active.value), answers, now) && Settles(t, s.active.value)
      else t == s
    case End(_, aborted, now) =>
      if !EndsStream(w, step, aborted) then t == s
      else if aborted then
        if Unfinished(s) then
          RecordsStream(s, t, s.active.value, CLIENT_CANCELLED, [], now) && t.pending.None? && t.active.None?
        else if s.pending.Some? then RecordsPending(s, t) && t.pending.None? && t.active.None?
        else t == s
      else if s.active.None? then t == s
      else RecordsStream(s, t, s.active.value, EndState(s.active.value), [], now) && Settles(t, s.active.value)
    case Update(generation, hasContent, cancelled, sandbox) =>
      if generation == w.generation && generation in w.streams
      then t == s.(active := Some(Active(w.streams[generation].turn, false, cancelled, hasContent, sandbox)))
      else t == s
    case _ => t.turns == s.turns && t.active == s.active && t.baseline == s.baseline
  }

  lemma EndRecords(w: World, step: Step)
    requires step.End?
    ensures StepRecords(w, step, Next(w, step).snap)
  {
    var s := w.snap;
    if EndsStream(w, step, step.aborted) {
      if step.aborted {
        if Unfinished(s) {
          AbandonRecords(s, step.now);
        }
      } else if s.active.Some? {
        var marked := s.(active := Some(s.active.value.(complete := true)));
        assert GroupBaseline(marked) == GroupBaseline(s);
        CommitRecords(marked, [], step.now);
        MarkedAlike(s, marked, Next(w, step).snap, step.now);
      }
    }
  }

  lemma MarkedAlike(s: Snap, marked: Snap, t: Snap, now: int)
    requires s.active.Some? && marked == s.(active := Some(s.active.value.(complete := true)))
    requires RecordsStream(marked, t, marked.active.value, EndState(marked.active.value), [], now)
    ensures RecordsStream(s, t, s.active.value, EndState(s.active.value), [], now)
  {
    assert GroupBaseline(marked) == GroupBaseline(s);
  }

  lemma StepRecordsIt(w: World, step: Step)
    ensures StepRecords(w, step, Next(w, step).snap)
  {
    match step {
      case Send(_, _, now) =>
        if Applies(w, step) {
          LeftRecords(w.snap, Next(w, step).snap, now);
        }
      case Fail(_, now) =>
        if Applies(w, step) && Unfinished(w.snap) {
          LeftRecords(w.snap, Next(w, step).snap, now);
        }
      case Continue(generation, answers, _, now) =>
        if generation == w.generation && w.snap.active.Some? && w.snap.active.value.complete {
          CommitRecords(w.snap, answers, now);
        }
      case End(_, _, _) => EndRecords(w, step);
      case _ =>
    }
  }

  // ----- Why a record is what it is -----

  /** The step left the record's turn behind: a message was shown, a send failed, or the stream was
      aborted, while the turn was unfinished or had only its message. */
  ghost predicate LeavesBehind(w: World, step: Step, id: Id) {
    && (Applies(w, step) || EndsStream(w, step, true))
    && if Unfinished(w.snap) then w.snap.active.value.turn == id
       else w.snap.pending.Some? && w.snap.pending.value.turn == id
  }

  /** The step ended the turn's stream, which had given no reason, or this one. */
  ghost predicate Finishes(w: World, step: Step, id: Id, state: DoneState) {
    && EndsStream(w, step, false)
    && w.snap.active.Some? && w.snap.active.value.turn == id && state == EndState(w.snap.active.value)
  }

  lemma {:induction false} CompleteEnded(ws: seq<World>, steps: seq<Step>, n: nat) returns (e: nat)
    requires IsRun(ws, steps) && n < |ws| && ws[n].snap.active.Some? && ws[n].snap.active.value.complete
    ensures e < n && Finishes(ws[e], steps[e], ws[n].snap.active.value.turn, EndState(ws[n].snap.active.value))
    decreases n
  {
    e := n - 1;
    StepRecordsIt(ws[e], steps[e]);
    if ws[n].snap.active == ws[e].snap.active {
      if !EndsStream(ws[e], steps[e], false) {
        e := CompleteEnded(ws, steps, n - 1);
      }
    }
  }

  lemma ChangedBecause(w: World, step: Step, t: Snap, i: nat)
    requires StepRecords(w, step, t) && i < |t.turns| && (i < |w.snap.turns| ==> t.turns[i] != w.snap.turns[i])
    ensures var r, s := t.turns[i], w.snap;
      || (LeavesBehind(w, step, r.id) && r.state == CLIENT_CANCELLED)
      || Finishes(w, step, r.id, r.state)
      || (s.active.Some? && s.active.value.complete && s.active.value.turn == r.id && r.state == EndState(s.active.value))
  {
    hide ListsRoots, CommitActiveStream, AbandonInFlightClientTurn;
  }

  /** In every run, a record is as the step that wrote it last left it: cancelled by the client exactly
      when that step left its turn behind, and otherwise as its stream ended, `Finished` when that
      gave no reason and cancelled for the reason it gave. */
  lemma {:induction false} RecordTellsItsEnd(ws: seq<World>, steps: seq<Step>, n: nat, i: nat) returns (k: nat, e: nat)
    requires IsRun(ws, steps) && n < |ws| && i < |ws[n].snap.turns|
    ensures e <= k < n && i < |ws[k + 1].snap.turns| && ws[k + 1].snap.turns[i] == ws[n].snap.turns[i]
    ensures var r := ws[n].snap.turns[i];
      || (LeavesBehind(ws[k], steps[k], r.id) && r.state == CLIENT_CANCELLED)
      || Finishes(ws[e], steps[e], r.id, r.state)
    decreases n
  {
    k, e := n - 1, n - 1;
    if i < |ws[k].snap.turns| && ws[k].snap.turns[i] == ws[n].snap.turns[i] {
      k, e := RecordTellsItsEnd(ws, steps, n - 1, i);
    } else {
      StepRecordsIt(ws[k], steps[k]);
      hide StepRecords, LeavesBehind, Next;
      ChangedBecause(ws[k], steps[k], ws[n].snap, i);
      if ws[k].snap.active.Some? && ws[k].snap.active.value.complete && !Finishes(ws[k], steps[k], ws[n].snap.turns[i].id, ws[n].snap.turns[i].state) {
        e := CompleteEnded(ws, steps, k);
      }
    }
  }
}
