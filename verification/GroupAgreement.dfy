/** Live commits and a reload scope every turn group alike: the run machine beside the log its
    turns leave on the server. */
module GroupAgreement {
  import opened JsMaps
  import opened Events
  import opened Paging
  import opened Scoping
  import opened RunMachine
  import Deltas
  import Fold

  // ----- Groups of root messages -----

  /** A turn opens a group of its own or adds to the last one. */
  function AddTo(groups: seq<set<Id>>, opens: bool, ids: set<Id>): seq<set<Id>> {
    if opens || groups == [] then groups + [ids] else groups[|groups| - 1 := groups[|groups| - 1] + ids]
  }

  function LastSet(groups: seq<set<Id>>): set<Id> {
    if groups == [] then {} else groups[|groups| - 1]
  }

  /** Groups without root messages scope nothing. */
  function NonEmpty(groups: seq<set<Id>>): seq<set<Id>> {
    if groups == [] then []
    else NonEmpty(groups[..|groups| - 1]) + if groups[|groups| - 1] == {} then [] else [groups[|groups| - 1]]
  }

  /** What the records of each group list, together. */
  function GroupsOf(turns: seq<TurnRecord>): seq<set<Id>> {
    if turns == [] then []
    else
      var last := turns[|turns| - 1];
      AddTo(GroupsOf(turns[..|turns| - 1]), OpensGroup(last.input), Members(last.rootIds))
  }

  lemma GroupsSnoc(turns: seq<TurnRecord>, last: TurnRecord)
    ensures GroupsOf(turns + [last]) == AddTo(GroupsOf(turns), OpensGroup(last.input), Members(last.rootIds))
  {
    assert (turns + [last])[..|turns|] == turns;
  }

  lemma AddTwice(groups: seq<set<Id>>, opens: bool, a: set<Id>, b: set<Id>)
    ensures AddTo(AddTo(groups, opens, a), false, b) == AddTo(groups, opens, a + b)
  {
    if !opens && groups != [] {
      assert groups[|groups| - 1] + a + b == groups[|groups| - 1] + (a + b);
    }
  }

  lemma LastAdded(groups: seq<set<Id>>, opens: bool, ids: set<Id>)
    ensures LastSet(AddTo(groups, opens, ids)) == (if opens then {} else LastSet(groups)) + ids
  {
    assert {} + ids == ids;
  }

  lemma NonEmptySnoc(groups: seq<set<Id>>, ids: set<Id>)
    ensures NonEmpty(groups + [ids]) == NonEmpty(groups) + if ids == {} then [] else [ids]
  {
    assert (groups + [ids])[..|groups|] == groups;
  }

  lemma SplitLast(groups: seq<set<Id>>)
    requires groups != []
    ensures NonEmpty(groups) == NonEmpty(groups[..|groups| - 1]) + if LastSet(groups) == {} then [] else [LastSet(groups)]
  {
    var front, last := groups[..|groups| - 1], LastSet(groups);
    assert groups[|groups| - 1] == last;
  }

  lemma AddToLast(groups: seq<set<Id>>, ids: set<Id>)
    requires groups != []
    ensures AddTo(groups, false, ids) == groups[..|groups| - 1] + [LastSet(groups) + ids]
    ensures NonEmpty(AddTo(groups, false, ids))
      == NonEmpty(groups[..|groups| - 1]) + if LastSet(groups) + ids == {} then [] else [LastSet(groups) + ids]
  {
    NonEmptySnoc(groups[..|groups| - 1], LastSet(groups) + ids);
  }

  lemma AddNothing(groups: seq<set<Id>>, opens: bool)
    ensures NonEmpty(AddTo(groups, opens, {})) == NonEmpty(groups)
    ensures LastSet(AddTo(groups, opens, {})) == if opens then {} else LastSet(groups)
  {
    if opens || groups == [] {
      NonEmptySnoc(groups, {});
    } else {
      AddToLast(groups, {});
      SplitLast(groups);
      assert LastSet(groups) + {} == LastSet(groups);
    }
  }

  /** Adding the same messages to two last groups that agree keeps the agreement. */
  lemma SameGrowth(a: seq<set<Id>>, b: seq<set<Id>>, ids: set<Id>)
    requires a != [] && b != [] && NonEmpty(a) == NonEmpty(b) && LastSet(a) == LastSet(b)
    ensures NonEmpty(AddTo(a, false, ids)) == NonEmpty(AddTo(b, false, ids))
    ensures LastSet(AddTo(a, false, ids)) == LastSet(AddTo(b, false, ids))
  {
    SplitLast(a);
    SplitLast(b);
    SameFront(NonEmpty(a[..|a| - 1]), NonEmpty(b[..|b| - 1]), if LastSet(a) == {} then [] else [LastSet(a)]);
    AddToLast(a, ids);
    AddToLast(b, ids);
  }

  lemma SameFront(a: seq<set<Id>>, b: seq<set<Id>>, tail: seq<set<Id>>)
    requires a + tail == b + tail
    ensures a == b
  {
    assert |a + tail| == |b + tail|;
    assert a == (a + tail)[..|a|] && b == (b + tail)[..|b|];
  }

  // ----- What the live snapshot shows -----

  function Since(s: Snap): seq<Id> {
    SinceBaseline(s.roots, GroupBaseline(s))
  }

  /** The recorded groups, and everything since the baseline as the group in flight: a pending
      message opens it, and otherwise it is the last one. */
  function LiveGroups(s: Snap): seq<set<Id>> {
    AddTo(GroupsOf(s.turns), s.pending.Some?, Members(Since(s)))
  }

  ghost predicate DistinctTurns(turns: seq<TurnRecord>) {
    forall i, j :: 0 <= i < j < |turns| ==> turns[i].id != turns[j].id
  }

  predicate LastOrNew(turns: seq<TurnRecord>, id: Id) {
    LastIs(turns, id) || id !in TurnIds(turns)
  }

  /** A stream's content comes from root messages of the fold. */
  ghost predicate SnapOk(s: Snap) {
    && DistinctTurns(s.turns)
    && (s.pending.Some? ==>
          && s.baseline.Some? && s.pending.value.turn !in TurnIds(s.turns)
          && (s.active.Some? ==> s.active.value.turn !in TurnIds(s.turns)))
    && (s.pending.None? ==> LastSet(GroupsOf(s.turns)) <= Members(Since(s)))
    && (s.active.Some? ==> LastOrNew(s.turns, s.active.value.turn) && (s.active.value.hasContent ==> Since(s) != []))
  }

  lemma LiveLast(s: Snap)
    requires SnapOk(s)
    ensures LastSet(LiveGroups(s)) == Members(Since(s))
  {
  }

  // ----- Recording what is in flight -----

  lemma {:induction false} UpdateNone(turns: seq<TurnRecord>, a: Active, state: DoneState, ids: seq<Id>,
                                      more: seq<InputItem>)
    requires a.turn !in TurnIds(turns)
    ensures UpdateTurn(turns, a, state, ids, more) == turns
    decreases turns
  {
    if turns != [] {
      var front := turns[..|turns| - 1];
      assert turns[|turns| - 1].id in TurnIds(turns);
      forall id | id in TurnIds(front) ensures id in TurnIds(turns) {
        var i :| 0 <= i < |front| && front[i].id == id;
        assert turns[i].id == id;
      }
      UpdateNone(front, a, state, ids, more);
    }
  }

  lemma UpdateLast(turns: seq<TurnRecord>, a: Active, state: DoneState, ids: seq<Id>, more: seq<InputItem>)
    requires DistinctTurns(turns) && LastIs(turns, a.turn)
    ensures UpdateTurn(turns, a, state, ids, more)
      == turns[..|turns| - 1] + [UpdateOne(turns[|turns| - 1], a, state, ids, more)]
  {
    UpdateNone(turns[..|turns| - 1], a, state, ids, more);
  }

  lemma OpensMore(input: seq<InputItem>, more: seq<InputItem>)
    requires AnswersOnly(more)
    ensures OpensGroup(input + more) <==> OpensGroup(input)
  {
    if OpensGroup(input) {
      var i :| 0 <= i < |input| && input[i].UserMessage?;
      assert (input + more)[i].UserMessage?;
    }
  }

  /** A record of everything since the baseline takes the place of one that lists part of it. */
  lemma GrownRecord(groups: seq<set<Id>>, opens: bool, listed: set<Id>, since: set<Id>)
    requires LastSet(AddTo(groups, opens, listed)) <= since
    ensures AddTo(AddTo(groups, opens, listed), false, since) == AddTo(groups, opens, since)
  {
    AddTwice(groups, opens, listed, since);
    if opens || groups == [] {
      assert listed + since == since;
    } else {
      assert groups[|groups| - 1] + (listed + since) == groups[|groups| - 1] + since;
    }
  }

  lemma TurnIdsSnoc(turns: seq<TurnRecord>, last: TurnRecord)
    ensures TurnIds(turns + [last]) == TurnIds(turns) + {last.id}
  {
    forall id | id in TurnIds(turns) ensures id in TurnIds(turns + [last]) {
      var i :| 0 <= i < |turns| && turns[i].id == id;
      assert (turns + [last])[i].id == id;
    }
    assert (turns + [last])[|turns|].id in TurnIds(turns + [last]);
  }

  lemma AppendOk(turns: seq<TurnRecord>, last: TurnRecord)
    requires DistinctTurns(turns) && last.id !in TurnIds(turns)
    ensures DistinctTurns(turns + [last]) && LastIs(turns + [last], last.id)
    ensures TurnIds(turns + [last]) == TurnIds(turns) + {last.id}
    ensures !OpensGroup(last.input) ==> Earlier(turns + [last]) == Earlier(turns)
  {
    TurnIdsSnoc(turns, last);
    GroupStartSnoc(turns, last);
    forall i | 0 <= i < |turns| ensures turns[i].id != last.id {
      assert turns[i].id in TurnIds(turns);
    }
  }

  lemma UpdatedGroups(s: Snap, front: seq<TurnRecord>, last: TurnRecord, updated: TurnRecord)
    requires SnapOk(s) && s.pending.None? && s.turns == front + [last]
    requires (OpensGroup(updated.input) <==> OpensGroup(last.input)) && updated.rootIds == Since(s)
    ensures GroupsOf(front + [updated]) == LiveGroups(s)
  {
    GroupsSnoc(front, updated);
    GroupsSnoc(front, last);
    GrownRecord(GroupsOf(front), OpensGroup(last.input), Members(last.rootIds), Members(Since(s)));
  }

  lemma UpdatedTurns(front: seq<TurnRecord>, last: TurnRecord, updated: TurnRecord)
    requires DistinctTurns(front + [last]) && updated.id == last.id && (OpensGroup(updated.input) <==> OpensGroup(last.input))
    ensures DistinctTurns(front + [updated]) && LastIs(front + [updated], last.id)
    ensures TurnIds(front + [updated]) == TurnIds(front + [last]) && Earlier(front + [updated]) == Earlier(front + [last])
  {
    TurnIdsSnoc(front, updated);
    TurnIdsSnoc(front, last);
    GroupStartSnoc(front, updated);
    GroupStartSnoc(front, last);
    forall i, j | 0 <= i < j < |front + [updated]| ensures (front + [updated])[i].id != (front + [updated])[j].id {
      assert (front + [last])[i].id != (front + [last])[j].id;
    }
  }

  /** Bringing the last record up to date. */
  lemma UpdatedOk(s: Snap, a: Active, state: DoneState, more: seq<InputItem>)
    requires SnapOk(s) && s.pending.None? && LastIs(s.turns, a.turn) && AnswersOnly(more)
    ensures var t := UpdateTurn(s.turns, a, state, Since(s), more);
      && GroupsOf(t) == LiveGroups(s) && DistinctTurns(t) && LastIs(t, a.turn)
      && TurnIds(t) == TurnIds(s.turns) && Earlier(t) == Earlier(s.turns)
  {
    var front, last := s.turns[..|s.turns| - 1], s.turns[|s.turns| - 1];
    var updated := UpdateOne(last, a, state, Since(s), more);
    UpdateLast(s.turns, a, state, Since(s), more);
    assert s.turns == front + [last];
    OpensMore(last.input, more);
    UpdatedGroups(s, front, last, updated);
    UpdatedTurns(front, last, updated);
  }

  lemma OpensPending(s: Snap, more: seq<InputItem>)
    requires AnswersOnly(more)
    ensures OpensGroup(PendingInput(s) + more) <==> s.pending.Some?
  {
    OpensMore(PendingInput(s), more);
    if s.pending.Some? {
      assert PendingInput(s)[0].UserMessage?;
    }
  }

  lemma AppendedOk(s: Snap, record: TurnRecord, more: seq<InputItem>)
    requires SnapOk(s) && AnswersOnly(more) && record.id !in TurnIds(s.turns)
    requires record.input == PendingInput(s) + more && record.rootIds == Since(s)
    ensures var t := s.turns + [record];
      && GroupsOf(t) == LiveGroups(s) && DistinctTurns(t) && LastIs(t, record.id)
      && TurnIds(t) == TurnIds(s.turns) + {record.id}
      && (s.baseline.None? ==> Earlier(t) == Earlier(s.turns))
  {
    OpensPending(s, more);
    AppendOk(s.turns, record);
    GroupsSnoc(s.turns, record);
  }

  /** Once the stream is recorded, the records show what was in flight. */
  lemma RecordedOk(s: Snap, a: Active, state: DoneState, more: seq<InputItem>, now: int)
    requires SnapOk(s) && s.active == Some(a) && AnswersOnly(more)
    ensures var t := Recorded(s, a, state, Since(s), more, now);
      && GroupsOf(t) == LiveGroups(s) && DistinctTurns(t) && LastIs(t, a.turn)
      && TurnIds(t) == TurnIds(s.turns) + {a.turn}
      && (s.baseline.None? ==> Earlier(t) == Earlier(s.turns))
  {
    if LastIs(s.turns, a.turn) {
      assert s.turns[|s.turns| - 1].id in TurnIds(s.turns);
      UpdatedOk(s, a, state, more);
      assert TurnIds(s.turns) + {a.turn} == TurnIds(s.turns);
    } else {
      var record := TurnRecord(a.turn, if s.pending.Some? then s.pending.value.createdAt else now,
                               PendingInput(s) + more, state, Since(s), a.sandbox);
      AppendedOk(s, record, more);
    }
  }

  /** What a step that only records keeps. */
  ghost predicate Keeps(s: Snap, after: Snap) {
    SnapOk(after) && LiveGroups(after) == LiveGroups(s) && GroupBaseline(after) == GroupBaseline(s) && after.roots == s.roots
  }

  /** The turns end in the record of `id`, and otherwise have the ids they had. */
  ghost predicate Appended(s: Snap, after: Snap, id: Id) {
    && after.pending.None? && (after.active.Some? ==> after.active == s.active && s.active.value.turn == id)
    && TurnIds(after.turns) == TurnIds(s.turns) + {id} && LastIs(after.turns, id)
  }

  lemma RecordedKeeps(s: Snap, a: Active, state: DoneState, more: seq<InputItem>, now: int, after: Snap)
    requires SnapOk(s) && s.active == Some(a) && AnswersOnly(more)
    requires after.turns == Recorded(s, a, state, Since(s), more, now) && after.pending.None? && after.roots == s.roots
    requires after.baseline == s.baseline && (after.active.Some? ==> after.active == s.active)
    ensures Keeps(s, after) && GroupsOf(after.turns) == LiveGroups(s)
    ensures Appended(s, after, a.turn)
  {
    RecordedOk(s, a, state, more, now);
    LiveLast(s);
    AddTwice(GroupsOf(s.turns), s.pending.Some?, Members(Since(s)), Members(Since(s)));
    assert Members(Since(s)) + Members(Since(s)) == Members(Since(s));
  }

  lemma CommitKeeps(s: Snap, more: seq<InputItem>, now: int)
    requires SnapOk(s) && AnswersOnly(more)
    ensures Keeps(s, CommitActiveStream(s, more, now))
    ensures s.active.Some? && s.active.value.complete ==>
      && Appended(s, CommitActiveStream(s, more, now), s.active.value.turn)
      && GroupsOf(CommitActiveStream(s, more, now).turns) == LiveGroups(s)
  {
    if s.active.Some? && s.active.value.complete {
      var a := s.active.value;
      RecordedKeeps(s, a, if a.cancelled.Some? then Cancelled(a.cancelled.value) else Finished, more, now, CommitActiveStream(s, more, now));
    }
  }

  lemma AbandonStreamKeeps(s: Snap, now: int)
    requires SnapOk(s) && s.active.Some? && !s.active.value.complete
    ensures Keeps(s, AbandonInFlightClientTurn(s, now)) && GroupsOf(AbandonInFlightClientTurn(s, now).turns) == LiveGroups(s)
    ensures Appended(s, AbandonInFlightClientTurn(s, now), s.active.value.turn)
  {
    RecordedKeeps(s, s.active.value, Cancelled("client-cancelled"), [], now, AbandonInFlightClientTurn(s, now));
  }

  lemma AbandonPendingKeeps(s: Snap, now: int)
    requires SnapOk(s) && s.pending.Some? && s.active.None?
    ensures Keeps(s, AbandonInFlightClientTurn(s, now))
    ensures GroupsOf(AbandonInFlightClientTurn(s, now).turns) == GroupsOf(s.turns) + [{}]
    ensures Appended(s, AbandonInFlightClientTurn(s, now), s.pending.value.turn)
  {
    var p := s.pending.value;
    var record := TurnRecord(p.turn, p.createdAt, PendingInput(s), Cancelled("client-cancelled"), [], None);
    assert PendingInput(s) + [] == PendingInput(s);
    OpensPending(s, []);
    AppendOk(s.turns, record);
    GroupsSnoc(s.turns, record);
    assert Members(record.rootIds) == {};
    var groups := GroupsOf(s.turns) + [{}];
    assert {} + Members(Since(s)) == Members(Since(s));
    assert AddTo(groups, false, Members(Since(s))) == GroupsOf(s.turns) + [Members(Since(s))];
  }

  // ----- The session: the client beside its server's log -----

  /** `accepted`: the current stream's turn is in the log. `registered`: so is the turn of the
      message sent last. */
  datatype Session = Session(world: World, log: seq<Item>, accepted: bool, registered: bool)

  datatype Move =
    | Client(step: Step)
    | Created(id: Id, at: int, input: seq<InputItem>)
    | Arrived(event: Event)
    | Done(at: int, state: DoneState)
    | Reload

  const START := Session(INITIAL, [], false, true)

  function Served(s: Session): Ingestion {
    IngestItems(NOTHING, s.log)
  }

  /** The groups of the log's turns, with the open one. */
  function ServedGroups(i: Ingestion): seq<set<Id>> {
    if i.open.Some? then AddTo(GroupsOf(i.turns), OpensGroup(i.open.value.input), Members(OpenTip(i))) else GroupsOf(i.turns)
  }

  function FirstText(input: seq<InputItem>): string {
    if input == [] then "" else if input[0].UserMessage? then input[0].text else FirstText(input[1..])
  }

  /** The snapshot that loading the log gives; an open tip is resumed under a new generation. */
  function Loaded(w: World, i: Ingestion): World {
    var pending := if i.open.Some? && OpensGroup(i.open.value.input)
      then Some(PendingUser(i.open.value.id, FirstText(i.open.value.input), i.open.value.createdAt)) else None;
    var snap := Snap(i.turns, pending, None, TipBaseline(i), RootIds(Settled(i)));
    w.(snap := snap, generation := w.generation + 1,
       streams := if i.open.Some? then w.streams[w.generation + 1 := StreamRun(i.open.value.id, pending.None?)]
                  else w.streams - {w.generation + 1})
  }

  function Lifecycle(id: Id, at: int, body: Body): Item {
    Item(id, Event("", None, at, body))
  }

  /** The step shows a message that waited, and so sends it. */
  predicate Shows(w: World, step: Step) {
    step.Send? && Applies(w, step)
  }

  function NextSession(s: Session, move: Move): Session {
    match move
    case Client(step) =>
      s.(world := Next(s.world, step),
         accepted := s.accepted && !Starts(s.world, step),
         registered := s.registered && !Shows(s.world, step))
    case Created(id, at, input) =>
      Session(Next(s.world, GatewayTurnId(s.world.generation, id)), s.log + [Lifecycle(id, at, TurnCreated(input))], true, true)
    case Arrived(e) =>
      if Served(s).open.None? then s
      else
        s.(world := Next(s.world, RootMessages(Added(s.world.snap.roots, e))), log := s.log + [Item(Served(s).open.value.id, e)])
    case Done(at, state) =>
      if Served(s).open.None? then s
      else s.(log := s.log + [Lifecycle(Served(s).open.value.id, at, TurnDone(state))])
    case Reload => Session(Loaded(s.world, Served(s)), s.log, Served(s).open.Some?, true)
  }

  /** The client's steps are those of the run machine, with content that comes from the fold. The
      server creates a turn for the current stream, under a new id and once the turn before has
      ended, that opens a group exactly when the stream is not a continuation. What it logs for the
      current stream's turn the client folds, and it logs nothing more for a superseded one. */
  predicate AllowedMove(s: Session, move: Move) {
    match move
    case Client(step) =>
      && Allowed(s.world, step)
      && !step.GatewayTurnId? && !step.RootMessages?
      && (step.Continue? && step.generation == s.world.generation ==> s.registered)
      && (step.Update? && step.generation == s.world.generation && step.hasContent ==> Since(s.world.snap) != [])
    case Created(id, _, input) =>
      && s.world.generation in s.world.streams && !s.accepted && Served(s).open.None?
      && id !in TurnIds(s.world.snap.turns) && !CreatedIn(s.log, id)
      && (OpensGroup(input) <==> !s.world.streams[s.world.generation].continuation)
    case Arrived(e) => s.accepted && !IsTurnScoped(e)
    case Done(_, _) => true
    case Reload => true
  }

  ghost predicate StreamOk(w: World) {
    var turns := w.snap.turns;
    && (w.snap.pending.Some? && w.snap.active.Some? ==> !w.snap.active.value.complete)
    && (w.generation in w.streams ==>
          && LastOrNew(turns, w.streams[w.generation].turn)
          && (w.snap.pending.Some? || (w.snap.active.Some? && w.snap.active.value.turn !in TurnIds(turns)) ==>
                w.streams[w.generation].turn !in TurnIds(turns)))
  }

  ghost predicate ServedOk(s: Session, i: Ingestion) {
    && Bracketed(s.log) && DistinctTurns(i.turns)
    && (i.open.Some? ==> i.open.value.id !in TurnIds(i.turns))
    && s.world.snap.roots == RootIds(i.fold)
  }

  /** The group in flight is the log's last group, once its message is registered; until then it
      is empty. */
  ghost predicate Aligned(s: Session, i: Ingestion) {
    && (s.accepted ==> s.registered && s.world.generation in s.world.streams)
    && (s.world.generation in s.world.streams && !s.accepted ==>
          (s.world.streams[s.world.generation].continuation <==> s.registered))
    && Members(Since(s.world.snap)) == (if s.registered then LastSet(ServedGroups(i)) else {})
    && Members(GroupBaseline(s.world.snap)) <= Members(s.world.snap.roots)
  }

  predicate Bounded(w: World) {
    forall g | g in w.streams :: g <= w.generation
  }

  ghost predicate SessionOk(s: Session) {
    SnapOk(s.world.snap) && StreamOk(s.world) && Bounded(s.world) && ServedOk(s, Served(s)) && Aligned(s, Served(s))
  }

  /** The live snapshot and the log have the same groups of root messages, in the same order. */
  ghost predicate Agree(s: Session) {
    NonEmpty(LiveGroups(s.world.snap)) == NonEmpty(ServedGroups(Served(s)))
  }

  // ----- The server's moves -----

  lemma ServedSnoc(log: seq<Item>, item: Item)
    ensures IngestItems(NOTHING, log + [item]) == IngestItem(IngestItems(NOTHING, log), item)
    ensures Bracketed(log + [item]) <==> Bracketed(log) && (IsCreated(item) ==> IngestItems(NOTHING, log).open.None?)
  {
    assert (log + [item])[..|log|] == log;
  }

  /** Ending the open turn records it in the group it was open in. */
  lemma DoneServed(log: seq<Item>, i: Ingestion, item: Item, state: DoneState)
    requires Bracketed(log) && i == IngestItems(NOTHING, log) && i.open.Some? && item.event.body == TurnDone(state)
    requires DistinctTurns(i.turns) && i.open.value.id !in TurnIds(i.turns)
    ensures var after := IngestItem(i, item);
      && ServedGroups(after) == ServedGroups(i) && RootIds(after.fold) == RootIds(i.fold)
      && after.open.None? && DistinctTurns(after.turns)
  {
    var record := Close(i, state).turns[|i.turns|];
    InputsAreAnswers(i.open.value.input);
    AnswersKeepRoots(i.fold, Fold.InputOps(i.open.value.input));
    AppendOk(i.turns, record);
    GroupsSnoc(i.turns, record);
  }

  lemma DoneKeeps(s: Session, at: int, state: DoneState)
    requires SessionOk(s)
    ensures SessionOk(NextSession(s, Done(at, state)))
    ensures Agree(NextSession(s, Done(at, state))) <==> Agree(s)
  {
    var i := Served(s);
    if i.open.Some? {
      var item := Lifecycle(i.open.value.id, at, TurnDone(state));
      ServedSnoc(s.log, item);
      DoneServed(s.log, i, item, state);
    }
  }

  lemma OpenedGroups(i: Ingestion, after: Ingestion)
    requires i.open.None? && after.open.Some? && after.turns == i.turns && OpenTip(after) == []
    ensures NonEmpty(ServedGroups(after)) == NonEmpty(ServedGroups(i))
    ensures LastSet(ServedGroups(after)) == if OpensGroup(after.open.value.input) then {} else LastSet(ServedGroups(i))
  {
    assert Members(OpenTip(after)) == {};
    AddNothing(GroupsOf(i.turns), OpensGroup(after.open.value.input));
  }

  lemma RenamedKeeps(w: World, id: Id)
    requires SnapOk(w.snap) && StreamOk(w) && w.generation in w.streams && id !in TurnIds(w.snap.turns)
    ensures var after := Next(w, GatewayTurnId(w.generation, id));
      && SnapOk(after.snap) && StreamOk(after) && LiveGroups(after.snap) == LiveGroups(w.snap)
      && Since(after.snap) == Since(w.snap) && GroupBaseline(after.snap) == GroupBaseline(w.snap)
      && after.snap.roots == w.snap.roots && after.generation == w.generation
      && after.streams.Keys == w.streams.Keys
  {
    var after := Next(w, GatewayTurnId(w.generation, id));
    assert after.snap.turns == w.snap.turns && after.snap.baseline == w.snap.baseline;
    assert GroupBaseline(after.snap) == GroupBaseline(w.snap);
  }

  lemma CreatedKeeps(s: Session, id: Id, at: int, input: seq<InputItem>)
    requires SessionOk(s) && AllowedMove(s, Created(id, at, input))
    ensures SessionOk(NextSession(s, Created(id, at, input)))
    ensures Agree(NextSession(s, Created(id, at, input))) <==> Agree(s)
  {
    var i, item := Served(s), Lifecycle(id, at, TurnCreated(input));
    var after := IngestItem(i, item);
    ServedSnoc(s.log, item);
    RenamedKeeps(s.world, id);
    OpenedGroups(i, after);
    IngestionKept(s.log);
  }

  lemma SinceMore(roots: seq<Id>, added: seq<Id>, baseline: seq<Id>)
    requires forall k :: 0 <= k < |added| ==> added[k] !in baseline
    ensures SinceBaseline(roots + added, baseline) == SinceBaseline(roots, baseline) + added
  {
    SinceConcat(roots, added, baseline);
    SinceAll(added, baseline);
  }

  /** A new root message extends the group in flight, live and in the log. */
  lemma GrownGroups(snap: Snap, after: Snap, added: seq<Id>)
    requires SnapOk(snap) && after == snap.(roots := snap.roots + added)
    requires forall k :: 0 <= k < |added| ==> added[k] !in GroupBaseline(snap)
    ensures SnapOk(after) && LiveGroups(after) == AddTo(LiveGroups(snap), false, Members(added))
    ensures Members(Since(after)) == Members(Since(snap)) + Members(added)
  {
    SinceMore(snap.roots, added, GroupBaseline(snap));
    assert Since(after) == Since(snap) + added;
    MembersConcat(Since(snap), added);
    AddTwice(GroupsOf(snap.turns), snap.pending.Some?, Members(Since(snap)), Members(added));
  }

  lemma GrownTip(i: Ingestion, e: Event, added: seq<Id>)
    requires i.open.Some? && !IsTurnScoped(e) && Covered(i) && added == Added(RootIds(i.fold), e)
    ensures var after := Content(i, e);
      ServedGroups(after) == AddTo(ServedGroups(i), false, Members(added)) && RootIds(after.fold) == RootIds(i.fold) + added
  {
    RootAdded(i.fold, e);
    var after, n := Content(i, e), i.open.value.before;
    assert |AllRootIds(i.turns) + OpenTip(i)| == |RootIds(i.fold)|;
    assert (RootIds(i.fold) + added)[n..] == RootIds(i.fold)[n..] + added;
    assert OpenTip(after) == OpenTip(i) + added;
    MembersConcat(OpenTip(i), added);
    AddTwice(GroupsOf(i.turns), OpensGroup(i.open.value.input), Members(OpenTip(i)), Members(added));
  }

  lemma NotInBaseline(s: Session, e: Event)
    requires Members(GroupBaseline(s.world.snap)) <= Members(s.world.snap.roots)
    ensures forall k :: 0 <= k < |Added(s.world.snap.roots, e)| ==> Added(s.world.snap.roots, e)[k] !in GroupBaseline(s.world.snap)
  {
    if e.id in GroupBaseline(s.world.snap) {
      assert e.id in Members(GroupBaseline(s.world.snap));
      assert e.id in Members(s.world.snap.roots);
    }
  }

  /** What an arrival does on both sides. */
  lemma ArrivedGrows(s: Session, e: Event, after: Session, added: seq<Id>)
    requires SessionOk(s) && AllowedMove(s, Arrived(e)) && Served(s).open.Some?
    requires after == NextSession(s, Arrived(e)) && added == Added(s.world.snap.roots, e)
    ensures Bracketed(after.log) && Served(after) == Content(Served(s), e)
    ensures ServedGroups(Served(after)) == AddTo(ServedGroups(Served(s)), false, Members(added))
    ensures after.world.snap == s.world.snap.(roots := s.world.snap.roots + added) && after.world.snap.roots == RootIds(Served(after).fold)
    ensures SnapOk(after.world.snap) && LiveGroups(after.world.snap) == AddTo(LiveGroups(s.world.snap), false, Members(added))
    ensures Members(Since(after.world.snap)) == Members(Since(s.world.snap)) + Members(added)
  {
    ServedSnoc(s.log, Item(Served(s).open.value.id, e));
    IngestionCovers(s.log);
    GrownTip(Served(s), e, added);
    NotInBaseline(s, e);
    GrownGroups(s.world.snap, after.world.snap, added);
  }

  lemma ArrivedAligned(s: Session, e: Event, after: Session, added: seq<Id>)
    requires SessionOk(s) && AllowedMove(s, Arrived(e)) && Served(s).open.Some?
    requires after == NextSession(s, Arrived(e)) && added == Added(s.world.snap.roots, e)
    ensures Aligned(after, Served(after))
  {
    hide ServedGroups, LiveGroups, Since;
    ArrivedGrows(s, e, after, added);
    LastAdded(ServedGroups(Served(s)), false, Members(added));
    MembersConcat(s.world.snap.roots, added);
  }

  lemma ArrivedServed(s: Session, e: Event, after: Session, added: seq<Id>)
    requires SessionOk(s) && AllowedMove(s, Arrived(e)) && Served(s).open.Some?
    requires after == NextSession(s, Arrived(e)) && added == Added(s.world.snap.roots, e)
    ensures ServedOk(after, Served(after)) && StreamOk(after.world)
  {
    hide SnapOk, Aligned, ServedGroups, LiveGroups, Since;
    ArrivedGrows(s, e, after, added);
    assert after.world == s.world.(snap := after.world.snap);
    assert Served(after).turns == Served(s).turns && Served(after).open.value.id == Served(s).open.value.id;
  }

  lemma ArrivedAgrees(s: Session, served: seq<set<Id>>, added: set<Id>)
    requires SessionOk(s) && Agree(s) && s.registered && Served(s).open.Some? && served == ServedGroups(Served(s))
    ensures NonEmpty(AddTo(LiveGroups(s.world.snap), false, added)) == NonEmpty(AddTo(served, false, added))
  {
    LiveLast(s.world.snap);
    SameGrowth(LiveGroups(s.world.snap), served, added);
  }

  lemma ArrivedKeeps(s: Session, e: Event)
    requires SessionOk(s) && AllowedMove(s, Arrived(e))
    ensures SessionOk(NextSession(s, Arrived(e)))
    ensures Agree(s) ==> Agree(NextSession(s, Arrived(e)))
  {
    if Served(s).open.Some? {
      ArrivedFolded(s, e, NextSession(s, Arrived(e)), Added(s.world.snap.roots, e));
    }
  }

  lemma ArrivedFolded(s: Session, e: Event, after: Session, added: seq<Id>)
    requires SessionOk(s) && AllowedMove(s, Arrived(e)) && Served(s).open.Some?
    requires after == NextSession(s, Arrived(e)) && added == Added(s.world.snap.roots, e)
    ensures SessionOk(after) && (Agree(s) ==> Agree(after))
  {
    hide SnapOk, StreamOk, ServedOk, ServedGroups, LiveGroups;
    ArrivedGrows(s, e, after, added);
    ArrivedAligned(s, e, after, added);
    ArrivedServed(s, e, after, added);
    if Agree(s) {
      ArrivedAgrees(s, ServedGroups(Served(s)), Members(added));
    }
  }

  // ----- The client's moves -----

  lemma AppendedStream(w: World, after: Snap, id: Id)
    requires SnapOk(w.snap) && StreamOk(w) && Appended(w.snap, after, id)
    requires if w.snap.active.Some? then id == w.snap.active.value.turn else w.snap.pending.Some?
    ensures StreamOk(w.(snap := after))
  {
  }

  lemma AbandonKeeps(w: World, now: int)
    requires SnapOk(w.snap) && StreamOk(w)
    ensures Keeps(w.snap, AbandonInFlightClientTurn(w.snap, now))
    ensures StreamOk(w.(snap := AbandonInFlightClientTurn(w.snap, now)))
  {
    var after := AbandonInFlightClientTurn(w.snap, now);
    if w.snap.active.Some? && !w.snap.active.value.complete {
      AbandonStreamKeeps(w.snap, now);
      AppendedStream(w, after, w.snap.active.value.turn);
    } else if w.snap.pending.Some? {
      AbandonPendingKeeps(w.snap, now);
      AppendedStream(w, after, w.snap.pending.value.turn);
    }
  }

  lemma CommitStreamKeeps(w: World, more: seq<InputItem>, now: int)
    requires SnapOk(w.snap) && StreamOk(w) && AnswersOnly(more)
    ensures Keeps(w.snap, CommitActiveStream(w.snap, more, now))
    ensures StreamOk(w.(snap := CommitActiveStream(w.snap, more, now)))
  {
    CommitKeeps(w.snap, more, now);
    if w.snap.active.Some? && w.snap.active.value.complete {
      AppendedStream(w, CommitActiveStream(w.snap, more, now), w.snap.active.value.turn);
    }
  }

  /** A move that only records keeps the session and its agreement. */
  lemma RecordingKeeps(s: Session, after: Session)
    requires SessionOk(s) && Keeps(s.world.snap, after.world.snap) && StreamOk(after.world)
    requires after.log == s.log && after.registered == s.registered && after.accepted == s.accepted
    requires after.world.generation == s.world.generation && after.world.streams == s.world.streams
    ensures SessionOk(after) && (Agree(after) <==> Agree(s))
  {
    assert Since(after.world.snap) == Since(s.world.snap);
  }

  lemma UpdateKeepsSession(s: Session, step: Step)
    requires SessionOk(s) && step.Update? && AllowedMove(s, Client(step))
    ensures SessionOk(NextSession(s, Client(step)))
    ensures Agree(NextSession(s, Client(step))) <==> Agree(s)
  {
    if step.generation == s.world.generation && step.generation in s.world.streams {
      var snap, after := s.world.snap, NextSession(s, Client(step)).world.snap;
      assert GroupBaseline(after) == GroupBaseline(snap) && Since(after) == Since(snap);
      RecordingKeeps(s, NextSession(s, Client(step)));
    }
  }

  /** A send that begins changes nothing yet, and the server has nothing more to say for the stream
      before. */
  lemma BeginKeepsSession(s: Session, step: Step)
    requires SessionOk(s) && step.Begin?
    ensures SessionOk(NextSession(s, Client(step)))
    ensures Agree(NextSession(s, Client(step))) <==> Agree(s)
  {
    assert NextSession(s, Client(step)).world.generation !in s.world.streams;
  }

  lemma FailKeepsSession(s: Session, step: Step)
    requires SessionOk(s) && step.Fail?
    ensures SessionOk(NextSession(s, Client(step)))
    ensures Agree(NextSession(s, Client(step))) <==> Agree(s)
  {
    if Applies(s.world, step) {
      CommitStreamKeeps(s.world, [], step.now);
      AbandonKeeps(s.world, step.now);
      RecordingKeeps(s, NextSession(s, Client(step)));
    }
  }

  lemma FinishKeeps(w: World, now: int)
    requires SnapOk(w.snap) && StreamOk(w)
    ensures Keeps(w.snap, Ended(w.snap, false, now)) && StreamOk(w.(snap := Ended(w.snap, false, now)))
  {
    if w.snap.active.Some? {
      var marked := w.snap.(active := Some(w.snap.active.value.(complete := true)));
      assert GroupBaseline(marked) == GroupBaseline(w.snap);
      CommitKeeps(marked, [], now);
      AppendedStream(w, CommitActiveStream(marked, [], now).(active := None), w.snap.active.value.turn);
    }
  }

  lemma EndKeepsSession(s: Session, step: Step)
    requires SessionOk(s) && step.End? && AllowedMove(s, Client(step))
    ensures SessionOk(NextSession(s, Client(step)))
    ensures Agree(NextSession(s, Client(step))) <==> Agree(s)
  {
    var w := s.world;
    if step.generation == w.generation && w.generation in w.streams {
      if step.aborted {
        AbandonKeeps(w, step.now);
      } else {
        FinishKeeps(w, step.now);
      }
      RecordingKeeps(s, NextSession(s, Client(step)));
    }
  }

  /** A continuation streams under the turn it continues, which is the last recorded one or not
      recorded yet. */
  lemma ContinuedStream(w: World, step: Step)
    requires SnapOk(w.snap) && StreamOk(w) && step.Continue? && AnswersOnly(step.answers) && w.snap.pending.None?
    ensures StreamOk(Next(w, step))
  {
    CommitKeeps(w.snap, step.answers, step.now);
  }

  lemma ContinueKeepsSession(s: Session, step: Step)
    requires SessionOk(s) && step.Continue? && AllowedMove(s, Client(step))
    ensures SessionOk(NextSession(s, Client(step)))
    ensures Agree(NextSession(s, Client(step))) <==> Agree(s)
  {
    if step.generation == s.world.generation {
      ContinuedStream(s.world, step);
      CommitStreamKeeps(s.world, step.answers, step.now);
      assert Since(CommitActiveStream(s.world.snap, step.answers, step.now)) == Since(s.world.snap);
    }
  }

  /** Nothing has been folded for the group in flight that no record lists, unless the active
      stream is there to bring it along. */
  predicate Flushed(s: Snap) {
    s.active.Some? || Members(Since(s)) <= (if s.pending.Some? then {} else LastSet(GroupsOf(s.turns)))
  }

  lemma SameLast(groups: seq<set<Id>>, since: set<Id>)
    requires LastSet(groups) <= since
    ensures NonEmpty(groups) == NonEmpty(AddTo(groups, false, since)) <==> since <= LastSet(groups)
  {
    if groups == [] {
      NonEmptySnoc([], since);
    } else {
      SplitLast(groups);
      AddToLast(groups, since);
      assert LastSet(groups) + since == since;
      var front := NonEmpty(groups[..|groups| - 1]);
      if since <= LastSet(groups) {
        assert since == LastSet(groups);
      } else if LastSet(groups) != {} {
        assert (front + [LastSet(groups)])[|front|] != (front + [since])[|front|];
      } else {
        assert |front + [since]| != |front|;
      }
    }
  }

  function Superseded(s: Snap, now: int): Snap {
    AbandonInFlightClientTurn(CommitActiveStream(s, [], now), now)
  }

  /** What a new message supersedes is recorded as it was shown exactly when it was flushed. */
  lemma SupersededGroups(s: Snap, now: int)
    requires SnapOk(s) && (s.pending.Some? && s.active.Some? ==> !s.active.value.complete)
    ensures NonEmpty(GroupsOf(Superseded(s, now).turns)) == NonEmpty(LiveGroups(s)) <==> Flushed(s)
  {
    if s.active.Some? {
      CommitKeeps(s, [], now);
      if !s.active.value.complete {
        AbandonStreamKeeps(s, now);
      }
    } else if s.pending.Some? {
      AbandonPendingKeeps(s, now);
      NonEmptySnoc(GroupsOf(s.turns), {});
      NonEmptySnoc(GroupsOf(s.turns), Members(Since(s)));
    } else {
      SameLast(GroupsOf(s.turns), Members(Since(s)));
    }
  }

  lemma SupersededKeeps(w: World, now: int)
    requires SnapOk(w.snap) && StreamOk(w)
    ensures SnapOk(Superseded(w.snap, now)) && Superseded(w.snap, now).roots == w.snap.roots
  {
    CommitStreamKeeps(w, [], now);
    AbandonKeeps(w.(snap := CommitActiveStream(w.snap, [], now)), now);
  }

  /** After a send the group in flight is new and empty. */
  lemma PendedOk(ended: Snap, content: string, id: Id, now: int)
    requires SnapOk(ended) && id !in TurnIds(ended.turns)
    ensures var after := ended.(pending := Some(PendingUser(id, content, now)), active := None, baseline := Some(ended.roots));
      && SnapOk(after) && Since(after) == [] && GroupBaseline(after) == ended.roots
      && NonEmpty(LiveGroups(after)) == NonEmpty(GroupsOf(ended.turns))
  {
    SinceNone(ended.roots, ended.roots);
    AddNothing(GroupsOf(ended.turns), true);
  }

  lemma SendStep(s: Session, step: Step)
    requires SessionOk(s) && Shows(s.world, step) && AllowedMove(s, Client(step))
    ensures SessionOk(NextSession(s, Client(step)))
    ensures NonEmpty(LiveGroups(NextSession(s, Client(step)).world.snap)) == NonEmpty(GroupsOf(Superseded(s.world.snap, step.now).turns))
  {
    var w, ended := s.world, Superseded(s.world.snap, step.now);
    SupersededKeeps(w, step.now);
    NewIds(w.snap, step.now, step.id);
    PendedOk(ended, w.waiting[step.generation], step.id, step.now);
  }

  /** Showing a message keeps the agreement exactly when what it supersedes is flushed. */
  lemma SendAgrees(s: Session, step: Step)
    requires SessionOk(s) && Agree(s) && Shows(s.world, step) && AllowedMove(s, Client(step))
    ensures Agree(NextSession(s, Client(step))) <==> Flushed(s.world.snap)
  {
    SendStep(s, step);
    SupersededGroups(s.world.snap, step.now);
  }

  // ----- Reloading -----

  lemma LastGroupSnoc(front: seq<TurnRecord>, last: TurnRecord)
    ensures LastGroup(front + [last]) == if OpensGroup(last.input) then [last] else LastGroup(front) + [last]
  {
    GroupStartSnoc(front, last);
  }

  lemma LastGroupIds(front: seq<TurnRecord>, last: TurnRecord)
    ensures Members(AllRootIds(LastGroup(front + [last])))
      == (if OpensGroup(last.input) then {} else Members(AllRootIds(LastGroup(front)))) + Members(last.rootIds)
  {
    LastGroupSnoc(front, last);
    var before := if OpensGroup(last.input) then [] else LastGroup(front);
    assert [] + [last] == [last];
    RootIdsSnoc(before, last);
    MembersConcat(AllRootIds(before), last.rootIds);
    assert Members<Id>([]) == {};
  }

  lemma {:induction false} LastGroupSet(turns: seq<TurnRecord>)
    ensures LastSet(GroupsOf(turns)) == Members(AllRootIds(LastGroup(turns)))
    decreases turns
  {
    if turns == [] {
      assert Members<Id>([]) == {};
    } else {
      var front, last := turns[..|turns| - 1], turns[|turns| - 1];
      LastGroupSet(front);
      assert turns == front + [last];
      LastGroupIds(front, last);
      LastAdded(GroupsOf(front), OpensGroup(last.input), Members(last.rootIds));
    }
  }

  lemma UserTipSince(i: Ingestion, log: seq<Item>)
    requires Bracketed(log) && i == IngestItems(NOTHING, log) && i.open.Some? && OpensGroup(i.open.value.input)
    ensures SinceBaseline(RootIds(i.fold), AllRootIds(i.turns)) == GroupIds(i)
  {
    IngestionCovers(log);
    RootsDistinct(log);
    PrefixScope(RootIds(i.fold), AllRootIds(i.turns));
    assert [] + OpenTip(i) == OpenTip(i);
  }

  /** The active group of a log is its last group. */
  lemma GroupIdsAreLast(i: Ingestion)
    ensures Members(GroupIds(i)) == LastSet(ServedGroups(i))
    ensures i.open.None? || !OpensGroup(i.open.value.input) ==> LastSet(GroupsOf(i.turns)) <= Members(GroupIds(i))
    ensures NonEmpty(AddTo(GroupsOf(i.turns), i.open.Some? && OpensGroup(i.open.value.input), Members(GroupIds(i))))
      == NonEmpty(ServedGroups(i))
  {
    var groups, last, tip := GroupsOf(i.turns), AllRootIds(LastGroup(i.turns)), OpenTip(i);
    LastGroupSet(i.turns);
    MembersConcat(last, tip);
    if i.open.Some? && OpensGroup(i.open.value.input) {
      assert [] + tip == tip;
    } else {
      assert LastSet(groups) + (LastSet(groups) + Members(tip)) == LastSet(groups) + Members(tip);
      if i.open.None? {
        assert last + tip == last;
        SameLast(groups, LastSet(groups));
      } else if groups == [] {
        assert {} + Members(tip) == Members(tip);
      }
    }
  }

  lemma BaselineInRoots(i: Ingestion)
    requires Covered(i)
    ensures Members(AllRootIds(i.turns)) <= Members(RootIds(i.fold))
    ensures Members(AllRootIds(Earlier(i.turns))) <= Members(RootIds(i.fold))
  {
    GroupsSplit(i.turns);
    MembersConcat(AllRootIds(Earlier(i.turns)), AllRootIds(LastGroup(i.turns)));
    MembersConcat(AllRootIds(i.turns), OpenTip(i));
  }

  lemma LoadedSince(w: World, i: Ingestion, log: seq<Item>)
    requires Bracketed(log) && i == IngestItems(NOTHING, log)
    ensures Since(Loaded(w, i).snap) == GroupIds(i) && Loaded(w, i).snap.roots == RootIds(i.fold)
    ensures Members(GroupBaseline(Loaded(w, i).snap)) <= Members(RootIds(i.fold))
  {
    SettlingKeepsRoots(i);
    IngestionCovers(log);
    BaselineInRoots(i);
    if i.open.Some? && OpensGroup(i.open.value.input) {
      UserTipSince(i, log);
    } else {
      SinceBaselineIsLastGroup(log, i);
    }
  }

  lemma LoadedOk(w: World, i: Ingestion, log: seq<Item>)
    requires Bracketed(log) && i == IngestItems(NOTHING, log) && DistinctTurns(i.turns)
    requires i.open.Some? ==> i.open.value.id !in TurnIds(i.turns)
    ensures SnapOk(Loaded(w, i).snap) && StreamOk(Loaded(w, i))
    ensures NonEmpty(LiveGroups(Loaded(w, i).snap)) == NonEmpty(ServedGroups(i))
  {
    LoadedSince(w, i, log);
    GroupIdsAreLast(i);
  }

  lemma ReloadAligned(s: Session, after: Session)
    requires SessionOk(s) && after == NextSession(s, Reload)
    ensures Aligned(after, Served(after))
  {
    hide Since, GroupBaseline, GroupIds, LastSet, ServedGroups, LiveGroups, GroupsOf, NonEmpty, AddTo, SnapOk, StreamOk;
    LoadedSince(s.world, Served(s), s.log);
    GroupIdsAreLast(Served(s));
  }

  lemma ReloadKeeps(s: Session)
    requires SessionOk(s)
    ensures SessionOk(NextSession(s, Reload)) && Agree(NextSession(s, Reload))
  {
    hide Aligned, LiveGroups, ServedGroups, NonEmpty, Since, GroupIds, GroupBaseline, SnapOk, StreamOk;
    ReloadAligned(s, NextSession(s, Reload));
    LoadedSince(s.world, Served(s), s.log);
    LoadedOk(s.world, Served(s), s.log);
  }

  // ----- Every run -----

  lemma MoveKeeps(s: Session, move: Move)
    requires SessionOk(s) && Agree(s) && AllowedMove(s, move)
    requires move.Client? && Shows(s.world, move.step) ==> Flushed(s.world.snap)
    ensures SessionOk(NextSession(s, move)) && Agree(NextSession(s, move))
  {
    match move {
      case Client(step) =>
        match step {
          case Begin(_) => BeginKeepsSession(s, step);
          case Send(_, _, _) =>
            if Shows(s.world, step) {
              SendStep(s, step);
              SendAgrees(s, step);
            }
          case Fail(_, _) => FailKeepsSession(s, step);
          case Continue(_, _, _, _) => ContinueKeepsSession(s, step);
          case Update(_, _, _, _) => UpdateKeepsSession(s, step);
          case End(_, _, _) => EndKeepsSession(s, step);
          case _ =>
        }
      case Created(id, at, input) => CreatedKeeps(s, id, at, input);
      case Arrived(e) => ArrivedKeeps(s, e);
      case Done(at, state) => DoneKeeps(s, at, state);
      case Reload => ReloadKeeps(s);
    }
  }

  ghost predicate IsSession(ss: seq<Session>, moves: seq<Move>) {
    && |ss| == |moves| + 1 && ss[0] == START
    && forall k :: 0 <= k < |moves| ==> AllowedMove(ss[k], moves[k]) && ss[k + 1] == NextSession(ss[k], moves[k])
  }

  lemma StartOk()
    ensures SessionOk(START) && Agree(START)
  {
    var i := Served(START);
    assert i == NOTHING && RootIds(Fold.EMPTY) == [];
    assert Members<Id>([]) == {};
    AddNothing([], false);
  }

  /** Live and reload scoping agree: in every run of sends, continuations, commits, abandons and
      reloads beside the log they leave, the live snapshot has the same groups of root messages as
      the log, in the same order, as long as no send supersedes what was never flushed. */
  lemma {:induction false} GroupsAgree(ss: seq<Session>, moves: seq<Move>, n: nat)
    requires IsSession(ss, moves) && n < |ss|
    requires forall k :: 0 <= k < n && moves[k].Client? && Shows(ss[k].world, moves[k].step) ==> Flushed(ss[k].world.snap)
    ensures SessionOk(ss[n]) && Agree(ss[n])
    decreases n
  {
    if n == 0 {
      StartOk();
    } else {
      GroupsAgree(ss, moves, n - 1);
      MoveKeeps(ss[n - 1], moves[n - 1]);
    }
  }

  /** At rest the records alone have the log's groups. */
  lemma RecordsAgree(ss: seq<Session>, moves: seq<Move>, n: nat)
    requires IsSession(ss, moves) && n < |ss|
    requires forall k :: 0 <= k < n && moves[k].Client? && Shows(ss[k].world, moves[k].step) ==> Flushed(ss[k].world.snap)
    requires ss[n].world.snap.pending.None? && ss[n].world.snap.active.None? && Flushed(ss[n].world.snap)
    ensures NonEmpty(GroupsOf(ss[n].world.snap.turns)) == NonEmpty(ServedGroups(IngestItems(NOTHING, ss[n].log)))
  {
    GroupsAgree(ss, moves, n);
    var snap := ss[n].world.snap;
    SameLast(GroupsOf(snap.turns), Members(Since(snap)));
  }

  lemma SinceWithin(roots: seq<Id>, baseline: seq<Id>)
    ensures Members(SinceBaseline(roots, baseline)) <= Members(roots)
  {
    SinceMembers(roots, baseline);
  }

  lemma Unflushed(snap: Snap, after: Snap, id: Id)
    requires SnapOk(snap) && snap.active.None? && after == snap.(roots := snap.roots + [id])
    requires id !in snap.roots && id !in GroupBaseline(snap)
    ensures !Flushed(after)
  {
    GrownGroups(snap, after, [id]);
    SinceWithin(snap.roots, GroupBaseline(snap));
    assert id !in Members(snap.roots);
    assert [id][0] in Members([id]);
    assert id in Members(Since(after));
  }

  lemma ArrivedUnflushed(s: Session, e: Event, after: Session)
    requires SessionOk(s) && AllowedMove(s, Arrived(e)) && Served(s).open.Some? && after == NextSession(s, Arrived(e))
    requires s.world.snap.active.None? && Added(s.world.snap.roots, e) == [e.id]
    ensures !Flushed(after.world.snap)
  {
    NotInBaseline(s, e);
    assert Added(s.world.snap.roots, e)[0] !in GroupBaseline(s.world.snap);
    Unflushed(s.world.snap, after.world.snap, e.id);
  }

  /** A message folded while no update has been painted is in no record: showing the user's next
      message at that moment loses it, since a reload has it in its group and the live records do not. */
  lemma UnpaintedIsLost(s: Session, e: Event, begun: Session, content: string, step: Step)
    requires SessionOk(s) && Agree(s) && AllowedMove(s, Arrived(e))
    requires begun == NextSession(NextSession(s, Arrived(e)), Client(Begin(content)))
    requires Served(s).open.Some? && s.world.snap.active.None? && Added(s.world.snap.roots, e) == [e.id]
    requires Shows(begun.world, step) && AllowedMove(begun, Client(step))
    ensures Agree(begun) && !Flushed(begun.world.snap) && !Agree(NextSession(begun, Client(step)))
  {
    var after := NextSession(s, Arrived(e));
    ArrivedUnflushed(s, e, after);
    ArrivedKeeps(s, e);
    BeginKeepsSession(after, Begin(content));
    SendAgrees(begun, step);
  }

  // A session in which that happens: the user writes twice, and the first message of the first turn
  // arrives just before the second is shown.

  const HELLO := [UserMessage("hello")]
  const ANSWER := Event("answer", Some(ROOT), 2, ModelMessage(Deltas.Message(Deltas.Text("hi"), None, None, None, None, None)))

  const HASTE := [Client(Begin("hello")), Client(Send(1, "local", 0)), Created("turn", 1, HELLO), Arrived(ANSWER),
                  Client(Begin("more")), Client(Send(3, "next", 3))]

  /** The states that moves lead through. */
  function Sessions(s: Session, moves: seq<Move>): (ss: seq<Session>)
    ensures |ss| == |moves| + 1 && ss[0] == s
    ensures forall k :: 0 <= k < |moves| ==> ss[k + 1] == NextSession(ss[k], moves[k])
    decreases moves
  {
    if moves == [] then [s] else [s] + Sessions(NextSession(s, moves[0]), moves[1..])
  }

  const HASTE_SENT := World(Snap([], Some(PendingUser("local", "hello", 0)), None, Some([]), []), 2,
                            map[2 := StreamRun("local", false)], map[], [], ["hello"])

  const HASTE_CREATED := World(Snap([], Some(PendingUser("turn", "hello", 0)), None, Some([]), []), 2,
                               map[2 := StreamRun("turn", false)], map[], [], ["hello"])

  lemma HasteSent(s: Session)
    requires s == NextSession(NextSession(START, HASTE[0]), HASTE[1])
    ensures s == Session(HASTE_SENT, [], false, false)
    ensures SessionOk(s) && Agree(s) && AllowedMove(START, HASTE[0]) && AllowedMove(NextSession(START, HASTE[0]), HASTE[1])
  {
    var begun := NextSession(START, HASTE[0]);
    StartOk();
    MoveKeeps(START, HASTE[0]);
    assert begun.world == World(Snap([], None, None, None, []), 1, map[], map[1 := "hello"], [], ["hello"]);
    MoveKeeps(begun, HASTE[1]);
    assert begun.world.waiting - {1} == map[];
  }

  lemma HasteMayBeCreated(s: Session)
    requires s == Session(HASTE_SENT, [], false, false)
    ensures AllowedMove(s, HASTE[2]) && NextSession(s, HASTE[2]).world == HASTE_CREATED
  {
    assert HELLO[0].UserMessage?;
  }

  lemma HasteOpens(log: seq<Item>)
    requires log == [] + [Lifecycle("turn", 1, TurnCreated(HELLO))]
    ensures IngestItems(NOTHING, log).open.Some?
  {
    ServedSnoc([], Lifecycle("turn", 1, TurnCreated(HELLO)));
  }

  lemma HasteCreated(s: Session, created: Session)
    requires s == Session(HASTE_SENT, [], false, false) && SessionOk(s) && Agree(s) && created == NextSession(s, HASTE[2])
    ensures SessionOk(created) && Agree(created) && AllowedMove(created, HASTE[3]) && Served(created).open.Some?
    ensures created.world == HASTE_CREATED
  {
    hide SessionOk, Agree, IngestItems;
    HasteMayBeCreated(s);
    MoveKeeps(s, HASTE[2]);
    HasteOpens(created.log);
  }

  lemma HasteMayShow(created: Session, begun: Session)
    requires created.world == HASTE_CREATED && Served(created).open.Some?
    requires begun == NextSession(NextSession(created, HASTE[3]), HASTE[4])
    ensures Added(created.world.snap.roots, ANSWER) == [ANSWER.id]
    ensures Shows(begun.world, Send(3, "next", 3)) && AllowedMove(begun, HASTE[5])
    ensures AllowedMove(NextSession(created, HASTE[3]), HASTE[4])
  {
  }

  /** The session runs as the rules of its moves allow, and agrees until the last of them. */
  lemma HasteLosesTheAnswer(ss: seq<Session>)
    requires ss == Sessions(START, HASTE)
    ensures IsSession(ss, HASTE) && Agree(ss[5]) && !Flushed(ss[5].world.snap) && !Agree(ss[6])
  {
    hide SessionOk, Agree, IngestItems, Flushed, AllowedMove, Served;
    assert forall k :: 0 <= k < |HASTE| ==> ss[k + 1] == NextSession(ss[k], HASTE[k]);
    hide NextSession, Sessions;
    HasteSent(ss[2]);
    HasteMayBeCreated(ss[2]);
    HasteCreated(ss[2], ss[3]);
    HasteMayShow(ss[3], ss[5]);
    UnpaintedIsLost(ss[3], ANSWER, ss[5], "more", Send(3, "next", 3));
  }
}
