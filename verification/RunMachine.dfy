/** The client's run machine: sending, streaming, committing and abandoning turns. React's queued
    updates are taken one after another. */
module RunMachine {
  import opened JsMaps
  import opened Events
  import opened Paging
  import Scoping

  datatype PendingUser = PendingUser(turn: Id, content: string, createdAt: int)

  /** `cancelled` is the reason a cancelled stream gave. */
  datatype Active = Active(turn: Id, complete: bool, cancelled: Option<string>, hasContent: bool, sandbox: Option<Id>)

  /** `roots` are the fold's root messages. */
  datatype Snap = Snap(turns: seq<TurnRecord>, pending: Option<PendingUser>, active: Option<Active>,
                       baseline: Option<seq<Id>>, roots: seq<Id>)

  predicate LastIs(turns: seq<TurnRecord>, id: Id) {
    turns != [] && turns[|turns| - 1].id == id
  }

  function GroupBaseline(s: Snap): seq<Id> {
    if s.baseline.Some? then s.baseline.value else AllRootIds(Earlier(s.turns))
  }

  /** Content that never reached the fold is given a root message of its own. */
  function Materialized(s: Snap, a: Active, ids: seq<Id>): seq<Id> {
    if ids != [] || !a.hasContent then ids else ["client-abandoned-" + a.turn]
  }

  function UpdateOne(turn: TurnRecord, a: Active, state: DoneState, ids: seq<Id>, more: seq<InputItem>): TurnRecord {
    if turn.id == a.turn
    then turn.(state := state, input := turn.input + more, rootIds := ids, sandbox := a.sandbox.Or(turn.sandbox))
    else turn
  }

  function UpdateTurn(turns: seq<TurnRecord>, a: Active, state: DoneState, ids: seq<Id>,
                      more: seq<InputItem>): (r: seq<TurnRecord>)
    ensures |r| == |turns| && forall i :: 0 <= i < |turns| ==> r[i].id == turns[i].id
  {
    if turns == [] then []
    else UpdateTurn(turns[..|turns| - 1], a, state, ids, more) + [UpdateOne(turns[|turns| - 1], a, state, ids, more)]
  }

  function PendingInput(s: Snap): seq<InputItem> {
    if s.pending.Some? then [UserMessage(s.pending.value.content)] else []
  }

  /** The active turn's record is brought up to date, or made from the pending user message. */
  function Recorded(s: Snap, a: Active, state: DoneState, ids: seq<Id>, more: seq<InputItem>,
                    now: int): seq<TurnRecord> {
    if LastIs(s.turns, a.turn) then UpdateTurn(s.turns, a, state, ids, more)
    else
      s.turns + [TurnRecord(a.turn, if s.pending.Some? then s.pending.value.createdAt else now,
                            PendingInput(s) + more, state, ids, a.sandbox)]
  }

  /** Moves a finished stream into the turns. */
  function CommitActiveStream(s: Snap, more: seq<InputItem>, now: int): Snap {
    if s.active.None? || !s.active.value.complete then s
    else
      var a := s.active.value;
      var since := Scoping.SinceBaseline(s.roots, GroupBaseline(s));
      var ids := if a.cancelled.Some? then Materialized(s, a, since) else since;
      var state := if a.cancelled.Some? then Cancelled(a.cancelled.value) else Finished;
      s.(turns := Recorded(s, a, state, ids, more, now), pending := None,
         active := if ids != [] || a.cancelled.Some? then None else s.active,
         roots := if ids == since then s.roots else s.roots + ids)
  }

  /** Moves whatever is in flight into the turns as cancelled. */
  function AbandonInFlightClientTurn(s: Snap, now: int): Snap {
    if s.active.Some? && !s.active.value.complete then
      var a := s.active.value;
      var since := Scoping.SinceBaseline(s.roots, GroupBaseline(s));
      var ids := Materialized(s, a, since);
      s.(turns := Recorded(s, a, Cancelled("client-cancelled"), ids, [], now), pending := None, active := None,
         roots := if ids == since then s.roots else s.roots + ids)
    else if s.pending.Some? then
      s.(turns := s.turns + [TurnRecord(s.pending.value.turn, s.pending.value.createdAt, PendingInput(s),
                                        Cancelled("client-cancelled"), [], None)],
         pending := None, active := None)
    else s
  }

  // ----- The machine -----

  datatype StreamRun = StreamRun(turn: Id, continuation: bool)

  /** `sent` records what the user sent, in order; `streams` what each generation streams; `waiting`
      the messages whose sends have begun and not shown them yet, by the generation they began, and
      `told` those of sends that failed and said so. */
  datatype World = World(snap: Snap, generation: nat, streams: map<nat, StreamRun>, waiting: map<nat, string>,
                         told: seq<string>, sent: seq<string>)

  const INITIAL := World(Snap([], None, None, None, []), 0, map[], map[], [], [])

  /** A send begins, waits for its session and headers, and then shows its message and starts its
      stream, unless another start came between; `generation` is the one it began under. */
  datatype Step =
    | Begin(content: string)
    | Send(generation: nat, id: Id, now: int)
    | Fail(generation: nat, now: int)
    | Continue(generation: nat, answers: seq<InputItem>, id: Id, now: int)
    | GatewayTurnId(generation: nat, id: Id)
    | RootMessages(added: seq<Id>)
    | Update(generation: nat, hasContent: bool, cancelled: Option<string>, sandbox: Option<Id>)
    | End(generation: nat, aborted: bool, now: int)

  function SendUser(s: Snap, content: string, id: Id, now: int): Snap {
    var abandoned := AbandonInFlightClientTurn(CommitActiveStream(s, [], now), now);
    abandoned.(pending := Some(PendingUser(id, content, now)), active := None, baseline := Some(abandoned.roots))
  }

  /** A continuation runs under the turn it continues. */
  function ContinuedTurn(s: Snap, id: Id): Id {
    if s.active.Some? then s.active.value.turn
    else if s.turns != [] then s.turns[|s.turns| - 1].id
    else id
  }

  function Renamed(s: Snap, before: Id, after: Id): Snap {
    if s.pending.Some? && s.pending.value.turn == before
    then s.(pending := Some(s.pending.value.(turn := after))) else s
  }

  function Ended(s: Snap, aborted: bool, now: int): Snap {
    if aborted then AbandonInFlightClientTurn(s, now)
    else if s.active.None? then s
    else CommitActiveStream(s.(active := Some(s.active.value.(complete := true))), [], now)
  }

  /** The send is still the last thing started. */
  predicate Applies(w: World, step: Step) {
    (step.Send? || step.Fail?) && step.generation == w.generation && w.generation in w.waiting
  }

  /** A send that fails while it waits leaves no stream half-way. */
  function Failed(s: Snap, now: int): Snap {
    if s.active.Some? && !s.active.value.complete then AbandonInFlightClientTurn(CommitActiveStream(s, [], now), now) else s
  }

  function Next(w: World, step: Step): World {
    match step
    case Begin(content) =>
      w.(generation := w.generation + 1, waiting := w.waiting[w.generation + 1 := content], sent := w.sent + [content])
    case Send(generation, id, now) =>
      if !Applies(w, step) then w
      else
        w.(snap := SendUser(w.snap, w.waiting[generation], id, now), generation := w.generation + 1,
           streams := w.streams[w.generation + 1 := StreamRun(id, false)], waiting := w.waiting - {generation})
    case Fail(generation, now) =>
      if !Applies(w, step) then w
      else w.(snap := Failed(w.snap, now), waiting := w.waiting - {generation}, told := w.told + [w.waiting[generation]])
    case Continue(generation, answers, id, now) =>
      if generation != w.generation then w
      else
        w.(snap := CommitActiveStream(w.snap, answers, now), generation := w.generation + 1,
           streams := w.streams[w.generation + 1 := StreamRun(ContinuedTurn(w.snap, id), true)])
    case GatewayTurnId(generation, id) =>
      if generation !in w.streams then w
      else
        var stream := w.streams[generation];
        w.(snap := Renamed(w.snap, stream.turn, id), streams := w.streams[generation := stream.(turn := id)])
    case RootMessages(added) => w.(snap := w.snap.(roots := w.snap.roots + added))
    case Update(generation, hasContent, cancelled, sandbox) =>
      if generation != w.generation || generation !in w.streams then w
      else w.(snap := w.snap.(active := Some(Active(w.streams[generation].turn, false, cancelled, hasContent, sandbox))))
    case End(generation, aborted, now) =>
      if generation != w.generation || generation !in w.streams then w else w.(snap := Ended(w.snap, aborted, now))
  }

  // ----- User sends -----

  function SendsIn(input: seq<InputItem>): multiset<string> {
    if input == [] then multiset{}
    else
      SendsIn(input[..|input| - 1])
      + match input[|input| - 1]
        case UserMessage(text) => multiset{text}
        case _ => multiset{}
  }

  function SendsOf(turns: seq<TurnRecord>): multiset<string> {
    if turns == [] then multiset{} else SendsOf(turns[..|turns| - 1]) + SendsIn(turns[|turns| - 1].input)
  }

  /** The user's messages the snapshot holds, each as often as it holds it. */
  function Held(s: Snap): multiset<string> {
    SendsOf(s.turns) + if s.pending.Some? then multiset{s.pending.value.content} else multiset{}
  }

  predicate AnswersOnly(input: seq<InputItem>) {
    forall i :: 0 <= i < |input| ==> !input[i].UserMessage?
  }

  lemma {:induction false} SendsConcat(a: seq<InputItem>, b: seq<InputItem>)
    ensures SendsIn(a + b) == SendsIn(a) + SendsIn(b)
    decreases b
  {
    if b == [] {
      assert a + b == a;
    } else {
      SendsConcat(a, b[..|b| - 1]);
      assert (a + b)[..|a + b| - 1] == a + b[..|b| - 1];
    }
  }

  lemma {:induction false} AnswersSendNothing(input: seq<InputItem>)
    requires AnswersOnly(input)
    ensures SendsIn(input) == multiset{}
    decreases input
  {
    if input != [] {
      AnswersSendNothing(input[..|input| - 1]);
    }
  }

  lemma SendsSnoc(turns: seq<TurnRecord>, last: TurnRecord)
    ensures SendsOf(turns + [last]) == SendsOf(turns) + SendsIn(last.input)
  {
    assert (turns + [last])[..|turns|] == turns;
  }

  lemma {:induction false} UpdateKeepsSends(turns: seq<TurnRecord>, a: Active, state: DoneState, ids: seq<Id>,
                                            more: seq<InputItem>)
    requires AnswersOnly(more)
    ensures SendsOf(UpdateTurn(turns, a, state, ids, more)) == SendsOf(turns)
    decreases turns
  {
    if turns != [] {
      var front, last := turns[..|turns| - 1], turns[|turns| - 1];
      UpdateKeepsSends(front, a, state, ids, more);
      SendsSnoc(UpdateTurn(front, a, state, ids, more), UpdateOne(last, a, state, ids, more));
      SendsConcat(last.input, more);
      AnswersSendNothing(more);
    }
  }

  lemma RecordedSends(s: Snap, a: Active, state: DoneState, ids: seq<Id>, more: seq<InputItem>, now: int)
    requires AnswersOnly(more)
    ensures SendsOf(Recorded(s, a, state, ids, more, now))
      == if LastIs(s.turns, a.turn) then SendsOf(s.turns) else Held(s)
  {
    if LastIs(s.turns, a.turn) {
      UpdateKeepsSends(s.turns, a, state, ids, more);
    } else {
      SendsConcat(PendingInput(s), more);
      AnswersSendNothing(more);
      SendsSnoc(s.turns, TurnRecord(a.turn, if s.pending.Some? then s.pending.value.createdAt else now, PendingInput(s) + more, state, ids, a.sandbox));
      if s.pending.Some? {
        assert PendingInput(s)[..0] == [];
      }
    }
  }

  /** The pending message would be dropped: the active turn already has a record. */
  predicate Clash(s: Snap) {
    s.pending.Some? && s.active.Some? && LastIs(s.turns, s.active.value.turn)
  }

  lemma PendingCounts(s: Snap)
    ensures SendsOf(s.turns) == Held(s) <==> s.pending.None?
  {
    if s.pending.Some? {
      assert Held(s)[s.pending.value.content] == SendsOf(s.turns)[s.pending.value.content] + 1;
    }
  }

  lemma CommitHolds(s: Snap, more: seq<InputItem>, now: int)
    requires AnswersOnly(more) && s.active.Some? && s.active.value.complete
    ensures Held(CommitActiveStream(s, more, now)) == if LastIs(s.turns, s.active.value.turn) then SendsOf(s.turns) else Held(s)
  {
    var a := s.active.value;
    var since := Scoping.SinceBaseline(s.roots, GroupBaseline(s));
    var ids := if a.cancelled.Some? then Materialized(s, a, since) else since;
    var state := if a.cancelled.Some? then Cancelled(a.cancelled.value) else Finished;
    RecordedSends(s, a, state, ids, more, now);
    var after := CommitActiveStream(s, more, now);
    assert after.turns == Recorded(s, a, state, ids, more, now) && after.pending.None?;
  }

  /** Committing keeps every message exactly when there is no clash in a stream it commits. */
  lemma CommitConserves(s: Snap, more: seq<InputItem>, now: int)
    requires AnswersOnly(more)
    ensures Held(CommitActiveStream(s, more, now)) == Held(s) <==> !(Clash(s) && s.active.value.complete)
  {
    PendingCounts(s);
    if s.active.Some? && s.active.value.complete {
      CommitHolds(s, more, now);
    }
  }

  /** Abandoning keeps every message exactly when there is no clash in a stream it abandons. */
  lemma AbandonConserves(s: Snap, now: int)
    ensures Held(AbandonInFlightClientTurn(s, now)) == Held(s) <==> !(Clash(s) && !s.active.value.complete)
    ensures AbandonInFlightClientTurn(s, now).pending.None?
  {
    PendingCounts(s);
    if s.active.Some? && !s.active.value.complete {
      var a := s.active.value;
      RecordedSends(s, a, Cancelled("client-cancelled"), Materialized(s, a, Scoping.SinceBaseline(s.roots, GroupBaseline(s))), [], now);
    } else if s.pending.Some? {
      var p := s.pending.value;
      SendsSnoc(s.turns, TurnRecord(p.turn, p.createdAt, PendingInput(s), Cancelled("client-cancelled"), [], None));
      assert PendingInput(s)[..0] == [];
    }
  }

  // ----- Sends that wait -----

  /** The messages waiting under generations up to `n`. */
  function Waiting(waiting: map<nat, string>, n: nat): multiset<string> {
    if n == 0 then multiset{} else Waiting(waiting, n - 1) + if n in waiting then multiset{waiting[n]} else multiset{}
  }

  lemma {:induction false} SameWaiting(a: map<nat, string>, b: map<nat, string>, n: nat)
    requires forall g: nat :: g <= n ==> (g in a <==> g in b) && (g in a ==> a[g] == b[g])
    ensures Waiting(a, n) == Waiting(b, n)
    decreases n
  {
    if n > 0 {
      SameWaiting(a, b, n - 1);
    }
  }

  lemma {:induction false} SomeWaiting(waiting: map<nat, string>, n: nat, g: nat)
    requires 0 < g <= n && g in waiting
    ensures waiting[g] in Waiting(waiting, n)
    decreases n
  {
    if g < n {
      SomeWaiting(waiting, n - 1, g);
    }
  }

  lemma {:induction false} NoneWaiting(n: nat)
    ensures Waiting(map[], n) == multiset{}
    decreases n
  {
    if n > 0 {
      NoneWaiting(n - 1);
    }
  }

  // ----- Every run -----

  /** Ids are fresh where the client or the gateway makes one; continuations carry answers only and
      start when no message is pending. */
  predicate Allowed(w: World, step: Step) {
    match step
    case Send(_, id, _) =>
      && id !in TurnIds(w.snap.turns)
      && (w.snap.active.Some? ==> w.snap.active.value.turn != id)
      && (w.snap.pending.Some? ==> w.snap.pending.value.turn != id)
    case Continue(generation, answers, _, _) => generation == w.generation ==> AnswersOnly(answers) && w.snap.pending.None?
    case GatewayTurnId(_, id) => id !in TurnIds(w.snap.turns)
    case _ => true
  }

  /** While a message is pending, no record has the turn of the current stream or of the active one. */
  ghost predicate Fresh(w: World) {
    w.snap.pending.Some? ==>
      && (w.generation in w.streams ==> w.streams[w.generation].turn !in TurnIds(w.snap.turns))
      && (w.snap.active.Some? ==> w.snap.active.value.turn !in TurnIds(w.snap.turns))
  }

  /** Every message sent is held, waiting or told to have failed. */
  ghost predicate Conserved(w: World) {
    multiset(w.sent) == Held(w.snap) + Waiting(w.waiting, w.generation) + multiset(w.told)
  }

  ghost predicate Inv(w: World) {
    && Conserved(w) && Fresh(w)
    && (forall g | g in w.streams :: g <= w.generation)
    && (forall g | g in w.waiting :: 0 < g <= w.generation)
  }

  lemma NoClash(w: World)
    requires Fresh(w)
    ensures !Clash(w.snap)
  {
    var turns := w.snap.turns;
    if turns != [] {
      assert turns[|turns| - 1].id in TurnIds(turns);
    }
  }

  lemma BeginKeeps(w: World, content: string)
    requires Inv(w)
    ensures Inv(Next(w, Begin(content)))
  {
    SameWaiting(w.waiting, Next(w, Begin(content)).waiting, w.generation);
    assert multiset(w.sent + [content]) == multiset(w.sent) + multiset{content};
  }

  /** Showing a message keeps every other. */
  lemma SendHolds(w: World, content: string, id: Id, now: int)
    requires Fresh(w) && Allowed(w, Send(w.generation, id, now))
    ensures Held(SendUser(w.snap, content, id, now)) == Held(w.snap) + multiset{content}
    ensures id !in TurnIds(SendUser(w.snap, content, id, now).turns)
  {
    NoClash(w);
    var committed := CommitActiveStream(w.snap, [], now);
    CommitConserves(w.snap, [], now);
    assert !Clash(committed);
    AbandonConserves(committed, now);
    NewIds(w.snap, now, id);
  }

  /** What waited under the current generation waits no more. */
  lemma WaitedLast(w: World)
    requires Inv(w) && w.generation in w.waiting
    ensures Waiting(w.waiting, w.generation) == Waiting(w.waiting - {w.generation}, w.generation) + multiset{w.waiting[w.generation]}
  {
    SameWaiting(w.waiting, w.waiting - {w.generation}, w.generation - 1);
  }

  lemma SendKeeps(w: World, id: Id, now: int)
    requires Inv(w) && Allowed(w, Send(w.generation, id, now)) && w.generation in w.waiting
    ensures Inv(Next(w, Send(w.generation, id, now)))
  {
    SendHolds(w, w.waiting[w.generation], id, now);
    WaitedLast(w);
  }

  /** Every record made by a send has an id the snapshot knew. */
  lemma NewIds(s: Snap, now: int, id: Id)
    requires id !in TurnIds(s.turns)
    requires s.active.Some? ==> s.active.value.turn != id
    requires s.pending.Some? ==> s.pending.value.turn != id
    ensures id !in TurnIds(AbandonInFlightClientTurn(CommitActiveStream(s, [], now), now).turns)
  {
    var committed := CommitActiveStream(s, [], now);
    assert id !in TurnIds(committed.turns) by {
      if s.active.Some? && s.active.value.complete {
        forall i | 0 <= i < |committed.turns| ensures committed.turns[i].id != id {
          if i < |s.turns| {
            assert s.turns[i].id in TurnIds(s.turns) && committed.turns[i].id == s.turns[i].id;
          }
        }
      }
    }
    var abandoned := AbandonInFlightClientTurn(committed, now);
    forall i | 0 <= i < |abandoned.turns| ensures abandoned.turns[i].id != id {
      if i < |committed.turns| {
        assert committed.turns[i].id in TurnIds(committed.turns) && abandoned.turns[i].id == committed.turns[i].id;
      }
    }
  }

  lemma FailHolds(w: World, now: int)
    requires Fresh(w)
    ensures Held(Failed(w.snap, now)) == Held(w.snap) && (Failed(w.snap, now) == w.snap || Failed(w.snap, now).pending.None?)
  {
    NoClash(w);
    CommitConserves(w.snap, [], now);
    AbandonConserves(CommitActiveStream(w.snap, [], now), now);
  }

  lemma FailKeeps(w: World, now: int)
    requires Inv(w) && w.generation in w.waiting
    ensures Inv(Next(w, Fail(w.generation, now)))
  {
    hide Failed, Held, Waiting;
    FailHolds(w, now);
    WaitedLast(w);
    assert multiset(w.told + [w.waiting[w.generation]]) == multiset(w.told) + multiset{w.waiting[w.generation]};
  }

  lemma EndKeeps(w: World, aborted: bool, now: int)
    requires Inv(w)
    ensures Inv(w.(snap := Ended(w.snap, aborted, now)))
  {
    NoClash(w);
    if aborted {
      AbandonConserves(w.snap, now);
    } else if w.snap.active.Some? {
      var s := w.snap.(active := Some(w.snap.active.value.(complete := true)));
      assert Held(s) == Held(w.snap);
      CommitConserves(s, [], now);
    }
  }

  /** Nothing waits yet under the next generation. */
  lemma NoneWaitsNext(waiting: map<nat, string>, n: nat)
    requires forall g | g in waiting :: g <= n
    ensures Waiting(waiting, n + 1) == Waiting(waiting, n)
  {
    assert n + 1 !in waiting;
  }

  lemma CommitAnswers(s: Snap, answers: seq<InputItem>, now: int)
    requires AnswersOnly(answers) && s.pending.None?
    ensures Held(CommitActiveStream(s, answers, now)) == Held(s) && CommitActiveStream(s, answers, now).pending.None?
  {
    CommitConserves(s, answers, now);
  }

  lemma ContinueKeeps(w: World, answers: seq<InputItem>, id: Id, now: int)
    requires Inv(w) && AnswersOnly(answers) && w.snap.pending.None?
    ensures Inv(Next(w, Continue(w.generation, answers, id, now)))
  {
    hide Held, Waiting, CommitActiveStream;
    CommitAnswers(w.snap, answers, now);
    NoneWaitsNext(w.waiting, w.generation);
  }

  lemma RenameHolds(s: Snap, before: Id, after: Id)
    ensures var renamed := Renamed(s, before, after);
      && Held(renamed) == Held(s) && renamed.turns == s.turns && renamed.active == s.active
      && renamed.pending.Some? == s.pending.Some?
  {
  }

  lemma RenameKeeps(w: World, generation: nat, id: Id)
    requires Inv(w) && id !in TurnIds(w.snap.turns) && generation in w.streams
    ensures Inv(Next(w, GatewayTurnId(generation, id)))
  {
    hide Held, Waiting, Renamed;
    RenameHolds(w.snap, w.streams[generation].turn, id);
  }

  lemma UpdateKeeps(w: World, generation: nat, hasContent: bool, cancelled: Option<string>, sandbox: Option<Id>)
    requires Inv(w) && generation == w.generation && generation in w.streams
    ensures Inv(Next(w, Update(generation, hasContent, cancelled, sandbox)))
  {
    var after := Next(w, Update(generation, hasContent, cancelled, sandbox)).snap;
    assert after.turns == w.snap.turns && after.pending == w.snap.pending;
  }

  lemma StepKeeps(w: World, step: Step)
    requires Inv(w) && Allowed(w, step)
    ensures Inv(Next(w, step))
  {
    match step {
      case Begin(content) => BeginKeeps(w, content);
      case Send(_, id, now) =>
        if Applies(w, step) {
          SendKeeps(w, id, now);
        }
      case Fail(_, now) =>
        if Applies(w, step) {
          FailKeeps(w, now);
        }
      case Continue(generation, answers, id, now) =>
        if generation == w.generation {
          ContinueKeeps(w, answers, id, now);
        }
      case GatewayTurnId(generation, id) =>
        if generation in w.streams {
          RenameKeeps(w, generation, id);
        }
      case RootMessages(_) =>
      case Update(generation, hasContent, cancelled, sandbox) =>
        if generation == w.generation && generation in w.streams {
          UpdateKeeps(w, generation, hasContent, cancelled, sandbox);
        }
      case End(generation, aborted, now) =>
        if generation == w.generation && generation in w.streams {
          EndKeeps(w, aborted, now);
        }
    }
  }

  ghost predicate IsRun(ws: seq<World>, steps: seq<Step>) {
    && |ws| == |steps| + 1 && ws[0] == INITIAL
    && forall i :: 0 <= i < |steps| ==> Allowed(ws[i], steps[i]) && ws[i + 1] == Next(ws[i], steps[i])
  }

  lemma {:induction false} RunsKeep(ws: seq<World>, steps: seq<Step>, n: nat)
    requires IsRun(ws, steps) && n < |ws|
    ensures Inv(ws[n])
    decreases n
  {
    if n > 0 {
      RunsKeep(ws, steps, n - 1);
      StepKeeps(ws[n - 1], steps[n - 1]);
    }
  }

  /** Sends are conserved: at every state of every run, each message the user sent is held exactly
      once, pending or in one turn's record, or its send failed and said so, or it is still waiting;
      and so all are held or told of exactly when none waits. */
  lemma SendsAreConserved(ws: seq<World>, steps: seq<Step>, n: nat)
    requires IsRun(ws, steps) && n < |ws|
    ensures multiset(ws[n].sent) == Held(ws[n].snap) + Waiting(ws[n].waiting, ws[n].generation) + multiset(ws[n].told)
    ensures multiset(ws[n].sent) == Held(ws[n].snap) + multiset(ws[n].told) <==> ws[n].waiting == map[]
  {
    RunsKeep(ws, steps, n);
    var waiting := ws[n].waiting;
    if waiting == map[] {
      NoneWaiting(ws[n].generation);
    } else {
      var g :| g in waiting;
      SomeWaiting(waiting, ws[n].generation, g);
      assert |Waiting(waiting, ws[n].generation)| > 0;
    }
  }

  lemma LastStartedShows(w: World, id: Id, now: int)
    requires w.generation in w.waiting
    ensures Next(w, Send(w.generation, id, now)).snap.pending == Some(PendingUser(id, w.waiting[w.generation], now))
  {
  }

  lemma {:induction false} StaysWaiting(ws: seq<World>, steps: seq<Step>, k: nat, n: nat, g: nat)
    requires IsRun(ws, steps) && k <= n < |ws| && g in ws[k].waiting && g < ws[k].generation
    ensures g < ws[n].generation && g in ws[n].waiting && ws[n].waiting[g] == ws[k].waiting[g]
    decreases n
  {
    if k < n {
      StaysWaiting(ws, steps, k, n - 1, g);
    }
  }

  /** A send still waiting when something else has started is lost: it waits in every later state,
      so nothing ever shows its message and nobody is told. One that is the last thing started
      shows its message when its wait is over. */
  lemma SupersededSendIsLost(ws: seq<World>, steps: seq<Step>, k: nat, n: nat, g: nat)
    requires IsRun(ws, steps) && k <= n < |ws| && g in ws[k].waiting
    ensures g != ws[k].generation ==> g in ws[n].waiting && ws[n].waiting[g] == ws[k].waiting[g]
    ensures g == ws[k].generation ==>
      forall id, now :: Next(ws[k], Send(g, id, now)).snap.pending == Some(PendingUser(id, ws[k].waiting[g], now))
  {
    if g != ws[k].generation {
      RunsKeep(ws, steps, k);
      StaysWaiting(ws, steps, k, n, g);
    } else {
      forall id, now ensures Next(ws[k], Send(g, id, now)).snap.pending == Some(PendingUser(id, ws[k].waiting[g], now)) {
        LastStartedShows(ws[k], id, now);
      }
    }
  }

  /** Two sends that wait at once: the first is neither shown nor told of. */
  lemma OverlappingSendsLoseTheFirst(first: string, second: string) returns (ws: seq<World>, steps: seq<Step>)
    requires first != second
    ensures IsRun(ws, steps) && steps == [Begin(first), Begin(second), Send(1, "a", 0), Send(2, "b", 0)]
    ensures ws[4].sent == [first, second] && Held(ws[4].snap) == multiset{second} && ws[4].told == []
  {
    steps := [Begin(first), Begin(second), Send(1, "a", 0), Send(2, "b", 0)];
    var w1 := Next(INITIAL, steps[0]);
    var w2 := Next(w1, steps[1]);
    var w3 := Next(w2, steps[2]);
    ws := [INITIAL, w1, w2, w3, Next(w3, steps[3])];
  }

  /** The step starts something: a send begins, or a stream does. */
  predicate Starts(w: World, step: Step) {
    step.Begin? || (step.Send? && Applies(w, step)) || (step.Continue? && step.generation == w.generation)
  }

  lemma {:induction false} GenerationGrows(ws: seq<World>, steps: seq<Step>, k: nat, n: nat)
    requires IsRun(ws, steps) && k <= n < |ws|
    ensures ws[k].generation <= ws[n].generation
    decreases n
  {
    if k < n {
      GenerationGrows(ws, steps, k, n - 1);
    }
  }

  lemma {:induction false} StreamStarted(ws: seq<World>, steps: seq<Step>, n: nat, g: nat) returns (k: nat)
    requires IsRun(ws, steps) && n < |ws| && g in ws[n].streams
    ensures k < n && Starts(ws[k], steps[k]) && !steps[k].Begin? && ws[k + 1].generation == g
    decreases n
  {
    k := n - 1;
    if g in ws[n - 1].streams {
      k := StreamStarted(ws, steps, n - 1, g);
    }
  }

  /** Whatever changes the turns or the active stream is a send or a continuation that applies, or a
      step of the stream started last: one started at step `k`, with no other start since. */
  lemma OnlyTheLastStreamWrites(ws: seq<World>, steps: seq<Step>, n: nat) returns (k: nat)
    requires IsRun(ws, steps) && n < |steps|
    requires ws[n + 1].snap.turns != ws[n].snap.turns || ws[n + 1].snap.active != ws[n].snap.active
    ensures Applies(ws[n], steps[n]) || (steps[n].Continue? && Starts(ws[n], steps[n])) || steps[n].Update? || steps[n].End?
    ensures steps[n].Update? || steps[n].End? ==>
      && k < n && Starts(ws[k], steps[k]) && !steps[k].Begin? && ws[k + 1].generation == steps[n].generation
      && forall j :: k < j < n ==> !Starts(ws[j], steps[j])
  {
    k := 0;
    if steps[n].Update? || steps[n].End? {
      k := StreamStarted(ws, steps, n, steps[n].generation);
      forall j | k < j < n ensures !Starts(ws[j], steps[j]) {
        GenerationGrows(ws, steps, k + 1, j);
        GenerationGrows(ws, steps, j + 1, n);
      }
    }
  }

  /** With a clash, committing would lose the message. */
  lemma ClashLoses(turn: Id, content: string) returns (s: Snap)
    ensures Clash(s) && content in Held(s) && content !in Held(CommitActiveStream(s, [], 0))
  {
    var record := TurnRecord(turn, 0, [], Finished, [], None);
    s := Snap([record], Some(PendingUser(turn, content, 0)), Some(Active(turn, true, None, false, None)), None, []);
    assert s.turns[..0] == [];
    UpdateKeepsSends(s.turns, s.active.value, Finished, Scoping.SinceBaseline(s.roots, GroupBaseline(s)), []);
    assert SendsOf(s.turns) == multiset{};
  }

  // ----- The hook's state -----

  class AgentMessages {
    var snapshot: Snap
    var streamGeneration: nat
    var streams: map<nat, StreamRun>
    var waiting: map<nat, string>
    var told: seq<string>
    var sent: seq<string>

    function Value(): World
      reads this
    {
      World(snapshot, streamGeneration, streams, waiting, told, sent)
    }

    constructor ()
      ensures Value() == INITIAL
    {
      snapshot, streamGeneration, streams := Snap([], None, None, None, []), 0, map[];
      waiting, told, sent := map[], [], [];
    }

    /** Stops the stream before, at once: from here on it writes nothing. */
    method BeginSend(content: string) returns (sendGeneration: nat)
      modifies this
      ensures Value() == Next(old(Value()), Begin(content))
      ensures sendGeneration == streamGeneration
    {
      streamGeneration := streamGeneration + 1;
      waiting := waiting[streamGeneration := content];
      sent := sent + [content];
      sendGeneration := streamGeneration;
    }

    /** When the wait is over: whatever is in flight goes into the turns, then the message is shown as
        pending; but when something else has started, the send returns without a word. */
    method SendTurn(sendGeneration: nat, id: Id, now: int)
      requires sendGeneration in waiting
      modifies this
      ensures Value() == Next(old(Value()), Send(sendGeneration, id, now))
    {
      if sendGeneration != streamGeneration {
        return;
      }
      var abandoned := AbandonInFlightClientTurn(CommitActiveStream(snapshot, [], now), now);
      snapshot := abandoned.(pending := Some(PendingUser(id, waiting[sendGeneration], now)), active := None,
                             baseline := Some(abandoned.roots));
      waiting := waiting - {sendGeneration};
      streamGeneration := streamGeneration + 1;
      streams := streams[streamGeneration := StreamRun(id, false)];
    }

    /** The session or the headers could not be had. */
    method SendFailed(sendGeneration: nat, now: int)
      requires sendGeneration in waiting
      modifies this
      ensures Value() == Next(old(Value()), Fail(sendGeneration, now))
    {
      if sendGeneration != streamGeneration {
        return;
      }
      told := told + [waiting[sendGeneration]];
      waiting := waiting - {sendGeneration};
      if snapshot.active.Some? && !snapshot.active.value.complete {
        snapshot := AbandonInFlightClientTurn(CommitActiveStream(snapshot, [], now), now);
      }
    }

    method ContinueTurn(sendGeneration: nat, answers: seq<InputItem>, id: Id, now: int)
      modifies this
      ensures Value() == Next(old(Value()), Continue(sendGeneration, answers, id, now))
    {
      if sendGeneration != streamGeneration {
        return;
      }
      var turn := id;
      if snapshot.active.Some? {
        turn := snapshot.active.value.turn;
      } else if snapshot.turns != [] {
        turn := snapshot.turns[|snapshot.turns| - 1].id;
      }
      snapshot := CommitActiveStream(snapshot, answers, now);
      streamGeneration := streamGeneration + 1;
      streams := streams[streamGeneration := StreamRun(turn, true)];
    }

    method HandleGatewayTurnId(generation: nat, id: Id)
      requires generation in streams
      modifies this
      ensures Value() == Next(old(Value()), GatewayTurnId(generation, id))
    {
      var before := streams[generation].turn;
      streams := streams[generation := streams[generation].(turn := id)];
      if snapshot.pending.Some? && snapshot.pending.value.turn == before {
        snapshot := snapshot.(pending := Some(snapshot.pending.value.(turn := id)));
      }
    }

    method FlushPendingStreamUpdate(generation: nat, hasContent: bool, cancelled: Option<string>, sandbox: Option<Id>)
      requires generation in streams
      modifies this
      ensures Value() == Next(old(Value()), Update(generation, hasContent, cancelled, sandbox))
    {
      if generation != streamGeneration {
        return;
      }
      snapshot := snapshot.(active := Some(Active(streams[generation].turn, false, cancelled, hasContent, sandbox)));
    }

    method FinishStream(generation: nat, aborted: bool, now: int)
      requires generation in streams
      modifies this
      ensures Value() == Next(old(Value()), End(generation, aborted, now))
    {
      if generation != streamGeneration {
        return;
      }
      if aborted {
        snapshot := AbandonInFlightClientTurn(snapshot, now);
      } else if snapshot.active.Some? {
        var marked := snapshot.(active := Some(snapshot.active.value.(complete := true)));
        snapshot := CommitActiveStream(marked, [], now);
      }
    }
  }
}
