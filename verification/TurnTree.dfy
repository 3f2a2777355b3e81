/** The turns of a session as a tree, under concurrent creates, freezes and running streams. */
module TurnTree {
  import opened JsMaps
  import TurnContext
  import TurnStore

  const MAX_TURN_ANCESTORS := 20

  /** `start` is the snapshot the turn was created with, and `delta` what its input added. */
  datatype Turn = Turn(id: Id, first: Id, ancestors: seq<Id>, previous: Option<Id>, state: TurnStore.TurnState,
                       snapshot: TurnContext.Snapshot, start: TurnContext.Snapshot, delta: TurnContext.Delta)

  /** A create that has frozen its parent and not committed yet. */
  datatype Prepared = Prepared(id: Id, previous: Option<Turn>)

  /** Turns are in the order they were stored. */
  datatype World = World(turns: seq<Turn>, last: Option<Id>, inFlight: seq<Prepared>)

  const NOTHING := World([], None, [])

  function Find(turns: seq<Turn>, id: Id): (r: Option<nat>)
    ensures r.Some? ==> r.value < |turns| && turns[r.value].id == id
    ensures r.None? ==> forall i :: 0 <= i < |turns| ==> turns[i].id != id
  {
    if turns == [] then None
    else if turns[|turns| - 1].id == id then Some(|turns| - 1)
    else Find(turns[..|turns| - 1], id)
  }

  /** The last `n`, or all when there are no more. */
  function LastN(ids: seq<Id>, n: nat): (r: seq<Id>)
    ensures |r| <= n && |r| <= |ids| && r == ids[|ids| - |r|..] && (|r| < |ids| ==> |r| == n)
  {
    if |ids| <= n then ids else ids[|ids| - n..]
  }

  // ----- Operations -----

  /** `auto` continues the session's last turn as the handle knows it, `none` starts afresh. */
  function ResolvePreviousTurnId(requested: Option<string>, tip: Option<Id>): Option<Id> {
    if requested == Some("none") then None
    else if requested.None? || requested == Some("auto") then tip
    else requested
  }

  function Frozen(state: TurnStore.TurnState, reason: string): TurnStore.TurnState {
    if state.Ended? then state else TurnStore.Ended(TurnStore.Cancelled(reason))
  }

  function Freeze(w: World, id: Id, reason: string): World {
    match Find(w.turns, id)
    case None => w
    case Some(i) => w.(turns := w.turns[i := w.turns[i].(state := Frozen(w.turns[i].state, reason))])
  }

  /** Freezes the turn to continue; a turn that does not exist fails the create. */
  function Prepare(w: World, id: Id, requested: Option<string>, tip: Option<Id>): World {
    var previous := ResolvePreviousTurnId(requested, tip);
    if previous.None? || previous.value == "" then w.(inFlight := w.inFlight + [Prepared(id, None)])
    else
      var frozen := Freeze(w, previous.value, "cancelled for next turn");
      match Find(frozen.turns, previous.value)
      case None => frozen
      case Some(i) => frozen.(inFlight := frozen.inFlight + [Prepared(id, Some(frozen.turns[i]))])
  }

  datatype Outcome = Stored | PreviousTurnRunning | TurnAlreadyExists | BadDelta

  /** What the store says to a create. An unknown previous turn is no inheritance. */
  function CreateOutcome(turns: seq<Turn>, id: Id, previous: Option<Id>, d: TurnContext.Delta): Outcome {
    var parent := if previous.Some? then Find(turns, previous.value) else None;
    if parent.Some? && !turns[parent.value].state.Ended? then PreviousTurnRunning
    else if Find(turns, id).Some? then TurnAlreadyExists
    else if TurnContext.BuildSnapshot(if parent.Some? then Some(turns[parent.value].snapshot) else None, d).None? then BadDelta
    else Stored
  }

  function NewTurn(turns: seq<Turn>, p: Prepared, d: TurnContext.Delta): Turn
    requires CreateOutcome(turns, p.id, PreviousId(p), d).Stored?
  {
    var parent := if p.previous.Some? then Find(turns, p.previous.value.id) else None;
    var start := TurnContext.BuildSnapshot(if parent.Some? then Some(turns[parent.value].snapshot) else None, d).value;
    match p.previous
    case None => Turn(p.id, p.id, [], None, TurnStore.Running, start, start, d)
    case Some(parent) =>
      Turn(p.id, parent.first, LastN(parent.ancestors + [parent.id], MAX_TURN_ANCESTORS), Some(parent.id),
           TurnStore.Running, start, start, d)
  }

  function PreviousId(p: Prepared): Option<Id> {
    if p.previous.Some? then Some(p.previous.value.id) else None
  }

  function Without(ps: seq<Prepared>, k: nat): seq<Prepared>
    requires k < |ps|
  {
    ps[..k] + ps[k + 1..]
  }

  /** Stores the turn of an in-flight create; when the store refuses, nothing is stored. */
  function Commit(w: World, k: nat, d: TurnContext.Delta): World {
    if k >= |w.inFlight| then w
    else
      var p := w.inFlight[k];
      var rest := w.(inFlight := Without(w.inFlight, k));
      if CreateOutcome(w.turns, p.id, PreviousId(p), d).Stored?
      then rest.(turns := w.turns + [NewTurn(w.turns, p, d)], last := Some(p.id))
      else rest
  }

  /** Every write to a turn's snapshot needs the turn to be running. */
  function Write(w: World, id: Id, snapshot: TurnContext.Snapshot): World {
    match Find(w.turns, id)
    case None => w
    case Some(i) => if w.turns[i].state.Running? then w.(turns := w.turns[i := w.turns[i].(snapshot := snapshot)]) else w
  }

  function SetState(w: World, id: Id, state: TurnStore.TurnState): World {
    match Find(w.turns, id)
    case None => w
    case Some(i) =>
      var allowed := match state
        case Running => w.turns[i].state.Paused?
        case Paused => w.turns[i].state.Running?
        case Ended(_) => !w.turns[i].state.Ended?;
      if allowed then w.(turns := w.turns[i := w.turns[i].(state := state)]) else w
  }

  datatype Step =
    | PrepareStep(id: Id, requested: Option<string>, tip: Option<Id>)
    | CommitStep(k: nat, delta: TurnContext.Delta)
    | DropStep(k: nat)
    | FreezeStep(id: Id, reason: string)
    | WriteStep(id: Id, snapshot: TurnContext.Snapshot)
    | StateStep(id: Id, state: TurnStore.TurnState)

  function Next(w: World, step: Step): World {
    match step
    case PrepareStep(id, requested, tip) => Prepare(w, id, requested, tip)
    case CommitStep(k, d) => Commit(w, k, d)
    case DropStep(k) => if k < |w.inFlight| then w.(inFlight := Without(w.inFlight, k)) else w
    case FreezeStep(id, reason) => Freeze(w, id, reason)
    case WriteStep(id, snapshot) => Write(w, id, snapshot)
    case StateStep(id, state) => SetState(w, id, state)
  }

  function Run(steps: seq<Step>): World {
    if steps == [] then NOTHING else Next(Run(steps[..|steps| - 1]), steps[|steps| - 1])
  }

  /** Asking for `requested`, with the session's last turn as `tip`, names turn `x` to continue: the
      tip when nothing or "auto" is asked for, and otherwise the turn asked for, unless it is "none". */
  predicate Names(requested: Option<string>, tip: Option<Id>, x: Id) {
    && x != ""
    && match requested
       case None => tip == Some(x)
       case Some(word) => if word == "auto" then tip == Some(x) else word == x && word != "none"
  }

  /** The turn as a freeze leaves it: one that has not ended is cancelled for the next. */
  predicate FrozenForNext(before: Turn, after: Turn) {
    after == if before.state.Ended? then before else before.(state := TurnStore.Ended(TurnStore.Cancelled("cancelled for next turn")))
  }

  // ----- The true root path -----

  /** The ids from the root down to the turn at `i`, following previous turns. */
  function Path(turns: seq<Turn>, i: nat): (ids: seq<Id>)
    requires i < |turns|
    ensures ids != [] && ids[|ids| - 1] == turns[i].id
    decreases i
  {
    match turns[i].previous
    case None => [turns[i].id]
    case Some(p) =>
      match Find(turns[..i], p)
      case None => [turns[i].id]
      case Some(j) => Path(turns, j) + [turns[i].id]
  }

  /** Turn `t` continues turn `parent`, which has ended for good. */
  ghost predicate Continues(t: Turn, parent: Turn) {
    && t.previous == Some(parent.id)
    && parent.state.Ended?
    && TurnContext.BuildSnapshot(Some(parent.snapshot), t.delta) == Some(t.start)
  }

  ghost predicate UniqueIds(turns: seq<Turn>) {
    forall i, j :: 0 <= i < j < |turns| ==> turns[i].id != turns[j].id
  }

  ghost predicate Rooted(turns: seq<Turn>, i: nat)
    requires i < |turns|
  {
    var t := turns[i];
    && t.first == Path(turns, i)[0]
    && t.ancestors == LastN(Path(turns, i)[..|Path(turns, i)| - 1], MAX_TURN_ANCESTORS)
    && match t.previous
       case None => TurnContext.BuildSnapshot(None, t.delta) == Some(t.start)
       case Some(p) => Find(turns[..i], p).Some? && Continues(t, turns[Find(turns[..i], p).value])
  }

  ghost predicate Tree(turns: seq<Turn>) {
    UniqueIds(turns) && forall i :: 0 <= i < |turns| ==> Rooted(turns, i)
  }

  /** A create in flight holds its parent as it is stored, ended. */
  ghost predicate Held(turns: seq<Turn>, p: Prepared) {
    p.previous.Some? ==> p.previous.value in turns && p.previous.value.state.Ended?
  }

  ghost predicate Inv(w: World) {
    && Tree(w.turns)
    && forall k :: 0 <= k < |w.inFlight| ==> Held(w.turns, w.inFlight[k])
  }

  // ----- What every step keeps -----

  lemma {:induction false} FindSame(a: seq<Turn>, b: seq<Turn>, id: Id)
    requires |a| == |b| && forall k :: 0 <= k < |a| ==> a[k].id == b[k].id
    ensures Find(a, id) == Find(b, id)
    decreases |a|
  {
    if a != [] && a[|a| - 1].id != id {
      FindSame(a[..|a| - 1], b[..|b| - 1], id);
    }
  }

  lemma FindUnique(turns: seq<Turn>, i: nat)
    requires UniqueIds(turns) && i < |turns|
    ensures Find(turns, turns[i].id) == Some(i)
  {
    var j := Find(turns, turns[i].id);
  }

  lemma {:induction false} PathSame(a: seq<Turn>, b: seq<Turn>, i: nat)
    requires i < |a| && i < |b|
    requires forall k :: 0 <= k <= i ==> a[k].id == b[k].id && a[k].previous == b[k].previous
    ensures Path(a, i) == Path(b, i)
    decreases i
  {
    if a[i].previous.Some? {
      FindSame(a[..i], b[..i], a[i].previous.value);
      var j := Find(a[..i], a[i].previous.value);
      if j.Some? {
        PathSame(a, b, j.value);
      }
    }
  }

  /** What may change in a stored turn: its state and snapshot, until it has ended. */
  ghost predicate Advances(before: Turn, after: Turn) {
    && after == before.(state := after.state, snapshot := after.snapshot)
    && (before.state.Ended? ==> after == before)
  }

  lemma UpdateRooted(turns: seq<Turn>, i: nat, t: Turn, k: nat)
    requires Tree(turns) && i < |turns| && k < |turns| && Advances(turns[i], t)
    ensures Rooted(turns[i := t], k)
  {
    var after := turns[i := t];
    PathSame(turns, after, k);
    assert Rooted(turns, k);
    if turns[k].previous.Some? {
      FindSame(turns[..k], after[..k], turns[k].previous.value);
      var j := Find(turns[..k], turns[k].previous.value).value;
      assert turns[..k][j] == turns[j];
      assert Continues(turns[k], turns[j]);
    }
  }

  lemma UpdateKeeps(w: World, i: nat, t: Turn)
    requires Inv(w) && i < |w.turns| && Advances(w.turns[i], t)
    ensures Inv(w.(turns := w.turns[i := t]))
  {
    var after := w.turns[i := t];
    forall k | 0 <= k < |after| ensures Rooted(after, k) {
      UpdateRooted(w.turns, i, t, k);
    }
    forall k | 0 <= k < |w.inFlight| && w.inFlight[k].previous.Some? ensures w.inFlight[k].previous.value in after {
      assert Held(w.turns, w.inFlight[k]);
      var j :| 0 <= j < |w.turns| && w.turns[j] == w.inFlight[k].previous.value;
      assert after[j] == w.turns[j];
    }
  }

  lemma WithoutKeeps(w: World, k: nat)
    requires Inv(w) && k < |w.inFlight|
    ensures Inv(w.(inFlight := Without(w.inFlight, k)))
  {
    var rest := Without(w.inFlight, k);
    forall j | 0 <= j < |rest| ensures Held(w.turns, rest[j]) {
      assert rest[j] == w.inFlight[if j < k then j else j + 1];
    }
  }

  lemma FreezeKeeps(w: World, id: Id, reason: string)
    requires Inv(w)
    ensures Inv(Freeze(w, id, reason))
  {
    var i := Find(w.turns, id);
    if i.Some? {
      UpdateKeeps(w, i.value, w.turns[i.value].(state := Frozen(w.turns[i.value].state, reason)));
    }
  }

  lemma PrepareKeeps(w: World, id: Id, requested: Option<string>, tip: Option<Id>)
    requires Inv(w)
    ensures Inv(Prepare(w, id, requested, tip))
  {
    var previous := ResolvePreviousTurnId(requested, tip);
    if previous.Some? && previous.value != "" {
      var frozen := Freeze(w, previous.value, "cancelled for next turn");
      FreezeKeeps(w, previous.value, "cancelled for next turn");
      var before := Find(w.turns, previous.value);
      FindSame(w.turns, frozen.turns, previous.value);
      if before.Some? {
        assert frozen.turns[before.value].state.Ended?;
        assert frozen.turns[before.value] in frozen.turns;
      }
    }
  }

  lemma LastNSnoc(ids: seq<Id>, x: Id, n: nat)
    requires n > 0
    ensures LastN(LastN(ids, n) + [x], n) == LastN(ids + [x], n)
  {
  }

  lemma AppendRooted(turns: seq<Turn>, t: Turn, k: nat)
    requires Tree(turns) && k < |turns|
    ensures Rooted(turns + [t], k)
  {
    var after := turns + [t];
    PathSame(turns, after, k);
    assert Rooted(turns, k);
    assert after[..k] == turns[..k];
    if turns[k].previous.Some? {
      var j := Find(turns[..k], turns[k].previous.value).value;
      assert turns[..k][j] == turns[j] == after[j];
    }
  }

  /** A parent held by a create is still there, as it was, when the create commits. */
  lemma HeldParent(turns: seq<Turn>, p: Prepared) returns (j: nat)
    requires Tree(turns) && Held(turns, p) && p.previous.Some?
    ensures Find(turns, p.previous.value.id) == Some(j) && j < |turns| && turns[j] == p.previous.value
  {
    j :| 0 <= j < |turns| && turns[j] == p.previous.value;
    FindUnique(turns, j);
  }

  lemma NewPath(turns: seq<Turn>, t: Turn, j: nat)
    requires Tree(turns) && j < |turns| && t.previous == Some(turns[j].id)
    ensures Path(turns + [t], |turns|) == Path(turns, j) + [t.id]
  {
    assert (turns + [t])[..|turns|] == turns;
    FindUnique(turns, j);
    PathSame(turns, turns + [t], j);
  }

  lemma NewAncestors(path: seq<Id>, longer: seq<Id>, ancestors: seq<Id>, id: Id)
    requires path != [] && longer == path + [id] && ancestors == LastN(path[..|path| - 1], MAX_TURN_ANCESTORS)
    ensures LastN(ancestors + [path[|path| - 1]], MAX_TURN_ANCESTORS) == LastN(longer[..|longer| - 1], MAX_TURN_ANCESTORS)
  {
    assert path[..|path| - 1] + [path[|path| - 1]] == path;
    assert longer[..|path|] == path;
    LastNSnoc(path[..|path| - 1], path[|path| - 1], MAX_TURN_ANCESTORS);
  }

  lemma NewTurnRooted(turns: seq<Turn>, p: Prepared, d: TurnContext.Delta)
    requires Tree(turns) && Held(turns, p) && CreateOutcome(turns, p.id, PreviousId(p), d).Stored?
    ensures Rooted(turns + [NewTurn(turns, p, d)], |turns|)
  {
    var t := NewTurn(turns, p, d);
    assert (turns + [t])[..|turns|] == turns;
    if p.previous.Some? {
      var j := HeldParent(turns, p);
      assert Rooted(turns, j);
      NewPath(turns, t, j);
      NewAncestors(Path(turns, j), Path(turns + [t], |turns|), turns[j].ancestors, t.id);
      hide LastN, Tree, TurnContext.BuildSnapshot;
    }
  }

  lemma TreeGrows(turns: seq<Turn>, p: Prepared, d: TurnContext.Delta)
    requires Tree(turns) && Held(turns, p) && CreateOutcome(turns, p.id, PreviousId(p), d).Stored?
    ensures Tree(turns + [NewTurn(turns, p, d)])
  {
    hide Rooted, NewTurn;
    var t := NewTurn(turns, p, d);
    var after := turns + [t];
    NewId(turns, p, d);
    forall i | 0 <= i < |after| ensures Rooted(after, i) {
      if i < |turns| {
        AppendRooted(turns, t, i);
      } else {
        NewTurnRooted(turns, p, d);
      }
    }
  }

  lemma NewId(turns: seq<Turn>, p: Prepared, d: TurnContext.Delta)
    requires UniqueIds(turns) && CreateOutcome(turns, p.id, PreviousId(p), d).Stored?
    ensures UniqueIds(turns + [NewTurn(turns, p, d)])
  {
    assert NewTurn(turns, p, d).id == p.id;
  }

  lemma StillHeld(turns: seq<Turn>, t: Turn, p: Prepared)
    requires Held(turns, p)
    ensures Held(turns + [t], p)
  {
    if p.previous.Some? {
      assert p.previous.value in turns + [t];
    }
  }

  lemma CommitKeeps(w: World, k: nat, d: TurnContext.Delta)
    requires Inv(w) && k < |w.inFlight|
    ensures Inv(Commit(w, k, d))
  {
    hide Tree, Held, NewTurn;
    var p := w.inFlight[k];
    WithoutKeeps(w, k);
    if CreateOutcome(w.turns, p.id, PreviousId(p), d).Stored? {
      assert Held(w.turns, p);
      TreeGrows(w.turns, p, d);
      var rest := Without(w.inFlight, k);
      forall j | 0 <= j < |rest| ensures Held(w.turns + [NewTurn(w.turns, p, d)], rest[j]) {
        assert rest[j] == w.inFlight[if j < k then j else j + 1];
        StillHeld(w.turns, NewTurn(w.turns, p, d), rest[j]);
      }
    }
  }

  lemma StepKeeps(w: World, step: Step)
    requires Inv(w)
    ensures Inv(Next(w, step))
  {
    match step {
      case PrepareStep(id, requested, tip) => PrepareKeeps(w, id, requested, tip);
      case CommitStep(k, d) =>
        if k < |w.inFlight| {
          CommitKeeps(w, k, d);
        }
      case DropStep(k) =>
        if k < |w.inFlight| {
          WithoutKeeps(w, k);
        }
      case FreezeStep(id, reason) => FreezeKeeps(w, id, reason);
      case WriteStep(id, snapshot) =>
        var i := Find(w.turns, id);
        if i.Some? && w.turns[i.value].state.Running? {
          UpdateKeeps(w, i.value, w.turns[i.value].(snapshot := snapshot));
        }
      case StateStep(id, state) =>
        var i := Find(w.turns, id);
        if i.Some? && !w.turns[i.value].state.Ended? {
          UpdateKeeps(w, i.value, w.turns[i.value].(state := state));
        }
    }
  }

  lemma NamesOne(requested: Option<string>, tip: Option<Id>)
    ensures var previous := ResolvePreviousTurnId(requested, tip);
      forall x :: Names(requested, tip, x) <==> x != "" && previous == Some(x)
  {
  }

  /** A create prepares to continue the turn that is named, frozen, and holds on to it; it fails when
      that turn does not exist, and begins afresh when none is named. */
  lemma PreparesAsAsked(w: World, id: Id, requested: Option<string>, tip: Option<Id>)
    requires Inv(w)
    ensures var after := Next(w, PrepareStep(id, requested, tip));
      && (forall x :: Names(requested, tip, x) && Find(w.turns, x).None? ==> after == w)
      && (forall x :: Names(requested, tip, x) && Find(w.turns, x).Some? ==>
            var i := Find(w.turns, x).value;
            && i < |after.turns| && FrozenForNext(w.turns[i], after.turns[i]) && after.turns == w.turns[i := after.turns[i]]
            && after.inFlight == w.inFlight + [Prepared(id, Some(after.turns[i]))] && after.turns[i].id == x)
      && ((forall x :: !Names(requested, tip, x)) ==> after == w.(inFlight := w.inFlight + [Prepared(id, None)]))
  {
    var previous := ResolvePreviousTurnId(requested, tip);
    if previous.Some? && previous.value != "" {
      assert Names(requested, tip, previous.value);
      var frozen := Freeze(w, previous.value, "cancelled for next turn");
      FindSame(w.turns, frozen.turns, previous.value);
    }
  }

  /** What a create holds is what its turn continues. */
  lemma CommitsAsPrepared(w: World, k: nat, d: TurnContext.Delta)
    requires Inv(w) && k < |w.inFlight| && |Next(w, CommitStep(k, d)).turns| != |w.turns|
    ensures var after, p := Next(w, CommitStep(k, d)), w.inFlight[k];
      && |after.turns| == |w.turns| + 1 && after.turns[..|w.turns|] == w.turns
      && var t := after.turns[|w.turns|];
         && t.id == p.id && after.last == Some(p.id) && t.state.Running? && t.delta == d
         && (p.previous.None? ==> t.previous.None? && TurnContext.BuildSnapshot(None, d) == Some(t.start))
         && (p.previous.Some? ==>
               && t.previous == Some(p.previous.value.id) && p.previous.value in w.turns
               && TurnContext.BuildSnapshot(Some(p.previous.value.snapshot), d) == Some(t.start))
         && t.snapshot == t.start
  {
    assert Held(w.turns, w.inFlight[k]);
    if w.inFlight[k].previous.Some? {
      var j := HeldParent(w.turns, w.inFlight[k]);
    }
  }

  /** In every interleaving of creates, freezes and streams: ids are unique, every child's parent
      has ended for good, the child starts from the parent's final snapshot, and each turn's
      recorded ancestors are the last twenty of its true path from its recorded root. */
  lemma {:induction false} TreeOverAllRuns(steps: seq<Step>)
    ensures Inv(Run(steps))
    decreases steps
  {
    if steps != [] {
      TreeOverAllRuns(steps[..|steps| - 1]);
      StepKeeps(Run(steps[..|steps| - 1]), steps[|steps| - 1]);
    }
  }

  /** Only leaves can be running. */
  lemma RunningIsLeaf(steps: seq<Step>, i: nat, k: nat)
    requires i < |Run(steps).turns| && k < |Run(steps).turns|
    requires Run(steps).turns[k].previous == Some(Run(steps).turns[i].id)
    ensures Run(steps).turns[i].state.Ended? && i < k
  {
    var turns := Run(steps).turns;
    TreeOverAllRuns(steps);
    assert Rooted(turns, k);
    var j := Find(turns[..k], turns[k].previous.value).value;
    assert turns[..k][j] == turns[j];
    FindUnique(turns, i);
    FindUnique(turns, j);
  }

  /** A create that froze its parent is never told that the parent is still running. */
  lemma NeverPreviousTurnRunning(steps: seq<Step>, k: nat, d: TurnContext.Delta)
    requires k < |Run(steps).inFlight|
    ensures var w := Run(steps);
      !CreateOutcome(w.turns, w.inFlight[k].id, PreviousId(w.inFlight[k]), d).PreviousTurnRunning?
  {
    var w := Run(steps);
    TreeOverAllRuns(steps);
    assert Held(w.turns, w.inFlight[k]);
    if w.inFlight[k].previous.Some? {
      var j := HeldParent(w.turns, w.inFlight[k]);
    }
  }

  lemma EndedStays(w: World, step: Step, i: nat)
    requires i < |w.turns| && w.turns[i].state.Ended?
    ensures i < |Next(w, step).turns| && Next(w, step).turns[i] == w.turns[i]
  {
  }

  /** Once a turn has ended, nothing that happens later changes its record. */
  lemma {:induction false} EndedIsFinal(steps: seq<Step>, later: seq<Step>, i: nat)
    requires i < |Run(steps).turns| && Run(steps).turns[i].state.Ended?
    ensures i < |Run(steps + later).turns| && Run(steps + later).turns[i] == Run(steps).turns[i]
    decreases later
  {
    if later == [] {
      assert steps + later == steps;
    } else {
      var n := |later| - 1;
      EndedIsFinal(steps, later[..n], i);
      assert (steps + later)[..|steps + later| - 1] == steps + later[..n];
      EndedStays(Run(steps + later[..n]), later[n], i);
    }
  }

  // ----- Walking back to the root -----

  function Unseen(ids: seq<Id>, seen: set<Id>): (r: seq<Id>)
    ensures forall x :: x in r <==> x in ids && x !in seen
  {
    if ids == [] then []
    else Unseen(ids[..|ids| - 1], seen) + if ids[|ids| - 1] in seen then [] else [ids[|ids| - 1]]
  }

  lemma {:induction false} UnseenAll(ids: seq<Id>, seen: set<Id>)
    requires forall i :: 0 <= i < |ids| ==> ids[i] !in seen
    ensures Unseen(ids, seen) == ids
    decreases ids
  {
    if ids != [] {
      UnseenAll(ids[..|ids| - 1], seen);
      assert ids == ids[..|ids| - 1] + [ids[|ids| - 1]];
    }
  }

  /** The ids on a path belong to turns stored in that order. */
  lemma {:induction false} PathStored(turns: seq<Turn>, i: nat, k: nat) returns (j: nat)
    requires Tree(turns) && i < |turns| && k < |Path(turns, i)|
    ensures j <= i && turns[j].id == Path(turns, i)[k] && Path(turns, j) == Path(turns, i)[..k + 1]
    ensures k < |Path(turns, i)| - 1 ==> j < i
    decreases i
  {
    var path := Path(turns, i);
    if k == |path| - 1 {
      j := i;
    } else {
      assert Rooted(turns, i);
      var parent := Find(turns[..i], turns[i].previous.value).value;
      j := PathStored(turns, parent, k);
      assert path[..k + 1] == Path(turns, parent)[..k + 1];
    }
  }

  lemma PathDistinct(turns: seq<Turn>, i: nat, a: nat, b: nat)
    requires Tree(turns) && i < |turns| && a < b < |Path(turns, i)|
    ensures Path(turns, i)[a] != Path(turns, i)[b]
  {
    var j := PathStored(turns, i, b);
    assert Path(turns, j)[a] == Path(turns, i)[a];
    var m := PathStored(turns, j, a);
  }

  lemma WindowBefore(path: seq<Id>, k: nat)
    requires k < |path|
    ensures LastN(path[..k], MAX_TURN_ANCESTORS) + path[k..] == path[k - |LastN(path[..k], MAX_TURN_ANCESTORS)|..]
  {
  }

  lemma NotSeen(turns: seq<Turn>, i: nat, k: nat)
    requires Tree(turns) && i < |turns| && k < |Path(turns, i)|
    ensures var path := Path(turns, i);
      var before := LastN(path[..k], MAX_TURN_ANCESTORS);
      forall a :: 0 <= a < |before| ==> before[a] !in path[k..]
  {
    var path := Path(turns, i);
    var before := LastN(path[..k], MAX_TURN_ANCESTORS);
    forall a, b | 0 <= a < |before| && 0 <= b < |path[k..]| ensures before[a] != path[k..][b] {
      PathDistinct(turns, i, k - |before| + a, k + b);
    }
  }

  lemma TurnOnPath(turns: seq<Turn>, anchor: nat, k: nat) returns (j: nat)
    requires Tree(turns) && anchor < |turns| && k < |Path(turns, anchor)|
    ensures Find(turns, Path(turns, anchor)[k]) == Some(j)
    ensures turns[j].ancestors == LastN(Path(turns, anchor)[..k], MAX_TURN_ANCESTORS)
  {
    j := PathStored(turns, anchor, k);
    FindUnique(turns, j);
    assert Rooted(turns, j);
    TakeTwice(Path(turns, anchor), k);
  }

  lemma TakeTwice(path: seq<Id>, k: nat)
    requires k < |path|
    ensures path[..k + 1][..k] == path[..k]
  {
  }

  lemma WindowUnseen(turns: seq<Turn>, anchor: nat, k: nat, chain: seq<Id>)
    requires Tree(turns) && anchor < |turns| && k < |Path(turns, anchor)| && chain == Path(turns, anchor)[k..]
    ensures var window := LastN(Path(turns, anchor)[..k], MAX_TURN_ANCESTORS);
      Unseen(window, Members(chain)) == window
  {
    NotSeen(turns, anchor, k);
    UnseenAll(LastN(Path(turns, anchor)[..k], MAX_TURN_ANCESTORS), Members(chain));
  }

  /** The oldest turn reached so far is stored, and its own window is what comes before it. */
  lemma ChainStep(turns: seq<Turn>, anchor: nat, path: seq<Id>, k: nat, chain: seq<Id>)
    requires Tree(turns) && anchor < |turns| && path == Path(turns, anchor) && k < |path| && chain == path[k..]
    ensures Find(turns, chain[0]).Some?
    ensures Unseen(turns[Find(turns, chain[0]).value].ancestors, Members(chain)) == LastN(path[..k], MAX_TURN_ANCESTORS)
  {
    var j := TurnOnPath(turns, anchor, k);
    WindowUnseen(turns, anchor, k, chain);
  }

  lemma ChainStart(turns: seq<Turn>, anchor: nat)
    requires Tree(turns) && anchor < |turns|
    ensures var path, chain := Path(turns, anchor), turns[anchor].ancestors + [turns[anchor].id];
      |chain| <= |path| && chain == path[|path| - |chain|..] && (|chain| == 1 ==> |path| == 1)
  {
    assert Rooted(turns, anchor);
    WindowAtEnd(Path(turns, anchor), turns[anchor].ancestors);
  }

  lemma WindowAtEnd(path: seq<Id>, window: seq<Id>)
    requires path != [] && window == LastN(path[..|path| - 1], MAX_TURN_ANCESTORS)
    ensures var chain := window + [path[|path| - 1]];
      |chain| <= |path| && chain == path[|path| - |chain|..] && (|chain| == 1 ==> |path| == 1)
  {
    var k := |path| - 1;
    WindowBefore(path, k);
    assert path[k..] == [path[k]];
  }

  /** The walk stops at the anchor only when the anchor is all there is. */
  lemma ChainStop(turns: seq<Turn>, anchor: nat, k: nat)
    requires Tree(turns) && anchor < |turns| && k < |Path(turns, anchor)|
    requires Path(turns, anchor)[k] == turns[anchor].id
    ensures k == |Path(turns, anchor)| - 1
  {
    if k < |Path(turns, anchor)| - 1 {
      PathDistinct(turns, anchor, k, |Path(turns, anchor)| - 1);
    }
  }

  /** Each turn stores at most twenty ancestors; chaining the oldest ancestor's own window to the
      front recovers the whole path from the root. */
  method ResolveAncestorChain(turns: seq<Turn>, anchor: nat) returns (chain: seq<Id>)
    requires Tree(turns) && anchor < |turns|
    ensures chain == Path(turns, anchor)
  {
    ghost var path := Path(turns, anchor);
    chain := turns[anchor].ancestors + [turns[anchor].id];
    ChainStart(turns, anchor);
    ghost var k := |path| - |chain|;
    var seen := Members(chain);
    var oldest := chain[0];
    while oldest != turns[anchor].id
      invariant 0 <= k < |path| && chain == path[k..] && oldest == chain[0] && seen == Members(chain)
      invariant |chain| == 1 ==> k == 0
      decreases k
    {
      ChainStep(turns, anchor, path, k, chain);
      WindowBefore(path, k);
      var found := Find(turns, oldest);
      if found.None? {
        break;
      }
      var older := Unseen(turns[found.value].ancestors, seen);
      if |older| == 0 {
        break;
      }
      chain := older + chain;
      k := k - |older|;
      seen := Members(chain);
      oldest := older[0];
    }
    if oldest == turns[anchor].id {
      ChainStop(turns, anchor, k);
    }
    assert path[0..] == path;
  }
}
