/** Creating a turn: freeze the parent, send, then commit, while others act on the session. */
module SessionTurns {
  import opened JsMaps
  import opened TurnTree
  import TurnContext
  import TurnStore

  class SessionStore {
    var turns: seq<Turn>
    var lastTurn: Option<Id>
    var inFlight: seq<Prepared>

    function Value(): World
      reads this
    {
      World(turns, lastTurn, inFlight)
    }

    constructor ()
      ensures Value() == NOTHING
    {
      turns, lastTurn, inFlight := [], None, [];
    }

    method FreezeAndGetTurn(id: Id, reason: string) returns (r: Option<Turn>)
      requires UniqueIds(turns)
      modifies this`turns
      ensures Value() == Freeze(old(Value()), id, reason)
      ensures r.None? <==> Find(old(turns), id).None?
      ensures r.Some? ==> r.value in turns && r.value.id == id && r.value.state.Ended?
    {
      var i := Find(turns, id);
      if i.None? {
        return None;
      }
      if !turns[i.value].state.Ended? {
        turns := turns[i.value := turns[i.value].(state := TurnStore.Ended(TurnStore.Cancelled(reason)))];
      }
      assert turns[i.value] in turns;
      r := Some(turns[i.value]);
    }

    /** Inserts the turn and moves the session's last turn in one step, or refuses. */
    method CreateTurn(id: Id, first: Id, ancestors: seq<Id>, previous: Option<Id>,
                      d: TurnContext.Delta) returns (outcome: Outcome)
      modifies this`turns, this`lastTurn
      ensures outcome == CreateOutcome(old(turns), id, previous, d)
      ensures !outcome.Stored? ==> turns == old(turns) && lastTurn == old(lastTurn)
      ensures outcome.Stored? ==>
        var parent := if previous.Some? then Find(old(turns), previous.value) else None;
        var start := TurnContext.BuildSnapshot(if parent.Some? then Some(old(turns)[parent.value].snapshot) else None, d).value;
        turns == old(turns) + [Turn(id, first, ancestors, previous, TurnStore.Running, start, start, d)] && lastTurn == Some(id)
    {
      var inherited: Option<TurnContext.Snapshot> := None;
      if previous.Some? {
        var parent := Find(turns, previous.value);
        if parent.Some? {
          if !turns[parent.value].state.Ended? {
            return PreviousTurnRunning;
          }
          inherited := Some(turns[parent.value].snapshot);
        }
      }
      if Find(turns, id).Some? {
        return TurnAlreadyExists;
      }
      var start := TurnContext.BuildSnapshot(inherited, d);
      if start.None? {
        return BadDelta;
      }
      turns := turns + [Turn(id, first, ancestors, previous, TurnStore.Running, start.value, start.value, d)];
      lastTurn := Some(id);
      outcome := Outcome.Stored;
    }

    /** Steps of other creates, freezes and streams. */
    method Others(steps: seq<Step>, ghost p: Prepared)
      requires Sound(Value()) && Held(turns, p)
      modifies this
      ensures Sound(Value()) && Held(turns, p) && Grows(old(turns), turns)
      ensures steps == [] ==> Value() == old(Value())
    {
      for i := 0 to |steps|
        invariant Sound(Value()) && Held(turns, p) && Grows(old(turns), turns)
        invariant i == 0 ==> Value() == old(Value())
      {
        var before := Value();
        var after := Next(before, steps[i]);
        StepKeeps(before, steps[i]);
        StepGrows(before, steps[i]);
        GrowsHeld(before.turns, after.turns, p);
        GrowsOn(old(turns), before.turns, after.turns);
        turns, lastTurn, inFlight := after.turns, after.last, after.inFlight;
      }
    }
  }

  /** The session's last turn is the newest one. */
  ghost predicate Sound(w: World) {
    Inv(w) && w.last == if w.turns == [] then None else Some(w.turns[|w.turns| - 1].id)
  }

  /** Turns are added at the end, and those there only advance. */
  ghost predicate Grows(before: seq<Turn>, after: seq<Turn>) {
    |before| <= |after| && forall i :: 0 <= i < |before| ==> Advances(before[i], after[i])
  }

  lemma StepGrows(w: World, step: Step)
    requires Sound(w)
    ensures Grows(w.turns, Next(w, step).turns)
    ensures Next(w, step).last == if Next(w, step).turns == [] then None else Some(Next(w, step).turns[|Next(w, step).turns| - 1].id)
  {
  }

  lemma GrowsOn(a: seq<Turn>, b: seq<Turn>, c: seq<Turn>)
    requires Grows(a, b) && Grows(b, c)
    ensures Grows(a, c)
  {
    forall i | 0 <= i < |a| ensures Advances(a[i], c[i]) {
      assert Advances(a[i], b[i]) && Advances(b[i], c[i]);
    }
  }

  lemma GrowsHeld(before: seq<Turn>, after: seq<Turn>, p: Prepared)
    requires Grows(before, after) && Held(before, p)
    ensures Held(after, p)
  {
    if p.previous.Some? {
      var j :| 0 <= j < |before| && before[j] == p.previous.value;
      assert Advances(before[j], after[j]);
      assert after[j] in after;
    }
  }

  /** Turn `x` was there, and is there as a freeze left it. */
  ghost predicate FrozenAt(before: seq<Turn>, after: seq<Turn>, x: Id) {
    && Find(before, x).Some? && Find(before, x).value < |after|
    && FrozenForNext(before[Find(before, x).value], after[Find(before, x).value])
  }

  lemma FrozenStays(before: seq<Turn>, frozen: seq<Turn>, after: seq<Turn>, x: Id)
    requires FrozenAt(before, frozen, x) && Grows(frozen, after)
    ensures FrozenAt(before, after, x)
  {
    var i := Find(before, x).value;
    assert Advances(frozen[i], after[i]);
  }

  /** The turn with this id, if it was stored, with what its input added. */
  ghost predicate StoredAs(turns: seq<Turn>, id: Id, previous: Option<Id>, d: TurnContext.Delta) {
    Find(turns, id).Some? && var t := turns[Find(turns, id).value]; t.previous == previous && t.delta == d
  }

  lemma StaysStored(before: seq<Turn>, after: seq<Turn>, id: Id, previous: Option<Id>, d: TurnContext.Delta)
    requires Grows(before, after) && UniqueIds(after) && StoredAs(before, id, previous, d)
    ensures StoredAs(after, id, previous, d)
  {
    var j := Find(before, id).value;
    assert Advances(before[j], after[j]);
    FindUnique(after, j);
  }

  /** Why the store may refuse a turn: there is one with this id, or the input does not fit the
      snapshot it continues. */
  ghost predicate RefusedFor(turns: seq<Turn>, id: Id, previous: Option<Id>, d: TurnContext.Delta, outcome: Outcome) {
    match outcome
    case TurnAlreadyExists => Find(turns, id).Some?
    case BadDelta =>
      (match previous
       case None => TurnContext.BuildSnapshot(None, d).None?
       case Some(x) => Find(turns, x).Some? && TurnContext.BuildSnapshot(Some(turns[Find(turns, x).value].snapshot), d).None?)
    case _ => false
  }

  datatype Created = Created(turn: Id) | ParentMissing | SendRejected | Refused(outcome: Outcome) | RefreshFailed

  class SessionHandle {
    const store: SessionStore
    var tip: Option<Id>
    var resolverCloses: nat

    constructor (store: SessionStore, tip: Option<Id>)
      ensures this.store == store && this.tip == tip && resolverCloses == 0
    {
      this.store, this.tip, resolverCloses := store, tip, 0;
    }

    /** Freezes the turn to continue; a turn that does not exist fails the create. */
    method FreezeParent(id: Id) returns (r: Option<Turn>)
      requires Sound(store.Value())
      modifies store
      ensures Sound(store.Value())
      ensures r.None? ==> store.Value() == old(store.Value())
      ensures |store.turns| == |old(store.turns)|
      ensures r.None? <==> Find(old(store.turns), id).None?
      ensures r.Some? ==> var i := Find(old(store.turns), id).value;
        r.value.id == id && store.turns == old(store.turns)[i := r.value] && FrozenForNext(old(store.turns)[i], r.value)
      ensures r.Some? ==> r.value in store.turns && r.value.state.Ended?
    {
      FreezeKeeps(store.Value(), id, "cancelled for next turn");
      r := store.FreezeAndGetTurn(id, "cancelled for next turn");
    }

    /** Freezes the turn that is named to continue, if one is; it may not exist. */
    method ResolveParent(requested: Option<string>) returns (missing: bool, previous: Option<Turn>)
      requires Sound(store.Value())
      modifies store
      ensures Sound(store.Value()) && |store.turns| == |old(store.turns)|
      ensures missing ==> store.Value() == old(store.Value())
      ensures missing <==> exists x :: Names(requested, tip, x) && Find(old(store.turns), x).None?
      ensures !missing ==> Held(store.turns, Prepared("", previous))
      ensures !missing && previous.None? ==> forall x :: !Names(requested, tip, x)
      ensures !missing && previous.Some? ==> forall x :: Names(requested, tip, x) <==> x == previous.value.id
      ensures !missing && previous.Some? ==> FrozenAt(old(store.turns), store.turns, previous.value.id)
    {
      NamesOne(requested, tip);
      var previousId := ResolvePreviousTurnId(requested, tip);
      missing, previous := false, None;
      if previousId.Some? && previousId.value != "" {
        previous := FreezeParent(previousId.value);
        missing := previous.None?;
      }
    }

    /** Stores the turn under its frozen parent. */
    method CommitTurn(id: Id, previous: Option<Turn>, d: TurnContext.Delta) returns (outcome: Outcome)
      requires Sound(store.Value()) && Held(store.turns, Prepared(id, previous))
      modifies store
      ensures Sound(store.Value())
      ensures Grows(old(store.turns), store.turns)
      ensures !outcome.Stored? ==> store.Value() == old(store.Value())
      ensures !outcome.Stored? ==> RefusedFor(store.turns, id, PreviousId(Prepared(id, previous)), d, outcome)
      ensures outcome.Stored? ==> store.lastTurn == Some(id) && StoredAs(store.turns, id, PreviousId(Prepared(id, previous)), d)
    {
      ghost var before, p := store.Value(), Prepared(id, previous);
      if previous.Some? {
        ghost var j := HeldParent(before.turns, p);
      }
      var first := if previous.Some? then previous.value.first else id;
      var ancestors := if previous.Some? then LastN(previous.value.ancestors + [previous.value.id], MAX_TURN_ANCESTORS) else [];
      var parentId := if previous.Some? then Some(previous.value.id) else None;
      outcome := store.CreateTurn(id, first, ancestors, parentId, d);
      if outcome.Stored? {
        Committed(before, p, d);
      }
    }

    /** Reads the session again, with whatever turns it has by then. */
    method Refresh(id: Id, later: seq<Step>, readFails: bool, ghost previous: Option<Id>,
                   ghost d: TurnContext.Delta) returns (r: Created)
      requires Sound(store.Value()) && StoredAs(store.turns, id, previous, d) && store.lastTurn == Some(id)
      modifies this, store
      ensures Sound(store.Value()) && StoredAs(store.turns, id, previous, d) && Grows(old(store.turns), store.turns)
      ensures r == if readFails then RefreshFailed else Created.Created(id)
      ensures resolverCloses == old(resolverCloses) + if readFails then 1 else 0
      ensures if readFails then tip == old(tip) else tip == store.lastTurn && (later == [] ==> tip == Some(id))
    {
      ghost var committed := store.turns;
      store.Others(later, Prepared(id, None));
      StaysStored(committed, store.turns, id, previous, d);
      if readFails {
        resolverCloses := resolverCloses + 1;
        return RefreshFailed;
      }
      tip := store.lastTurn;
      r := Created.Created(id);
    }

    /** Whatever others do in between, the tree stays a tree; the store never finds the parent
        running; a rejected send stores no turn; and the resolver is closed exactly when the
        create failed after its parent was found. The tip becomes the newest turn there is when the
        session is read again, which may be a later one; when that read fails, the turn is stored
        all the same and the handle keeps its tip. */
    method CreateTurn(id: Id, requested: Option<string>, sent: Option<TurnContext.Delta>,
                      others: seq<Step>, later: seq<Step>, readFails: bool) returns (r: Created)
      requires Sound(store.Value())
      modifies this, store
      ensures Sound(store.Value())
      ensures resolverCloses == old(resolverCloses) + if r.Created? || r.ParentMissing? then 0 else 1
      ensures !r.ParentMissing? ==> (r.SendRejected? <==> sent.None?)
      ensures (r.SendRejected? || r.Refused?) && others == [] ==> |store.turns| == |old(store.turns)|
      ensures r.Refused? ==>
        forall x :: Names(requested, old(tip), x) ==> RefusedFor(store.turns, id, Some(x), sent.value, r.outcome)
      ensures r.Refused? && (forall x :: !Names(requested, old(tip), x)) ==> RefusedFor(store.turns, id, None, sent.value, r.outcome)
      ensures r.ParentMissing? <==> exists x :: Names(requested, old(tip), x) && Find(old(store.turns), x).None?
      ensures r.ParentMissing? ==> store.Value() == old(store.Value())
      ensures r.Created? || r.RefreshFailed? ==> sent.Some?
      ensures r.Created? || r.RefreshFailed? ==> forall x :: Names(requested, old(tip), x) ==> StoredAs(store.turns, id, Some(x), sent.value)
      ensures (r.Created? || r.RefreshFailed?) && (forall x :: !Names(requested, old(tip), x)) ==> StoredAs(store.turns, id, None, sent.value)
      ensures !r.ParentMissing? ==> forall x :: Names(requested, old(tip), x) ==> FrozenAt(old(store.turns), store.turns, x)
      ensures r.Created? ==> r.turn == id && tip == store.lastTurn && (later == [] ==> tip == Some(id))
      ensures r.Created? ==> !readFails
      ensures r.RefreshFailed? ==> readFails
      ensures !r.Created? ==> tip == old(tip)
    {
      hide Inv, Advances, ResolvePreviousTurnId, Names;
      ghost var before := store.turns;
      var missing, previous := ResolveParent(requested);
      if missing {
        return ParentMissing;
      }
      assert previous.Some? ==> Names(requested, tip, previous.value.id);
      ghost var p, frozen := Prepared(id, previous), store.turns;
      store.Others(others, p);
      if sent.None? {
        resolverCloses := resolverCloses + 1;
        KeepsParent(before, frozen, store.turns, previous);
        return SendRejected;
      }
      ghost var prepared := store.turns;
      var outcome := CommitTurn(id, previous, sent.value);
      GrowsOn(frozen, prepared, store.turns);
      if !outcome.Stored? {
        resolverCloses := resolverCloses + 1;
        KeepsParent(before, frozen, store.turns, previous);
        return Refused(outcome);
      }
      ghost var committed := store.turns;
      r := Refresh(id, later, readFails, PreviousId(p), sent.value);
      GrowsOn(frozen, committed, store.turns);
      KeepsParent(before, frozen, store.turns, previous);
    }
  }

  lemma KeepsParent(before: seq<Turn>, frozen: seq<Turn>, after: seq<Turn>, previous: Option<Turn>)
    requires previous.Some? ==> FrozenAt(before, frozen, previous.value.id)
    requires Grows(frozen, after)
    ensures previous.Some? ==> FrozenAt(before, after, previous.value.id)
  {
    if previous.Some? {
      FrozenStays(before, frozen, after, previous.value.id);
    }
  }

  /** Committing a create that is not listed in flight keeps the tree all the same. */
  lemma Committed(w: World, p: Prepared, d: TurnContext.Delta)
    requires Inv(w) && Held(w.turns, p) && CreateOutcome(w.turns, p.id, PreviousId(p), d).Stored?
    ensures var turns := w.turns + [NewTurn(w.turns, p, d)];
      Sound(World(turns, Some(p.id), w.inFlight)) && StoredAs(turns, p.id, PreviousId(p), d)
  {
    var listed := w.(inFlight := w.inFlight + [p]);
    assert forall k :: 0 <= k < |listed.inFlight| ==> Held(w.turns, listed.inFlight[k]);
    CommitKeeps(listed, |w.inFlight|, d);
    assert Without(listed.inFlight, |w.inFlight|) == w.inFlight;
    FindUnique(w.turns + [NewTurn(w.turns, p, d)], |w.turns|);
  }
}
