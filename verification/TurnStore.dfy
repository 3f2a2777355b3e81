/** The stored record of one turn: its state and its event log. */
module TurnStore {
  import opened JsMaps

  datatype Terminal = Done | Error(message: string) | Cancelled(reason: string)

  datatype TurnState = Running | Paused | Ended(terminal: Terminal)

  /** `Output` entries are the durable form of model content, which is streamed on its own. */
  datatype Entry = Created | Logged(id: Id) | Output(id: Id) | Updated | DoneEntry(terminal: Terminal)

  /** What a write changes in the turn's snapshot. */
  datatype Patch =
    | Capability(thread: Id)
    | Overwritten(thread: Id)
    | ContextAdded(thread: Id)
    | ThreadRemoved(thread: Id)
    | ThreadAdded(thread: Id)
    | Servers(event: Id)
    | Sandbox(event: Id)

  datatype Result = Ok | NotRunning(terminal: Terminal) | Failure(message: string)

  predicate IsDone(e: Entry) {
    e.DoneEntry?
  }

  class StoredTurn {
    var state: TurnState
    var log: seq<Entry>
    var patches: seq<Patch>

    /** The log tells the turn's end, once and last, as the state has it. */
    ghost predicate Valid()
      reads this
    {
      && (forall i :: 0 <= i < |log| - 1 ==> !IsDone(log[i]))
      && (state.Ended? ==> log != [] && log[|log| - 1] == DoneEntry(state.terminal))
      && (!state.Ended? && log != [] ==> !IsDone(log[|log| - 1]))
    }

    constructor ()
      ensures Valid() && state == Running && log == [] && patches == []
    {
      state, log, patches := Running, [], [];
    }

    /** What every write needs: `Ok` exactly when the turn is running. */
    method RequireRunning() returns (r: Result)
      ensures r.Ok? <==> state.Running?
      ensures r.NotRunning? <==> state.Ended?
      ensures state.Ended? ==> r == NotRunning(state.terminal)
      ensures state.Paused? ==> r == Failure("expected running state, got paused")
    {
      match state {
        case Running => r := Ok;
        case Paused => r := Failure("expected running state, got paused");
        case Ended(terminal) => r := NotRunning(terminal);
      }
    }

    method AppendToEvents(events: seq<Entry>) returns (r: Result)
      requires Valid() && forall i :: 0 <= i < |events| ==> !IsDone(events[i])
      modifies this`log
      ensures Valid()
      ensures r.Ok? <==> state.Running?
      ensures r.NotRunning? <==> state.Ended?
      ensures state.Ended? ==> r == NotRunning(state.terminal)
      ensures state.Paused? ==> r == Failure("expected running state, got paused")
      ensures log == if r.Ok? then old(log) + events else old(log)
    {
      r := RequireRunning();
      if r.Ok? {
        log := log + events;
      }
    }

    method PatchSnapshot(patch: Patch) returns (r: Result)
      modifies this`patches
      ensures r.Ok? <==> state.Running?
      ensures r.NotRunning? <==> state.Ended?
      ensures state.Ended? ==> r == NotRunning(state.terminal)
      ensures state.Paused? ==> r == Failure("expected running state, got paused")
      ensures patches == if r.Ok? then old(patches) + [patch] else old(patches)
    {
      r := RequireRunning();
      if r.Ok? {
        patches := patches + [patch];
      }
    }

    /** A turn still running or paused ends here; one that has ended keeps its end. */
    method UpdateTurnTerminalState(terminal: Terminal) returns (r: Result)
      requires Valid()
      modifies this`state, this`log
      ensures Valid() && state.Ended?
      ensures if old(state).Ended?
        then r == NotRunning(state.terminal) && state == old(state) && log == old(log)
        else r == Ok && state == Ended(terminal) && log == old(log) + [DoneEntry(terminal)]
    {
      if state.Ended? {
        return NotRunning(state.terminal);
      }
      state := Ended(terminal);
      log := log + [DoneEntry(terminal)];
      r := Ok;
    }

    method FreezeAndGetTurn(reason: string)
      requires Valid()
      modifies this`state, this`log
      ensures Valid() && state.Ended?
      ensures if old(state).Ended? then state == old(state) && log == old(log)
        else state == Ended(Cancelled(reason)) && log == old(log) + [DoneEntry(Cancelled(reason))]
    {
      if !state.Ended? {
        state := Ended(Cancelled(reason));
        log := log + [DoneEntry(Cancelled(reason))];
      }
    }

    /** Pausing needs a running turn, and resuming a paused one. */
    method UpdateTurnNonTerminalState(pause: bool) returns (r: Result)
      requires Valid()
      modifies this`state, this`log
      ensures Valid()
      ensures var allowed := if pause then old(state).Running? else old(state).Paused?;
        && (r.Ok? <==> allowed)
        && (r.NotRunning? <==> old(state).Ended?) && (r.NotRunning? ==> old(state) == Ended(r.terminal))
        && (r.Failure? ==> r.message == if pause then "expected running state, got paused" else "expected paused state, got running")
        && state == (if !allowed then old(state) else if pause then Paused else Running)
        && log == if allowed then old(log) + [Updated] else old(log)
    {
      var expected := if pause then Running else Paused;
      if state != expected {
        if !state.Ended? {
          return Failure(if pause then "expected running state, got paused" else "expected paused state, got running");
        }
        return NotRunning(state.terminal);
      }
      state := if pause then Paused else Running;
      log := log + [Updated];
      r := Ok;
    }
  }
}
