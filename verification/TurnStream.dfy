/** Executing one turn while others may freeze, pause or abort it. */
module TurnStream {
  import opened JsMaps
  import opened TurnStore

  /** What the orchestrator hands over, by how it is persisted. */
  datatype ExecutionEvent =
    | ModelMessage(id: Id)
    | ToolResponse(id: Id)
    | CreateSubAgent
    | CapabilityState(thread: Id, defined: bool)
    | ContextOverwrite(thread: Id)
    | Compaction(id: Id)
    | ContextAppend(thread: Id, output: seq<Id>)
    | AgentDone(thread: Id, id: Id, child: bool, cancelled: bool)
    | ThreadCreated(thread: Id, id: Id)
    | McpAuthRequired(id: Id)
    | McpInitialize(id: Id)
    | SandboxCreated(id: Id)
    | ActionRequired(id: Id)
    | Passthrough(id: Id)

  datatype Ending = Completed(rootAgentError: Option<string>) | Threw(message: string)

  datatype StreamEvent = TurnCreated | Model(id: Id) | Event(id: Id) | TurnDone(terminal: Terminal)

  /** What others do to the turn between two of its own steps, and whether its next write then
      fails for a reason of its own. */
  datatype Action = Freeze(reason: string) | Pause | Resume | Abort(reason: string)
  datatype Interference = Interference(actions: seq<Action>, fails: bool)

  datatype StreamEnd = Returned | Rejected | AlreadyUsed

  const CLIENT_CANCELLED := "client cancelled"

  // ----- What becomes of each event -----

  /** Events that the consumer is not told of: those that only change the snapshot, and the end of an
      agent that is no sub-agent or was cancelled. */
  predicate Silent(e: ExecutionEvent) {
    || e.CreateSubAgent? || e.CapabilityState? || e.ContextOverwrite? || e.ContextAppend?
    || (e.AgentDone? && (!e.child || e.cancelled))
  }

  /** What the consumer is told of an event. */
  function ToldOf(e: ExecutionEvent): seq<StreamEvent> {
    if Silent(e) then [] else if e.ModelMessage? then [Model(e.id)] else [Event(e.id)]
  }

  /** What is stored of it: model content only as the output of a context append, everything else
      that is told as it is. */
  function EntriesOf(e: ExecutionEvent): seq<Entry> {
    if e.ContextAppend? then Outputs(e.output)
    else if Silent(e) || e.ModelMessage? then []
    else [Logged(e.id)]
  }

  /** What it changes in the snapshot. */
  function PatchesOf(e: ExecutionEvent): seq<Patch> {
    match e
    case CapabilityState(thread, _) => [Patch.Capability(thread)]
    case ContextOverwrite(thread) => [Overwritten(thread)]
    case ContextAppend(thread, _) => [ContextAdded(thread)]
    case AgentDone(thread, _, true, _) => [ThreadRemoved(thread)]
    case ThreadCreated(thread, _) => [ThreadAdded(thread)]
    case McpInitialize(id) => [Servers(id)]
    case SandboxCreated(id) => [Patch.Sandbox(id)]
    case _ => []
  }

  function Told(events: seq<ExecutionEvent>): seq<StreamEvent> {
    if events == [] then [] else Told(events[..|events| - 1]) + ToldOf(events[|events| - 1])
  }

  function Entries(events: seq<ExecutionEvent>): seq<Entry> {
    if events == [] then [] else Entries(events[..|events| - 1]) + EntriesOf(events[|events| - 1])
  }

  function Patches(events: seq<ExecutionEvent>): seq<Patch> {
    if events == [] then [] else Patches(events[..|events| - 1]) + PatchesOf(events[|events| - 1])
  }

  function Outputs(ids: seq<Id>): seq<Entry> {
    seq(|ids|, i requires 0 <= i < |ids| => Output(ids[i]))
  }

  /** The entries of the log that the stream itself appends. */
  function Appended(log: seq<Entry>): seq<Entry> {
    if log == [] then []
    else
      var last := log[|log| - 1];
      Appended(log[..|log| - 1]) + if last.Updated? || last.DoneEntry? then [] else [last]
  }

  lemma {:induction false} AppendedConcat(log: seq<Entry>, entries: seq<Entry>)
    ensures Appended(log + entries) == Appended(log) + Appended(entries)
    decreases entries
  {
    if entries == [] {
      assert log + entries == log;
    } else {
      AppendedConcat(log, entries[..|entries| - 1]);
      assert (log + entries)[..|log + entries| - 1] == log + entries[..|entries| - 1];
    }
  }

  /** The entries a stream appends all count. */
  lemma {:induction false} AllAppended(entries: seq<Entry>)
    requires forall i :: 0 <= i < |entries| ==> !entries[i].Updated? && !entries[i].DoneEntry?
    ensures Appended(entries) == entries
    decreases entries
  {
    if entries != [] {
      AllAppended(entries[..|entries| - 1]);
      assert entries == entries[..|entries| - 1] + [entries[|entries| - 1]];
    }
  }

  lemma AppendedOther(log: seq<Entry>, e: Entry)
    requires e.Updated? || e.DoneEntry?
    ensures Appended(log + [e]) == Appended(log)
  {
    assert (log + [e])[..|log|] == log;
  }

  lemma AppendedMore(log: seq<Entry>, entries: seq<Entry>)
    requires forall i :: 0 <= i < |entries| ==> !entries[i].Updated? && !entries[i].DoneEntry?
    ensures Appended(log + entries) == Appended(log) + entries
  {
    AppendedConcat(log, entries);
    AllAppended(entries);
  }

  lemma OneMore(events: seq<ExecutionEvent>, k: nat)
    requires k < |events|
    ensures [TurnCreated] + Told(events[..k + 1]) == [TurnCreated] + Told(events[..k]) + ToldOf(events[k])
    ensures [Created] + Entries(events[..k + 1]) == [Created] + Entries(events[..k]) + EntriesOf(events[k])
    ensures Patches(events[..k + 1]) == Patches(events[..k]) + PatchesOf(events[k])
  {
    assert events[..k + 1][..k] == events[..k];
    assert [TurnCreated] + (Told(events[..k]) + ToldOf(events[k])) == [TurnCreated] + Told(events[..k]) + ToldOf(events[k]);
    assert [Created] + (Entries(events[..k]) + EntriesOf(events[k])) == [Created] + Entries(events[..k]) + EntriesOf(events[k]);
  }

  function EndOf(ending: Ending): Terminal {
    match ending
    case Threw(message) => Error(message)
    case Completed(None) => Done
    case Completed(Some(message)) => Error(message)
  }

  /** The first abort among actions, and among what others do step by step: later ones change nothing. */
  function FirstAbort(actions: seq<Action>): Option<string> {
    if actions == [] then None
    else
      var before, last := FirstAbort(actions[..|actions| - 1]), actions[|actions| - 1];
      if before.None? && last.Abort? then Some(last.reason) else before
  }

  function AbortIn(plan: seq<Interference>): Option<string> {
    if plan == [] then None
    else
      var before := AbortIn(plan[..|plan| - 1]);
      if before.None? then FirstAbort(plan[|plan| - 1].actions) else before
  }

  /** Nobody ends or pauses the turn, and no write fails. */
  predicate Calm(schedule: seq<Interference>) {
    forall i :: 0 <= i < |schedule| ==>
      !schedule[i].fails && forall k :: 0 <= k < |schedule[i].actions| ==> !schedule[i].actions[k].Freeze? && !schedule[i].actions[k].Pause?
  }

  class TurnHandle {
    const store: StoredTurn
    const script: seq<ExecutionEvent>
    const ending: Ending
    /** How many events the consumer takes before it walks away, if it does. */
    const patience: Option<nat>
    var schedule: seq<Interference>
    var aborted: Option<string>
    var streamStarted: bool
    var yielded: seq<StreamEvent>
    var gone: bool
    var generatorReturns: nat
    var resolverCloses: nat
    var state: TurnState
    ghost var streamDone: bool
    /** The schedule as it was at first. */
    ghost const plan: seq<Interference>

    constructor (store: StoredTurn, script: seq<ExecutionEvent>, ending: Ending, schedule: seq<Interference>, patience: Option<nat>)
      ensures this.store == store && this.script == script && this.ending == ending && this.patience == patience
      ensures this.schedule == plan == schedule && aborted.None? && state == Running && !streamDone
      ensures !streamStarted && yielded == [] && !gone && resolverCloses == generatorReturns == 0
    {
      this.store, this.script, this.ending, this.schedule, this.patience := store, script, ending, schedule, patience;
      aborted, streamStarted, yielded, gone, generatorReturns, resolverCloses, state := None, false, [], false, 0, 0, Running;
      streamDone, plan := false, schedule;
    }

    /** The consumer walks away with the event that exhausts its patience. */
    predicate LeavesAfter(n: nat) {
      patience.Some? && 0 < n && n >= patience.value
    }

    /** How much of what others do has happened. */
    ghost function Happened(): int
      reads this
    {
      |plan| - |schedule|
    }

    /** The stream has heard of the first abort that has happened. */
    ghost predicate Heard()
      reads this
    {
      0 <= Happened() && schedule == plan[Happened()..] && aborted == AbortIn(plan[..Happened()])
    }

    ghost predicate InStep()
      reads this, store
    {
      InTurn() && Heard()
    }

    /** Until the stream writes the end itself, only a freeze can have ended the turn. */
    ghost predicate InTurn()
      reads this, store
    {
      && store.Valid()
      && (store.state.Ended? && !streamDone ==> store.state.terminal.Cancelled?)
      && (gone <==> LeavesAfter(|yielded|))
    }

    /** The turn runs and nobody is going to disturb it. */
    ghost predicate Undisturbed()
      reads this, store
    {
      store.state.Running? && Calm(schedule)
    }

    /** The stream has begun and handled `k` of the orchestrator's events: they are stored and told in
        order, each as its kind has it, and nothing else is. */
    ghost predicate Handled(k: nat)
      reads this, store
      requires k <= |script|
    {
      && yielded == [TurnCreated] + Told(script[..k])
      && Appended(store.log) == [Created] + Entries(script[..k])
      && store.patches == Patches(script[..k])
    }

    /** Others act at any point; the turn's end, once stored, stays. */
    method Interfere() returns (fails: bool)
      requires InStep()
      modifies this`schedule, this`aborted, store`state, store`log
      ensures InStep() && Appended(store.log) == old(Appended(store.log))
      ensures old(Happened()) <= Happened() <= old(Happened()) + 1
      ensures old(store.state).Ended? ==> store.state == old(store.state)
      ensures old(aborted).Some? ==> aborted == old(aborted)
      ensures old(Undisturbed()) ==> Undisturbed() && !fails
    {
      fails := false;
      if schedule == [] {
        return;
      }
      var now := schedule[0];
      ghost var before := plan[..Happened()];
      schedule := schedule[1..];
      fails := now.fails;
      for i := 0 to |now.actions|
        invariant InTurn() && Appended(store.log) == old(Appended(store.log)) && schedule == old(schedule)[1..]
        invariant aborted == if AbortIn(before).None? then FirstAbort(now.actions[..i]) else AbortIn(before)
        invariant old(store.state).Ended? ==> store.state == old(store.state)
        invariant old(Undisturbed()) ==> Undisturbed()
      {
        Act(now.actions[i]);
        assert now.actions[..i + 1][..i] == now.actions[..i];
      }
      assert now.actions[..|now.actions|] == now.actions;
      assert plan[..Happened()] == before + [now] && (before + [now])[..|before|] == before;
    }

    /** One thing that others do. */
    method Act(action: Action)
      requires InTurn()
      modifies this`aborted, store`state, store`log
      ensures InTurn() && Appended(store.log) == old(Appended(store.log))
      ensures aborted == if old(aborted).None? && action.Abort? then Some(action.reason) else old(aborted)
      ensures old(store.state).Ended? ==> store.state == old(store.state)
      ensures old(store.state).Running? && !action.Freeze? && !action.Pause? ==> store.state.Running?
    {
      ghost var log := store.log;
      match action {
        case Freeze(reason) =>
          store.FreezeAndGetTurn(reason);
          AppendedOther(log, DoneEntry(Cancelled(reason)));
        case Pause =>
          var paused := store.UpdateTurnNonTerminalState(true);
          AppendedOther(log, Updated);
        case Resume =>
          var resumed := store.UpdateTurnNonTerminalState(false);
          AppendedOther(log, Updated);
        case Abort(reason) =>
          if aborted.None? {
            aborted := Some(reason);
          }
      }
    }

    // ----- Persist before yield -----

    method Append(entries: seq<Entry>) returns (r: Result)
      requires InStep() && forall i :: 0 <= i < |entries| ==> !entries[i].Updated? && !entries[i].DoneEntry?
      modifies this`schedule, this`aborted, store`state, store`log
      ensures InStep()
      ensures Appended(store.log) == old(Appended(store.log)) + if r.Ok? then entries else []
      ensures r.Failure? ==> r.message == "store unavailable" || r.message == "expected running state, got paused"
      ensures r.NotRunning? ==> store.state == Ended(r.terminal)
      ensures old(Undisturbed()) ==> Undisturbed() && r.Ok?
    {
      var fails := Interfere();
      if fails {
        return Failure("store unavailable");
      }
      ghost var log := store.log;
      r := store.AppendToEvents(entries);
      AppendedMore(log, entries);
    }

    /** A write to the snapshot, which leaves the event log alone. */
    method PatchSnapshot(patch: Patch) returns (r: Result)
      requires InStep()
      modifies this`schedule, this`aborted, store
      ensures InStep() && Appended(store.log) == old(Appended(store.log))
      ensures store.patches == old(store.patches) + if r.Ok? then [patch] else []
      ensures r.Failure? ==> r.message == "store unavailable" || r.message == "expected running state, got paused"
      ensures r.NotRunning? ==> store.state == Ended(r.terminal)
      ensures old(Undisturbed()) ==> Undisturbed() && r.Ok?
    {
      var fails := Interfere();
      if fails {
        return Failure("store unavailable");
      }
      r := store.PatchSnapshot(patch);
    }

    /** Changes the snapshot and then appends what there is to append. */
    method PatchAndAppend(patch: Patch, entries: seq<Entry>) returns (r: Result)
      requires InStep() && forall i :: 0 <= i < |entries| ==> !entries[i].Updated? && !entries[i].DoneEntry?
      modifies this`schedule, this`aborted, store
      ensures InStep()
      ensures Appended(store.log) == old(Appended(store.log)) + if r.Ok? then entries else []
      ensures store.patches == old(store.patches) + [patch] || (!r.Ok? && store.patches == old(store.patches))
      ensures r.Failure? ==> r.message == "store unavailable" || r.message == "expected running state, got paused"
      ensures r.NotRunning? ==> store.state == Ended(r.terminal)
      ensures old(Undisturbed()) ==> Undisturbed() && r.Ok?
    {
      r := PatchSnapshot(patch);
      if r.Ok? && |entries| > 0 {
        r := Append(entries);
      }
    }

    /** Stores what an event changes, and says what the consumer is to be told. An event that fails
        may have changed the snapshot already, but it has added nothing to the event log. */
    method PersistExecutionEvent(event: ExecutionEvent) returns (r: Result, out: Option<StreamEvent>)
      requires InStep()
      modifies this`schedule, this`aborted, store
      ensures InStep()
      ensures r.Ok? ==> ToldOf(event) == (if out.Some? then [out.value] else [])
      ensures !r.Ok? ==> out.None?
      ensures Appended(store.log) == old(Appended(store.log)) + if r.Ok? then EntriesOf(event) else []
      ensures store.patches == old(store.patches) + PatchesOf(event) || (!r.Ok? && store.patches == old(store.patches))
      ensures r.NotRunning? ==> store.state == Ended(r.terminal)
      ensures r.Failure? ==>
        || r.message == "store unavailable" || r.message == "expected running state, got paused"
        || (Undefined(event) && r.message == "capability state must not be undefined")
      ensures old(Undisturbed()) ==> Undisturbed() && (r.Ok? <==> !Undefined(event))
    {
      hide Appended, InStep, InTurn, Heard, Undisturbed, Calm, AbortIn, FirstAbort, Told, Entries, Patches;
      assert Appended(store.log) + [] == Appended(store.log) && store.patches + [] == store.patches;
      r, out := Ok, None;
      match event {
        case ModelMessage(id) =>
          return Ok, Some(Model(id));
        case ToolResponse(id) =>
          r := Append([Logged(id)]);
        case CreateSubAgent =>
          return;
        case CapabilityState(thread, defined) =>
          if !defined {
            return Failure("capability state must not be undefined"), None;
          }
          r := PatchSnapshot(Patch.Capability(thread));
          return;
        case ContextOverwrite(thread) =>
          r := PatchSnapshot(Overwritten(thread));
          return;
        case Compaction(id) =>
          r := Append([Logged(id)]);
        case ContextAppend(thread, output) =>
          r := PatchAndAppend(ContextAdded(thread), Outputs(output));
          return;
        case AgentDone(thread, id, child, cancelled) =>
          if child {
            r := PatchSnapshot(ThreadRemoved(thread));
          }
          if !r.Ok? || cancelled || !child {
            return;
          }
          r := Append([Logged(id)]);
        case ThreadCreated(thread, id) =>
          r := PatchAndAppend(ThreadAdded(thread), [Logged(id)]);
        case McpAuthRequired(id) =>
          r := Append([Logged(id)]);
        case McpInitialize(id) =>
          r := PatchAndAppend(Servers(id), [Logged(id)]);
        case SandboxCreated(id) =>
          r := PatchAndAppend(Patch.Sandbox(id), [Logged(id)]);
        case ActionRequired(id) =>
          r := Append([Logged(id)]);
        case Passthrough(id) =>
          r := Append([Logged(id)]);
      }
      if r.Ok? {
        out := Some(Event(event.id));
      }
    }

    /** Hands one event to the consumer, who may walk away with it. */
    method Yield(e: StreamEvent)
      requires !gone
      modifies this`yielded, this`gone
      ensures yielded == old(yielded) + [e]
      ensures gone <==> LeavesAfter(|yielded|)
      ensures old(InStep()) ==> InStep()
    {
      yielded := yielded + [e];
      gone := patience.Some? && |yielded| >= patience.value;
    }

    // ----- The run -----

    /** The turn was found frozen: its stored end is what the consumer is told. */
    method StopFrozen(terminal: Terminal)
      requires InStep() && !gone && store.state == Ended(terminal)
      modifies this`yielded, this`gone, this`state, this`generatorReturns
      ensures InStep() && state == store.state && generatorReturns == old(generatorReturns) + 1
      ensures yielded == old(yielded) + [TurnDone(terminal)]
    {
      generatorReturns := generatorReturns + 1;
      state := Ended(terminal);
      Yield(TurnDone(terminal));
    }

    /** Stores and shows the turn's first event. */
    method Begin() returns (caught: Option<string>)
      requires InStep() && !gone && yielded == [] && Appended(store.log) == [] && store.patches == []
      modifies this`schedule, this`aborted, this`yielded, this`gone, store`state, store`log
      ensures InStep()
      ensures if caught.Some? then !gone && yielded == [] && Appended(store.log) == [] else Handled(0) && |yielded| == 1
      ensures caught.Some? ==> Faulty(caught.value, false, 0)
      ensures old(Undisturbed()) ==> Undisturbed() && caught.None?
    {
      var r := Append([Created]);
      match r {
        case NotRunning(_) => return Some("turn is not running");
        case Failure(message) => return Some(message);
        case Ok =>
      }
      Yield(TurnCreated);
      caught := None;
      assert script[..0] == [];
    }

    /** Persists one event and shows it. */
    method Handle(k: nat) returns (r: Result)
      requires k < |script| && InStep() && !gone && Handled(k)
      modifies this`schedule, this`aborted, this`yielded, this`gone, store
      ensures InStep()
      ensures if r.Ok? then Handled(k + 1) else !gone && yielded == ToldUpTo(true, k) && Stored(true, k)
      ensures r.NotRunning? ==> store.state == Ended(r.terminal)
      ensures r.Failure? ==> Faulty(r.message, true, k)
      ensures old(Undisturbed()) ==> Undisturbed() && (r.Ok? <==> !Undefined(script[k]))
    {
      var out;
      OneMore(script, k);
      hide Appended, ToldOf, EntriesOf, PatchesOf, Told, Entries, Patches, InStep, Undisturbed, Calm;
      r, out := PersistExecutionEvent(script[k]);
      if out.Some? {
        Yield(out.value);
      }
    }

    /** The body of the `try`: everything before the end is settled. `begun` says whether the turn's
        first event was stored, and `k` how many of the orchestrator's events were handled. */
    method Execute()
      returns (frozen: bool, caught: Option<string>, result: Option<Option<string>>, open: bool, ghost begun: bool, ghost k: nat)
      requires InStep() && !gone && yielded == [] && Appended(store.log) == [] && store.patches == []
      modifies this`schedule, this`aborted, this`yielded, this`gone, this`state, this`generatorReturns, store
      ensures InStep() && k <= |script|
      ensures Stored(begun, k)
      ensures !begun ==> k == 0 && caught.Some?
      ensures frozen ==> begun && caught.None? && result.None? && store.state.Ended? && state == store.state
      ensures yielded == ToldUpTo(begun, k) + if frozen then [TurnDone(store.state.terminal)] else []
      ensures frozen ==> !LeavesAfter(|ToldUpTo(begun, k)|)
      ensures k > 0 ==> !LeavesAfter(|ToldUpTo(true, k - 1)|)
      ensures open <==> begun && !frozen && !LeavesAfter(1)
      ensures generatorReturns == old(generatorReturns) + if frozen then 1 else 0
      ensures result.Some? ==> caught.None? && !gone && k == |script| && ending == Completed(result.value)
      ensures caught.Some? ==> !gone && Faulty(caught.value, begun, k)
      ensures caught.None? && result.None? && !frozen ==> gone
      ensures old(Undisturbed()) ==> Undisturbed() && !frozen && begun
      ensures old(Undisturbed()) && caught.Some? ==> if k == |script| then ending == Threw(caught.value) else Undefined(script[k])
    {
      hide Appended, Told, Entries, Patches, Calm;
      frozen, result, open, begun, k := false, None, false, true, 0;
      caught := Begin();
      if caught.Some? {
        begun := false;
        return;
      }
      if gone {
        return;
      }
      open := true;
      for i := 0 to |script|
        invariant InStep() && !gone && Handled(i) && generatorReturns == old(generatorReturns)
        invariant old(Undisturbed()) ==> Undisturbed()
        invariant i > 0 ==> !LeavesAfter(|ToldUpTo(true, i - 1)|)
      {
        k := i;
        var r := Handle(i);
        if r.NotRunning? {
          StopFrozen(r.terminal);
          return true, None, None, false, true, i;
        }
        if r.Failure? {
          return false, Some(r.message), None, true, true, i;
        }
        if gone {
          k := i + 1;
          return;
        }
      }
      k := |script|;
      assert script[..|script|] == script;
      match ending {
        case Completed(rootAgentError) => result := Some(rootAgentError);
        case Threw(message) => caught := Some(message);
      }
    }

    /** Writes the end, unless the store has one by now: the store's word is final. */
    method WriteEnd(terminal: Terminal) returns (r: Result)
      requires InStep() && !streamDone
      modifies this`schedule, this`aborted, this`streamDone, store`state, store`log
      ensures store.Valid() && Appended(store.log) == old(Appended(store.log))
      ensures r.NotRunning? ==> store.state == Ended(r.terminal) && r.terminal.Cancelled?
      ensures r.Ok? ==> store.state == Ended(terminal)
      ensures old(Happened()) <= Happened() <= old(Happened()) + 1
      ensures old(Undisturbed()) ==> r.Ok?
    {
      var fails := Interfere();
      if fails {
        return Failure("store unavailable");
      }
      ghost var log := store.log;
      r := store.UpdateTurnTerminalState(terminal);
      if r.Ok? {
        AppendedOther(log, DoneEntry(terminal));
        streamDone := true;
      }
    }

    /** An abort outranks any error, an error of the stream itself outranks the root agent's, and a
        consumer that walked away has cancelled the turn. */
    method Settle(caught: Option<string>, result: Option<Option<string>>) returns (terminal: Terminal, ghost signal: Option<string>)
      ensures EndsAs(terminal, signal, caught, result) && signal == aborted
    {
      signal := aborted;
      if aborted.Some? {
        terminal := Cancelled(aborted.value);
      } else if caught.Some? {
        terminal := Error(caught.value);
      } else if result.Some? && result.value.Some? {
        terminal := Error(result.value.value);
      } else if result.None? {
        terminal := Cancelled(CLIENT_CANCELLED);
      } else {
        terminal := Done;
      }
    }

    /** The `finally`: the end is settled, the resolver closed, and the consumer told. `signal` is the
        reason of the first abort, if any had happened when the end was decided. */
    method Finish(caught: Option<string>, result: Option<Option<string>>, open: bool)
      returns (end: StreamEnd, ghost wrote: bool, ghost signal: Option<string>)
      requires InStep() && !streamDone
      modifies this`schedule, this`aborted, this`yielded, this`gone, this`state, this`generatorReturns,
        this`resolverCloses, this`streamDone, store`state, store`log
      ensures store.Valid() && Appended(store.log) == old(Appended(store.log))
      ensures resolverCloses == old(resolverCloses) + 1 && generatorReturns == old(generatorReturns) + if open then 1 else 0
      ensures !end.AlreadyUsed?
      ensures end.Rejected? ==> yielded == old(yielded)
      ensures end.Returned? ==> store.state.Ended? && state == store.state
      ensures end.Returned? ==> yielded == old(yielded) + if old(gone) then [] else [TurnDone(store.state.terminal)]
      ensures exists n :: 0 <= n <= |plan| && old(Happened()) <= n && n <= Happened() <= n + 1 && signal == AbortIn(plan[..n])
      ensures end.Returned? && !wrote ==> store.state.terminal.Cancelled?
      ensures wrote ==> end.Returned? && EndsAs(store.state.terminal, signal, caught, result)
      ensures old(Undisturbed()) ==> wrote
    {
      hide Appended, Calm, AbortIn, EndsAs, LeavesAfter;
      if open {
        generatorReturns := generatorReturns + 1;
        var whileClosing := Interfere();
      }
      var terminal: Terminal;
      terminal, signal := Settle(caught, result);
      var r := WriteEnd(terminal);
      wrote := r.Ok?;
      resolverCloses := resolverCloses + 1;
      if r.Failure? {
        return Rejected, false, signal;
      }
      if r.NotRunning? {
        terminal := r.terminal;
      }
      state := Ended(terminal);
      if !gone {
        Yield(TurnDone(terminal));
      }
      end := Returned;
    }

    /** In every interleaving, `k` of the orchestrator's events are handled, all of them when the run
        completed: each is stored and told in order as its kind has it, and nothing else is. The stored
        end is unique and final, and a consumer that is still there is told exactly that end, last. The
        resolver is closed once, and so is the orchestrator when it was started. An undisturbed run
        handles everything and ends as the orchestrator did, unless the consumer leaves or it is
        aborted. */
    method Stream() returns (end: StreamEnd, ghost wrote: bool, ghost signal: Option<string>,
                             ghost caught: Option<string>, ghost result: Option<Option<string>>, ghost begun: bool, ghost k: nat)
      requires InStep()
      requires !streamStarted ==> yielded == [] && !streamDone && Appended(store.log) == [] && store.patches == []
      modifies this, store
      ensures k <= |script| && (end.Returned? ==> store.state.Ended? && state == store.state)
      ensures old(streamStarted) ==> end.AlreadyUsed? && yielded == old(yielded) && unchanged(store)
      ensures !old(streamStarted) ==> !end.AlreadyUsed? && store.Valid() && Stored(begun, k)
      ensures !old(streamStarted) ==>
        yielded == ToldUpTo(begun, k)
          + if end.Returned? && !LeavesAfter(|ToldUpTo(begun, k)|) then [TurnDone(store.state.terminal)] else []
      ensures end.Returned? && !wrote ==> store.state.terminal.Cancelled?
      ensures wrote ==> end.Returned? && EndsAs(store.state.terminal, signal, caught, result)
      ensures result.Some? ==> caught.None? && begun && k == |script| && ending == Completed(result.value)
      ensures caught.Some? ==> Faulty(caught.value, begun, k)
      ensures wrote ==> exists n :: 0 <= n <= |plan| && n <= Happened() <= n + 1 && signal == AbortIn(plan[..n])
      ensures wrote && caught.None? && result.None? ==> LeavesAfter(|ToldUpTo(begun, k)|)
      ensures !old(streamStarted) ==> resolverCloses == old(resolverCloses) + 1
      ensures !old(streamStarted) ==> generatorReturns == old(generatorReturns) + if begun && !LeavesAfter(1) then 1 else 0
      ensures k > 0 ==> !LeavesAfter(|ToldUpTo(true, k - 1)|)
      ensures !old(streamStarted) && old(Undisturbed()) && AllDefined() ==> wrote && begun
      ensures !old(streamStarted) && old(Undisturbed()) && AllDefined() ==>
        if LeavesAfter(|ToldUpTo(true, k)|) then
          store.state.terminal == Cancelled(if signal.Some? then signal.value else CLIENT_CANCELLED)
        else
          && yielded == [TurnCreated] + Told(script) + [TurnDone(store.state.terminal)]
          && Appended(store.log) == [Created] + Entries(script) && store.patches == Patches(script)
          && store.state.terminal == if signal.Some? then Cancelled(signal.value) else EndOf(ending)
    {
      hide Appended, Told, Entries, Patches, AbortIn;
      wrote, signal, caught, result, begun, k := false, None, None, None, false, 0;
      if streamStarted {
        return AlreadyUsed, false, None, None, None, false, 0;
      }
      streamStarted := true;
      var frozen, error, value, open, started, handled := Execute();
      caught, result, begun, k := error, value, started, handled;
      assert script[..|script|] == script;
      if frozen {
        resolverCloses := resolverCloses + 1;
        end := Returned;
      } else {
        end, wrote, signal := Finish(error, value, open);
      }
    }

    // ----- What its contracts speak of -----

    function ToldUpTo(begun: bool, k: nat): seq<StreamEvent>
      requires k <= |script|
    {
      if begun then [TurnCreated] + Told(script[..k]) else []
    }

    ghost predicate Stored(begun: bool, k: nat)
      reads store
      requires k <= |script|
    {
      && Appended(store.log) == (if begun then [Created] + Entries(script[..k]) else [])
      && (store.patches == (if begun then Patches(script[..k]) else [])
          || (begun && k < |script| && store.patches == Patches(script[..k + 1])))
    }

    predicate AllDefined() {
      forall i :: 0 <= i < |script| ==> !Undefined(script[i])
    }

    static predicate Undefined(e: ExecutionEvent) {
      e.CapabilityState? && !e.defined
    }

    /** Why the stream failed: the orchestrator threw, an event was malformed, or a write was refused. */
    predicate Faulty(message: string, begun: bool, k: nat)
      requires k <= |script|
    {
      if begun && k == |script| then ending == Threw(message)
      else
        || message == "store unavailable" || message == "expected running state, got paused"
        || (if begun then Undefined(script[k]) && message == "capability state must not be undefined"
            else message == "turn is not running")
    }

    /** The end that is written, by what came first in rank. */
    static predicate EndsAs(terminal: Terminal, signal: Option<string>, caught: Option<string>, result: Option<Option<string>>) {
      match terminal
      case Cancelled(reason) => signal == Some(reason) || (signal.None? && caught.None? && result.None? && reason == CLIENT_CANCELLED)
      case Error(message) => signal.None? && (caught == Some(message) || (caught.None? && result == Some(Some(message))))
      case Done => signal.None? && caught.None? && result == Some(None)
    }
  }
}
