/** Reading one turn's stream to its end across dropped connections. */
module Reconnect {
  import opened JsMaps
  import opened Events
  import opened Fold
  import Absorption
  import FoldState
  import Replay

  const STREAM_RECONNECT_MAX_ATTEMPTS := 3

  datatype Ending = Completed | AuthPrompt | ActionPrompt | CancelNotice(reason: string)
                  | TurnError(message: string) | GaveUp

  /** `cursor` is the last sequence number seen; the server numbers the turn's events 1, 2, 3, …
      and a subscription replays the ones after the cursor. */
  datatype Client = Client(fold: Fold, cursor: Option<nat>, accepted: bool, failures: nat, ending: Option<Ending>)

  /** What one connection has read. An auth prompt is remembered by the connection only. */
  datatype Read = Read(client: Client, auth: bool, stop: Option<DoneState>)

  /** One connection delivers up to `count` more events, and then breaks or closes. */
  datatype Attempt = Attempt(count: nat, broken: bool)

  function ReadEvent(r: Read, e: Event, sequenceNumber: nat): Read {
    if r.stop.Some? then r
    else
      var c := r.client.(cursor := Some(sequenceNumber), failures := 0);
      match e.body
      case TurnCreated(_) => r.(client := c.(accepted := true))
      case SandboxCreated(_) => r.(client := c)
      case McpAuthRequired => r.(client := c, auth := true)
      case TurnDone(state) => r.(client := c, stop := Some(state))
      case _ => r.(client := c.(fold := Ingest(Stream, c.fold, e)))
  }

  function ReadEvents(r: Read, log: seq<Event>, from: nat, upTo: nat): Read
    requires from <= upTo <= |log|
    decreases upTo
  {
    if from == upTo then r else ReadEvent(ReadEvents(r, log, from, upTo - 1), log[upTo - 1], upTo)
  }

  predicate ActionPending(f: Fold) {
    exists t | t in f.threads.vals :: f.threads.vals[t].approvals != {} || HasUnresolvedResponses(f.threads.vals[t])
  }

  /** A question that the bucket has a result for is not pending. */
  predicate HasUnresolvedResponses(b: Bucket) {
    exists call | call in b.questions :: call !in b.results
  }

  function Retry(c: Client): Client {
    if !c.accepted || c.failures >= STREAM_RECONNECT_MAX_ATTEMPTS then c.(ending := Some(GaveUp))
    else c.(failures := c.failures + 1)
  }

  /** What the connection amounts to once it has nothing more to give. */
  function Settle(r: Read, broken: bool): Client {
    var c := r.client;
    if r.stop.Some? && r.stop.value.Failed? then c.(ending := Some(TurnError(r.stop.value.message)))
    else if r.stop.Some? && r.stop.value.Cancelled? then c.(ending := Some(CancelNotice(r.stop.value.reason)))
    else if r.stop.None? && broken then Retry(c)
    else if r.auth then c.(ending := Some(AuthPrompt))
    else if ActionPending(c.fold) then c.(ending := Some(ActionPrompt))
    else if r.stop.None? then Retry(c)
    else c.(ending := Some(Completed))
  }

  function Start(c: Client): nat {
    if c.cursor.Some? then c.cursor.value else 0
  }

  function Reach(c: Client, log: seq<Event>, a: Attempt): nat {
    if Start(c) + a.count < |log| then Start(c) + a.count else |log|
  }

  function Connect(c: Client, log: seq<Event>, a: Attempt): Client
    requires Start(c) <= |log|
  {
    if c.ending.Some? then c
    else Settle(ReadEvents(Read(c, false, None), log, Start(c), Reach(c, log, a)), a.broken)
  }

  /** The log as the fold sees it. */
  function Kept(log: seq<Event>): seq<Event> {
    if log == [] then []
    else Kept(log[..|log| - 1]) + if IsKept(log[|log| - 1]) then [log[|log| - 1]] else []
  }

  predicate IsKept(e: Event) {
    !IsTurnScoped(e) && !e.body.SandboxCreated? && !e.body.McpAuthRequired?
  }

  // ----- Exactly once -----

  /** The fold is the one that ingesting the log once, up to the cursor, gives. */
  ghost predicate CaughtUp(f: Fold, log: seq<Event>, c: Client) {
    Start(c) <= |log| && c.fold == Replay.IngestAll(Stream, f, Kept(log[..Start(c)]))
  }

  lemma KeptSnoc(log: seq<Event>, e: Event)
    ensures Kept(log + [e]) == Kept(log) + if IsKept(e) then [e] else []
  {
    assert (log + [e])[..|log|] == log;
  }

  lemma IngestSnoc(route: Route, f: Fold, log: seq<Event>, e: Event)
    ensures Replay.IngestAll(route, f, log + [e]) == Ingest(route, Replay.IngestAll(route, f, log), e)
  {
    assert (log + [e])[..|log|] == log;
  }

  function Folded(f: Fold, e: Event): Fold {
    if IsKept(e) then Ingest(Stream, f, e) else f
  }

  lemma FoldedNext(f: Fold, log: seq<Event>, n: nat, now: Fold)
    requires n < |log| && now == Replay.IngestAll(Stream, f, Kept(log[..n]))
    ensures Folded(now, log[n]) == Replay.IngestAll(Stream, f, Kept(log[..n + 1]))
  {
    assert log[..n + 1] == log[..n] + [log[n]];
    KeptSnoc(log[..n], log[n]);
    IngestSnoc(Stream, f, Kept(log[..n]), log[n]);
    assert Kept(log[..n]) + [] == Kept(log[..n]);
  }

  /** One event read, as far as it can be told without looking into the fold. */
  lemma ReadEventFields(r: Read, e: Event, n: nat)
    requires r.stop.None?
    ensures var after := ReadEvent(r, e, n);
      && after.client == Client(Folded(r.client.fold, e), Some(n), r.client.accepted || e.body.TurnCreated?, 0, r.client.ending)
      && after.auth == (r.auth || e.body.McpAuthRequired?)
      && after.stop == if e.body.TurnDone? then Some(e.body.state) else None
  {
  }

  /** What reading the log from the cursor of `c` up to `upTo` amounts to. */
  ghost predicate HasRead(f: Fold, log: seq<Event>, c: Client, upTo: nat, r: Read)
    requires Start(c) <= upTo <= |log|
  {
    && CaughtUp(f, log, r.client)
    && Start(c) <= Start(r.client) <= upTo
    && (r.stop.None? ==> Start(r.client) == upTo)
    && (r.stop.Some? ==> 0 < Start(r.client) && log[Start(r.client) - 1].body == TurnDone(r.stop.value))
    && (r.auth <==> exists i :: Start(c) <= i < Start(r.client) && log[i].body.McpAuthRequired?)
    && r.client.ending == c.ending
    && (c.accepted ==> r.client.accepted)
    && (if Start(r.client) == Start(c) then r.client.failures == c.failures else r.client.failures == 0)
  }

  lemma HasReadNext(f: Fold, log: seq<Event>, c: Client, n: nat, r: Read, after: Read)
    requires Start(c) <= n < |log| && HasRead(f, log, c, n, r) && r.stop.None?
    requires after.client == Client(Folded(r.client.fold, log[n]), Some(n + 1), r.client.accepted || log[n].body.TurnCreated?, 0, r.client.ending)
    requires after.auth == (r.auth || log[n].body.McpAuthRequired?)
    requires after.stop == if log[n].body.TurnDone? then Some(log[n].body.state) else None
    ensures HasRead(f, log, c, n + 1, after)
  {
    FoldedNext(f, log, n, r.client.fold);
  }

  lemma HasReadStep(f: Fold, log: seq<Event>, c: Client, n: nat, r: Read)
    requires Start(c) <= n < |log| && HasRead(f, log, c, n, r)
    ensures HasRead(f, log, c, n + 1, ReadEvent(r, log[n], n + 1))
  {
    if r.stop.None? {
      ReadEventFields(r, log[n], n + 1);
      HasReadNext(f, log, c, n, r, ReadEvent(r, log[n], n + 1));
    }
  }

  lemma {:induction false} ReadCaughtUp(f: Fold, log: seq<Event>, c: Client, upTo: nat)
    requires CaughtUp(f, log, c) && Start(c) <= upTo <= |log|
    ensures HasRead(f, log, c, upTo, ReadEvents(Read(c, false, None), log, Start(c), upTo))
    decreases upTo
  {
    if Start(c) < upTo {
      ReadCaughtUp(f, log, c, upTo - 1);
      HasReadStep(f, log, c, upTo - 1, ReadEvents(Read(c, false, None), log, Start(c), upTo - 1));
    }
  }

  lemma ConnectCaughtUp(f: Fold, log: seq<Event>, c: Client, a: Attempt)
    requires CaughtUp(f, log, c)
    ensures CaughtUp(f, log, Connect(c, log, a))
    ensures Start(c) <= Start(Connect(c, log, a))
  {
    ReadCaughtUp(f, log, c, Reach(c, log, a));
    if c.ending.None? {
      SettleKeeps(ReadEvents(Read(c, false, None), log, Start(c), Reach(c, log, a)), a.broken);
    }
  }

  lemma SettleKeeps(r: Read, broken: bool)
    ensures Settle(r, broken).fold == r.client.fold && Settle(r, broken).cursor == r.client.cursor
  {
  }

  /** The log is fixed here; an attempt that reads less of it stands for one made earlier,
      when less had been written. */
  ghost function Attempts(f: Fold, c: Client, log: seq<Event>, attempts: seq<Attempt>): (after: Client)
    requires CaughtUp(f, log, c)
    ensures CaughtUp(f, log, after) && Start(c) <= Start(after)
    decreases attempts
  {
    if attempts == [] then c
    else
      var before := Attempts(f, c, log, attempts[..|attempts| - 1]);
      ConnectCaughtUp(f, log, before, attempts[|attempts| - 1]);
      Connect(before, log, attempts[|attempts| - 1])
  }

  /** The turn was seen to end, and how. */
  predicate SawEnd(ending: Option<Ending>, state: DoneState) {
    match state
    case Finished => ending == Some(Completed)
    case Failed(message) => ending == Some(TurnError(message))
    case Cancelled(reason) => ending == Some(CancelNotice(reason))
  }

  predicate TurnEnded(ending: Option<Ending>) {
    ending.Some? && (ending.value.Completed? || ending.value.TurnError? || ending.value.CancelNotice?)
  }

  lemma ConnectEnds(f: Fold, log: seq<Event>, c: Client, a: Attempt)
    requires CaughtUp(f, log, c) && c.ending.None?
    ensures var after := Connect(c, log, a);
      TurnEnded(after.ending) ==>
        0 < Start(after) <= |log| && log[Start(after) - 1].body.TurnDone? && SawEnd(after.ending, log[Start(after) - 1].body.state)
  {
    ReadCaughtUp(f, log, c, Reach(c, log, a));
  }

  /** However often the stream drops: once the turn is seen to end, in the way its log says, every
      event of the log through that end has been folded exactly once. */
  lemma {:induction false} ExactlyOnce(f: Fold, c: Client, log: seq<Event>, attempts: seq<Attempt>)
    requires CaughtUp(f, log, c) && c.ending.None?
    ensures var after := Attempts(f, c, log, attempts);
      TurnEnded(after.ending) ==>
        && 0 < Start(after) <= |log|
        && log[Start(after) - 1].body.TurnDone?
        && SawEnd(after.ending, log[Start(after) - 1].body.state)
        && after.fold == Replay.IngestAll(Stream, f, Kept(log[..Start(after)]))
    decreases attempts
  {
    if attempts != [] {
      var front, a := attempts[..|attempts| - 1], attempts[|attempts| - 1];
      ExactlyOnce(f, c, log, front);
      var before := Attempts(f, c, log, front);
      if before.ending.None? {
        ConnectEnds(f, log, before, a);
      }
    }
  }

  // ----- Giving up -----

  lemma IdleAttempt(f: Fold, log: seq<Event>, c: Client, a: Attempt)
    requires CaughtUp(f, log, c) && c.ending.None?
    requires Start(Connect(c, log, a)) == Start(c) && Connect(c, log, a).ending.None?
    ensures Connect(c, log, a).failures == c.failures + 1 <= STREAM_RECONNECT_MAX_ATTEMPTS
  {
    ReadCaughtUp(f, log, c, Reach(c, log, a));
  }

  /** Attempts that bring no new event are counted, and three are all a run can go on after:
      the first read and at most three subscriptions are made in a row without progress. */
  lemma {:induction false} IdleAttempts(f: Fold, c: Client, log: seq<Event>, attempts: seq<Attempt>)
    requires CaughtUp(f, log, c)
    requires Start(Attempts(f, c, log, attempts)) == Start(c) && Attempts(f, c, log, attempts).ending.None?
    ensures Attempts(f, c, log, attempts).failures == c.failures + |attempts|
    ensures |attempts| <= STREAM_RECONNECT_MAX_ATTEMPTS
    decreases attempts
  {
    if attempts != [] {
      var front, a := attempts[..|attempts| - 1], attempts[|attempts| - 1];
      var before := Attempts(f, c, log, front);
      ConnectCaughtUp(f, log, before, a);
      if before.ending.None? {
        IdleAttempts(f, c, log, front);
        IdleAttempt(f, log, before, a);
      }
    }
  }

  // ----- Resuming without a cursor -----

  lemma {:induction false} KeptPrefix(log: seq<Event>, n: nat)
    requires n <= |log|
    ensures Kept(log[..n]) <= Kept(log)
    decreases log
  {
    if n < |log| {
      KeptPrefix(log[..|log| - 1], n);
      assert log[..|log| - 1][..n] == log[..n];
    } else {
      assert log[..n] == log;
    }
  }

  /** After a page reload the whole log is read again, onto a fold that already holds some of it.
      Reading it to the end gives the fold of reading it once. */
  lemma ResumeWithoutCursor(f: Fold, log: seq<Event>, held: nat, c: Client, attempts: seq<Attempt>)
    requires held <= |log| && Absorption.Replayable(Stream, Kept(log))
    requires c.cursor.None? && c.fold == Replay.IngestAll(Stream, f, Kept(log[..held]))
    ensures CaughtUp(c.fold, log, c)
    ensures var after := Attempts(c.fold, c, log, attempts);
      Start(after) == |log| ==> after.fold == Replay.IngestAll(Stream, f, Kept(log))
  {
    var after := Attempts(c.fold, c, log, attempts);
    if Start(after) == |log| {
      assert log[..|log|] == log;
      KeptPrefix(log, held);
      Absorption.Replayed(Stream, f, Kept(log[..held]), Kept(log));
    }
  }

  // ----- What a dropped connection forgets -----

  predicate Prompts(log: seq<Event>, first: nat, end: nat) {
    exists i :: first <= i < end && i < |log| && log[i].body.McpAuthRequired?
  }

  /** The last connection ends on the auth prompt exactly when it carried the auth event itself,
      so a prompt delivered before a drop is not shown again. */
  lemma AuthPromptExact(f: Fold, log: seq<Event>, c: Client, a: Attempt)
    requires CaughtUp(f, log, c) && c.ending.None?
    requires var last := Connect(c, log, a).ending;
      last.Some? && (last.value.Completed? || last.value.AuthPrompt? || last.value.ActionPrompt?)
    ensures Connect(c, log, a).ending.value.AuthPrompt? <==> Prompts(log, Start(c), Start(Connect(c, log, a)))
  {
    ReadCaughtUp(f, log, c, Reach(c, log, a));
  }

  lemma AuthPromptForgotten(f: Fold) returns (log: seq<Event>, cut: seq<Attempt>, whole: seq<Attempt>)
    requires !ActionPending(f)
    ensures var c := Client(f, None, true, 0, None);
      && Attempts(f, c, log, whole).ending == Some(AuthPrompt)
      && Attempts(f, c, log, cut).ending == Some(Completed)
      && Attempts(f, c, log, whole).fold == Attempts(f, c, log, cut).fold
  {
    log := [Event("auth", Some(ROOT), 0, McpAuthRequired), Event("done", None, 1, TurnDone(Finished))];
    cut, whole := [Attempt(1, true), Attempt(1, false)], [Attempt(2, false)];
    var c := Client(f, None, true, 0, None);
    assert Kept(log[..0]) == [] && Replay.IngestAll(Stream, f, []) == f;
    assert whole[..0] == [] && cut[..1][..0] == [] && cut[..1] == [Attempt(1, true)];
    var start := Read(c, false, None);
    assert ReadEvents(start, log, 0, 1) == ReadEvent(start, log[0], 1);
    assert ReadEvents(start, log, 0, 2) == ReadEvent(ReadEvent(start, log[0], 1), log[1], 2);
    assert Connect(c, log, Attempt(2, false)).ending == Some(AuthPrompt);
    var dropped := Connect(c, log, Attempt(1, true));
    assert dropped == Client(f, Some(1), true, 1, None);
    assert ReadEvents(Read(dropped, false, None), log, 1, 2) == ReadEvent(Read(dropped, false, None), log[1], 2);
    assert Connect(dropped, log, Attempt(1, false)).ending == Some(Completed);
    assert Attempts(f, c, log, []) == c;
    assert Attempts(f, c, log, whole) == Connect(c, log, Attempt(2, false));
    assert Attempts(f, c, log, cut[..1]) == dropped;
    assert cut[..|cut| - 1] == cut[..1];
  }

  // ----- The run itself -----

  lemma {:induction false} ReadStopped(r: Read, log: seq<Event>, from: nat, middle: nat, last: nat)
    requires from <= middle <= last <= |log|
    requires ReadEvents(r, log, from, middle).stop.Some?
    ensures ReadEvents(r, log, from, last) == ReadEvents(r, log, from, middle)
    decreases last
  {
    if middle < last {
      ReadStopped(r, log, from, middle, last - 1);
    }
  }

  class TurnRun {
    const state: FoldState.PeerThreadFoldState
    var lastSequenceNumber: Option<nat>
    var accepted: bool
    var consecutiveFailures: nat
    var ending: Option<Ending>

    function Value(): Client
      reads this, state
    {
      Client(state.State(), lastSequenceNumber, accepted, consecutiveFailures, ending)
    }

    constructor (state: FoldState.PeerThreadFoldState, accepted: bool)
      ensures this.state == state && Value() == Client(state.State(), None, accepted, 0, None)
    {
      this.state := state;
      this.accepted := accepted;
      lastSequenceNumber, consecutiveFailures, ending := None, 0, None;
    }

    method ReadOne(e: Event, sequenceNumber: nat, authSoFar: bool) returns (auth: bool, stop: Option<DoneState>)
      requires state.Valid() && ending.None?
      modifies this, state
      ensures state.Valid() && ending.None?
      ensures Read(Value(), auth, stop) == ReadEvent(Read(old(Value()), authSoFar, None), e, sequenceNumber)
    {
      auth, stop := authSoFar, None;
      lastSequenceNumber, consecutiveFailures := Some(sequenceNumber), 0;
      match e.body {
        case TurnCreated(_) => accepted := true;
        case SandboxCreated(_) =>
        case McpAuthRequired => auth := true;
        case TurnDone(done) => stop := Some(done);
        case _ => var affectsContent := state.IngestStreamEvent(e);
      }
    }

    /** Reads one connection until it stops, breaks or closes. */
    method ReadStream(log: seq<Event>, last: nat) returns (auth: bool, stop: Option<DoneState>)
      requires state.Valid() && ending.None? && Start(Value()) <= last <= |log|
      modifies this, state
      ensures state.Valid() && ending.None?
      ensures Read(Value(), auth, stop)
        == ReadEvents(Read(old(Value()), false, None), log, Start(old(Value())), last)
    {
      ghost var before := Read(Value(), false, None);
      var first := if lastSequenceNumber.Some? then lastSequenceNumber.value else 0;
      var i := first;
      auth, stop := false, None;
      while i < last && stop.None?
        invariant first <= i <= last && state.Valid() && ending.None?
        invariant Read(Value(), auth, stop) == ReadEvents(before, log, first, i)
      {
        auth, stop := ReadOne(log[i], i + 1, auth);
        i := i + 1;
      }
      if stop.Some? {
        ReadStopped(before, log, first, i, last);
      }
    }

    method Reconnect()
      requires ending.None?
      modifies this
      ensures Value() == Retry(old(Value()))
    {
      if !accepted || consecutiveFailures >= STREAM_RECONNECT_MAX_ATTEMPTS {
        ending := Some(GaveUp);
      } else {
        consecutiveFailures := consecutiveFailures + 1;
      }
    }

    /** One pass of the reconnect loop. */
    method Connection(log: seq<Event>, a: Attempt)
      requires state.Valid() && ending.None? && Start(Value()) <= |log|
      modifies this, state
      ensures state.Valid() && Value() == Connect(old(Value()), log, a)
    {
      var first := if lastSequenceNumber.Some? then lastSequenceNumber.value else 0;
      var last := if first + a.count < |log| then first + a.count else |log|;
      var auth, stop := ReadStream(log, last);
      if stop.Some? && stop.value.Failed? {
        ending := Some(TurnError(stop.value.message));
      } else if stop.Some? && stop.value.Cancelled? {
        ending := Some(CancelNotice(stop.value.reason));
      } else if stop.None? && a.broken {
        Reconnect();
      } else if auth {
        ending := Some(AuthPrompt);
      } else if ActionPending(state.State()) {
        ending := Some(ActionPrompt);
      } else if stop.None? {
        Reconnect();
      } else {
        ending := Some(Completed);
      }
    }

    /** `f` is the fold before the first of the turn's events. */
    method Run(log: seq<Event>, attempts: seq<Attempt>, ghost f: Fold)
      requires state.Valid() && CaughtUp(f, log, Value())
      modifies this, state
      ensures state.Valid()
      ensures CaughtUp(f, log, Value())
      ensures Value() == Attempts(f, old(Value()), log, attempts)
    {
      ghost var before := Value();
      for i := 0 to |attempts|
        invariant state.Valid() && CaughtUp(f, log, Value())
        invariant Value() == Attempts(f, before, log, attempts[..i])
      {
        assert attempts[..i + 1][..i] == attempts[..i];
        ConnectCaughtUp(f, log, Value(), attempts[i]);
        if ending.None? {
          Connection(log, attempts[i]);
        }
      }
      assert attempts[..|attempts|] == attempts;
    }
  }
}
