/** Callers and one executor over the same keys and channel: every run of publishing, handling,
    polling and expiring, with the caller's poll loop and the executor's intake as its steps. */
module Transport {
  import opened JsMaps
  import opened RequestReply

  /** A caller after its publish: what its polls saw, how many there were, and how the wait ended. */
  datatype Caller = Caller(published: int, replies: map<int, string>, dead: set<int>, polls: nat, outcome: Option<Outcome>)

  /** `rejected` requests found no executor. `handled` is what the handler answered, and `stored` the
      reply keys. */
  datatype World = World(server: Intake, beats: seq<int>, callers: map<Id, Caller>, rejected: set<Id>,
                         handled: map<Id, string>, stored: map<Id, string>)

  const IDLE := World(Intake(false, false, {}), [], map[], {}, map[], map[])

  /** How callers wait, and how long the heartbeat key lives. */
  datatype Options = Options(timeout: nat, interval: nat, ttl: nat)

  datatype Step =
    | Subscribed
    | ConnectionEnded
    | Close
    | Beat(at: int)
    | Publish(id: Id, message: string, at: int)
    | Handled(id: Id, reply: string)
    | Poll(id: Id)
    | Expire(id: Id)

  /** The caller checks the heartbeat, and then publishes; both must find an executor. */
  function Published(w: World, o: Options, id: Id, message: string, at: int): World {
    if !Alive(w.beats, o.ttl, at) || !w.server.subscribed then w.(rejected := w.rejected + {id})
    else
      w.(server := Receive(w.server, id, message), callers := w.callers[id := Caller(at, map[], {}, 0, None)])
  }

  function NextPollTime(o: Options, c: Caller): int {
    PollTime(c.published, o.timeout, o.interval, c.polls)
  }

  /** One poll takes the reply key, if it is there, and otherwise looks for the heartbeat. */
  function Polled(w: World, o: Options, id: Id): World
    requires id in w.callers
  {
    var c := w.callers[id];
    var at := NextPollTime(o, c);
    var replies := if id in w.stored then c.replies[at := w.stored[id]] else c.replies;
    var dead := if Alive(w.beats, o.ttl, at) then c.dead else c.dead + {at};
    w.(callers := w.callers[id := Caller(c.published, replies, dead, c.polls + 1,
                                         Concludes(c.published + o.timeout, replies, dead, at))],
       stored := w.stored - {id})
  }

  function Next(w: World, o: Options, step: Step): World {
    match step
    case Subscribed => w.(server := w.server.(subscribed := true))
    case ConnectionEnded => w.(server := w.server.(subscribed := false))
    case Close => w.(server := w.server.(closed := true))
    case Beat(at) => w.(beats := w.beats + [at])
    case Publish(id, message, at) => if id in w.callers || id in w.rejected then w else Published(w, o, id, message, at)
    case Handled(id, reply) =>
      if id !in w.server.running then w
      else
        w.(server := w.server.(running := w.server.running - {id}),
           handled := w.handled[id := reply], stored := w.stored[id := reply])
    case Poll(id) => if id in w.callers && w.callers[id].outcome.None? then Polled(w, o, id) else w
    case Expire(id) => w.(stored := w.stored - {id})
  }

  // ----- What every run keeps -----

  /** The caller's polls so far saw nothing that ends the wait, or the last of them did: the wait is
      the one that the poll loop runs on what was seen. */
  ghost predicate Waits(o: Options, c: Caller) {
    match c.outcome
    case None =>
      forall j: nat :: j < c.polls ==>
        Concludes(c.published + o.timeout, c.replies, c.dead, PollTime(c.published, o.timeout, o.interval, j)).None?
    case Some(outcome) => c.polls > 0 && EndsAt(c.published, o.timeout, o.interval, c.replies, c.dead, c.polls - 1, outcome)
  }

  /** The caller saw a reply at most once: in the poll that ended its wait, and the handler's to this
      very request, which is no longer there to take. */
  ghost predicate SawReplies(w: World, o: Options, id: Id)
    requires id in w.callers
  {
    var c := w.callers[id];
    && (c.outcome.None? ==> c.replies == map[])
    && (forall t :: t in c.replies || t in c.dead ==> exists j: nat :: j < c.polls && t == PollTime(c.published, o.timeout, o.interval, j))
    && (c.replies != map[] ==>
          && c.outcome.Some? && c.outcome.value.Reply? && id in w.handled && id !in w.stored
          && c.replies == map[PollTime(c.published, o.timeout, o.interval, c.polls - 1) := w.handled[id]]
          && c.outcome == Some(Reply(w.handled[id])))
    && (c.outcome.Some? && c.outcome.value.Reply? ==> c.replies != map[])
  }

  ghost predicate Keys(w: World) {
    && w.server.running <= w.callers.Keys && w.handled.Keys <= w.callers.Keys
    && w.callers.Keys !! w.rejected && w.server.running !! w.handled.Keys
    && (forall id | id in w.stored :: id in w.handled && w.stored[id] == w.handled[id])
  }

  ghost predicate Ok(w: World, o: Options) {
    Keys(w) && forall id | id in w.callers :: Waits(o, w.callers[id]) && SawReplies(w, o, id)
  }

  lemma LaterPoll(o: Options, published: int, j: nat, k: nat)
    requires o.interval > 0 && j < k
    ensures PollTime(published, o.timeout, o.interval, j) != PollTime(published, o.timeout, o.interval, k)
  {
    PollsIncrease(published, o.timeout, o.interval, j, k);
  }

  lemma FreshPoll(w: World, o: Options, id: Id)
    requires o.interval > 0 && Ok(w, o) && id in w.callers
    ensures var c := w.callers[id]; NextPollTime(o, c) !in c.replies && NextPollTime(o, c) !in c.dead
  {
    var c, at := w.callers[id], NextPollTime(o, w.callers[id]);
    assert SawReplies(w, o, id);
    if at in c.replies || at in c.dead {
      var j: nat :| j < c.polls && at == PollTime(c.published, o.timeout, o.interval, j);
      LaterPoll(o, c.published, j, c.polls);
    }
  }

  /** What an earlier poll concluded it still concludes. */
  lemma EarlierPolls(w: World, o: Options, id: Id, after: Caller)
    requires o.interval > 0 && Ok(w, o) && id in w.callers && w.callers[id].outcome.None?
    requires after == Polled(w, o, id).callers[id]
    ensures Waits(o, after)
  {
    var c, at := w.callers[id], NextPollTime(o, w.callers[id]);
    FreshPoll(w, o, id);
    assert Waits(o, c);
    forall j: nat | j < c.polls
      ensures Concludes(c.published + o.timeout, after.replies, after.dead, PollTime(c.published, o.timeout, o.interval, j)).None?
    {
      LaterPoll(o, c.published, j, c.polls);
      assert Concludes(c.published + o.timeout, c.replies, c.dead, PollTime(c.published, o.timeout, o.interval, j)).None?;
    }
  }

  lemma PolledSaw(w: World, o: Options, id: Id, after: World)
    requires o.interval > 0 && Ok(w, o) && id in w.callers && w.callers[id].outcome.None? && after == Polled(w, o, id)
    ensures SawReplies(after, o, id)
  {
    var c, d := w.callers[id], after.callers[id];
    var at := NextPollTime(o, c);
    assert SawReplies(w, o, id);
    forall t | t in d.replies || t in d.dead
      ensures exists j: nat :: j < d.polls && t == PollTime(d.published, o.timeout, o.interval, j)
    {
      if t == at {
        assert c.polls < d.polls;
      } else {
        var j: nat :| j < c.polls && t == PollTime(c.published, o.timeout, o.interval, j);
        assert j < d.polls;
      }
    }
  }

  lemma PollKeeps(w: World, o: Options, id: Id, after: World)
    requires o.interval > 0 && Ok(w, o) && id in w.callers && w.callers[id].outcome.None? && after == Polled(w, o, id)
    ensures Ok(after, o)
  {
    EarlierPolls(w, o, id, after.callers[id]);
    PolledSaw(w, o, id, after);
    forall other | other in after.callers ensures Waits(o, after.callers[other]) && SawReplies(after, o, other) {
      if other != id {
        assert Waits(o, w.callers[other]) && SawReplies(w, o, other);
      }
    }
  }

  lemma KeysKept(w: World, o: Options, step: Step)
    requires Keys(w)
    ensures Keys(Next(w, o, step))
  {
    hide Alive, Concludes;
  }

  /** A caller that is not concerned saw what it saw. */
  lemma StillSaw(w: World, after: World, o: Options, id: Id)
    requires id in w.callers && id in after.callers && after.callers[id] == w.callers[id] && SawReplies(w, o, id)
    requires id in w.handled ==> id in after.handled && after.handled[id] == w.handled[id] && (id !in w.stored ==> id !in after.stored)
    ensures SawReplies(after, o, id)
  {
  }

  lemma HasSeenNothing(w: World, o: Options, id: Id)
    requires id in w.callers && w.callers[id].replies == map[] && w.callers[id].dead == {}
    requires w.callers[id].polls == 0 && w.callers[id].outcome.None?
    ensures Waits(o, w.callers[id]) && SawReplies(w, o, id)
  {
  }

  lemma PublishKeeps(w: World, o: Options, id: Id, message: string, at: int)
    requires Ok(w, o) && id !in w.callers && id !in w.rejected
    ensures Ok(Published(w, o, id, message, at), o)
  {
    var after := Published(w, o, id, message, at);
    KeysKept(w, o, Publish(id, message, at));
    hide Alive, Concludes, EndsAt, Keys, SawReplies, Waits;
    forall other | other in after.callers ensures Waits(o, after.callers[other]) && SawReplies(after, o, other) {
      if other == id {
        HasSeenNothing(after, o, id);
      } else {
        assert Waits(o, w.callers[other]) && SawReplies(w, o, other);
        StillSaw(w, after, o, other);
      }
    }
  }

  lemma StepKeeps(w: World, o: Options, step: Step)
    requires o.interval > 0 && Ok(w, o)
    ensures Ok(Next(w, o, step), o)
  {
    match step {
      case Publish(id, message, at) =>
        if id !in w.callers && id !in w.rejected {
          PublishKeeps(w, o, id, message, at);
        }
      case Poll(id) =>
        if id in w.callers && w.callers[id].outcome.None? {
          PollKeeps(w, o, id, Polled(w, o, id));
        }
      case _ =>
        OtherKeeps(w, o, step);
    }
  }

  lemma OtherKeeps(w: World, o: Options, step: Step)
    requires Ok(w, o) && !step.Publish? && !step.Poll?
    ensures Ok(Next(w, o, step), o)
  {
    var after := Next(w, o, step);
    KeysKept(w, o, step);
    hide Waits, SawReplies;
    forall id | id in after.callers ensures Waits(o, after.callers[id]) && SawReplies(after, o, id) {
      assert Waits(o, w.callers[id]) && SawReplies(w, o, id);
      StillSaw(w, after, o, id);
    }
  }

  ghost predicate IsRun(o: Options, ws: seq<World>, steps: seq<Step>) {
    && o.interval > 0 && |ws| == |steps| + 1 && ws[0] == IDLE
    && forall k {:trigger steps[k]} :: 0 <= k < |steps| ==> ws[k + 1] == Next(ws[k], o, steps[k])
  }

  lemma RunStep(o: Options, ws: seq<World>, steps: seq<Step>, k: nat)
    requires IsRun(o, ws, steps) && k < |steps|
    ensures ws[k + 1] == Next(ws[k], o, steps[k])
  {
    assert steps[k] in steps;
  }

  lemma {:induction false} RunsAreOk(o: Options, ws: seq<World>, steps: seq<Step>, n: nat)
    requires IsRun(o, ws, steps) && n < |ws|
    ensures Ok(ws[n], o)
    decreases n
  {
    if n > 0 {
      RunsAreOk(o, ws, steps, n - 1);
      RunStep(o, ws, steps, n - 1);
      StepKeeps(ws[n - 1], o, steps[n - 1]);
    }
  }

  // ----- What its steps say of a run -----

  function Beats(steps: seq<Step>): seq<int> {
    if steps == [] then []
    else Beats(steps[..|steps| - 1]) + if steps[|steps| - 1].Beat? then [steps[|steps| - 1].at] else []
  }

  predicate HasClosed(steps: seq<Step>) {
    exists k :: 0 <= k < |steps| && steps[k].Close?
  }

  predicate HasSubscribed(steps: seq<Step>) {
    exists k :: 0 <= k < |steps| && steps[k].Subscribed? && forall j :: k < j < |steps| ==> !steps[j].ConnectionEnded?
  }

  predicate Requested(steps: seq<Step>, id: Id) {
    exists k :: 0 <= k < |steps| && steps[k].Publish? && steps[k].id == id
  }

  /** The request finds a heartbeat and a subscription, is not empty, and comes before `close`. */
  predicate Taken(o: Options, steps: seq<Step>, k: nat)
    requires k < |steps| && steps[k].Publish?
  {
    && Alive(Beats(steps[..k]), o.ttl, steps[k].at) && HasSubscribed(steps[..k])
    && steps[k].message != "" && !HasClosed(steps[..k])
  }

  lemma OneMoreStep(steps: seq<Step>, n: nat)
    requires n < |steps|
    ensures HasClosed(steps[..n + 1]) <==> HasClosed(steps[..n]) || steps[n].Close?
    ensures HasSubscribed(steps[..n + 1]) <==> steps[n].Subscribed? || (HasSubscribed(steps[..n]) && !steps[n].ConnectionEnded?)
    ensures Beats(steps[..n + 1]) == Beats(steps[..n]) + if steps[n].Beat? then [steps[n].at] else []
  {
    var before, after := steps[..n], steps[..n + 1];
    assert after[..n] == before && after[n] == steps[n];
    assert forall k :: 0 <= k < n ==> after[k] == before[k];
  }

  lemma OneMoreRequest(steps: seq<Step>, n: nat, id: Id)
    requires n < |steps|
    ensures Requested(steps[..n + 1], id) <==> Requested(steps[..n], id) || (steps[n].Publish? && steps[n].id == id)
  {
    var before, after := steps[..n], steps[..n + 1];
    if k :| 0 <= k < n && before[k].Publish? && before[k].id == id {
      assert after[k] == before[k];
    }
    if k :| 0 <= k <= n && after[k].Publish? && after[k].id == id {
      assert k < n ==> before[k] == after[k];
    }
    assert after[n] == steps[n];
  }

  lemma StepTells(w: World, o: Options, step: Step)
    ensures var t := Next(w, o, step);
      && t.beats == w.beats + (if step.Beat? then [step.at] else [])
      && (t.server.closed <==> w.server.closed || step.Close?)
      && (t.server.subscribed <==> step.Subscribed? || (w.server.subscribed && !step.ConnectionEnded?))
      && forall id :: id in t.callers || id in t.rejected <==> id in w.callers || id in w.rejected || (step.Publish? && step.id == id)
  {
  }

  /** The state of the channel, read off the steps so far. */
  lemma {:induction false} StepsTell(o: Options, ws: seq<World>, steps: seq<Step>, n: nat)
    requires IsRun(o, ws, steps) && n < |ws|
    ensures ws[n].beats == Beats(steps[..n])
    ensures ws[n].server.closed <==> HasClosed(steps[..n])
    ensures ws[n].server.subscribed <==> HasSubscribed(steps[..n])
    ensures forall id :: id in ws[n].callers || id in ws[n].rejected <==> Requested(steps[..n], id)
    decreases n
  {
    if n > 0 {
      hide Next, HasClosed, HasSubscribed, Requested, Beats;
      StepsTell(o, ws, steps, n - 1);
      OneMoreStep(steps, n - 1);
      RunStep(o, ws, steps, n - 1);
      StepTells(ws[n - 1], o, steps[n - 1]);
      forall id ensures id in ws[n].callers || id in ws[n].rejected <==> Requested(steps[..n], id) {
        OneMoreRequest(steps, n - 1, id);
      }
    }
  }

  /** Over every run: a caller that receives a reply receives one, the handler's to its own request,
      in the poll that ends its wait, and its wait is the one the poll loop runs on what it saw, so it
      ends before the timeout and one interval. */
  lemma OneReplyEach(o: Options, ws: seq<World>, steps: seq<Step>, n: nat, id: Id)
    requires IsRun(o, ws, steps) && n < |ws| && id in ws[n].callers && ws[n].callers[id].outcome.Some?
    ensures var c := ws[n].callers[id];
      && c.polls > 0 && EndsAt(c.published, o.timeout, o.interval, c.replies, c.dead, c.polls - 1, c.outcome.value)
      && PollTime(c.published, o.timeout, o.interval, c.polls - 1) < c.published + o.timeout + o.interval
      && |c.replies| <= 1
      && (c.outcome.value.Reply? <==> c.replies != map[])
      && (c.outcome.value.Reply? ==> id in ws[n].handled && c.outcome.value == Reply(ws[n].handled[id]) && id !in ws[n].stored)
  {
    RunsAreOk(o, ws, steps, n);
    var c := ws[n].callers[id];
    assert Waits(o, c) && SawReplies(ws[n], o, id);
    EndsInTime(c.published, o.timeout, o.interval, c.replies, c.dead, c.polls - 1, c.outcome.value);
  }

  /** A request that was rejected, or that the executor dropped because it was empty or came after
      `close`, is never handled. */
  ghost predicate NeverHandled(w: World, id: Id) {
    id !in w.server.running && id !in w.handled
  }

  lemma StepLeavesUnhandled(w: World, o: Options, step: Step, id: Id)
    requires NeverHandled(w, id) && (id in w.rejected || id in w.callers)
    ensures NeverHandled(Next(w, o, step), id) && (id in Next(w, o, step).rejected || id in Next(w, o, step).callers)
  {
    hide Alive, Concludes;
  }

  lemma {:induction false} StaysUnhandled(o: Options, ws: seq<World>, steps: seq<Step>, k: nat, n: nat, id: Id)
    requires IsRun(o, ws, steps) && k <= n < |ws| && NeverHandled(ws[k], id) && (id in ws[k].rejected || id in ws[k].callers)
    ensures NeverHandled(ws[n], id)
    ensures id in ws[n].rejected || id in ws[n].callers
    decreases n
  {
    if k < n {
      hide Next, NeverHandled;
      StaysUnhandled(o, ws, steps, k, n - 1, id);
      RunStep(o, ws, steps, n - 1);
      StepLeavesUnhandled(ws[n - 1], o, steps[n - 1], id);
    }
  }

  lemma RejectedIsNeverHandled(o: Options, ws: seq<World>, steps: seq<Step>, k: nat, n: nat)
    requires IsRun(o, ws, steps) && k < n < |ws| && steps[k].Publish? && !Requested(steps[..k], steps[k].id)
    requires !Taken(o, steps, k)
    ensures NeverHandled(ws[n], steps[k].id)
  {
    RunsAreOk(o, ws, steps, k);
    StepsTell(o, ws, steps, k);
    StaysUnhandled(o, ws, steps, k + 1, n, steps[k].id);
  }

  lemma {:induction false} StaysRunning(o: Options, ws: seq<World>, steps: seq<Step>, k: nat, n: nat, id: Id)
    requires IsRun(o, ws, steps) && k <= n < |ws| && id in ws[k].server.running && id in ws[k].callers
    requires forall j :: k <= j < n ==> !(steps[j].Handled? && steps[j].id == id)
    ensures id in ws[n].server.running && id in ws[n].callers
    decreases n
  {
    if k < n {
      StaysRunning(o, ws, steps, k, n - 1, id);
      RunStep(o, ws, steps, n - 1);
    }
  }

  lemma {:induction false} StaysStored(o: Options, ws: seq<World>, steps: seq<Step>, k: nat, n: nat, id: Id, reply: string)
    requires IsRun(o, ws, steps) && k <= n < |ws| && id in ws[k].callers
    requires id in ws[k].stored && ws[k].stored[id] == reply && id !in ws[k].server.running
    requires forall j :: k <= j < n ==> !((steps[j].Poll? || steps[j].Expire?) && steps[j].id == id)
    ensures id in ws[n].stored && ws[n].stored[id] == reply && id !in ws[n].server.running && id in ws[n].callers
    decreases n
  {
    if k < n {
      StaysStored(o, ws, steps, k, n - 1, id, reply);
      RunStep(o, ws, steps, n - 1);
    }
  }

  /** What one poll of a waiting caller decides: the reply if it is there, that nobody answers if the
      heartbeat is gone by then, that time is up, or nothing. */
  lemma PollDecides(o: Options, ws: seq<World>, steps: seq<Step>, p: nat, id: Id)
    requires IsRun(o, ws, steps) && p < |steps| && steps[p] == Poll(id) && id in ws[p].callers && ws[p].callers[id].outcome.None?
    ensures var c := ws[p].callers[id];
      var at := PollTime(c.published, o.timeout, o.interval, c.polls);
      && id in ws[p + 1].callers && ws[p + 1].callers[id].published == c.published && ws[p + 1].callers[id].polls == c.polls + 1
      && ws[p + 1].callers[id].outcome
        == if id in ws[p].stored then Some(Reply(ws[p].stored[id]))
           else if !Alive(Beats(steps[..p]), o.ttl, at) then Some(NoResponder)
           else if at >= c.published + o.timeout then Some(TimedOut)
           else None
  {
    RunsAreOk(o, ws, steps, p);
    StepsTell(o, ws, steps, p);
    FreshPoll(ws[p], o, id);
    RunStep(o, ws, steps, p);
    hide Ok, Alive;
  }

  /** A request that was taken and then handled is answered: the first poll after that, if the caller
      still waits and the reply has not expired, ends the wait with the handler's first reply. */
  lemma ReplyIsDelivered(o: Options, ws: seq<World>, steps: seq<Step>, k: nat, h: nat, p: nat)
    requires IsRun(o, ws, steps) && k < h < p < |steps|
    requires steps[k].Publish? && !Requested(steps[..k], steps[k].id) && Taken(o, steps, k)
    requires steps[h].Handled? && steps[h].id == steps[k].id
    requires forall j :: k < j < h ==> !(steps[j].Handled? && steps[j].id == steps[k].id)
    requires forall j :: h < j < p ==> !((steps[j].Poll? || steps[j].Expire?) && steps[j].id == steps[k].id)
    requires steps[p] == Poll(steps[k].id)
    ensures var id := steps[k].id;
      && id in ws[p].callers && id in ws[p + 1].callers
      && (ws[p].callers[id].outcome.None? ==> ws[p + 1].callers[id].outcome == Some(Reply(steps[h].reply)))
  {
    var id := steps[k].id;
    StepsTell(o, ws, steps, k);
    StaysRunning(o, ws, steps, k + 1, h, id);
    StaysStored(o, ws, steps, h + 1, p, id, steps[h].reply);
  }
}
