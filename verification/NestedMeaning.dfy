/** What is nested under a tool call: which sub-agents, under which title, and in which status. */
module NestedMeaning {
  import opened JsMaps
  import opened Events
  import opened Fold
  import opened SubAgents
  import Deltas
  import Meaning
  import Rendering
  import Replay

  // ----- The status of a thread, from its log -----

  /** The thread's log still asks something of the user. */
  ghost predicate AsksUser(log: seq<Event>) {
    || (exists i :: 0 <= i < |log| && log[i].body.ApprovalRequired? && log[i].body.approvals != [])
    || exists call :: Meaning.StillAsked(log, call) && forall i :: 0 <= i < |log| ==> !Answers(log[i], call)
  }

  predicate SaysDone(log: seq<Event>) {
    exists i :: 0 <= i < |log| && log[i].body.ThreadDone?
  }

  predicate HasMessages(log: seq<Event>) {
    exists i :: 0 <= i < |log| && log[i].body.ModelMessage?
  }

  /** Waiting for the user comes first; then being stopped by the parent's cancel, unless the thread
      had ended of itself; then its own failure; then the parent's, if it had not ended; then being at
      work, which takes a message. */
  ghost predicate HasStatus(log: seq<Event>, terminal: Option<Rendering.ParentTerminal>, status: Status) {
    var failure := Meaning.LastFailure(log);
    var noise := failure.Some? && Rendering.AbortShaped(failure.value);
    var stopped := terminal == Some(Rendering.ParentCancelled) && (!SaysDone(log) || noise);
    match status
    case RequiresAction => AsksUser(log)
    case Cancelled => !AsksUser(log) && stopped
    case Failed(error) =>
      && !AsksUser(log) && !stopped
      && (failure == Some(error)
          || (failure.None? && !SaysDone(log) && terminal == Some(Rendering.ParentFailed) && error == "Parent turn failed"))
    case Running =>
      && !AsksUser(log) && !stopped && failure.None? && !SaysDone(log)
      && terminal != Some(Rendering.ParentFailed) && HasMessages(log)
    case Complete =>
      && !AsksUser(log) && !stopped && failure.None?
      && (SaysDone(log) || (terminal != Some(Rendering.ParentFailed) && !HasMessages(log)))
  }

  lemma {:induction false} NeverAnswered(log: seq<Event>, call: Id)
    ensures Meaning.LastResult(log, call).None? <==> forall i :: 0 <= i < |log| ==> !Answers(log[i], call)
    decreases log
  {
    if log != [] {
      NeverAnswered(log[..|log| - 1], call);
      assert forall i :: 0 <= i < |log| - 1 ==> log[..|log| - 1][i] == log[i];
    }
  }

  lemma ApprovalsAsk(route: Route, log: seq<Event>)
    ensures Replay.BucketRun(route, EMPTY_BUCKET, log).approvals != {} <==>
      exists i :: 0 <= i < |log| && log[i].body.ApprovalRequired? && log[i].body.approvals != []
  {
    var approvals := Replay.BucketRun(route, EMPTY_BUCKET, log).approvals;
    if call :| call in approvals {
      Meaning.ApprovalsAreRequested(route, log, call);
    }
    if i :| 0 <= i < |log| && log[i].body.ApprovalRequired? && log[i].body.approvals != [] {
      Meaning.ApprovalsAreRequested(route, log, log[i].body.approvals[0].id);
      assert log[i].body.approvals[0].id in RefIds(log[i].body.approvals);
      assert log[i].body.approvals[0].id in approvals;
    }
  }

  lemma QuestionAsks(route: Route, log: seq<Event>, call: Id)
    ensures var b := Replay.BucketRun(route, EMPTY_BUCKET, log);
      call in b.questions && call !in b.results <==>
      Meaning.StillAsked(log, call) && forall i :: 0 <= i < |log| ==> !Answers(log[i], call)
  {
    Meaning.QuestionsAreOpen(route, log, call);
    Meaning.ResultsAreLastAnswers(route, log, call);
    NeverAnswered(log, call);
  }

  lemma QuestionsAsk(route: Route, log: seq<Event>)
    ensures var b := Replay.BucketRun(route, EMPTY_BUCKET, log);
      (exists call | call in b.questions :: call !in b.results) <==>
      exists call :: Meaning.StillAsked(log, call) && forall i :: 0 <= i < |log| ==> !Answers(log[i], call)
  {
    var b := Replay.BucketRun(route, EMPTY_BUCKET, log);
    if call :| call in b.questions && call !in b.results {
      QuestionAsks(route, log, call);
      assert Meaning.StillAsked(log, call) && forall i :: 0 <= i < |log| ==> !Answers(log[i], call);
    }
    if call :| Meaning.StillAsked(log, call) && forall i :: 0 <= i < |log| ==> !Answers(log[i], call) {
      QuestionAsks(route, log, call);
      assert call in b.questions && call !in b.results;
    }
  }

  lemma ListsMessages(route: Route, log: seq<Event>)
    ensures Replay.BucketRun(route, EMPTY_BUCKET, log).modelIds != [] <==> HasMessages(log)
  {
    var ids := Replay.BucketRun(route, EMPTY_BUCKET, log).modelIds;
    if ids != [] {
      Meaning.MessagesAreListed(route, log, ids[0]);
      assert ids[0] in ids;
    }
    if i :| 0 <= i < |log| && log[i].body.ModelMessage? {
      Meaning.MessagesAreListed(route, log, log[i].id);
    }
  }

  /** The status of a thread, read off its log. */
  lemma StatusOfLog(route: Route, log: seq<Event>, v: View)
    ensures HasStatus(log, v.parent.terminal, BucketStatus(Replay.BucketRun(route, EMPTY_BUCKET, log), v))
  {
    Meaning.DoneAndFailed(route, log);
    ApprovalsAsk(route, log);
    QuestionsAsk(route, log);
    ListsMessages(route, log);
  }

  // ----- Which calls spawn -----

  function CallsOf(b: Bucket, id: Id): Deltas.Calls {
    if id in b.events.vals && b.events.vals[id].body.ModelMessage? then Deltas.CallList(b.events.vals[id].body.message) else []
  }

  predicate Names(slot: Option<Deltas.ToolCall>, call: Id) {
    slot.Some? && slot.value.id == call
  }

  /** Slot `j` is the first with the call. */
  predicate First(calls: Deltas.Calls, j: nat, call: Id) {
    j < |calls| && Names(calls[j], call) && forall k :: 0 <= k < j ==> !Names(calls[k], call)
  }

  predicate Lacks(calls: Deltas.Calls, call: Id) {
    forall j :: 0 <= j < |calls| ==> !Names(calls[j], call)
  }

  /** The first of the thread's messages that has the call has it as one that creates sub-agents. */
  ghost predicate Spawns(b: Bucket, v: View, call: Id) {
    exists k: int, j: nat ::
      && 0 <= k < |b.modelIds| && First(CallsOf(b, b.modelIds[k]), j, call) && v.spawns(CallsOf(b, b.modelIds[k])[j].value)
      && forall i :: 0 <= i < k ==> Lacks(CallsOf(b, b.modelIds[i]), call)
  }

  lemma {:induction false} FindCallIs(calls: Deltas.Calls, call: Id) returns (j: nat)
    ensures FindCall(calls, call).None? ==> Lacks(calls, call)
    ensures FindCall(calls, call).Some? ==> First(calls, j, call) && FindCall(calls, call) == calls[j]
    decreases calls
  {
    j := 0;
    if calls != [] && !Names(calls[0], call) {
      j := FindCallIs(calls[1..], call);
      j := j + 1;
      assert forall k :: 1 <= k < |calls| ==> calls[k] == calls[1..][k - 1];
    }
  }

  lemma {:induction false} FindToolCallIs(b: Bucket, ids: seq<Id>, call: Id) returns (k: nat, j: nat)
    ensures FindToolCall(b, ids, call).None? ==> forall i :: 0 <= i < |ids| ==> Lacks(CallsOf(b, ids[i]), call)
    ensures FindToolCall(b, ids, call).Some? ==>
      && k < |ids| && First(CallsOf(b, ids[k]), j, call) && FindToolCall(b, ids, call) == CallsOf(b, ids[k])[j]
      && forall i :: 0 <= i < k ==> Lacks(CallsOf(b, ids[i]), call)
    decreases ids
  {
    k, j := 0, 0;
    if ids != [] {
      j := FindCallIs(CallsOf(b, ids[0]), call);
      if FindCall(CallsOf(b, ids[0]), call).None? {
        k, j := FindToolCallIs(b, ids[1..], call);
        k := k + 1;
        assert forall i :: 1 <= i < |ids| ==> ids[i] == ids[1..][i - 1];
      }
    }
  }

  lemma FirstIsOne(calls: Deltas.Calls, i: nat, j: nat, call: Id)
    requires First(calls, i, call) && First(calls, j, call)
    ensures i == j
  {
  }

  lemma SpawningIs(b: Bucket, v: View, call: Id)
    ensures Spawning(b, v, call) <==> Spawns(b, v, call)
  {
    var k, j := FindToolCallIs(b, b.modelIds, call);
    if Spawns(b, v, call) {
      var m: int, i: nat :|
        && 0 <= m < |b.modelIds| && First(CallsOf(b, b.modelIds[m]), i, call) && v.spawns(CallsOf(b, b.modelIds[m])[i].value)
        && forall n :: 0 <= n < m ==> Lacks(CallsOf(b, b.modelIds[n]), call);
      assert Names(CallsOf(b, b.modelIds[m])[i], call);
      assert Names(CallsOf(b, b.modelIds[k])[j], call);
      assert m == k;
      FirstIsOne(CallsOf(b, b.modelIds[m]), i, j, call);
    }
  }

  // ----- What is nested -----

  /** The threads whose parent link is this call of this thread, in order. */
  function LinkedTo(f: Fold, ids: seq<Id>, link: Link): seq<Id> {
    if ids == [] then []
    else
      LinkedTo(f, ids[..|ids| - 1], link)
      + if ids[|ids| - 1] in f.parents.vals && f.parents.vals[ids[|ids| - 1]] == link then [ids[|ids| - 1]] else []
  }

  lemma {:induction false} LinkedConcat(f: Fold, a: seq<Id>, b: seq<Id>, link: Link)
    ensures LinkedTo(f, a + b, link) == LinkedTo(f, a, link) + LinkedTo(f, b, link)
    decreases b
  {
    if b == [] {
      assert a + b == a;
    } else {
      LinkedConcat(f, a, b[..|b| - 1], link);
      assert (a + b)[..|a + b| - 1] == a + b[..|b| - 1];
    }
  }

  /** The nested thread has its own title, agent, status and content. */
  ghost predicate IsThread(f: Fold, v: View, n: Nested, t: Id)
    requires Rooted(f.parents) && BucketsValid(f)
  {
    var b := BucketOf(f, t);
    n.thread == t && n.title == b.title && n.agent == b.agent && n.status == BucketStatus(b, v) && n.content == Content(f, v, t)
  }

  lemma {:induction false} ChildrenAre(f: Fold, v: View, t: Id, call: Id, ids: seq<Id>)
    requires Rooted(f.parents) && BucketsValid(f)
    ensures var nested, linked := Children(f, v, t, call, ids), LinkedTo(f, ids, Link(t, call));
      |nested| == |linked| && forall k :: 0 <= k < |nested| ==> IsThread(f, v, nested[k], linked[k])
    decreases ids
  {
    if ids != [] {
      ChildrenAre(f, v, t, call, ids[1..]);
      LinkedConcat(f, ids[..1], ids[1..], Link(t, call));
      assert ids == ids[..1] + ids[1..] && ids[..1][..0] == [];
    }
  }

  /** Content is the thread's parts, in order; under a call that spawns sub-agents are exactly the
      threads linked to it, in the order they came, and under any other part is nothing. */
  lemma {:induction false} AttachedAre(f: Fold, v: View, t: Id, parts: seq<Rendering.Part>)
    requires Rooted(f.parents) && BucketsValid(f)
    ensures var nodes := Attach(f, v, t, parts);
      && |nodes| == |parts|
      && forall i :: 0 <= i < |parts| ==> IsNode(f, v, t, parts[i], nodes[i])
    decreases parts
  {
    if parts != [] {
      AttachedAre(f, v, t, parts[1..]);
      if parts[0].ToolPart? {
        SpawningIs(BucketOf(f, t), v, parts[0].call);
        ChildrenAre(f, v, t, parts[0].call, f.parents.keys);
      }
    }
  }

  ghost predicate IsNode(f: Fold, v: View, t: Id, p: Rendering.Part, node: Node)
    requires Rooted(f.parents) && BucketsValid(f)
  {
    && node.part == p
    && if p.ToolPart? && Spawns(BucketOf(f, t), v, p.call) then
         var linked := LinkedTo(f, f.parents.keys, Link(t, p.call));
         |node.nested| == |linked| && forall k :: 0 <= k < |linked| ==> IsThread(f, v, node.nested[k], linked[k])
       else node.nested == []
  }

  /** Over a whole log, by either route: a nested thread's title and agent are the last its log names,
      and its status is the one its log says. */
  lemma HeaderOfLog(route: Route, log: seq<Event>, f: Fold, v: View, n: Nested, t: Id)
    requires f == Replay.IngestAll(route, EMPTY, log) && Rooted(f.parents) && BucketsValid(f) && IsThread(f, v, n, t)
    ensures var thread := Replay.OnThread(route, log, t);
      n.title == Meaning.LastTitle(thread) && n.agent == Meaning.LastAgent(thread) && HasStatus(thread, v.parent.terminal, n.status)
  {
    Replay.IngestAllBucket(route, EMPTY, log, t);
    Meaning.TitlesAreLast(route, Replay.OnThread(route, log, t));
    StatusOfLog(route, Replay.OnThread(route, log, t), v);
  }

  /** The content of a thread in one statement. */
  lemma ContentIs(f: Fold, v: View, t: Id)
    requires Rooted(f.parents) && BucketsValid(f)
    ensures var nodes, parts := Content(f, v, t), PartsShown(f, v, t);
      |nodes| == |parts| && forall i :: 0 <= i < |parts| ==> IsNode(f, v, t, parts[i], nodes[i])
  {
    AttachedAre(f, v, t, PartsShown(f, v, t));
  }
}
