/** What a fold and the turn records say about the log they were made from. */
module Meaning {
  import opened JsMaps
  import opened Fold
  import opened Paging
  import Deltas
  import Events
  import PrependLaws
  import Replay

  // ----- One thread's bucket -----

  /** The last answer the log gives to `call`, if any. */
  function LastResult(log: seq<Events.Event>, call: Id): Option<string> {
    if log == [] then None
    else
      var e := log[|log| - 1];
      if e.body.ToolResponse? && e.body.toolCallId == call then Some(e.body.content)
      else LastResult(log[..|log| - 1], call)
  }

  lemma {:induction false} ResultsAreLastAnswers(route: Route, log: seq<Events.Event>, call: Id)
    ensures var results := Replay.BucketRun(route, EMPTY_BUCKET, log).results;
      (if call in results then Some(results[call]) else None) == LastResult(log, call)
    decreases log
  {
    if log != [] {
      ResultsAreLastAnswers(route, log[..|log| - 1], call);
      Replay.BucketStepFields(route, Replay.BucketRun(route, EMPTY_BUCKET, log[..|log| - 1]), log[|log| - 1]);
    }
  }

  /** Asked, and not answered since. */
  predicate StillAsked(log: seq<Events.Event>, call: Id) {
    exists i :: 0 <= i < |log| && Asks(log[i], call) && forall j :: i < j < |log| ==> !Answers(log[j], call)
  }

  lemma StillAskedSnoc(log: seq<Events.Event>, call: Id)
    requires log != []
    ensures StillAsked(log, call) <==>
      Asks(log[|log| - 1], call) || (!Answers(log[|log| - 1], call) && StillAsked(log[..|log| - 1], call))
  {
    var n := |log| - 1;
    var front := log[..n];
    if StillAsked(log, call) {
      var i :| 0 <= i < |log| && Asks(log[i], call) && forall j :: i < j < |log| ==> !Answers(log[j], call);
      if i < n {
        assert front[i] == log[i] && forall j :: i < j < n ==> front[j] == log[j];
      }
    }
    if StillAsked(front, call) && !Answers(log[n], call) {
      var i :| 0 <= i < n && Asks(front[i], call) && forall j :: i < j < n ==> !Answers(front[j], call);
      assert Asks(log[i], call) && forall j :: i < j < n ==> log[j] == front[j];
    }
  }

  /** A question is open exactly when it was asked and has not been answered since. */
  lemma {:induction false} QuestionsAreOpen(route: Route, log: seq<Events.Event>, call: Id)
    ensures call in Replay.BucketRun(route, EMPTY_BUCKET, log).questions <==> StillAsked(log, call)
    decreases log
  {
    if log != [] {
      var front, e := log[..|log| - 1], log[|log| - 1];
      var before := Replay.BucketRun(route, EMPTY_BUCKET, front);
      QuestionsAreOpen(route, front, call);
      Replay.BucketStepFields(route, before, e);
      StillAskedSnoc(log, call);
      if e.body.ResponseRequired? {
        PrependLaws.AskedAt(before.events.vals[e.id := e], before.questions, e.body.questions, call);
      }
    }
  }

  lemma {:induction false} ApprovalsAreRequested(route: Route, log: seq<Events.Event>, call: Id)
    ensures call in Replay.BucketRun(route, EMPTY_BUCKET, log).approvals <==>
      exists i :: 0 <= i < |log| && log[i].body.ApprovalRequired? && call in RefIds(log[i].body.approvals)
    decreases log
  {
    if log != [] {
      var n := |log| - 1;
      var front, e := log[..n], log[n];
      ApprovalsAreRequested(route, front, call);
      Replay.BucketStepFields(route, Replay.BucketRun(route, EMPTY_BUCKET, front), e);
      if i :| 0 <= i < n && front[i].body.ApprovalRequired? && call in RefIds(front[i].body.approvals) {
        assert log[i].body.ApprovalRequired? && call in RefIds(log[i].body.approvals);
      }
      if i :| 0 <= i < |log| && log[i].body.ApprovalRequired? && call in RefIds(log[i].body.approvals) {
        assert i < n ==> front[i] == log[i];
      }
    }
  }

  /** The message `id` as the log leaves it: its base with every later delta merged, in order. */
  function MessageAfter(route: Route, log: seq<Events.Event>, id: Id): Option<Events.Event> {
    if log == [] then None
    else
      var e, before := log[|log| - 1], MessageAfter(route, log[..|log| - 1], id);
      if e.id != id then before
      else if e.body.ModelMessageDelta? then
        if before.Some? then Some(MergeDelta(before.value, e.body.delta)) else None
      else if Replay.Stored(route, e) then Some(e)
      else before
  }

  lemma {:induction false} EventsAreMerged(route: Route, log: seq<Events.Event>, id: Id)
    ensures var events := Replay.BucketRun(route, EMPTY_BUCKET, log).events.vals;
      (if id in events then Some(events[id]) else None) == MessageAfter(route, log, id)
    decreases log
  {
    if log != [] {
      EventsAreMerged(route, log[..|log| - 1], id);
      Replay.BucketStepFields(route, Replay.BucketRun(route, EMPTY_BUCKET, log[..|log| - 1]), log[|log| - 1]);
    }
  }

  /** A thread is done when its log says so, and failed with the last failure it names. */
  function LastFailure(log: seq<Events.Event>): Option<string> {
    if log == [] then None
    else
      var body := log[|log| - 1].body;
      if body.ThreadDone? && body.failed then
        Some(if Deltas.Truthy(body.error) then body.error.value else "Sub-agent failed")
      else LastFailure(log[..|log| - 1])
  }

  lemma {:induction false} DoneAndFailed(route: Route, log: seq<Events.Event>)
    ensures Replay.BucketRun(route, EMPTY_BUCKET, log).done <==> exists i :: 0 <= i < |log| && log[i].body.ThreadDone?
    ensures Replay.BucketRun(route, EMPTY_BUCKET, log).error == LastFailure(log)
    decreases log
  {
    if log != [] {
      var n := |log| - 1;
      DoneAndFailed(route, log[..n]);
      Replay.BucketStepFields(route, Replay.BucketRun(route, EMPTY_BUCKET, log[..n]), log[n]);
      if i :| 0 <= i < n && log[..n][i].body.ThreadDone? {
        assert log[i].body.ThreadDone?;
      }
      if i :| 0 <= i < |log| && log[i].body.ThreadDone? {
        assert i < n ==> log[..n][i].body.ThreadDone?;
      }
    }
  }

  /** The last title a thread was given: at its creation, or with its end when that brings one. */
  function LastTitle(log: seq<Events.Event>): Option<string> {
    if log == [] then None
    else
      var body := log[|log| - 1].body;
      if body.ThreadCreated? then Some(body.title)
      else if body.ThreadDone? && body.doneTitle.Some? && body.doneTitle.value != "" then body.doneTitle
      else LastTitle(log[..|log| - 1])
  }

  /** The agent it was last created for. */
  function LastAgent(log: seq<Events.Event>): Option<string> {
    if log == [] then None
    else
      var body := log[|log| - 1].body;
      if body.ThreadCreated? then Some(body.agent) else LastAgent(log[..|log| - 1])
  }

  lemma {:induction false} TitlesAreLast(route: Route, log: seq<Events.Event>)
    ensures var b := Replay.BucketRun(route, EMPTY_BUCKET, log); b.title == LastTitle(log) && b.agent == LastAgent(log)
    decreases log
  {
    if log != [] {
      TitlesAreLast(route, log[..|log| - 1]);
      Replay.BucketStepFields(route, Replay.BucketRun(route, EMPTY_BUCKET, log[..|log| - 1]), log[|log| - 1]);
    }
  }

  /** A thread lists the messages that its log brings, each where it first came. */
  lemma {:induction false} MessagesAreListed(route: Route, log: seq<Events.Event>, id: Id)
    ensures id in Replay.BucketRun(route, EMPTY_BUCKET, log).modelIds <==>
      exists i :: 0 <= i < |log| && log[i].body.ModelMessage? && log[i].id == id
    decreases log
  {
    if log != [] {
      var n := |log| - 1;
      MessagesAreListed(route, log[..n], id);
      Replay.BucketStepFields(route, Replay.BucketRun(route, EMPTY_BUCKET, log[..n]), log[n]);
      if i :| 0 <= i < n && log[..n][i].body.ModelMessage? && log[..n][i].id == id {
        assert log[i].body.ModelMessage? && log[i].id == id;
      }
      if i :| 0 <= i < |log| && log[i].body.ModelMessage? && log[i].id == id {
        assert i < n ==> log[..n][i] == log[i];
      }
    }
  }

  // ----- Turn records -----

  predicate IsLifecycle(item: Item) {
    item.event.body.TurnCreated? || item.event.body.TurnDone?
  }

  /** A turn created at `i` and done at `j`, with nothing but content between. */
  predicate Brackets(items: seq<Item>, i: int, j: int)
    requires 0 <= i < j < |items|
  {
    && items[i].event.body.TurnCreated? && items[j].event.body.TurnDone?
    && forall k :: i < k < j ==> !IsLifecycle(items[k])
  }

  predicate Describes(record: TurnRecord, created: Item, done: Item)
    requires created.event.body.TurnCreated? && done.event.body.TurnDone?
  {
    && record.id == created.turn && record.createdAt == created.event.at
    && record.input == created.event.body.input && record.state == done.event.body.state
  }

  /** The first sandbox created from position `i` up to `j`. */
  function FirstSandbox(items: seq<Item>, i: int, j: int): Option<Id>
    requires 0 <= i <= j <= |items|
    decreases j - i
  {
    if i == j then None
    else
      var before, body := FirstSandbox(items, i, j - 1), items[j - 1].event.body;
      before.Or(if body.SandboxCreated? then Some(body.sandboxId) else None)
  }

  lemma {:induction false} FirstSandboxMore(items: seq<Item>, more: seq<Item>, i: int, j: int)
    requires 0 <= i <= j <= |items| <= |more| && items == more[..|items|]
    ensures FirstSandbox(items, i, j) == FirstSandbox(more, i, j)
    decreases j - i
  {
    if i < j {
      FirstSandboxMore(items, more, i, j - 1);
      assert items[j - 1] == more[j - 1];
    }
  }

  /** The positions where a turn that was created is done. */
  function Ends(items: seq<Item>): seq<int>
  {
    if items == [] then []
    else
      var n := |items| - 1;
      Ends(items[..n]) + if items[n].event.body.TurnDone? && LastLifecycle(items[..n]).Some? then [n] else []
  }

  /** The position of the last lifecycle event, when it is the creation of a turn. */
  function LastLifecycle(items: seq<Item>): (r: Option<int>)
    ensures r.Some? ==> 0 <= r.value < |items| && items[r.value].event.body.TurnCreated?
    ensures r.Some? ==> forall k :: r.value < k < |items| ==> !IsLifecycle(items[k])
  {
    if items == [] then None
    else
      var n := |items| - 1;
      if items[n].event.body.TurnCreated? then Some(n)
      else if items[n].event.body.TurnDone? then None
      else LastLifecycle(items[..n])
  }

  ghost predicate OpenIs(items: seq<Item>, open: Option<OpenTurn>) {
    var i := LastLifecycle(items);
    if i.None? then open.None?
    else
      && open.Some? && open.value.id == items[i.value].turn && open.value.createdAt == items[i.value].event.at
      && open.value.input == items[i.value].event.body.input
      && open.value.sandbox == FirstSandbox(items, i.value, |items|)
  }

  /** The record of the turn done at `j`: its own first sandbox, or the one known before. */
  ghost predicate RecordFor(items: seq<Item>, record: TurnRecord, known: Option<Id>, j: int) {
    0 <= j < |items| && items[j].event.body.TurnDone? &&
    exists i :: 0 <= i < j && Brackets(items, i, j) && Describes(record, items[i], items[j])
      && record.sandbox == FirstSandbox(items, i, j).Or(known)
  }

  function KnownBefore(turns: seq<TurnRecord>, k: int): Option<Id>
    requires 0 <= k <= |turns|
  {
    if k == 0 then None else turns[k - 1].sandbox
  }

  lemma RecordForMore(items: seq<Item>, last: Item, record: TurnRecord, known: Option<Id>, j: int)
    requires RecordFor(items, record, known, j)
    ensures RecordFor(items + [last], record, known, j)
  {
    var i :| 0 <= i < j && Brackets(items, i, j) && Describes(record, items[i], items[j]) && record.sandbox == FirstSandbox(items, i, j).Or(known);
    var more := items + [last];
    assert more[i] == items[i] && more[j] == items[j] && forall k :: i < k < j ==> more[k] == items[k];
    assert Brackets(more, i, j);
    FirstSandboxMore(items, more, i, j);
  }

  /** Each record, with the sandbox known before it and its turn's end, is `ok`. */
  ghost predicate AllOk(ok: (TurnRecord, Option<Id>, int) -> bool, ends: seq<int>, turns: seq<TurnRecord>) {
    |turns| == |ends| && forall k :: 0 <= k < |turns| ==> ok(turns[k], KnownBefore(turns, k), ends[k])
  }

  lemma AllOkPlus(ok: (TurnRecord, Option<Id>, int) -> bool, ends: seq<int>, turns: seq<TurnRecord>,
                  record: TurnRecord, end: int)
    requires AllOk(ok, ends, turns) && ok(record, KnownBefore(turns, |turns|), end)
    ensures AllOk(ok, ends + [end], turns + [record])
  {
    var all := turns + [record];
    forall k | 0 <= k < |all| ensures ok(all[k], KnownBefore(all, k), (ends + [end])[k]) {
      assert KnownBefore(all, k) == KnownBefore(turns, k);
    }
  }

  ghost function OkFor(items: seq<Item>): (TurnRecord, Option<Id>, int) -> bool {
    (record, known, j) => RecordFor(items, record, known, j)
  }

  /** The records are those of the turns done at `ends`. */
  ghost predicate RecordsAt(items: seq<Item>, ends: seq<int>, turns: seq<TurnRecord>) {
    AllOk(OkFor(items), ends, turns)
  }

  ghost predicate RecordsFor(items: seq<Item>, s: Ingestion) {
    && OpenIs(items, s.open)
    && s.sandbox == KnownBefore(s.turns, |s.turns|)
    && RecordsAt(items, Ends(items), s.turns)
  }

  lemma RecordsMore(front: seq<Item>, last: Item, ends: seq<int>, turns: seq<TurnRecord>)
    requires RecordsAt(front, ends, turns)
    ensures RecordsAt(front + [last], ends, turns)
  {
    forall k | 0 <= k < |turns| ensures OkFor(front + [last])(turns[k], KnownBefore(turns, k), ends[k]) {
      assert OkFor(front)(turns[k], KnownBefore(turns, k), ends[k]);
      RecordForMore(front, last, turns[k], KnownBefore(turns, k), ends[k]);
    }
  }

  lemma EndsSnoc(front: seq<Item>, last: Item)
    ensures Ends(front + [last]) == Ends(front) + if last.event.body.TurnDone? && LastLifecycle(front).Some? then [|front|] else []
    ensures LastLifecycle(front + [last]) ==
      if last.event.body.TurnCreated? then Some(|front|) else if last.event.body.TurnDone? then None else LastLifecycle(front)
  {
    assert (front + [last])[..|front|] == front;
  }

  lemma ClosedRecord(front: seq<Item>, last: Item, s: Ingestion)
    requires RecordsFor(front, s) && last.event.body.TurnDone? && s.open.Some?
    ensures RecordFor(front + [last], Close(s, last.event.body.state).turns[|s.turns|], s.sandbox, |front|)
  {
    var items := front + [last];
    var i := LastLifecycle(front).value;
    assert forall k :: i < k < |front| ==> items[k] == front[k];
    assert items[i] == front[i] && items[|front|] == last;
    assert Brackets(items, i, |front|);
    FirstSandboxMore(front, items, i, |front|);
    assert Describes(Close(s, last.event.body.state).turns[|s.turns|], items[i], items[|front|]);
  }

  lemma OpenContent(front: seq<Item>, items: seq<Item>, last: Item, i: int, open: OpenTurn, more: OpenTurn)
    requires items == front + [last] && 0 <= i < |front| && open.sandbox == FirstSandbox(front, i, |front|)
    requires more.sandbox == open.sandbox.Or(if last.event.body.SandboxCreated? then Some(last.event.body.sandboxId) else None)
    ensures more.sandbox == FirstSandbox(items, i, |items|)
  {
    assert items[|front|] == last;
    FirstSandboxMore(front, items, i, |front|);
  }

  lemma OpenStays(front: seq<Item>, last: Item, s: Ingestion)
    requires RecordsFor(front, s) && !IsLifecycle(last)
    ensures OpenIs(front + [last], IngestItem(s, last).open)
  {
    EndsSnoc(front, last);
    var i := LastLifecycle(front);
    if i.Some? {
      assert (front + [last])[i.value] == front[i.value];
      OpenContent(front, front + [last], last, i.value, s.open.value, IngestItem(s, last).open.value);
    }
  }

  lemma RecordsStep(items: seq<Item>, front: seq<Item>, last: Item, s: Ingestion, after: Ingestion)
    requires items == front + [last] && RecordsFor(front, s) && after == IngestItem(s, last)
    ensures RecordsFor(items, after)
  {
    EndsSnoc(front, last);
    RecordsMore(front, last, Ends(front), s.turns);
    if last.event.body.TurnDone? {
      if s.open.Some? {
        ClosedRecord(front, last, s);
        AllOkPlus(OkFor(items), Ends(front), s.turns, after.turns[|s.turns|], |front|);
      }
    } else if last.event.body.TurnCreated? {
      OpenedHere(items, front, last, s);
    } else {
      OpenStays(front, last, s);
    }
  }

  lemma OpenedHere(items: seq<Item>, front: seq<Item>, last: Item, s: Ingestion)
    requires items == front + [last] && last.event.body.TurnCreated?
    ensures OpenIs(items, IngestItem(s, last).open)
  {
    EndsSnoc(front, last);
    assert items[|front|] == last;
  }

  lemma NoRecords()
    ensures RecordsFor([], NOTHING)
  {
  }

  lemma IngestLast(items: seq<Item>, front: seq<Item>, last: Item)
    requires items != [] && front == items[..|items| - 1] && last == items[|items| - 1]
    ensures items == front + [last] && IngestItems(NOTHING, items) == IngestItem(IngestItems(NOTHING, front), last)
  {
  }

  /** One record per turn that was created and done, in the order they were done: the id, time and
      input of its creation, the state it was done with, and the sandbox it made first or else the
      one known from the turn before. */
  lemma {:induction false} RecordsAreTurns(items: seq<Item>, s: Ingestion)
    requires s == IngestItems(NOTHING, items)
    ensures RecordsFor(items, s)
    decreases items
  {
    if items == [] {
      NoRecords();
    } else {
      var front, last := items[..|items| - 1], items[|items| - 1];
      var before := IngestItems(NOTHING, front);
      RecordsAreTurns(front, before);
      IngestLast(items, front, last);
      RecordsStep(items, front, last, before, s);
    }
  }
}
