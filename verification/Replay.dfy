/** What a log does to a bucket, cell by cell, and to the fold, thread by thread. */
module Replay {
  import opened JsMaps
  import opened Events
  import opened Fold
  import Deltas

  // ----- One step, field by field -----

  /** The event itself is stored under its id. */
  predicate Stored(route: Route, e: Event) {
    !IsTurnScoped(e) && !e.body.ModelMessageDelta? && !(route.Stream? && e.body.ThreadCreated?)
  }

  function EventsStep(route: Route, events: map<Id, Event>, e: Event): map<Id, Event> {
    if e.body.ModelMessageDelta? && e.id in events then events[e.id := MergeDelta(events[e.id], e.body.delta)]
    else if Stored(route, e) then events[e.id := e]
    else events
  }

  function ResultsStep(results: map<Id, string>, e: Event): map<Id, string> {
    if e.body.ToolResponse? then results[e.body.toolCallId := e.body.content] else results
  }

  function ApprovalsStep(approvals: set<Id>, e: Event): set<Id> {
    if e.body.ApprovalRequired? then approvals + RefIds(e.body.approvals) else approvals
  }

  function QuestionsStep(events: map<Id, Event>, questions: map<Id, Question>, e: Event): map<Id, Question> {
    match e.body
    case ToolResponse(call, _) => questions - {call}
    case ResponseRequired(refs) => Asked(events[e.id := e], questions, refs)
    case _ => questions
  }

  function TitleStep(title: Option<string>, e: Event): Option<string> {
    match e.body
    case ThreadCreated(_, created, _) => Some(created)
    case ThreadDone(done, _, _) => if Deltas.Truthy(done) then done else title
    case _ => title
  }

  function StepFields(route: Route, b: Bucket, e: Event): Bucket {
    Bucket(JsMap(if Stored(route, e) then AddKey(b.events.keys, e.id) else b.events.keys,
                 EventsStep(route, b.events.vals, e)),
           if e.body.ModelMessage? then AddKey(b.modelIds, e.id) else b.modelIds,
           ResultsStep(b.results, e),
           ApprovalsStep(b.approvals, e),
           b.decisions,
           QuestionsStep(b.events.vals, b.questions, e),
           b.done || e.body.ThreadDone?,
           if e.body.ThreadDone? then ThreadDoneError(e.body.failed, e.body.error).Or(b.error) else b.error,
           TitleStep(b.title, e),
           if e.body.ThreadCreated? then Some(e.body.agent) else b.agent)
  }

  /** Every event changes a bucket field by field, each field depending only on itself, except
      that new questions read the stored messages. */
  lemma BucketStepFields(route: Route, b: Bucket, e: Event)
    ensures BucketStep(route, b, e) == StepFields(route, b, e)
  {
    match e.body {
      case ToolResponse(_, _) =>
      case ResponseRequired(_) =>
      case ThreadDone(_, _, _) =>
      case _ =>
    }
  }

  // ----- Cells -----

  /** The places an event can write, other than the two insertion orders. */
  datatype Cell = EventCell(id: Id) | ResultCell(call: Id) | ApprovalCell(call: Id) | QuestionCell(call: Id)
                | TitleCell | AgentCell | ErrorCell | DoneCell

  ghost predicate AgreeAt(b: Bucket, c: Bucket, cell: Cell) {
    match cell
    case EventCell(id) => SameAt(b.events.vals, c.events.vals, id)
    case ResultCell(call) => SameAt(b.results, c.results, call)
    case ApprovalCell(call) => call in b.approvals <==> call in c.approvals
    case QuestionCell(call) => SameAt(b.questions, c.questions, call)
    case TitleCell => b.title == c.title
    case AgentCell => b.agent == c.agent
    case ErrorCell => b.error == c.error
    case DoneCell => b.done == c.done
  }

  ghost predicate AgreeOff(b: Bucket, c: Bucket, dirty: set<Cell>) {
    b.decisions == c.decisions && forall cell :: cell !in dirty ==> AgreeAt(b, c, cell)
  }

  function RefCells(e: Event): set<Cell> {
    match e.body
    case ToolResponse(call, _) => {ResultCell(call), QuestionCell(call)}
    case ApprovalRequired(refs) => set id | id in RefIds(refs) :: ApprovalCell(id)
    case ResponseRequired(refs) => set id | id in RefIds(refs) :: QuestionCell(id)
    case ThreadCreated(_, _, _) => {TitleCell, AgentCell}
    case ThreadDone(title, failed, _) =>
      {DoneCell} + (if Deltas.Truthy(title) then {TitleCell} else {}) + (if failed then {ErrorCell} else {})
    case _ => {}
  }

  /** Cells the event overwrites whatever they held before. */
  function Overwrites(route: Route, e: Event): set<Cell> {
    RefCells(e) + if Stored(route, e) then {EventCell(e.id)} else {}
  }

  /** Cells the event may change at all: a delta changes its base without overwriting it. */
  function Touches(route: Route, e: Event): set<Cell> {
    Overwrites(route, e) + if e.body.ModelMessageDelta? then {EventCell(e.id)} else {}
  }

  // ----- One event, one cell -----

  lemma RefIdsSnoc(refs: seq<Ref>)
    requires refs != []
    ensures RefIds(refs) == RefIds(refs[..|refs| - 1]) + {refs[|refs| - 1].id}
  {
    assert forall i :: 0 <= i < |refs| - 1 ==> refs[..|refs| - 1][i] == refs[i];
  }

  lemma {:induction false} AskedAgree(ev: map<Id, Event>, fv: map<Id, Event>, qs: map<Id, Question>, rs: map<Id, Question>,
                                      refs: seq<Ref>, id: Id)
    requires forall i :: 0 <= i < |refs| ==> Resolve(ev, refs[i]) == Resolve(fv, refs[i])
    requires id in RefIds(refs) || SameAt(qs, rs, id)
    ensures SameAt(Asked(ev, qs, refs), Asked(fv, rs, refs), id)
    decreases refs
  {
    if refs != [] {
      RefIdsSnoc(refs);
      if refs[|refs| - 1].id != id {
        AskedAgree(ev, fv, qs, rs, refs[..|refs| - 1], id);
      }
    }
  }

  lemma {:induction false} AskedUntouched(ev: map<Id, Event>, qs: map<Id, Question>, refs: seq<Ref>, id: Id)
    requires id !in RefIds(refs)
    ensures SameAt(qs, Asked(ev, qs, refs), id)
    decreases refs
  {
    if refs != [] {
      RefIdsSnoc(refs);
      AskedUntouched(ev, qs, refs[..|refs| - 1], id);
    }
  }

  /** The messages behind the questions of `e` are stored by `e` itself or agree off `dirty`. */
  predicate ReadsOff(e: Event, dirty: set<Cell>) {
    e.body.ResponseRequired? ==>
      forall i :: 0 <= i < |e.body.questions| ==>
        e.body.questions[i].source == e.id || EventCell(e.body.questions[i].source) !in dirty
  }

  lemma QuestionsAgree(b: Bucket, c: Bucket, dirty: set<Cell>, e: Event, call: Id)
    requires AgreeOff(b, c, dirty) && ReadsOff(e, dirty)
    requires QuestionCell(call) in RefCells(e) || SameAt(b.questions, c.questions, call)
    ensures SameAt(QuestionsStep(b.events.vals, b.questions, e), QuestionsStep(c.events.vals, c.questions, e), call)
  {
    if e.body.ResponseRequired? {
      var refs := e.body.questions;
      var ev, fv := b.events.vals[e.id := e], c.events.vals[e.id := e];
      forall i | 0 <= i < |refs| ensures Resolve(ev, refs[i]) == Resolve(fv, refs[i]) {
        assert refs[i].source == e.id || AgreeAt(b, c, EventCell(refs[i].source));
      }
      AskedAgree(ev, fv, b.questions, c.questions, refs, call);
    }
  }

  lemma CellStep(route: Route, b: Bucket, c: Bucket, dirty: set<Cell>, e: Event, cell: Cell)
    requires AgreeOff(b, c, dirty) && ReadsOff(e, dirty)
    requires cell in Overwrites(route, e) || AgreeAt(b, c, cell)
    ensures AgreeAt(StepFields(route, b, e), StepFields(route, c, e), cell)
  {
    match cell {
      case QuestionCell(call) => QuestionsAgree(b, c, dirty, e, call);
      case _ =>
    }
  }

  /** One event on two buckets that agree off `dirty` cleans the cells it overwrites. */
  lemma StepAgree(route: Route, b: Bucket, c: Bucket, dirty: set<Cell>, e: Event)
    requires AgreeOff(b, c, dirty) && ReadsOff(e, dirty)
    ensures AgreeOff(StepFields(route, b, e), StepFields(route, c, e), dirty - Overwrites(route, e))
  {
    forall cell | cell !in dirty - Overwrites(route, e)
      ensures AgreeAt(StepFields(route, b, e), StepFields(route, c, e), cell)
    {
      CellStep(route, b, c, dirty, e, cell);
    }
  }

  lemma CellUntouched(route: Route, b: Bucket, e: Event, cell: Cell)
    requires cell !in Touches(route, e)
    ensures AgreeAt(b, StepFields(route, b, e), cell)
  {
    if e.body.ResponseRequired? && cell.QuestionCell? {
      AskedUntouched(b.events.vals[e.id := e], b.questions, e.body.questions, cell.call);
    }
  }

  lemma StepTouches(route: Route, b: Bucket, e: Event)
    ensures AgreeOff(b, StepFields(route, b, e), Touches(route, e))
  {
    forall cell | cell !in Touches(route, e) ensures AgreeAt(b, StepFields(route, b, e), cell) {
      CellUntouched(route, b, e, cell);
    }
  }

  // ----- One thread's log -----

  function BucketRun(route: Route, b: Bucket, log: seq<Event>): Bucket {
    if log == [] then b else BucketStep(route, BucketRun(route, b, log[..|log| - 1]), log[|log| - 1])
  }

  function OverwrittenBy(route: Route, log: seq<Event>): set<Cell> {
    if log == [] then {} else OverwrittenBy(route, log[..|log| - 1]) + Overwrites(route, log[|log| - 1])
  }

  function TouchedBy(route: Route, log: seq<Event>): set<Cell> {
    if log == [] then {} else TouchedBy(route, log[..|log| - 1]) + Touches(route, log[|log| - 1])
  }

  /** Every question reads a message that is clean by the time it is asked. */
  predicate Readable(route: Route, log: seq<Event>, dirty: set<Cell>) {
    log != [] ==>
      && Readable(route, log[..|log| - 1], dirty)
      && ReadsOff(log[|log| - 1], dirty - OverwrittenBy(route, log[..|log| - 1]))
  }

  /** Two buckets that disagree on `dirty` at most come together wherever the log overwrites. */
  lemma {:induction false} Absorb(route: Route, b: Bucket, c: Bucket, dirty: set<Cell>, log: seq<Event>)
    requires AgreeOff(b, c, dirty) && Readable(route, log, dirty)
    ensures AgreeOff(BucketRun(route, b, log), BucketRun(route, c, log), dirty - OverwrittenBy(route, log))
    decreases log
  {
    if log == [] {
      assert dirty - OverwrittenBy(route, log) == dirty;
    } else {
      var front, e := log[..|log| - 1], log[|log| - 1];
      Absorb(route, b, c, dirty, front);
      var left, right := BucketRun(route, b, front), BucketRun(route, c, front);
      var rest := dirty - OverwrittenBy(route, front);
      StepAgree(route, left, right, rest, e);
      BucketStepFields(route, left, e);
      BucketStepFields(route, right, e);
      assert rest - Overwrites(route, e) == dirty - OverwrittenBy(route, log);
    }
  }

  lemma AgreeOffChain(a: Bucket, b: Bucket, c: Bucket, left: set<Cell>, right: set<Cell>)
    requires AgreeOff(a, b, left) && AgreeOff(b, c, right)
    ensures AgreeOff(a, c, left + right)
  {
    forall cell | cell !in left + right ensures AgreeAt(a, c, cell) {
      assert AgreeAt(a, b, cell) && AgreeAt(b, c, cell);
    }
  }

  lemma {:induction false} RunTouches(route: Route, b: Bucket, log: seq<Event>)
    ensures AgreeOff(b, BucketRun(route, b, log), TouchedBy(route, log))
    decreases log
  {
    if log != [] {
      var front, e := log[..|log| - 1], log[|log| - 1];
      var middle := BucketRun(route, b, front);
      RunTouches(route, b, front);
      StepTouches(route, middle, e);
      BucketStepFields(route, middle, e);
      AgreeOffChain(b, middle, BucketRun(route, b, log), TouchedBy(route, front), Touches(route, e));
    }
  }

  // ----- The two insertion orders -----

  function StoredIds(route: Route, log: seq<Event>): seq<Id> {
    if log == [] then []
    else StoredIds(route, log[..|log| - 1]) + if Stored(route, log[|log| - 1]) then [log[|log| - 1].id] else []
  }

  function ModelIds(log: seq<Event>): seq<Id> {
    if log == [] then []
    else ModelIds(log[..|log| - 1]) + if log[|log| - 1].body.ModelMessage? then [log[|log| - 1].id] else []
  }

  lemma StepOrders(route: Route, b: Bucket, e: Event)
    ensures BucketStep(route, b, e).events.keys == AddKeys(b.events.keys, StoredIds(route, [e]))
    ensures BucketStep(route, b, e).modelIds == AddKeys(b.modelIds, ModelIds([e]))
  {
    BucketStepFields(route, b, e);
    assert [e][..0] == [];
    assert AddKeys(b.events.keys, [e.id]) == AddKey(b.events.keys, e.id) by { AddKeysSnoc(b.events.keys, [], e.id); }
    assert AddKeys(b.modelIds, [e.id]) == AddKey(b.modelIds, e.id) by { AddKeysSnoc(b.modelIds, [], e.id); }
  }

  lemma {:induction false} RunOrders(route: Route, b: Bucket, log: seq<Event>)
    ensures BucketRun(route, b, log).events.keys == AddKeys(b.events.keys, StoredIds(route, log))
    ensures BucketRun(route, b, log).modelIds == AddKeys(b.modelIds, ModelIds(log))
    decreases log
  {
    if log != [] {
      var front, e := log[..|log| - 1], log[|log| - 1];
      RunOrders(route, b, front);
      StepOrders(route, BucketRun(route, b, front), e);
      AddKeysConcat(b.events.keys, StoredIds(route, front), StoredIds(route, [e]));
      AddKeysConcat(b.modelIds, ModelIds(front), ModelIds([e]));
    }
  }

  lemma {:induction false} PrefixOrders(route: Route, prefix: seq<Event>, log: seq<Event>)
    requires prefix <= log
    ensures StoredIds(route, prefix) <= StoredIds(route, log) && ModelIds(prefix) <= ModelIds(log)
    ensures TouchedBy(route, prefix) <= TouchedBy(route, log)
    decreases log
  {
    if prefix != log {
      PrefixOrders(route, prefix, log[..|log| - 1]);
    }
  }

  lemma SameMaps<V>(m: map<Id, V>, n: map<Id, V>)
    requires forall k :: SameAt(m, n, k)
    ensures m == n
  {
    forall k ensures k in m <==> k in n { assert SameAt(m, n, k); }
    forall k | k in m ensures m[k] == n[k] { assert SameAt(m, n, k); }
  }

  lemma SameBucket(b: Bucket, c: Bucket)
    requires AgreeOff(b, c, {}) && b.events.keys == c.events.keys && b.modelIds == c.modelIds
    ensures b == c
  {
    forall id ensures SameAt(b.events.vals, c.events.vals, id) { assert AgreeAt(b, c, EventCell(id)); }
    SameMaps(b.events.vals, c.events.vals);
    forall id ensures SameAt(b.results, c.results, id) { assert AgreeAt(b, c, ResultCell(id)); }
    SameMaps(b.results, c.results);
    forall id ensures SameAt(b.questions, c.questions, id) { assert AgreeAt(b, c, QuestionCell(id)); }
    SameMaps(b.questions, c.questions);
    forall id ensures id in b.approvals <==> id in c.approvals { assert AgreeAt(b, c, ApprovalCell(id)); }
    assert b.approvals == c.approvals;
    assert AgreeAt(b, c, TitleCell) && AgreeAt(b, c, AgentCell) && AgreeAt(b, c, ErrorCell) && AgreeAt(b, c, DoneCell);
  }

  /** A reload folds persisted history first and then replays the turn from its start. Whatever
      the history wrote, only what the replay does not overwrite can differ afterwards. */
  lemma ResumeOverHistory(b: Bucket, history: seq<Event>, log: seq<Event>)
    requires Readable(Stream, log, TouchedBy(History, history))
    ensures AgreeOff(BucketRun(Stream, b, log), BucketRun(Stream, BucketRun(History, b, history), log),
                     TouchedBy(History, history) - OverwrittenBy(Stream, log))
  {
    RunTouches(History, b, history);
    Absorb(Stream, b, BucketRun(History, b, history), TouchedBy(History, history), log);
  }

  // ----- The whole session -----

  function IngestAll(route: Route, f: Fold, log: seq<Event>): Fold {
    if log == [] then f else Ingest(route, IngestAll(route, f, log[..|log| - 1]), log[|log| - 1])
  }

  /** The part of the log that reaches thread `t`. */
  function OnThread(route: Route, log: seq<Event>, t: Id): seq<Event> {
    if log == [] then []
    else
      var e := log[|log| - 1];
      OnThread(route, log[..|log| - 1], t) + if !Skipped(route, e) && e.thread == Some(t) then [e] else []
  }

  function ThreadsOf(route: Route, log: seq<Event>): seq<Id> {
    if log == [] then []
    else
      var e := log[|log| - 1];
      ThreadsOf(route, log[..|log| - 1]) + if Skipped(route, e) then [] else [e.thread.value]
  }

  predicate Linking(route: Route, e: Event) {
    !Skipped(route, e) && e.body.ThreadCreated?
  }

  function LinkedThreads(route: Route, log: seq<Event>): seq<Id> {
    if log == [] then []
    else
      var e := log[|log| - 1];
      LinkedThreads(route, log[..|log| - 1]) + if Linking(route, e) then [e.thread.value] else []
  }

  function Links(route: Route, log: seq<Event>): map<Id, Link> {
    if log == [] then map[]
    else
      var e := log[|log| - 1];
      if Linking(route, e) then Links(route, log[..|log| - 1])[e.thread.value := e.body.link]
      else Links(route, log[..|log| - 1])
  }

  lemma IngestBucket(route: Route, f: Fold, e: Event, t: Id)
    ensures BucketOf(Ingest(route, f, e), t)
      == if !Skipped(route, e) && e.thread == Some(t) then BucketStep(route, BucketOf(f, t), e) else BucketOf(f, t)
    ensures t in Ingest(route, f, e).threads.vals
      <==> t in f.threads.vals || (!Skipped(route, e) && e.thread == Some(t))
  {
  }

  lemma IngestRest(route: Route, f: Fold, e: Event)
    ensures Ingest(route, f, e).threads.keys
      == if Skipped(route, e) then f.threads.keys else AddKey(f.threads.keys, e.thread.value)
    ensures Ingest(route, f, e).parents
      == if Linking(route, e) then f.parents.Set(e.thread.value, e.body.link) else f.parents
  {
  }

  lemma {:induction false} IngestAllBucket(route: Route, f: Fold, log: seq<Event>, t: Id)
    ensures BucketOf(IngestAll(route, f, log), t) == BucketRun(route, BucketOf(f, t), OnThread(route, log, t))
    ensures t in IngestAll(route, f, log).threads.vals <==> t in f.threads.vals || t in ThreadsOf(route, log)
    decreases log
  {
    if log != [] {
      var front, e := log[..|log| - 1], log[|log| - 1];
      IngestAllBucket(route, f, front, t);
      IngestBucket(route, IngestAll(route, f, front), e, t);
      var before := OnThread(route, front, t);
      assert before + [] == before && (before + [e])[..|before|] == before;
    }
  }

  lemma {:induction false} IngestAllKeys(route: Route, f: Fold, log: seq<Event>)
    ensures IngestAll(route, f, log).threads.keys == AddKeys(f.threads.keys, ThreadsOf(route, log))
    decreases log
  {
    if log != [] {
      var front, e := log[..|log| - 1], log[|log| - 1];
      IngestAllKeys(route, f, front);
      IngestRest(route, IngestAll(route, f, front), e);
      if !Skipped(route, e) {
        AddKeysSnoc(f.threads.keys, ThreadsOf(route, front), e.thread.value);
      }
      assert ThreadsOf(route, front) + [] == ThreadsOf(route, front);
    }
  }

  lemma {:induction false} LinksThreads(route: Route, log: seq<Event>, t: Id)
    ensures t in Links(route, log) <==> t in LinkedThreads(route, log)
    decreases log
  {
    if log != [] {
      LinksThreads(route, log[..|log| - 1], t);
    }
  }

  lemma ParentsSnoc(keys: seq<Id>, added: seq<Id>, vals: map<Id, Link>, links: map<Id, Link>, t: Id, link: Link)
    ensures JsMap(AddKeys(keys, added), vals + links).Set(t, link) == JsMap(AddKeys(keys, added + [t]), vals + links[t := link])
  {
    AddKeysSnoc(keys, added, t);
  }

  lemma {:induction false} IngestAllParents(route: Route, f: Fold, log: seq<Event>)
    ensures IngestAll(route, f, log).parents
      == JsMap(AddKeys(f.parents.keys, LinkedThreads(route, log)), f.parents.vals + Links(route, log))
    decreases log
  {
    if log == [] {
      assert f.parents.vals + map[] == f.parents.vals;
    } else {
      var front, e := log[..|log| - 1], log[|log| - 1];
      IngestAllParents(route, f, front);
      IngestRest(route, IngestAll(route, f, front), e);
      if Linking(route, e) {
        ParentsSnoc(f.parents.keys, LinkedThreads(route, front), f.parents.vals, Links(route, front), e.thread.value, e.body.link);
      } else {
        assert LinkedThreads(route, front) + [] == LinkedThreads(route, front);
      }
    }
  }

  lemma {:induction false} PrefixThreads(route: Route, prefix: seq<Event>, log: seq<Event>, t: Id)
    requires prefix <= log
    ensures OnThread(route, prefix, t) <= OnThread(route, log, t)
    ensures ThreadsOf(route, prefix) <= ThreadsOf(route, log)
    ensures LinkedThreads(route, prefix) <= LinkedThreads(route, log)
    decreases log
  {
    if prefix != log {
      PrefixThreads(route, prefix, log[..|log| - 1], t);
    }
  }

  /** Two folds whose buckets, links and orders are the same are the same fold. */
  lemma SameFold(f: Fold, g: Fold)
    requires f.threads.keys == g.threads.keys && f.parents == g.parents
    requires forall t :: (t in f.threads.vals <==> t in g.threads.vals) && BucketOf(f, t) == BucketOf(g, t)
    ensures f == g
  {
    forall t ensures SameAt(f.threads.vals, g.threads.vals, t) {
      assert BucketOf(f, t) == BucketOf(g, t);
    }
    SameMaps(f.threads.vals, g.threads.vals);
  }

  lemma ReplayKeys(route: Route, f: Fold, prefix: seq<Event>, log: seq<Event>)
    requires prefix <= log
    ensures IngestAll(route, IngestAll(route, f, prefix), log).threads.keys == IngestAll(route, f, log).threads.keys
  {
    IngestAllKeys(route, f, prefix);
    IngestAllKeys(route, f, log);
    IngestAllKeys(route, IngestAll(route, f, prefix), log);
    PrefixThreads(route, prefix, log, ROOT);
    AddKeysReplay(f.threads.keys, ThreadsOf(route, prefix), ThreadsOf(route, log));
  }

  lemma UnionAbsorbed(vals: map<Id, Link>, some: map<Id, Link>, all: map<Id, Link>)
    requires some.Keys <= all.Keys
    ensures (vals + some) + all == vals + all
  {
  }

  lemma ReplayParents(route: Route, f: Fold, prefix: seq<Event>, log: seq<Event>)
    requires prefix <= log
    ensures IngestAll(route, IngestAll(route, f, prefix), log).parents == IngestAll(route, f, log).parents
  {
    IngestAllParents(route, f, prefix);
    IngestAllParents(route, f, log);
    IngestAllParents(route, IngestAll(route, f, prefix), log);
    PrefixThreads(route, prefix, log, ROOT);
    AddKeysReplay(f.parents.keys, LinkedThreads(route, prefix), LinkedThreads(route, log));
    forall t | t in Links(route, prefix) ensures t in Links(route, log) {
      LinksThreads(route, prefix, t);
      LinksThreads(route, log, t);
    }
    UnionAbsorbed(f.parents.vals, Links(route, prefix), Links(route, log));
  }
}
