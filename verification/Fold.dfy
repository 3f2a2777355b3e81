/** Folding a session's events into per-thread buckets, and joining two folds. */
module Fold {
  import opened JsMaps
  import opened Events
  import Deltas

  /** `asked` is the argument text of the ask-user call the reference resolves to. */
  datatype Question = Question(source: Id, asked: Option<string>)

  /** `modelIds` are in arrival order, and so are the keys of `events`. The other maps are
      only ever looked up by key. */
  datatype Bucket = Bucket(
    events: JsMap<Id, Event>,
    modelIds: seq<Id>,
    results: map<Id, string>,
    approvals: set<Id>,
    decisions: map<Id, Decision>,
    questions: map<Id, Question>,
    done: bool,
    error: Option<string>,
    title: Option<string>,
    agent: Option<string>)

  datatype Fold = Fold(threads: JsMap<Id, Bucket>, parents: JsMap<Id, Link>)

  const EMPTY_BUCKET := Bucket(JsMap([], map[]), [], map[], {}, map[], map[], false, None, None, None)

  const EMPTY := Fold(JsMap([], map[]), JsMap([], map[]))

  function BucketOf(f: Fold, t: Id): Bucket {
    if t in f.threads.vals then f.threads.vals[t] else EMPTY_BUCKET
  }

  function WithBucket(f: Fold, t: Id, b: Bucket): Fold {
    f.(threads := f.threads.Set(t, b))
  }

  // ----- One event into one bucket -----

  function FindCall(calls: Deltas.Calls, id: Id): Option<Deltas.ToolCall> {
    if calls == [] then None
    else if calls[0].Some? && calls[0].value.id == id then calls[0]
    else FindCall(calls[1..], id)
  }

  /** The ask-user call behind a reference, if its message is in the bucket. */
  function Resolve(events: map<Id, Event>, r: Ref): Option<string> {
    if r.source in events && events[r.source].body.ModelMessage? then
      match FindCall(Deltas.CallList(events[r.source].body.message), r.id)
      case Some(call) => Some(call.args)
      case None => None
    else
      None
  }

  function MergeDelta(base: Event, d: Deltas.Delta): Event {
    if base.body.ModelMessage?
    then base.(body := ModelMessage(Deltas.MergeStream(base.body.message, d)))
    else base
  }

  function Asked(events: map<Id, Event>, questions: map<Id, Question>, refs: seq<Ref>): map<Id, Question> {
    if refs == [] then questions
    else
      var r := refs[|refs| - 1];
      Asked(events, questions, refs[..|refs| - 1])[r.id := Question(r.source, Resolve(events, r))]
  }

  function RefIds(refs: seq<Ref>): set<Id> {
    set i | 0 <= i < |refs| :: refs[i].id
  }

  predicate Asks(e: Event, call: Id) {
    e.body.ResponseRequired? && call in RefIds(e.body.questions)
  }

  predicate Answers(e: Event, call: Id) {
    e.body.ToolResponse? && e.body.toolCallId == call
  }

  function ThreadDoneError(failed: bool, error: Option<string>): Option<string> {
    if !failed then None
    else if Deltas.Truthy(error) then error
    else Some("Sub-agent failed")
  }

  function IngestIntoBucket(b: Bucket, e: Event): Bucket {
    if IsTurnScoped(e) then b
    else if e.body.ModelMessageDelta? then
      if e.id in b.events.vals
      then b.(events := b.events.(vals := b.events.vals[e.id := MergeDelta(b.events.vals[e.id], e.body.delta)]))
      else b
    else
      var b := b.(events := b.events.Set(e.id, e));
      match e.body
      case ModelMessage(_) => b.(modelIds := AddKey(b.modelIds, e.id))
      case ToolResponse(call, content) =>
        b.(results := b.results[call := content], questions := b.questions - {call})
      case ApprovalRequired(refs) => b.(approvals := b.approvals + RefIds(refs))
      case ResponseRequired(refs) => b.(questions := Asked(b.events.vals, b.questions, refs))
      case ThreadDone(title, failed, error) =>
        b.(done := true,
           title := if Deltas.Truthy(title) then title else b.title,
           error := ThreadDoneError(failed, error).Or(b.error))
      case _ => b
  }

  function Named(b: Bucket, e: Event): Bucket {
    if e.body.ThreadCreated? then b.(title := Some(e.body.title), agent := Some(e.body.agent)) else b
  }

  // ----- One event into the fold, from persisted history or from a live stream -----

  datatype Route = History | Stream

  /** A live stream keeps turn lifecycle and MCP-auth events out of the fold. */
  predicate Skipped(route: Route, e: Event) {
    || e.thread.None?
    || (route.Stream? && (IsTurnScoped(e) || e.body.McpAuthRequired?))
  }

  function BucketStep(route: Route, b: Bucket, e: Event): Bucket {
    if route.Stream? && e.body.ThreadCreated? then Named(b, e) else IngestIntoBucket(Named(b, e), e)
  }

  function Ingest(route: Route, f: Fold, e: Event): Fold {
    if Skipped(route, e) then f
    else
      var t := e.thread.value;
      WithBucket(f, t, BucketStep(route, BucketOf(f, t), e))
      .(parents := if e.body.ThreadCreated? then f.parents.Set(t, e.body.link) else f.parents)
  }

  // ----- Answers recorded in the fold -----

  function AnswerIn(b: Bucket, call: Id, content: string): Bucket {
    b.(results := b.results[call := content], questions := b.questions - {call})
  }

  function DecideIn(b: Bucket, call: Id, d: Decision): Bucket {
    b.(decisions := b.decisions[call := d], approvals := b.approvals - {call})
  }

  predicate AsksIn(b: Bucket, call: Id) {
    call in b.questions
  }

  predicate AwaitsIn(b: Bucket, call: Id) {
    call in b.approvals
  }

  /** The answer goes to every thread that asks the question, or to the root when none does. */
  function Answer(f: Fold, call: Id, content: string): Fold {
    if exists t | t in f.threads.vals :: AsksIn(f.threads.vals[t], call) then
      f.(threads := JsMap(f.threads.keys,
           map t | t in f.threads.vals ::
             if AsksIn(f.threads.vals[t], call) then AnswerIn(f.threads.vals[t], call, content)
             else f.threads.vals[t]))
    else
      WithBucket(f, ROOT, AnswerIn(BucketOf(f, ROOT), call, content))
  }

  function Decide(f: Fold, call: Id, d: Decision): Fold {
    if exists t | t in f.threads.vals :: AwaitsIn(f.threads.vals[t], call) then
      f.(threads := JsMap(f.threads.keys,
           map t | t in f.threads.vals ::
             if AwaitsIn(f.threads.vals[t], call) then DecideIn(f.threads.vals[t], call, d)
             else f.threads.vals[t]))
    else
      WithBucket(f, ROOT, BucketOf(f, ROOT).(decisions := BucketOf(f, ROOT).decisions[call := d]))
  }

  /** Everything that changes a fold. */
  datatype Op = Ingested(route: Route, event: Event) | Answered(call: Id, content: string)
              | Decided(call: Id, decision: Decision)

  function Apply(f: Fold, op: Op): Fold {
    match op
    case Ingested(route, e) => Ingest(route, f, e)
    case Answered(call, content) => Answer(f, call, content)
    case Decided(call, d) => Decide(f, call, d)
  }

  function Run(f: Fold, ops: seq<Op>): Fold {
    if ops == [] then f else Apply(Run(f, ops[..|ops| - 1]), ops[|ops| - 1])
  }

  lemma {:induction false} RunConcat(f: Fold, a: seq<Op>, b: seq<Op>)
    ensures Run(f, a + b) == Run(Run(f, a), b)
    decreases b
  {
    if b == [] {
      assert a + b == a;
    } else {
      RunConcat(f, a, b[..|b| - 1]);
      assert (a + b)[..|a + b| - 1] == a + b[..|b| - 1];
    }
  }

  lemma RunSnoc(f: Fold, ops: seq<Op>, op: Op)
    ensures Run(f, ops + [op]) == Apply(Run(f, ops), op)
  {
    assert (ops + [op])[..|ops|] == ops;
  }

  function ItemOps(item: InputItem): seq<Op> {
    match item
    case UserMessage(_) => []
    case UserToolResponse(call, content) => [Answered(call, content)]
    case UserToolApproval(call, allow, reason) => [Decided(call, Decision(allow, if allow then None else reason))]
  }

  /** Answers carried by a turn's input, in order. */
  function InputOps(input: seq<InputItem>): seq<Op> {
    if input == [] then [] else ItemOps(input[0]) + InputOps(input[1..])
  }

  // ----- Joining an older fold in front of a newer one -----

  function JoinBuckets(older: Bucket, newer: Bucket): Bucket {
    Bucket(older.events.Joined(newer.events),
           older.modelIds + newer.modelIds,
           older.results + newer.results,
           older.approvals + newer.approvals,
           older.decisions + newer.decisions,
           older.questions + newer.questions,
           newer.done || older.done,
           newer.error.Or(older.error),
           newer.title.Or(older.title),
           newer.agent.Or(older.agent))
  }

  function JoinedBucket(older: Fold, newer: Fold, t: Id): Bucket {
    if t !in older.threads.vals then BucketOf(newer, t)
    else if t !in newer.threads.vals then older.threads.vals[t]
    else JoinBuckets(older.threads.vals[t], newer.threads.vals[t])
  }

  function JoinedBuckets(older: Fold, newer: Fold): map<Id, Bucket> {
    map t | t in older.threads.vals.Keys + newer.threads.vals.Keys :: JoinedBucket(older, newer, t)
  }

  function Prepend(older: Fold, newer: Fold): Fold {
    Fold(JsMap(AddKeys(older.threads.keys, newer.threads.keys), JoinedBuckets(older, newer)),
         older.parents.Joined(newer.parents))
  }
}
