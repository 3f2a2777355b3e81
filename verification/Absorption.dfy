/** Replaying a log onto a fold that already holds part of it. Merging a delta is not idempotent, so
    not every log can be replayed: this says exactly which logs can. */
module Absorption {
  import opened JsMaps
  import opened Events
  import opened Fold
  import opened Replay
  import Deltas
  import PrependLaws

  // ----- Messages of a log -----

  predicate StoredIn(route: Route, log: seq<Event>, id: Id) {
    exists i :: 0 <= i < |log| && Stored(route, log[i]) && log[i].id == id
  }

  function DeltasFor(log: seq<Event>, id: Id): seq<Deltas.Delta> {
    if log == [] then []
    else
      var e := log[|log| - 1];
      DeltasFor(log[..|log| - 1], id) + if e.body.ModelMessageDelta? && e.id == id then [e.body.delta] else []
  }

  function MergeAll(m: Deltas.Message, ds: seq<Deltas.Delta>): Deltas.Message {
    if ds == [] then m else Deltas.MergeStream(MergeAll(m, ds[..|ds| - 1]), ds[|ds| - 1])
  }

  function MergedAll(base: Event, ds: seq<Deltas.Delta>): Event {
    if base.body.ModelMessage? then base.(body := ModelMessage(MergeAll(base.body.message, ds))) else base
  }

  lemma MergedSnoc(base: Event, ds: seq<Deltas.Delta>, d: Deltas.Delta)
    ensures MergedAll(base, ds + [d]) == MergeDelta(MergedAll(base, ds), d)
    ensures MergedAll(base, []) == base
  {
    assert (ds + [d])[..|ds|] == ds;
  }

  lemma BucketRunSnoc(route: Route, b: Bucket, log: seq<Event>)
    requires log != []
    ensures BucketRun(route, b, log) == StepFields(route, BucketRun(route, b, log[..|log| - 1]), log[|log| - 1])
  {
    BucketStepFields(route, BucketRun(route, b, log[..|log| - 1]), log[|log| - 1]);
  }

  lemma StoredFront(route: Route, log: seq<Event>, id: Id)
    requires log != []
    ensures StoredIn(route, log, id) <==>
      StoredIn(route, log[..|log| - 1], id) || (Stored(route, log[|log| - 1]) && log[|log| - 1].id == id)
  {
    var n := |log| - 1;
    if StoredIn(route, log[..n], id) {
      var i :| 0 <= i < n && Stored(route, log[..n][i]) && log[..n][i].id == id;
      assert log[i] == log[..n][i];
    }
    if StoredIn(route, log, id) {
      var i :| 0 <= i < |log| && Stored(route, log[i]) && log[i].id == id;
      assert i < n ==> log[..n][i] == log[i];
    }
  }

  /** A message that the log stores ends up the same whatever was there before. */
  lemma {:induction false} StoredCell(route: Route, b: Bucket, c: Bucket, log: seq<Event>, id: Id)
    requires StoredIn(route, log, id)
    ensures SameAt(BucketRun(route, b, log).events.vals, BucketRun(route, c, log).events.vals, id)
    decreases log
  {
    StoredFront(route, log, id);
    BucketRunSnoc(route, b, log);
    BucketRunSnoc(route, c, log);
    if !(Stored(route, log[|log| - 1]) && log[|log| - 1].id == id) {
      StoredCell(route, b, c, log[..|log| - 1], id);
    }
  }

  /** `n` holds at `id` what `m` does, with the deltas merged. */
  ghost predicate MergedAt(m: map<Id, Event>, n: map<Id, Event>, id: Id, ds: seq<Deltas.Delta>) {
    (id in m <==> id in n) && (id in m ==> n[id] == MergedAll(m[id], ds))
  }

  /** A message that the log does not store is what was there before with the log's deltas merged. */
  lemma {:induction false} UnstoredCell(route: Route, b: Bucket, log: seq<Event>, id: Id)
    requires !StoredIn(route, log, id)
    ensures MergedAt(b.events.vals, BucketRun(route, b, log).events.vals, id, DeltasFor(log, id))
    decreases log
  {
    if log == [] {
      if id in b.events.vals {
        assert MergedAll(b.events.vals[id], []) == b.events.vals[id];
      }
    } else {
      var front, e := log[..|log| - 1], log[|log| - 1];
      StoredFront(route, log, id);
      UnstoredCell(route, b, front, id);
      BucketRunSnoc(route, b, log);
      assert DeltasFor(front, id) + [] == DeltasFor(front, id);
      if id in b.events.vals && e.body.ModelMessageDelta? {
        MergedSnoc(b.events.vals[id], DeltasFor(front, id), e.body.delta);
      }
    }
  }

  lemma {:induction false} PrefixDeltas(prefix: seq<Event>, log: seq<Event>, id: Id)
    requires prefix <= log
    ensures DeltasFor(prefix, id) <= DeltasFor(log, id)
    decreases log
  {
    if prefix != log {
      PrefixDeltas(prefix, log[..|log| - 1], id);
    }
  }

  /** Some prefix of the log holds the first `k` deltas of the message. */
  lemma {:induction false} CutDeltas(log: seq<Event>, id: Id, k: nat) returns (p: nat)
    requires k <= |DeltasFor(log, id)|
    ensures p <= |log| && DeltasFor(log[..p], id) == DeltasFor(log, id)[..k]
    decreases log
  {
    p := |log|;
    assert log[..p] == log;
    if k < |DeltasFor(log, id)| {
      var front := log[..|log| - 1];
      p := CutDeltas(front, id, k);
      assert front[..p] == log[..p];
      assert DeltasFor(log, id)[..k] == DeltasFor(front, id)[..k];
    }
  }

  // ----- Questions of a log -----

  predicate Writes(e: Event, call: Id) {
    Asks(e, call) || Answers(e, call)
  }

  predicate NoneWrites(log: seq<Event>, i: nat, call: Id) {
    forall j :: i <= j < |log| ==> !Writes(log[j], call)
  }

  /** The reference that counts when several have the same id. */
  function LastRef(refs: seq<Ref>, id: Id): Ref
    requires id in RefIds(refs)
  {
    RefIdsSnoc(refs);
    if refs[|refs| - 1].id == id then refs[|refs| - 1] else LastRef(refs[..|refs| - 1], id)
  }

  lemma {:induction false} LastRefAmong(refs: seq<Ref>, id: Id) returns (k: nat)
    requires id in RefIds(refs)
    ensures k < |refs| && refs[k] == LastRef(refs, id) && refs[k].id == id && PrependLaws.IsLast(refs, k)
    decreases refs
  {
    RefIdsSnoc(refs);
    k := |refs| - 1;
    if refs[k].id != id {
      k := LastRefAmong(refs[..k], id);
    }
  }

  lemma LastRefAsked(events: map<Id, Event>, questions: map<Id, Question>, refs: seq<Ref>, id: Id)
    requires id in RefIds(refs)
    ensures var r := LastRef(refs, id);
      id in Asked(events, questions, refs) && Asked(events, questions, refs)[id] == Question(r.source, Resolve(events, r))
  {
    var k := LastRefAmong(refs, id);
    PrependLaws.AskedAt(events, questions, refs, id);
  }

  lemma {:induction false} Unwritten(route: Route, b: Bucket, log: seq<Event>, i: nat, call: Id)
    requires i <= |log| && NoneWrites(log, i, call)
    ensures SameAt(BucketRun(route, b, log[..i]).questions, BucketRun(route, b, log).questions, call)
    decreases |log| - i
  {
    assert log[..|log|] == log;
    if i < |log| {
      var front, e := log[..|log| - 1], log[|log| - 1];
      assert front[..i] == log[..i];
      forall j | i <= j < |front| ensures !Writes(front[j], call) {
        assert front[j] == log[j];
      }
      Unwritten(route, b, front, i, call);
      BucketRunSnoc(route, b, log);
      if e.body.ResponseRequired? {
        var before := BucketRun(route, b, front);
        AskedUntouched(before.events.vals[e.id := e], before.questions, e.body.questions, call);
      }
    }
  }

  lemma {:induction false} LastWriter(log: seq<Event>, call: Id) returns (i: nat)
    requires !NoneWrites(log, 0, call)
    ensures i < |log| && Writes(log[i], call) && NoneWrites(log, i + 1, call)
    decreases log
  {
    i := |log| - 1;
    if !Writes(log[i], call) {
      var j :| 0 <= j < |log| && Writes(log[j], call);
      assert Writes(log[..|log| - 1][j], call);
      i := LastWriter(log[..|log| - 1], call);
      forall k | i + 1 <= k < |log| - 1 ensures !Writes(log[k], call) {
        assert log[k] == log[..|log| - 1][k];
      }
    }
  }

  /** Where the log asks last, the question is what its reference resolves to there. */
  lemma AskedLast(route: Route, b: Bucket, log: seq<Event>, i: nat, call: Id)
    requires i < |log| && Asks(log[i], call) && NoneWrites(log, i + 1, call)
    ensures var r, events := LastRef(log[i].body.questions, call), BucketRun(route, b, log[..i]).events.vals[log[i].id := log[i]];
      && call in BucketRun(route, b, log).questions
      && BucketRun(route, b, log).questions[call] == Question(r.source, Resolve(events, r))
  {
    var e, before := log[i], BucketRun(route, b, log[..i]);
    Unwritten(route, b, log, i + 1, call);
    assert log[..i + 1][..i] == log[..i];
    BucketRunSnoc(route, b, log[..i + 1]);
    LastRefAsked(before.events.vals[e.id := e], before.questions, e.body.questions, call);
  }

  lemma AnsweredLast(route: Route, b: Bucket, log: seq<Event>, i: nat, call: Id)
    requires i < |log| && Writes(log[i], call) && !Asks(log[i], call) && NoneWrites(log, i + 1, call)
    ensures call !in BucketRun(route, b, log).questions
  {
    Unwritten(route, b, log, i + 1, call);
    assert log[..i + 1][..i] == log[..i];
    BucketRunSnoc(route, b, log[..i + 1]);
  }

  // ----- Which logs can be replayed -----

  /** Merging these deltas once more after any number of them changes nothing. */
  ghost predicate Steady(ds: seq<Deltas.Delta>) {
    forall x: Deltas.Message, k: nat :: k <= |ds| ==> MergeAll(MergeAll(x, ds[..k]), ds) == MergeAll(x, ds)
  }

  function ArgsOf(m: Deltas.Message, call: Id): Option<string> {
    match FindCall(Deltas.CallList(m), call)
    case Some(found) => Some(found.args)
    case None => None
  }

  /** What a question reads after the first `n` deltas is the same after a replay that began with
      any number of them. */
  ghost predicate SteadyRead(ds: seq<Deltas.Delta>, n: nat, call: Id)
    requires n <= |ds|
  {
    forall x: Deltas.Message, k: nat :: k <= |ds| ==>
      ArgsOf(MergeAll(MergeAll(x, ds[..k]), ds[..n]), call) == ArgsOf(MergeAll(x, ds[..n]), call)
  }

  /** The reference asked at position `i` resolves alike whatever the message was before: the log has
      stored it by then, or it never does and the deltas leave the answer alone. */
  ghost predicate ReadsAlike(route: Route, log: seq<Event>, i: nat, r: Ref)
    requires i < |log|
  {
    || r.source == log[i].id
    || StoredIn(route, log[..i], r.source)
    || (!StoredIn(route, log, r.source)
        && |DeltasFor(log[..i], r.source)| <= |DeltasFor(log, r.source)|
        && SteadyRead(DeltasFor(log, r.source), |DeltasFor(log[..i], r.source)|, r.id))
  }

  ghost predicate ReadsAlikeWhenLast(route: Route, log: seq<Event>, i: nat, call: Id)
    requires i < |log|
  {
    Asks(log[i], call) && NoneWrites(log, i + 1, call) ==> ReadsAlike(route, log, i, LastRef(log[i].body.questions, call))
  }

  /** Every message is stored by the log or its deltas are steady, and every question that the log
      leaves open reads a message that is the same in a replay. */
  ghost predicate Absorbing(route: Route, log: seq<Event>) {
    && (forall id :: StoredIn(route, log, id) || Steady(DeltasFor(log, id)))
    && (forall i: nat, call :: i < |log| ==> ReadsAlikeWhenLast(route, log, i, call))
  }

  // ----- Such a log is absorbed -----

  lemma PlainStep(route: Route, b: Bucket, c: Bucket, e: Event, cell: Cell)
    requires !cell.EventCell? && !cell.QuestionCell?
    requires cell in Overwrites(route, e) || AgreeAt(b, c, cell)
    ensures AgreeAt(StepFields(route, b, e), StepFields(route, c, e), cell)
  {
  }

  lemma {:induction false} PlainRun(route: Route, b: Bucket, c: Bucket, log: seq<Event>, cell: Cell)
    requires !cell.EventCell? && !cell.QuestionCell?
    requires cell in TouchedBy(route, log) || AgreeAt(b, c, cell)
    ensures AgreeAt(BucketRun(route, b, log), BucketRun(route, c, log), cell)
    decreases log
  {
    if log != [] {
      var front, e := log[..|log| - 1], log[|log| - 1];
      BucketRunSnoc(route, b, log);
      BucketRunSnoc(route, c, log);
      if cell !in Touches(route, e) {
        PlainRun(route, b, c, front, cell);
      }
      PlainStep(route, BucketRun(route, b, front), BucketRun(route, c, front), e, cell);
    }
  }

  /** The bucket once and twice. */
  lemma PlainCells(route: Route, b: Bucket, prefix: seq<Event>, log: seq<Event>, cell: Cell)
    requires prefix <= log && !cell.EventCell? && !cell.QuestionCell?
    ensures AgreeAt(BucketRun(route, b, log), BucketRun(route, BucketRun(route, b, prefix), log), cell)
  {
    RunTouches(route, b, prefix);
    PrefixOrders(route, prefix, log);
    PlainRun(route, b, BucketRun(route, b, prefix), log, cell);
  }

  lemma MergedTwice(base: Event, first: seq<Deltas.Delta>, ds: seq<Deltas.Delta>)
    requires Steady(ds) && first <= ds
    ensures MergedAll(MergedAll(base, first), ds) == MergedAll(base, ds)
  {
    if base.body.ModelMessage? {
      assert first == ds[..|first|];
      assert MergeAll(MergeAll(base.body.message, ds[..|first|]), ds) == MergeAll(base.body.message, ds);
    }
  }

  lemma EventCells(route: Route, b: Bucket, prefix: seq<Event>, log: seq<Event>, id: Id)
    requires prefix <= log && (StoredIn(route, log, id) || Steady(DeltasFor(log, id)))
    ensures SameAt(BucketRun(route, b, log).events.vals, BucketRun(route, BucketRun(route, b, prefix), log).events.vals, id)
  {
    var c := BucketRun(route, b, prefix);
    if StoredIn(route, log, id) {
      StoredCell(route, b, c, log, id);
    } else {
      UnstoredInPrefix(route, prefix, log, id);
      UnstoredCell(route, b, prefix, id);
      UnstoredCell(route, b, log, id);
      UnstoredCell(route, c, log, id);
      PrefixDeltas(prefix, log, id);
      if id in b.events.vals {
        MergedTwice(b.events.vals[id], DeltasFor(prefix, id), DeltasFor(log, id));
      }
    }
  }

  lemma UnstoredInPrefix(route: Route, prefix: seq<Event>, log: seq<Event>, id: Id)
    requires prefix <= log && !StoredIn(route, log, id)
    ensures !StoredIn(route, prefix, id)
  {
  }

  /** The message that a question reads, once and twice. */
  lemma ReadTwice(route: Route, b: Bucket, prefix: seq<Event>, log: seq<Event>, i: nat, r: Ref)
    requires prefix <= log && i < |log| && log[i].body.ResponseRequired? && ReadsAlike(route, log, i, r)
    ensures var once, twice := BucketRun(route, b, log[..i]).events.vals, BucketRun(route, BucketRun(route, b, prefix), log[..i]).events.vals;
      Resolve(once[log[i].id := log[i]], r) == Resolve(twice[log[i].id := log[i]], r)
  {
    var c, front, source := BucketRun(route, b, prefix), log[..i], r.source;
    if source != log[i].id {
      if StoredIn(route, front, source) {
        StoredCell(route, b, c, front, source);
      } else {
        UnstoredInPrefix(route, prefix, log, source);
        UnstoredInPrefix(route, front, log, source);
        UnstoredCell(route, b, prefix, source);
        UnstoredCell(route, b, front, source);
        UnstoredCell(route, c, front, source);
        PrefixDeltas(prefix, log, source);
        PrefixDeltas(front, log, source);
        if source in b.events.vals && b.events.vals[source].body.ModelMessage? {
          ReadSteady(b.events.vals[source].body.message, DeltasFor(prefix, source), DeltasFor(front, source), DeltasFor(log, source), r.id);
        }
      }
    }
  }

  lemma ReadSteady(x: Deltas.Message, first: seq<Deltas.Delta>, before: seq<Deltas.Delta>, ds: seq<Deltas.Delta>,
                   call: Id)
    requires first <= ds && before <= ds && SteadyRead(ds, |before|, call)
    ensures ArgsOf(MergeAll(MergeAll(x, first), before), call) == ArgsOf(MergeAll(x, before), call)
  {
    assert first == ds[..|first|] && before == ds[..|before|];
    assert ArgsOf(MergeAll(MergeAll(x, ds[..|first|]), ds[..|before|]), call) == ArgsOf(MergeAll(x, ds[..|before|]), call);
  }

  lemma QuestionCells(route: Route, b: Bucket, prefix: seq<Event>, log: seq<Event>, call: Id)
    requires prefix <= log && forall i: nat, call :: i < |log| ==> ReadsAlikeWhenLast(route, log, i, call)
    ensures SameAt(BucketRun(route, b, log).questions, BucketRun(route, BucketRun(route, b, prefix), log).questions, call)
  {
    var c := BucketRun(route, b, prefix);
    if NoneWrites(log, 0, call) {
      forall j | 0 <= j < |prefix| ensures !Writes(prefix[j], call) {
        assert prefix[j] == log[j];
      }
      Unwritten(route, b, prefix, 0, call);
      Unwritten(route, b, log, 0, call);
      Unwritten(route, c, log, 0, call);
      assert log[..0] == [] == prefix[..0];
    } else {
      var i := LastWriter(log, call);
      if Asks(log[i], call) {
        assert ReadsAlikeWhenLast(route, log, i, call);
        AskedLast(route, b, log, i, call);
        AskedLast(route, c, log, i, call);
        ReadTwice(route, b, prefix, log, i, LastRef(log[i].body.questions, call));
      } else {
        AnsweredLast(route, b, log, i, call);
        AnsweredLast(route, c, log, i, call);
      }
    }
  }

  lemma ReplayOrders(route: Route, b: Bucket, prefix: seq<Event>, log: seq<Event>)
    requires prefix <= log
    ensures var once, twice := BucketRun(route, b, log), BucketRun(route, BucketRun(route, b, prefix), log);
      once.events.keys == twice.events.keys && once.modelIds == twice.modelIds && once.decisions == twice.decisions
  {
    var c := BucketRun(route, b, prefix);
    PrefixOrders(route, prefix, log);
    RunOrders(route, b, prefix);
    RunOrders(route, b, log);
    RunOrders(route, c, log);
    AddKeysReplay(b.events.keys, StoredIds(route, prefix), StoredIds(route, log));
    AddKeysReplay(b.modelIds, ModelIds(prefix), ModelIds(log));
    RunTouches(route, b, prefix);
    RunTouches(route, b, log);
    RunTouches(route, c, log);
  }

  lemma BucketAbsorbed(route: Route, b: Bucket, prefix: seq<Event>, log: seq<Event>)
    requires prefix <= log && Absorbing(route, log)
    ensures BucketRun(route, BucketRun(route, b, prefix), log) == BucketRun(route, b, log)
  {
    var once, twice := BucketRun(route, b, log), BucketRun(route, BucketRun(route, b, prefix), log);
    ReplayOrders(route, b, prefix, log);
    forall cell ensures AgreeAt(once, twice, cell) {
      match cell {
        case EventCell(id) => EventCells(route, b, prefix, log, id);
        case QuestionCell(call) => QuestionCells(route, b, prefix, log, call);
        case _ => PlainCells(route, b, prefix, log, cell);
      }
    }
    SameBucket(once, twice);
  }

  // ----- Only such a log is -----

  /** However the bucket starts and wherever the log was cut, replaying it changes nothing. */
  ghost predicate AlwaysAbsorbed(route: Route, log: seq<Event>) {
    forall b, prefix :: prefix <= log ==> BucketRun(route, BucketRun(route, b, prefix), log) == BucketRun(route, b, log)
  }

  /** A bucket that holds one message. */
  function Holding(id: Id, m: Deltas.Message): Bucket {
    EMPTY_BUCKET.(events := JsMap([id], map[id := Event(id, None, 0, ModelMessage(m))]))
  }

  lemma HeldMerged(route: Route, id: Id, m: Deltas.Message, prefix: seq<Event>, log: seq<Event>)
    requires !StoredIn(route, prefix, id) && !StoredIn(route, log, id)
    ensures var events := BucketRun(route, BucketRun(route, Holding(id, m), prefix), log).events.vals;
      && id in events && events[id].body == ModelMessage(MergeAll(MergeAll(m, DeltasFor(prefix, id)), DeltasFor(log, id)))
  {
    UnstoredCell(route, Holding(id, m), prefix, id);
    UnstoredCell(route, BucketRun(route, Holding(id, m), prefix), log, id);
  }

  lemma DeltasAreSteady(route: Route, log: seq<Event>, id: Id)
    requires AlwaysAbsorbed(route, log) && !StoredIn(route, log, id)
    ensures Steady(DeltasFor(log, id))
  {
    var ds := DeltasFor(log, id);
    forall x: Deltas.Message, k: nat | k <= |ds| ensures MergeAll(MergeAll(x, ds[..k]), ds) == MergeAll(x, ds) {
      var p := CutDeltas(log, id, k);
      UnstoredInPrefix(route, log[..p], log, id);
      HeldMerged(route, id, x, log[..p], log);
      HeldMerged(route, id, x, [], log);
      assert BucketRun(route, Holding(id, x), []) == Holding(id, x);
      assert BucketRun(route, BucketRun(route, Holding(id, x), log[..p]), log) == BucketRun(route, Holding(id, x), log);
    }
  }

  // A message with a call that no delta of the log can reach.

  function Bound(fs: seq<Deltas.Fragment>): (n: nat)
    ensures forall i :: 0 <= i < |fs| ==> fs[i].index < n
  {
    if fs == [] then 0
    else
      var rest, f := Bound(fs[..|fs| - 1]), fs[|fs| - 1];
      if f.index < rest then rest else f.index + 1
  }

  function BoundAll(ds: seq<Deltas.Delta>): nat {
    if ds == [] then 0
    else
      var rest, own := BoundAll(ds[..|ds| - 1]), Bound(Deltas.Fragments(ds[|ds| - 1]));
      if own < rest then rest else own
  }

  lemma {:induction false} FarFragments(calls: Deltas.Calls, fs: seq<Deltas.Fragment>, n: nat)
    requires n < |calls| && forall i :: 0 <= i < |fs| ==> fs[i].index < n
    ensures n < |Deltas.RuntimeCalls(calls, fs)| && Deltas.RuntimeCalls(calls, fs)[n] == calls[n]
    decreases fs
  {
    if fs != [] {
      FarFragments(Deltas.RuntimeCall(calls, fs[0]), fs[1..], n);
    }
  }

  lemma {:induction false} FarCall(m: Deltas.Message, ds: seq<Deltas.Delta>, n: nat)
    requires BoundAll(ds) <= n < |Deltas.CallList(m)|
    ensures n < |Deltas.CallList(MergeAll(m, ds))| && Deltas.CallList(MergeAll(m, ds))[n] == Deltas.CallList(m)[n]
    decreases ds
  {
    if ds != [] {
      var front, d := ds[..|ds| - 1], ds[|ds| - 1];
      FarCall(m, front, n);
      FarFragments(Deltas.CallList(MergeAll(m, front)), Deltas.Fragments(d), n);
    }
  }

  lemma {:induction false} FoundAt(calls: Deltas.Calls, n: nat, id: Id)
    requires n < |calls| && calls[n].Some? && calls[n].value.id == id
    ensures FindCall(calls, id).Some?
    decreases calls
  {
    if n > 0 {
      FoundAt(calls[1..], n - 1, id);
    }
  }

  /** Whatever the deltas, some message still has the call after them. */
  lemma SomeMessageHas(ds: seq<Deltas.Delta>, call: Id) returns (m: Deltas.Message)
    ensures ArgsOf(MergeAll(m, ds), call).Some?
  {
    var n := BoundAll(ds);
    var calls: Deltas.Calls := seq(n, _ => None) + [Some(Deltas.ToolCall(call, "", "", None))];
    m := Deltas.Message(Deltas.Absent, None, None, Some(calls), None, None);
    FarCall(m, ds, n);
    FoundAt(Deltas.CallList(MergeAll(m, ds)), n, call);
  }

  lemma AskedTwice(route: Route, b: Bucket, prefix: seq<Event>, log: seq<Event>, i: nat, call: Id)
    requires AlwaysAbsorbed(route, log) && prefix <= log
    requires i < |log| && Asks(log[i], call) && NoneWrites(log, i + 1, call)
    ensures var r := LastRef(log[i].body.questions, call);
      var once, twice := BucketRun(route, b, log[..i]).events.vals, BucketRun(route, BucketRun(route, b, prefix), log[..i]).events.vals;
      Resolve(once[log[i].id := log[i]], r) == Resolve(twice[log[i].id := log[i]], r)
  {
    assert BucketRun(route, BucketRun(route, b, prefix), log) == BucketRun(route, b, log);
    AskedLast(route, b, log, i, call);
    AskedLast(route, BucketRun(route, b, prefix), log, i, call);
  }

  /** A message stored only after the question reads it: a replay reads what the log stored, and the
      first reading what happened to be there. */
  lemma NotStoredLater(route: Route, log: seq<Event>, i: nat, call: Id, r: Ref)
    requires AlwaysAbsorbed(route, log) && i < |log| && Asks(log[i], call) && NoneWrites(log, i + 1, call)
    requires r == LastRef(log[i].body.questions, call) && r.source != log[i].id
    ensures StoredIn(route, log[..i], r.source) || !StoredIn(route, log, r.source)
  {
    if !StoredIn(route, log[..i], r.source) && StoredIn(route, log, r.source) {
      var front, source := log[..i], r.source;
      var ds := DeltasFor(front, source);
      var m := SomeMessageHas(ds, r.id);
      var held := Holding(source, m);
      AskedTwice(route, EMPTY_BUCKET, log, log, i, call);
      AskedTwice(route, held, log, log, i, call);
      UnstoredCell(route, EMPTY_BUCKET, front, source);
      UnstoredCell(route, held, front, source);
      StoredCell(route, EMPTY_BUCKET, held, log, source);
      UnstoredCell(route, BucketRun(route, EMPTY_BUCKET, log), front, source);
      UnstoredCell(route, BucketRun(route, held, log), front, source);
    }
  }

  lemma ReadOnce(route: Route, source: Id, m: Deltas.Message, prefix: seq<Event>, front: seq<Event>, e: Event, r: Ref)
    requires !StoredIn(route, prefix, source) && !StoredIn(route, front, source) && r.source == source && source != e.id
    ensures Resolve(BucketRun(route, BucketRun(route, Holding(source, m), prefix), front).events.vals[e.id := e], r)
      == ArgsOf(MergeAll(MergeAll(m, DeltasFor(prefix, source)), DeltasFor(front, source)), r.id)
  {
    HeldMerged(route, source, m, prefix, front);
  }

  lemma ReadFromHolding(route: Route, log: seq<Event>, i: nat, call: Id, r: Ref, x: Deltas.Message, prefix: seq<Event>)
    requires AlwaysAbsorbed(route, log) && i < |log| && Asks(log[i], call) && NoneWrites(log, i + 1, call)
    requires r == LastRef(log[i].body.questions, call) && r.source != log[i].id && !StoredIn(route, log, r.source)
    requires prefix <= log
    ensures ArgsOf(MergeAll(MergeAll(x, DeltasFor(prefix, r.source)), DeltasFor(log[..i], r.source)), r.id)
      == ArgsOf(MergeAll(x, DeltasFor(log[..i], r.source)), r.id)
  {
    var front, source := log[..i], r.source;
    UnstoredInPrefix(route, front, log, source);
    UnstoredInPrefix(route, prefix, log, source);
    AskedTwice(route, Holding(source, x), prefix, log, i, call);
    ReadOnce(route, source, x, prefix, front, log[i], r);
    ReadOnce(route, source, x, [], front, log[i], r);
    assert BucketRun(route, Holding(source, x), []) == Holding(source, x);
    assert MergeAll(x, DeltasFor([], source)) == x;
  }

  lemma ReadsAreSteady(route: Route, log: seq<Event>, i: nat, call: Id, r: Ref)
    requires AlwaysAbsorbed(route, log) && i < |log| && Asks(log[i], call) && NoneWrites(log, i + 1, call)
    requires r == LastRef(log[i].body.questions, call) && r.source != log[i].id && !StoredIn(route, log, r.source)
    requires |DeltasFor(log[..i], r.source)| <= |DeltasFor(log, r.source)|
    ensures SteadyRead(DeltasFor(log, r.source), |DeltasFor(log[..i], r.source)|, r.id)
  {
    var before, ds := DeltasFor(log[..i], r.source), DeltasFor(log, r.source);
    PrefixDeltas(log[..i], log, r.source);
    assert before == ds[..|before|];
    forall x: Deltas.Message, k: nat | k <= |ds|
      ensures ArgsOf(MergeAll(MergeAll(x, ds[..k]), ds[..|before|]), r.id) == ArgsOf(MergeAll(x, ds[..|before|]), r.id)
    {
      var p := CutDeltas(log, r.source, k);
      ReadFromHolding(route, log, i, call, r, x, log[..p]);
    }
  }

  lemma ReadsAre(route: Route, log: seq<Event>, i: nat, call: Id)
    requires AlwaysAbsorbed(route, log) && i < |log|
    ensures ReadsAlikeWhenLast(route, log, i, call)
  {
    if Asks(log[i], call) && NoneWrites(log, i + 1, call) {
      var r := LastRef(log[i].body.questions, call);
      if r.source != log[i].id && !StoredIn(route, log[..i], r.source) {
        NotStoredLater(route, log, i, call, r);
        PrefixDeltas(log[..i], log, r.source);
        ReadsAreSteady(route, log, i, call, r);
      }
    }
  }

  /** A thread's log may be replayed in full on top of any prefix of itself, whatever the bucket was,
      exactly when every message is stored by the log or has steady deltas, and every question left
      open reads a message that is the same in a replay. */
  lemma BucketReplay(route: Route, log: seq<Event>)
    ensures AlwaysAbsorbed(route, log) <==> Absorbing(route, log)
  {
    if Absorbing(route, log) {
      forall b, prefix | prefix <= log ensures BucketRun(route, BucketRun(route, b, prefix), log) == BucketRun(route, b, log) {
        BucketAbsorbed(route, b, prefix, log);
      }
    }
    if AlwaysAbsorbed(route, log) {
      forall id ensures StoredIn(route, log, id) || Steady(DeltasFor(log, id)) {
        if !StoredIn(route, log, id) {
          DeltasAreSteady(route, log, id);
        }
      }
      forall i: nat, call | i < |log| ensures ReadsAlikeWhenLast(route, log, i, call) {
        ReadsAre(route, log, i, call);
      }
    }
  }

  // ----- The whole session -----

  /** Every thread's part of the log can be replayed. */
  ghost predicate Replayable(route: Route, log: seq<Event>) {
    forall t :: Absorbing(route, OnThread(route, log, t))
  }

  ghost predicate AlwaysReplayed(route: Route, log: seq<Event>) {
    forall f, prefix :: prefix <= log ==> IngestAll(route, IngestAll(route, f, prefix), log) == IngestAll(route, f, log)
  }

  lemma ReplayedBucket(route: Route, f: Fold, prefix: seq<Event>, log: seq<Event>, t: Id)
    requires prefix <= log && Absorbing(route, OnThread(route, log, t))
    ensures var once, twice := IngestAll(route, f, log), IngestAll(route, IngestAll(route, f, prefix), log);
      (t in once.threads.vals <==> t in twice.threads.vals) && BucketOf(once, t) == BucketOf(twice, t)
  {
    IngestAllBucket(route, f, prefix, t);
    IngestAllBucket(route, f, log, t);
    IngestAllBucket(route, IngestAll(route, f, prefix), log, t);
    PrefixThreads(route, prefix, log, t);
    BucketAbsorbed(route, BucketOf(f, t), OnThread(route, prefix, t), OnThread(route, log, t));
  }

  /** Ingesting a replayable log onto a fold that already holds any prefix of it gives the fold that
      ingesting it once gives. */
  lemma Replayed(route: Route, f: Fold, prefix: seq<Event>, log: seq<Event>)
    requires prefix <= log && Replayable(route, log)
    ensures IngestAll(route, IngestAll(route, f, prefix), log) == IngestAll(route, f, log)
  {
    forall t ensures
      var once, twice := IngestAll(route, f, log), IngestAll(route, IngestAll(route, f, prefix), log);
      (t in once.threads.vals <==> t in twice.threads.vals) && BucketOf(once, t) == BucketOf(twice, t)
    {
      ReplayedBucket(route, f, prefix, log, t);
    }
    ReplayKeys(route, f, prefix, log);
    ReplayParents(route, f, prefix, log);
    SameFold(IngestAll(route, IngestAll(route, f, prefix), log), IngestAll(route, f, log));
  }

  /** Some prefix of the log reaches the thread with a given prefix of its part. */
  lemma {:induction false} CutThread(route: Route, log: seq<Event>, t: Id, part: seq<Event>) returns (p: nat)
    requires part <= OnThread(route, log, t)
    ensures p <= |log| && OnThread(route, log[..p], t) == part
    decreases log
  {
    p := |log|;
    assert log[..p] == log;
    if part != OnThread(route, log, t) {
      var front := log[..|log| - 1];
      p := CutThread(route, front, t, part);
      assert front[..p] == log[..p];
    }
  }

  lemma ThreadAbsorbed(route: Route, log: seq<Event>, t: Id)
    requires AlwaysReplayed(route, log)
    ensures AlwaysAbsorbed(route, OnThread(route, log, t))
  {
    var thread := OnThread(route, log, t);
    forall b, prefix | prefix <= thread
      ensures BucketRun(route, BucketRun(route, b, prefix), thread) == BucketRun(route, b, thread)
    {
      var f := WithBucket(EMPTY, t, b);
      var p := CutThread(route, log, t, prefix);
      assert BucketOf(f, t) == b;
      assert IngestAll(route, IngestAll(route, f, log[..p]), log) == IngestAll(route, f, log);
      IngestAllBucket(route, f, log[..p], t);
      IngestAllBucket(route, f, log, t);
      IngestAllBucket(route, IngestAll(route, f, log[..p]), log, t);
    }
  }

  /** A replay is absorbed, whatever the fold was and wherever the log was cut, exactly when every
      thread's part of the log can be replayed. */
  lemma ReplayAbsorbed(route: Route, log: seq<Event>)
    ensures AlwaysReplayed(route, log) <==> Replayable(route, log)
  {
    if Replayable(route, log) {
      forall f, prefix | prefix <= log
        ensures IngestAll(route, IngestAll(route, f, prefix), log) == IngestAll(route, f, log)
      {
        Replayed(route, f, prefix, log);
      }
    }
    if AlwaysReplayed(route, log) {
      forall t ensures Absorbing(route, OnThread(route, log, t)) {
        ThreadAbsorbed(route, log, t);
        BucketReplay(route, OnThread(route, log, t));
      }
    }
  }

  // ----- What servers send -----

  /** Position `i` of the log has the message `id` stored before it. */
  predicate StoredBefore(route: Route, log: seq<Event>, i: int, id: Id)
    requires 0 <= i <= |log|
  {
    exists j :: 0 <= j < i && Stored(route, log[j]) && log[j].id == id
  }

  /** Every delta comes after its base message, and so does every reference of a question,
      unless the log never writes the message referred to. */
  predicate Grounded(route: Route, log: seq<Event>) {
    forall i :: 0 <= i < |log| ==>
      && (log[i].body.ModelMessageDelta? ==> StoredBefore(route, log, i, log[i].id))
      && (log[i].body.ResponseRequired? ==> forall k :: 0 <= k < |log[i].body.questions| ==>
           var source := log[i].body.questions[k].source;
           source == log[i].id || StoredBefore(route, log, i, source) || forall j :: 0 <= j < |log| ==> log[j].id != source)
  }

  lemma {:induction false} NoDeltas(route: Route, log: seq<Event>, id: Id)
    requires forall i :: 0 <= i < |log| && log[i].body.ModelMessageDelta? ==> log[i].id != id
    ensures DeltasFor(log, id) == []
    decreases log
  {
    if log != [] {
      NoDeltas(route, log[..|log| - 1], id);
    }
  }

  lemma GroundedDeltas(route: Route, log: seq<Event>, id: Id)
    requires Grounded(route, log) && !StoredIn(route, log, id)
    ensures DeltasFor(log, id) == []
  {
    forall i | 0 <= i < |log| && log[i].body.ModelMessageDelta? ensures log[i].id != id {
    }
    NoDeltas(route, log, id);
  }

  /** A log that brings every delta's base, and every question's message, before it can be replayed. */
  lemma GroundedAbsorbs(route: Route, log: seq<Event>)
    requires Grounded(route, log)
    ensures Absorbing(route, log)
  {
    forall id ensures StoredIn(route, log, id) || Steady(DeltasFor(log, id)) {
      if !StoredIn(route, log, id) {
        GroundedDeltas(route, log, id);
      }
    }
    forall i: nat, call | i < |log| ensures ReadsAlikeWhenLast(route, log, i, call) {
      if Asks(log[i], call) {
        GroundedReads(route, log, i, call);
      }
    }
  }

  lemma GroundedReads(route: Route, log: seq<Event>, i: nat, call: Id)
    requires Grounded(route, log) && i < |log| && Asks(log[i], call)
    ensures ReadsAlike(route, log, i, LastRef(log[i].body.questions, call))
  {
    var k := LastRefAmong(log[i].body.questions, call);
    var source := log[i].body.questions[k].source;
    if StoredBefore(route, log, i, source) {
      var j :| 0 <= j < i && Stored(route, log[j]) && log[j].id == source;
      assert log[..i][j] == log[j];
    } else if source != log[i].id {
      NoDeltas(route, log, source);
      NoDeltas(route, log[..i], source);
    }
  }

  /** Without its base in the log, a delta is merged again by the replay. */
  lemma UngroundedDelta() returns (f: Fold, log: seq<Event>)
    ensures IngestAll(Stream, IngestAll(Stream, f, log), log) != IngestAll(Stream, f, log)
  {
    var message := Deltas.Message(Deltas.Text("a"), None, None, None, None, None);
    var delta := Deltas.Delta(Some("b"), None, None, None, None, None, []);
    var base := Event("m", Some(ROOT), 0, ModelMessage(message));
    var e := Event("m", Some(ROOT), 1, ModelMessageDelta(delta));
    f := Ingest(Stream, EMPTY, base);
    log := [e];
    var once := Ingest(Stream, f, e);
    var twice := Ingest(Stream, once, e);
    assert log[..0] == [];
    assert IngestAll(Stream, f, []) == f && IngestAll(Stream, once, []) == once;
    assert IngestAll(Stream, f, log) == once && IngestAll(Stream, once, log) == twice;
    assert BucketOf(f, ROOT).events.vals["m"] == base;
    assert Deltas.MergeStream(message, delta).content == Deltas.Text("ab");
    assert BucketOf(once, ROOT).events.vals["m"].body.message.content == Deltas.Text("ab");
    assert BucketOf(twice, ROOT).events.vals["m"].body.message.content == Deltas.Text("abb");
  }
}
