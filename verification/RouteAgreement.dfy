/** A turn read live and the same turn reloaded from history render to the same parts, although
    history also keeps events that a live stream drops. */
module RouteAgreement {
  import opened JsMaps
  import opened Events
  import opened Fold
  import opened TimeOrder
  import opened Compaction
  import opened Replay
  import opened Rendering
  import Deltas
  import Reconnect

  /** Events a live stream keeps out of the buckets are not rendered. */
  predicate Shown(e: Event) {
    !e.body.ThreadCreated? && !e.body.McpAuthRequired? && !e.body.SandboxCreated?
  }

  // ----- The walk does not see what is dropped -----

  lemma {:induction false} FilterConcat(keep: Event -> bool, a: seq<Entry>, b: seq<Entry>)
    ensures Filter(keep, a + b) == Filter(keep, a) + Filter(keep, b)
    decreases b
  {
    if b == [] {
      assert a + b == a;
    } else {
      var front, last := b[..|b| - 1], b[|b| - 1];
      assert b == front + [last];
      FilterConcat(keep, a, front);
      Regroup(a, front, [last]);
      FilterSnoc(keep, a + front, last);
      FilterSnoc(keep, front, last);
      Regroup(Filter(keep, a), Filter(keep, front), if keep(last.event) then [last] else []);
    }
  }

  lemma FilterCons(keep: Event -> bool, e: Entry, s: seq<Entry>)
    ensures Filter(keep, [e] + s) == (if keep(e.event) then [e] else []) + Filter(keep, s)
  {
    FilterConcat(keep, [e], s);
    FilterSnoc(keep, [], e);
    assert [] + [e] == [e];
  }

  lemma {:induction false} FilterDistinct(keep: Event -> bool, s: seq<Entry>)
    requires DistinctIds(s)
    ensures DistinctIds(Filter(keep, s))
    decreases s
  {
    if s != [] {
      var front, last := s[..|s| - 1], s[|s| - 1];
      FilterDistinct(keep, front);
      FilterMembers(keep, front);
      forall i | 0 <= i < |Filter(keep, front)| ensures Filter(keep, front)[i].id != last.id {
        assert Filter(keep, front)[i] in front;
      }
    }
  }

  lemma {:induction false} FirstScansDrop(s: seq<Entry>)
    ensures FirstModel(Filter(Shown, s)) == FirstModel(s) && FirstFinish(Filter(Shown, s)) == FirstFinish(s)
    decreases s
  {
    if s != [] {
      FirstScansDrop(s[1..]);
      assert s == [s[0]] + s[1..];
      FilterCons(Shown, s[0], s[1..]);
      if Shown(s[0].event) {
        assert Filter(Shown, s)[0] == s[0] && Filter(Shown, s)[1..] == Filter(Shown, s[1..]);
      } else {
        assert Filter(Shown, s) == Filter(Shown, s[1..]);
      }
    }
  }

  lemma {:induction false} LastScanDrops(s: seq<Entry>)
    ensures LastModel(Filter(Shown, s)) == LastModel(s)
    decreases s
  {
    if s != [] {
      var front, last := s[..|s| - 1], s[|s| - 1];
      LastScanDrops(front);
      if Shown(last.event) {
        assert Filter(Shown, s)[..|Filter(Shown, front)|] == Filter(Shown, front);
      } else {
        assert Filter(Shown, s) == Filter(Shown, front);
      }
    }
  }

  lemma FilterAround(order: seq<Entry>, p: nat, before: seq<Entry>, rest: seq<Entry>)
    requires p < |order| && Shown(order[p].event)
    requires before == Filter(Shown, order[..p]) && rest == Filter(Shown, order[p + 1..])
    ensures Filter(Shown, order) == before + ([order[p]] + rest)
  {
    assert order == order[..p] + ([order[p]] + order[p + 1..]);
    FilterConcat(Shown, order[..p], [order[p]] + order[p + 1..]);
    FilterCons(Shown, order[p], order[p + 1..]);
  }

  lemma CutAt(order: seq<Entry>, before: seq<Entry>, e: Entry, rest: seq<Entry>)
    requires DistinctIds(order) && order == before + ([e] + rest)
    ensures After(order, e.id) == rest && Before(order, e.id) == before
  {
    AfterAt(order, |before|);
    assert order[|before|] == e && order[|before| + 1..] == rest && order[..|before|] == before;
  }

  /** Around a shown entry, dropping commutes with cutting. */
  lemma CutDrops(order: seq<Entry>, p: nat)
    requires DistinctIds(order) && p < |order| && Shown(order[p].event)
    ensures After(Filter(Shown, order), order[p].id) == Filter(Shown, order[p + 1..])
    ensures Before(Filter(Shown, order), order[p].id) == Filter(Shown, order[..p])
  {
    FilterAround(order, p, Filter(Shown, order[..p]), Filter(Shown, order[p + 1..]));
    FilterDistinct(Shown, order);
    CutAt(Filter(Shown, order), Filter(Shown, order[..p]), order[p], Filter(Shown, order[p + 1..]));
  }

  /** All that deciding on a compaction reads is kept. */
  lemma ScansDrop(order: seq<Entry>, p: nat)
    requires DistinctIds(order) && p < |order| && Shown(order[p].event)
    ensures NextModelMessageIdAfter(Filter(Shown, order), order[p].id) == NextModelMessageIdAfter(order, order[p].id)
    ensures PreviousModelMessageIdBefore(Filter(Shown, order), order[p].id) == PreviousModelMessageIdBefore(order, order[p].id)
    ensures FinishedForStarted(Filter(Shown, order), order[p].id) == FinishedForStarted(order, order[p].id)
  {
    CutDrops(order, p);
    AfterAt(order, p);
    FirstScansDrop(order[p + 1..]);
    LastScanDrops(order[..p]);
  }

  lemma StartedDrops(order: seq<Entry>, shown: seq<Entry>, p: nat, at: int, scope: Option<set<Id>>,
                     settled: Option<int>)
    requires DistinctIds(order) && p < |order| && Shown(order[p].event) && shown == Filter(Shown, order)
    ensures ShouldIncludeStarted(shown, order[p].id, at, scope, settled) == ShouldIncludeStarted(order, order[p].id, at, scope, settled)
    ensures FinishedForStarted(shown, order[p].id) == FinishedForStarted(order, order[p].id)
  {
    ScansDrop(order, p);
  }

  lemma SameStart(h: Bucket, s: Bucket, order: seq<Entry>, shown: seq<Entry>, e: Entry, scope: Option<set<Id>>,
                  models: set<Id>, parent: Parent)
    requires s == h.(events := s.events) && e.event.body.CompactionStarted?
    requires ShouldIncludeStarted(shown, e.id, e.event.at, scope, parent.settled)
      == ShouldIncludeStarted(order, e.id, e.event.at, scope, parent.settled)
    requires FinishedForStarted(shown, e.id) == FinishedForStarted(order, e.id)
    ensures PartsOf(h, order, e, scope, models, parent) == PartsOf(s, shown, e, scope, models, parent)
  {
  }

  lemma SameRest(h: Bucket, s: Bucket, order: seq<Entry>, shown: seq<Entry>, e: Entry, scope: Option<set<Id>>,
                 models: set<Id>, parent: Parent)
    requires s == h.(events := s.events) && !e.event.body.CompactionStarted?
    ensures PartsOf(h, order, e, scope, models, parent) == PartsOf(s, shown, e, scope, models, parent)
    ensures !Shown(e.event) ==> PartsOf(h, order, e, scope, models, parent) == []
  {
    if e.event.body.ModelMessage? {
      SameContent(h, s, e.event.body.message);
    }
  }

  lemma PartsDrop(h: Bucket, s: Bucket, order: seq<Entry>, shown: seq<Entry>, p: nat, e: Entry,
                  scope: Option<set<Id>>, models: set<Id>, parent: Parent)
    requires DistinctIds(order) && p < |order| && e == order[p] && s == h.(events := s.events) && shown == Filter(Shown, order)
    ensures PartsOf(h, order, e, scope, models, parent)
      == if Shown(e.event) then PartsOf(s, shown, e, scope, models, parent) else []
  {
    if e.event.body.CompactionStarted? {
      StartedDrops(order, shown, p, e.event.at, scope, parent.settled);
      SameStart(h, s, order, shown, e, scope, models, parent);
    } else {
      SameRest(h, s, order, shown, e, scope, models, parent);
    }
  }

  lemma SameContent(h: Bucket, s: Bucket, m: Deltas.Message)
    requires s == h.(events := s.events)
    ensures BuildAssistantContent(h, m) == BuildAssistantContent(s, m)
  {
    SameTools(h, s, Deltas.CallList(m));
  }

  lemma {:induction false} SameTools(h: Bucket, s: Bucket, calls: Deltas.Calls)
    requires s == h.(events := s.events)
    ensures ToolParts(h, calls) == ToolParts(s, calls)
    decreases calls
  {
    if calls != [] {
      SameTools(h, s, calls[1..]);
    }
  }

  lemma WalkSnoc(b: Bucket, order: seq<Entry>, entries: seq<Entry>, e: Entry, scope: Option<set<Id>>,
                 models: set<Id>, parent: Parent)
    ensures Walk(b, order, entries + [e], scope, models, parent)
      == Walk(b, order, entries, scope, models, parent) + PartsOf(b, order, e, scope, models, parent)
  {
    assert (entries + [e])[..|entries|] == entries;
  }

  lemma WalkDropsOne(h: Bucket, s: Bucket, order: seq<Entry>, shown: seq<Entry>, front: seq<Entry>, kept: seq<Entry>,
                     e: Entry,
                     scope: Option<set<Id>>, models: set<Id>, parent: Parent)
    requires Walk(h, order, front, scope, models, parent) == Walk(s, shown, kept, scope, models, parent)
    requires PartsOf(h, order, e, scope, models, parent)
      == if Shown(e.event) then PartsOf(s, shown, e, scope, models, parent) else []
    ensures Walk(h, order, front + [e], scope, models, parent)
      == Walk(s, shown, if Shown(e.event) then kept + [e] else kept, scope, models, parent)
  {
    WalkSnoc(h, order, front, e, scope, models, parent);
    if Shown(e.event) {
      WalkSnoc(s, shown, kept, e, scope, models, parent);
    }
  }

  ghost predicate Within(entries: seq<Entry>, order: seq<Entry>) {
    forall i :: 0 <= i < |entries| ==> entries[i] in order
  }

  lemma {:induction false} WalkDrops(h: Bucket, s: Bucket, order: seq<Entry>, shown: seq<Entry>, entries: seq<Entry>,
                                     scope: Option<set<Id>>, models: set<Id>, parent: Parent)
    requires DistinctIds(order) && Within(entries, order) && s == h.(events := s.events) && shown == Filter(Shown, order)
    ensures Walk(h, order, entries, scope, models, parent) == Walk(s, shown, Filter(Shown, entries), scope, models, parent)
    decreases entries
  {
    if entries != [] {
      var front, e := entries[..|entries| - 1], entries[|entries| - 1];
      WalkDrops(h, s, order, shown, front, scope, models, parent);
      var p :| 0 <= p < |order| && order[p] == e;
      PartsDrop(h, s, order, shown, p, e, scope, models, parent);
      WalkDropsOne(h, s, order, shown, front, Filter(Shown, front), e, scope, models, parent);
      LastKept(entries, front, e);
    }
  }

  lemma LastKept(entries: seq<Entry>, front: seq<Entry>, e: Entry)
    requires entries != [] && front == entries[..|entries| - 1] && e == entries[|entries| - 1]
    ensures entries == front + [e]
    ensures Filter(Shown, entries) == if Shown(e.event) then Filter(Shown, front) + [e] else Filter(Shown, front)
  {
  }

  // ----- The two routes keep the same buckets, up to what is dropped -----

  /** The live bucket is the reloaded one without the events that are not shown. */
  ghost predicate Alike(h: Bucket, s: Bucket) {
    && h.events.Valid() && s.events.Valid()
    && Entries(s) == Filter(Shown, Entries(h))
    && s == h.(events := s.events)
  }

  lemma EntriesOfSet(b: Bucket, e: Event)
    requires b.events.Valid() && e.id !in b.events.vals
    ensures b.events.Set(e.id, e).Valid()
    ensures Entries(b.(events := b.events.Set(e.id, e))) == Entries(b) + [Entry(e.id, e)]
  {
  }

  lemma AlikeAt(h: Bucket, s: Bucket, id: Id)
    requires Alike(h, s)
    ensures id in s.events.vals <==> id in h.events.vals && Shown(h.events.vals[id])
    ensures id in s.events.vals ==> s.events.vals[id] == h.events.vals[id]
  {
    FilterMembers(Shown, Entries(h));
    if id in s.events.vals {
      var i :| 0 <= i < |s.events.keys| && s.events.keys[i] == id;
      assert Entries(s)[i] in Filter(Shown, Entries(h));
      var j :| 0 <= j < |Entries(h)| && Entries(h)[j] == Entries(s)[i];
    }
    if id in h.events.vals && Shown(h.events.vals[id]) {
      var j :| 0 <= j < |h.events.keys| && h.events.keys[j] == id;
      assert Entries(h)[j] in Entries(s);
      var i :| 0 <= i < |Entries(s)| && Entries(s)[i] == Entries(h)[j];
    }
  }

  lemma ResolveAlike(h: Bucket, s: Bucket, e: Event, r: Ref)
    requires Alike(h, s)
    ensures Resolve(h.events.vals[e.id := e], r) == Resolve(s.events.vals[e.id := e], r)
  {
    AlikeAt(h, s, r.source);
  }

  lemma {:induction false} AskedAlike(h: Bucket, s: Bucket, e: Event, refs: seq<Ref>)
    requires Alike(h, s)
    ensures Asked(h.events.vals[e.id := e], h.questions, refs) == Asked(s.events.vals[e.id := e], s.questions, refs)
    decreases refs
  {
    if refs != [] {
      AskedAlike(h, s, e, refs[..|refs| - 1]);
      ResolveAlike(h, s, e, refs[|refs| - 1]);
    }
  }

  /** What the stream route does with one event of the log. */
  function StreamStep(s: Bucket, e: Event): Bucket {
    if Reconnect.IsKept(e) then StepFields(Stream, s, e) else s
  }

  lemma AlikeEvents(h: Bucket, s: Bucket, e: Event)
    requires Alike(h, s) && e.id !in h.events.vals && !IsTurnScoped(e) && !e.body.ModelMessageDelta?
    ensures StepFields(History, h, e).events == h.events.Set(e.id, e)
    ensures StreamStep(s, e).events == if Shown(e) then s.events.Set(e.id, e) else s.events
  {
    AlikeAt(h, s, e.id);
  }

  lemma AlikeStep(h: Bucket, s: Bucket, e: Event)
    requires Alike(h, s) && e.id !in h.events.vals && !IsTurnScoped(e) && !e.body.ModelMessageDelta?
    ensures Alike(StepFields(History, h, e), StreamStep(s, e))
  {
    var hh, ss := StepFields(History, h, e), StreamStep(s, e);
    AlikeAt(h, s, e.id);
    AlikeEvents(h, s, e);
    EntriesOfSet(h, e);
    FilterSnoc(Shown, Entries(h), Entry(e.id, e));
    if Shown(e) {
      EntriesOfSet(s, e);
    }
    assert Entries(ss) == Filter(Shown, Entries(hh));
    if e.body.ResponseRequired? {
      AskedAlike(h, s, e, e.body.questions);
    }
    assert ss == hh.(events := ss.events);
  }

  /** Every event of the log is its own, and none extends another. */
  predicate Plain(log: seq<Event>) {
    && (forall i :: 0 <= i < |log| ==> !IsTurnScoped(log[i]) && !log[i].body.ModelMessageDelta?)
    && (forall i, j :: 0 <= i < j < |log| ==> log[i].id != log[j].id)
  }

  lemma {:induction false} KeysFromLog(log: seq<Event>, id: Id)
    requires id in BucketRun(History, EMPTY_BUCKET, log).events.vals
    ensures exists i :: 0 <= i < |log| && log[i].id == id
    decreases log
  {
    if log != [] {
      var n := |log| - 1;
      BucketStepFields(History, BucketRun(History, EMPTY_BUCKET, log[..n]), log[n]);
      if id != log[n].id {
        KeysFromLog(log[..n], id);
        var i :| 0 <= i < n && log[..n][i].id == id;
        assert log[i].id == id;
      }
    }
  }

  lemma EmptyAlike()
    ensures Alike(EMPTY_BUCKET, EMPTY_BUCKET)
  {
    assert Entries(EMPTY_BUCKET) == [];
  }

  lemma HistorySnoc(log: seq<Event>, e: Event)
    ensures BucketRun(History, EMPTY_BUCKET, log + [e]) == StepFields(History, BucketRun(History, EMPTY_BUCKET, log), e)
  {
    assert (log + [e])[..|log|] == log;
    BucketStepFields(History, BucketRun(History, EMPTY_BUCKET, log), e);
  }

  lemma StreamSnoc(log: seq<Event>, e: Event)
    ensures BucketRun(Stream, EMPTY_BUCKET, Reconnect.Kept(log + [e]))
      == StreamStep(BucketRun(Stream, EMPTY_BUCKET, Reconnect.Kept(log)), e)
  {
    var kept := Reconnect.Kept(log);
    assert (log + [e])[..|log|] == log;
    if Reconnect.IsKept(e) {
      assert (kept + [e])[..|kept|] == kept;
      BucketStepFields(Stream, BucketRun(Stream, EMPTY_BUCKET, kept), e);
    } else {
      assert kept + [] == kept;
    }
  }

  lemma FreshId(front: seq<Event>, e: Event)
    requires Plain(front + [e])
    ensures Plain(front) && e.id !in BucketRun(History, EMPTY_BUCKET, front).events.vals
  {
    var log := front + [e];
    forall i | 0 <= i < |front| ensures front[i] == log[i] && front[i].id != e.id {
      assert log[i].id != log[|front|].id;
    }
    if e.id in BucketRun(History, EMPTY_BUCKET, front).events.vals {
      KeysFromLog(front, e.id);
    }
  }

  lemma {:induction false} RunsAlike(log: seq<Event>)
    requires Plain(log)
    ensures Alike(BucketRun(History, EMPTY_BUCKET, log), BucketRun(Stream, EMPTY_BUCKET, Reconnect.Kept(log)))
    decreases log
  {
    if log == [] {
      EmptyAlike();
    } else {
      var front, e := log[..|log| - 1], log[|log| - 1];
      assert log == front + [e];
      FreshId(front, e);
      RunsAlike(front);
      AlikeStep(BucketRun(History, EMPTY_BUCKET, front), BucketRun(Stream, EMPTY_BUCKET, Reconnect.Kept(front)), e);
      HistorySnoc(front, e);
      StreamSnoc(front, e);
    }
  }

  lemma {:induction false} InsertDistinct(s: seq<Entry>, e: Entry)
    requires DistinctIds(s) && forall i :: 0 <= i < |s| ==> s[i].id != e.id
    ensures DistinctIds(Insert(s, e))
    ensures forall x :: x in Insert(s, e) <==> x in s || x == e
    decreases s
  {
    if s != [] && s[|s| - 1].event.at > e.event.at {
      InsertDistinct(s[..|s| - 1], e);
      var rest := Insert(s[..|s| - 1], e);
      forall i | 0 <= i < |rest| ensures rest[i].id != s[|s| - 1].id {
        assert rest[i] in rest;
      }
      assert s == s[..|s| - 1] + [s[|s| - 1]];
    }
  }

  lemma {:induction false} OrderDistinct(s: seq<Entry>)
    requires DistinctIds(s)
    ensures DistinctIds(InTimeOrder(s)) && forall x :: x in InTimeOrder(s) <==> x in s
    decreases s
  {
    if s != [] {
      var front, last := s[..|s| - 1], s[|s| - 1];
      OrderDistinct(front);
      forall i | 0 <= i < |InTimeOrder(front)| ensures InTimeOrder(front)[i].id != last.id {
        assert InTimeOrder(front)[i] in front;
      }
      InsertDistinct(InTimeOrder(front), last);
      assert s == front + [last];
    }
  }

  /** Buckets that differ in what is not shown render alike. */
  lemma AlikeRendersAlike(h: Bucket, s: Bucket, scope: Option<set<Id>>, parent: Parent)
    requires Alike(h, s)
    ensures ThreadParts(h, scope, parent) == ThreadParts(s, scope, parent)
  {
    var order := InTimeOrder(Entries(h));
    var models := ModelsShown(h, scope);
    OrderCommutesWithDropping(Shown, Entries(h));
    OrderDistinct(Entries(h));
    WalkDrops(h, s, order, Filter(Shown, order), order, scope, models, parent);
  }

  /** One thread's log renders to the same parts live and reloaded. */
  lemma ThreadRendersAlike(log: seq<Event>, scope: Option<set<Id>>, parent: Parent)
    requires Plain(log)
    ensures Alike(BucketRun(History, EMPTY_BUCKET, log), BucketRun(Stream, EMPTY_BUCKET, Reconnect.Kept(log)))
    ensures ThreadParts(BucketRun(History, EMPTY_BUCKET, log), scope, parent)
      == ThreadParts(BucketRun(Stream, EMPTY_BUCKET, Reconnect.Kept(log)), scope, parent)
  {
    RunsAlike(log);
    AlikeRendersAlike(BucketRun(History, EMPTY_BUCKET, log), BucketRun(Stream, EMPTY_BUCKET, Reconnect.Kept(log)), scope, parent);
  }
}
