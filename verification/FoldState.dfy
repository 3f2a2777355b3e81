/** The mutable fold the client keeps, step by step, against the functions of module Fold. */
module FoldState {
  import opened JsMaps
  import opened Events
  import opened Fold

  class PeerThreadFoldState {
    var threads: JsMap<Id, Bucket>
    var threadParents: JsMap<Id, Link>

    function State(): Fold
      reads this
    {
      Fold(threads, threadParents)
    }

    constructor ()
      ensures State() == EMPTY
    {
      threads, threadParents := JsMap([], map[]), JsMap([], map[]);
    }

    method GetOrCreateBucket(t: Id) returns (b: Bucket)
      modifies this`threads
      ensures b == BucketOf(old(State()), t)
      ensures State() == if t in old(threads.vals) then old(State()) else WithBucket(old(State()), t, b)
    {
      if threads.Has(t) {
        b := threads.vals[t];
      } else {
        b := EMPTY_BUCKET;
        threads := threads.Set(t, b);
      }
    }

    method PutBucket(t: Id, b: Bucket)
      requires t in threads.vals
      modifies this`threads
      ensures State() == old(State()).(threads := JsMap(old(threads.keys), old(threads.vals)[t := b]))
    {
      threads := JsMap(threads.keys, threads.vals[t := b]);
    }

    /** Every thread listed once, and listed when it has a bucket. */
    ghost predicate Valid()
      reads this
    {
      threads.Valid()
    }

    /** Returns whether the event can change what is rendered. */
    method IngestStreamEvent(e: Event) returns (affectsContent: bool)
      requires Valid()
      modifies this
      ensures Valid() && State() == Ingest(Stream, old(State()), e)
      ensures affectsContent ==> !Skipped(Stream, e) && IsContentAffecting(e)
      ensures !Skipped(Stream, e) && IsContentAffecting(e) ==> affectsContent
    {
      if e.body.McpAuthRequired? || IsTurnScoped(e) {
        return false;
      }
      if e.thread.None? {
        return false;
      }
      var t := e.thread.value;
      if e.body.ThreadCreated? {
        threadParents := threadParents.Set(t, e.body.link);
        var b := GetOrCreateBucket(t);
        PutBucket(t, b.(title := Some(e.body.title), agent := Some(e.body.agent)));
        return true;
      }
      var b := GetOrCreateBucket(t);
      b := IngestEventIntoBucket(b, e);
      PutBucket(t, b);
      return IsContentAffecting(e);
    }

    method IngestTurnEvent(e: Event)
      requires Valid()
      modifies this
      ensures Valid() && State() == Ingest(History, old(State()), e)
    {
      if e.thread.None? {
        return;
      }
      var t := e.thread.value;
      var b := GetOrCreateBucket(t);
      if e.body.ThreadCreated? {
        threadParents := threadParents.Set(t, e.body.link);
        b := b.(title := Some(e.body.title), agent := Some(e.body.agent));
      }
      b := IngestEventIntoBucket(b, e);
      PutBucket(t, b);
    }

    /** Stores the answer in every thread that asks. */
    method AnswerAskingThreads(call: Id, content: string) returns (applied: bool)
      requires Valid()
      modifies this`threads
      ensures applied <==> exists t | t in old(threads.vals) :: AsksIn(old(threads.vals)[t], call)
      ensures State() == if applied then Answer(old(State()), call, content) else old(State())
    {
      ghost var before := threads.vals;
      var keys := threads.keys;
      applied := false;
      for i := 0 to |keys|
        invariant threads == JsMap(keys, AnsweredAmong(before, keys[..i], call, content))
        invariant applied <==> AsksAmong(before, keys[..i], call)
      {
        var t := keys[i];
        assert keys[..i + 1] == keys[..i] + [t];
        AnsweredAmongStep(before, keys[..i], t, call, content);
        AsksAmongStep(before, keys[..i], t, call);
        if AsksIn(threads.vals[t], call) {
          PutBucket(t, AnswerIn(threads.vals[t], call, content));
          applied := true;
        }
      }
      assert keys[..|keys|] == keys;
      AnsweredAmongAll(old(State()), call, content);
    }

    method RecordToolResponse(call: Id, content: string)
      requires Valid()
      modifies this`threads
      ensures Valid() && State() == Answer(old(State()), call, content)
    {
      var applied := AnswerAskingThreads(call, content);
      if applied {
        return;
      }
      var root := GetOrCreateBucket(ROOT);
      PutBucket(ROOT, AnswerIn(root, call, content));
    }

    /** Stores the decision in every thread that awaits it. */
    method DecideAwaitingThreads(call: Id, d: Decision) returns (applied: bool)
      requires Valid()
      modifies this`threads
      ensures applied <==> exists t | t in old(threads.vals) :: AwaitsIn(old(threads.vals)[t], call)
      ensures State() == if applied then Decide(old(State()), call, d) else old(State())
    {
      ghost var before := threads.vals;
      var keys := threads.keys;
      applied := false;
      for i := 0 to |keys|
        invariant threads == JsMap(keys, DecidedAmong(before, keys[..i], call, d))
        invariant applied <==> AwaitsAmong(before, keys[..i], call)
      {
        var t := keys[i];
        assert keys[..i + 1] == keys[..i] + [t];
        DecidedAmongStep(before, keys[..i], t, call, d);
        AwaitsAmongStep(before, keys[..i], t, call);
        if AwaitsIn(threads.vals[t], call) {
          PutBucket(t, DecideIn(threads.vals[t], call, d));
          applied := true;
        }
      }
      assert keys[..|keys|] == keys;
      DecidedAmongAll(old(State()), call, d);
    }

    method RecordToolApproval(call: Id, d: Decision)
      requires Valid()
      modifies this`threads
      ensures Valid() && State() == Decide(old(State()), call, d)
    {
      var applied := DecideAwaitingThreads(call, d);
      if applied {
        return;
      }
      var root := GetOrCreateBucket(ROOT);
      PutBucket(ROOT, root.(decisions := root.decisions[call := d]));
    }

    method ApplyInputItem(item: InputItem)
      requires Valid()
      modifies this`threads
      ensures Valid() && State() == Run(old(State()), ItemOps(item))
    {
      match item {
        case UserMessage(_) =>
        case UserToolResponse(call, content) =>
          RunOne(State(), Answered(call, content));
          RecordToolResponse(call, content);
        case UserToolApproval(call, allow, reason) =>
          var d := Decision(allow, if allow then None else reason);
          RunOne(State(), Decided(call, d));
          RecordToolApproval(call, d);
      }
    }

    method ApplyUserToolResponses(input: seq<InputItem>)
      requires Valid()
      modifies this`threads
      ensures Valid() && State() == Run(old(State()), InputOps(input))
    {
      ghost var start := State();
      for i := 0 to |input|
        invariant Valid()
        invariant Run(State(), InputOps(input[i..])) == Run(start, InputOps(input))
      {
        assert input[i..][0] == input[i] && input[i..][1..] == input[i + 1..];
        RunConcat(State(), ItemOps(input[i]), InputOps(input[i + 1..]));
        ApplyInputItem(input[i]);
      }
    }
  }

  lemma RunOne(f: Fold, op: Op)
    ensures Run(f, [op]) == Apply(f, op)
  {
    RunSnoc(f, [], op);
    assert [] + [op] == [op];
  }

  ghost function AnsweredAmong(vals: map<Id, Bucket>, visited: seq<Id>, call: Id, content: string): map<Id, Bucket> {
    map t | t in vals :: if t in visited && AsksIn(vals[t], call) then AnswerIn(vals[t], call, content) else vals[t]
  }

  lemma AnsweredAmongStep(vals: map<Id, Bucket>, visited: seq<Id>, t: Id, call: Id, content: string)
    requires t in vals && t !in visited
    ensures AnsweredAmong(vals, visited, call, content)[t] == vals[t]
    ensures AnsweredAmong(vals, visited + [t], call, content) ==
      if AsksIn(vals[t], call) then AnsweredAmong(vals, visited, call, content)[t := AnswerIn(vals[t], call, content)]
      else AnsweredAmong(vals, visited, call, content)
  {
  }

  ghost predicate AsksAmong(vals: map<Id, Bucket>, visited: seq<Id>, call: Id) {
    exists t | t in vals :: t in visited && AsksIn(vals[t], call)
  }

  lemma AsksAmongStep(vals: map<Id, Bucket>, visited: seq<Id>, t: Id, call: Id)
    requires t in vals
    ensures AsksAmong(vals, visited + [t], call) <==> AsksAmong(vals, visited, call) || AsksIn(vals[t], call)
  {
    if AsksAmong(vals, visited, call) {
      var u :| u in vals && u in visited && AsksIn(vals[u], call);
      assert u in visited + [t];
    }
    assert t in visited + [t];
  }

  lemma AnsweredAmongAll(f: Fold, call: Id, content: string)
    requires f.threads.Valid()
    ensures AsksAmong(f.threads.vals, f.threads.keys, call) <==> exists t | t in f.threads.vals :: AsksIn(f.threads.vals[t], call)
    ensures var after := AnsweredAmong(f.threads.vals, f.threads.keys, call, content);
      if AsksAmong(f.threads.vals, f.threads.keys, call)
      then Answer(f, call, content) == f.(threads := JsMap(f.threads.keys, after))
      else after == f.threads.vals
  {
    forall t | t in f.threads.vals ensures t in f.threads.keys {}
  }

  ghost function DecidedAmong(vals: map<Id, Bucket>, visited: seq<Id>, call: Id, d: Decision): map<Id, Bucket> {
    map t | t in vals :: if t in visited && AwaitsIn(vals[t], call) then DecideIn(vals[t], call, d) else vals[t]
  }

  lemma DecidedAmongStep(vals: map<Id, Bucket>, visited: seq<Id>, t: Id, call: Id, d: Decision)
    requires t in vals && t !in visited
    ensures DecidedAmong(vals, visited, call, d)[t] == vals[t]
    ensures DecidedAmong(vals, visited + [t], call, d) ==
      if AwaitsIn(vals[t], call) then DecidedAmong(vals, visited, call, d)[t := DecideIn(vals[t], call, d)]
      else DecidedAmong(vals, visited, call, d)
  {
  }

  ghost predicate AwaitsAmong(vals: map<Id, Bucket>, visited: seq<Id>, call: Id) {
    exists t | t in vals :: t in visited && AwaitsIn(vals[t], call)
  }

  lemma AwaitsAmongStep(vals: map<Id, Bucket>, visited: seq<Id>, t: Id, call: Id)
    requires t in vals
    ensures AwaitsAmong(vals, visited + [t], call) <==> AwaitsAmong(vals, visited, call) || AwaitsIn(vals[t], call)
  {
    if AwaitsAmong(vals, visited, call) {
      var u :| u in vals && u in visited && AwaitsIn(vals[u], call);
      assert u in visited + [t];
    }
    assert t in visited + [t];
  }

  lemma DecidedAmongAll(f: Fold, call: Id, d: Decision)
    requires f.threads.Valid()
    ensures AwaitsAmong(f.threads.vals, f.threads.keys, call) <==> exists t | t in f.threads.vals :: AwaitsIn(f.threads.vals[t], call)
    ensures var after := DecidedAmong(f.threads.vals, f.threads.keys, call, d);
      if AwaitsAmong(f.threads.vals, f.threads.keys, call)
      then Decide(f, call, d) == f.(threads := JsMap(f.threads.keys, after))
      else after == f.threads.vals
  {
    forall t | t in f.threads.vals ensures t in f.threads.keys {}
  }

  predicate IsContentAffecting(e: Event) {
    || e.body.ThreadCreated? || e.body.ThreadDone? || e.body.ModelMessage? || e.body.ModelMessageDelta?
    || e.body.ToolResponse? || e.body.ApprovalRequired? || e.body.ResponseRequired?
    || e.body.CompactionStarted? || e.body.CompactionFinished?
  }

  method IngestEventIntoBucket(b: Bucket, e: Event) returns (after: Bucket)
    ensures after == IngestIntoBucket(b, e)
  {
    if IsTurnScoped(e) {
      return b;
    }
    if e.body.ModelMessageDelta? {
      if b.events.Has(e.id) {
        return b.(events := b.events.(vals := b.events.vals[e.id := MergeDelta(b.events.vals[e.id], e.body.delta)]));
      }
      return b;
    }
    after := b.(events := b.events.Set(e.id, e));
    match e.body {
      case ModelMessage(_) =>
        if e.id !in after.modelIds {
          after := after.(modelIds := after.modelIds + [e.id]);
        }
      case ToolResponse(call, content) =>
        after := after.(results := after.results[call := content], questions := after.questions - {call});
      case ApprovalRequired(refs) =>
        var approvals := after.approvals;
        for i := 0 to |refs|
          invariant approvals == after.approvals + RefIds(refs[..i])
        {
          assert RefIds(refs[..i + 1]) == RefIds(refs[..i]) + {refs[i].id} by {
            assert forall j :: 0 <= j < i ==> refs[..i][j] == refs[..i + 1][j];
          }
          approvals := approvals + {refs[i].id};
        }
        assert refs[..|refs|] == refs;
        after := after.(approvals := approvals);
      case ResponseRequired(refs) =>
        var questions := after.questions;
        for i := 0 to |refs|
          invariant questions == Asked(after.events.vals, after.questions, refs[..i])
        {
          assert refs[..i + 1][..i] == refs[..i];
          questions := questions[refs[i].id := Question(refs[i].source, Resolve(after.events.vals, refs[i]))];
        }
        assert refs[..|refs|] == refs;
        after := after.(questions := questions);
      case ThreadDone(title, failed, error) =>
        after := after.(done := true);
        if Deltas.Truthy(title) {
          after := after.(title := title);
        }
        var message := ThreadDoneError(failed, error);
        if message.Some? {
          after := after.(error := message);
        }
      case _ =>
    }
  }

  ghost function JoinedAmong(older: Fold, newer: Fold, ids: seq<Id>): map<Id, Bucket> {
    map t | t in ids :: JoinedBucket(older, newer, t)
  }

  lemma JoinedAmongStep(older: Fold, newer: Fold, ids: seq<Id>, t: Id)
    ensures JoinedAmong(older, newer, ids + [t]) == JoinedAmong(older, newer, ids)[t := JoinedBucket(older, newer, t)]
  {
  }

  lemma JoinedAmongAll(older: Fold, newer: Fold)
    requires older.threads.Valid() && newer.threads.Valid()
    ensures JoinedAmong(older, newer, AddKeys(older.threads.keys, newer.threads.keys)) == JoinedBuckets(older, newer)
  {
    var ids := AddKeys(older.threads.keys, newer.threads.keys);
    forall t ensures t in ids <==> t in older.threads.vals.Keys + newer.threads.vals.Keys {
      AddKeysMember(older.threads.keys, newer.threads.keys, t);
    }
  }

  /** `prependFoldState`: a new fold, neither half changed. */
  method PrependFoldState(older: PeerThreadFoldState, newer: PeerThreadFoldState) returns (result: PeerThreadFoldState)
    requires older.Valid() && newer.Valid()
    ensures fresh(result) && result.State() == Prepend(older.State(), newer.State())
  {
    result := new PeerThreadFoldState();
    var threadIds := AddKeys(older.threads.keys, newer.threads.keys);
    AddKeysDistinct(older.threads.keys, newer.threads.keys);
    for i := 0 to |threadIds|
      modifies result
      invariant result.threads == JsMap(threadIds[..i], JoinedAmong(older.State(), newer.State(), threadIds[..i]))
    {
      var t := threadIds[i];
      assert threadIds[..i + 1] == threadIds[..i] + [t];
      JoinedAmongStep(older.State(), newer.State(), threadIds[..i], t);
      AddKeysMember(older.threads.keys, newer.threads.keys, t);
      assert t in threadIds && t !in threadIds[..i];
      if !older.threads.Has(t) {
        result.threads := result.threads.Set(t, newer.threads.vals[t]);
      } else if !newer.threads.Has(t) {
        result.threads := result.threads.Set(t, older.threads.vals[t]);
      } else {
        result.threads := result.threads.Set(t, JoinBuckets(older.threads.vals[t], newer.threads.vals[t]));
      }
    }
    assert threadIds[..|threadIds|] == threadIds;
    JoinedAmongAll(older.State(), newer.State());
    result.threadParents := older.threadParents.Joined(newer.threadParents);
  }
}
