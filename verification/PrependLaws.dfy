/** When scroll-up may join two folds instead of folding the whole log again. */
module PrependLaws {
  import opened JsMaps
  import opened Events
  import opened Fold
  import Replay

  // ----- One event, one thread -----

  /** The last reference for a call id is the one whose question is kept. */
  predicate IsLast(refs: seq<Ref>, i: int)
    requires 0 <= i < |refs|
  {
    forall j :: i < j < |refs| ==> refs[j].id != refs[i].id
  }

  /** The newer half reads the reference's message itself, or the older half has nothing to read. */
  predicate ReadsInside(older: Bucket, newer: Bucket, e: Event, r: Ref) {
    r.source == e.id || r.source in newer.events.vals || Resolve(older.events.vals, r).None?
  }

  predicate SeparableEvent(older: Bucket, newer: Bucket, e: Event) {
    match e.body
    case ModelMessage(_) => e.id !in older.modelIds || e.id in newer.modelIds
    case ModelMessageDelta(d) =>
      || e.id in newer.events.vals
      || e.id !in older.events.vals
      || MergeDelta(older.events.vals[e.id], d) == older.events.vals[e.id]
    case ToolResponse(call, _) => call !in older.questions
    case ResponseRequired(refs) =>
      forall i :: 0 <= i < |refs| && IsLast(refs, i) ==> ReadsInside(older, newer, e, refs[i])
    case _ => true
  }

  lemma {:induction false} AskedAt(events: map<Id, Event>, qs: map<Id, Question>, refs: seq<Ref>, id: Id)
    ensures id in Asked(events, qs, refs) <==> id in qs || id in RefIds(refs)
    ensures id !in RefIds(refs) && id in qs ==> Asked(events, qs, refs)[id] == qs[id]
    ensures forall i :: 0 <= i < |refs| && refs[i].id == id && IsLast(refs, i) ==>
      Asked(events, qs, refs)[id] == Question(refs[i].source, Resolve(events, refs[i]))
    decreases refs
  {
    if refs != [] {
      var front := refs[..|refs| - 1];
      AskedAt(events, qs, front, id);
      assert forall i :: 0 <= i < |front| ==> front[i] == refs[i];
      assert RefIds(refs) == RefIds(front) + {refs[|refs| - 1].id};
      forall i | 0 <= i < |refs| && refs[i].id == id && IsLast(refs, i)
        ensures Asked(events, qs, refs)[id] == Question(refs[i].source, Resolve(events, refs[i]))
      {
        if i < |front| {
          assert refs[|refs| - 1].id != refs[i].id;
          assert IsLast(front, i);
        }
      }
    }
  }

  lemma {:induction false} LastExists(refs: seq<Ref>, id: Id) returns (i: int)
    requires id in RefIds(refs)
    ensures 0 <= i < |refs| && refs[i].id == id && IsLast(refs, i)
    decreases refs
  {
    var n := |refs| - 1;
    if refs[n].id == id {
      i := n;
    } else {
      assert forall j :: 0 <= j < n ==> refs[..n][j] == refs[j];
      var k :| 0 <= k < |refs| && refs[k].id == id;
      assert refs[..n][k].id == id;
      i := LastExists(refs[..n], id);
    }
  }

  /** Asking on top of the joined questions, reading messages from the joined events, is the
      same as asking inside the newer half, exactly when every kept reference reads inside. */
  lemma AskedInside(older: map<Id, Event>, newer: map<Id, Event>, oqs: map<Id, Question>, nqs: map<Id, Question>,
                    refs: seq<Ref>)
    ensures Asked(older + newer, oqs + nqs, refs) == oqs + Asked(newer, nqs, refs) <==>
      forall i :: 0 <= i < |refs| && IsLast(refs, i) ==>
        Resolve(older + newer, refs[i]) == Resolve(newer, refs[i])
  {
    var a, b := Asked(older + newer, oqs + nqs, refs), oqs + Asked(newer, nqs, refs);
    forall id ensures id in a <==> id in b {
      AskedAt(older + newer, oqs + nqs, refs, id);
      AskedAt(newer, nqs, refs, id);
    }
    if forall i :: 0 <= i < |refs| && IsLast(refs, i) ==> Resolve(older + newer, refs[i]) == Resolve(newer, refs[i]) {
      forall id | id in a ensures a[id] == b[id] {
        AskedAt(older + newer, oqs + nqs, refs, id);
        AskedAt(newer, nqs, refs, id);
        if id in RefIds(refs) {
          var i := LastExists(refs, id);
        }
      }
      assert a == b;
    } else {
      var i :| 0 <= i < |refs| && IsLast(refs, i) && Resolve(older + newer, refs[i]) != Resolve(newer, refs[i]);
      AskedAt(older + newer, oqs + nqs, refs, refs[i].id);
      AskedAt(newer, nqs, refs, refs[i].id);
    }
  }

  lemma ReadsInsideExact(older: Bucket, newer: Bucket, e: Event, r: Ref)
    requires !e.body.ModelMessage?
    ensures ReadsInside(older, newer, e, r) <==>
      Resolve((older.events.vals + newer.events.vals)[e.id := e], r) == Resolve(newer.events.vals[e.id := e], r)
  {
  }

  lemma JoinStored(older: Bucket, newer: Bucket, e: Event)
    ensures JoinBuckets(older, newer).(events := JoinBuckets(older, newer).events.Set(e.id, e))
      == JoinBuckets(older, newer.(events := newer.events.Set(e.id, e)))
  {
    SetInside(older.events, newer.events, e.id, e);
  }

  lemma MapSetInside<V>(m: map<Id, V>, n: map<Id, V>, k: Id, v: V)
    ensures m + n[k := v] == (m + n)[k := v]
  {
  }

  lemma MapRemoveInside<V>(m: map<Id, V>, n: map<Id, V>, k: Id)
    ensures m + (n - {k}) == (m + n) - {k} <==> k !in m
  {
    if k !in m {
      assert m + (n - {k}) == (m + n) - {k};
    } else {
      assert k in m + (n - {k});
    }
  }

  lemma JoinToolResponse(older: Bucket, newer: Bucket, e: Event)
    requires e.body.ToolResponse?
    ensures IngestIntoBucket(JoinBuckets(older, newer), e) == JoinBuckets(older, IngestIntoBucket(newer, e))
      <==> SeparableEvent(older, newer, e)
  {
    var call, content := e.body.toolCallId, e.body.content;
    JoinStored(older, newer, e);
    AnswerInside(older, newer.(events := newer.events.Set(e.id, e)), call, content);
  }

  /** Asking differs between the two sides in the questions alone. */
  lemma JoinAskedQuestions(older: Bucket, newer: Bucket, e: Event, refs: seq<Ref>, events: map<Id, Event>)
    requires e.body == ResponseRequired(refs) && events == newer.events.vals[e.id := e]
    ensures IngestIntoBucket(JoinBuckets(older, newer), e) == JoinBuckets(older, IngestIntoBucket(newer, e)) <==>
      Asked(older.events.vals + events, older.questions + newer.questions, refs) == older.questions + Asked(events, newer.questions, refs)
  {
    var joined := JoinBuckets(older, newer);
    JoinStored(older, newer, e);
    assert joined.events.vals[e.id := e] == older.events.vals + events;
    assert IngestIntoBucket(joined, e)
      == joined.(events := joined.events.Set(e.id, e),
                 questions := Asked(older.events.vals + events, older.questions + newer.questions, refs));
  }

  lemma JoinAsked(older: Bucket, newer: Bucket, e: Event)
    requires e.body.ResponseRequired?
    ensures IngestIntoBucket(JoinBuckets(older, newer), e) == JoinBuckets(older, IngestIntoBucket(newer, e))
      <==> SeparableEvent(older, newer, e)
  {
    var refs := e.body.questions;
    var events := newer.events.vals[e.id := e];
    JoinAskedQuestions(older, newer, e, refs, events);
    AskedInside(older.events.vals, events, older.questions, newer.questions, refs);
    assert (older.events.vals + newer.events.vals)[e.id := e] == older.events.vals + events;
    forall i | 0 <= i < |refs| ensures ReadsInside(older, newer, e, refs[i]) <==>
      Resolve(older.events.vals + events, refs[i]) == Resolve(events, refs[i])
    {
      ReadsInsideExact(older, newer, e, refs[i]);
    }
  }

  lemma JoinApprovals(older: Bucket, newer: Bucket, ids: set<Id>)
    ensures JoinBuckets(older, newer).(approvals := JoinBuckets(older, newer).approvals + ids)
      == JoinBuckets(older, newer.(approvals := newer.approvals + ids))
  {
    assert older.approvals + (newer.approvals + ids) == (older.approvals + newer.approvals) + ids;
  }

  lemma JoinModelId(older: Bucket, newer: Bucket, id: Id)
    ensures JoinBuckets(older, newer).(modelIds := AddKey(JoinBuckets(older, newer).modelIds, id))
      == JoinBuckets(older, newer.(modelIds := AddKey(newer.modelIds, id)))
      <==> id !in older.modelIds || id in newer.modelIds
  {
    var after, rejoined := AddKey(older.modelIds + newer.modelIds, id), older.modelIds + AddKey(newer.modelIds, id);
    if id !in older.modelIds && id !in newer.modelIds {
      assert after == rejoined;
    } else if id !in newer.modelIds {
      assert |after| != |rejoined|;
    }
  }

  lemma JoinIngest(older: Bucket, newer: Bucket, e: Event)
    ensures IngestIntoBucket(JoinBuckets(older, newer), e) == JoinBuckets(older, IngestIntoBucket(newer, e))
      <==> SeparableEvent(older, newer, e)
  {
    var stored := newer.(events := newer.events.Set(e.id, e));
    match e.body {
      case ModelMessageDelta(_) => JoinStepDelta(older, newer, e);
      case ToolResponse(_, _) => JoinToolResponse(older, newer, e);
      case ResponseRequired(_) => JoinAsked(older, newer, e);
      case ApprovalRequired(refs) =>
        JoinStored(older, newer, e);
        JoinApprovals(older, stored, RefIds(refs));
      case ModelMessage(_) =>
        JoinStored(older, newer, e);
        JoinModelId(older, stored, e.id);
      case _ => JoinStored(older, newer, e);
    }
  }

  /** Folding one more event into the joined bucket is the same as joining after folding it
      into the newer half, exactly when the event is separable. */
  lemma JoinStep(route: Route, older: Bucket, newer: Bucket, e: Event)
    ensures BucketStep(route, JoinBuckets(older, newer), e) == JoinBuckets(older, BucketStep(route, newer, e))
      <==> SeparableEvent(older, newer, e)
  {
    var named := Named(newer, e);
    assert Named(JoinBuckets(older, newer), e) == JoinBuckets(older, named);
    if !(route.Stream? && e.body.ThreadCreated?) {
      JoinIngest(older, named, e);
    }
  }

  lemma JoinStepDelta(older: Bucket, newer: Bucket, e: Event)
    requires e.body.ModelMessageDelta?
    ensures IngestIntoBucket(JoinBuckets(older, newer), e) == JoinBuckets(older, IngestIntoBucket(newer, e))
      <==> SeparableEvent(older, newer, e)
  {
    var o, n := older.events.vals, newer.events.vals;
    if e.id in n {
      assert (o + n)[e.id := MergeDelta(n[e.id], e.body.delta)] == o + n[e.id := MergeDelta(n[e.id], e.body.delta)];
    } else if e.id in o {
      var after := (o + n)[e.id := MergeDelta(o[e.id], e.body.delta)];
      if MergeDelta(o[e.id], e.body.delta) == o[e.id] {
        assert after == o + n;
      } else {
        assert after[e.id] != (o + n)[e.id];
      }
    }
  }

  // ----- One operation, whole folds -----

  predicate SeparableOp(older: Fold, newer: Fold, op: Op) {
    match op
    case Ingested(route, e) =>
      Skipped(route, e) || e.thread.value !in older.threads.vals
      || SeparableEvent(older.threads.vals[e.thread.value], BucketOf(newer, e.thread.value), e)
    case Answered(call, _) => forall t | t in older.threads.vals :: !AsksIn(older.threads.vals[t], call)
    case Decided(call, _) => forall t | t in older.threads.vals :: !AwaitsIn(older.threads.vals[t], call)
  }

  lemma JoinWithEmptyBucket(b: Bucket)
    ensures JoinBuckets(b, EMPTY_BUCKET) == b
  {
    assert b.events.vals + map[] == b.events.vals;
    assert b.results + map[] == b.results && b.decisions + map[] == b.decisions && b.questions + map[] == b.questions;
  }

  lemma JoinedBucketIn(older: Fold, newer: Fold, t: Id)
    ensures BucketOf(Prepend(older, newer), t) == JoinedBucket(older, newer, t)
    ensures t in older.threads.vals ==>
      JoinedBucket(older, newer, t) == JoinBuckets(older.threads.vals[t], BucketOf(newer, t))
  {
    if t in older.threads.vals {
      JoinWithEmptyBucket(older.threads.vals[t]);
    }
  }

  lemma JoinedWithBucket(older: Fold, newer: Fold, t: Id, b: Bucket, u: Id)
    ensures JoinedBucket(older, WithBucket(newer, t, b), u) ==
      if u != t then JoinedBucket(older, newer, u)
      else if t in older.threads.vals then JoinBuckets(older.threads.vals[t], b)
      else b
  {
    assert u in WithBucket(newer, t, b).threads.vals <==> u == t || u in newer.threads.vals;
  }

  lemma JoinedBucketsWith(older: Fold, newer: Fold, t: Id, b: Bucket)
    ensures JoinedBuckets(older, WithBucket(newer, t, b)) ==
      JoinedBuckets(older, newer)[t := if t in older.threads.vals then JoinBuckets(older.threads.vals[t], b) else b]
  {
    forall u | u in JoinedBuckets(older, WithBucket(newer, t, b)) {
      JoinedWithBucket(older, newer, t, b, u);
    }
  }

  /** Replacing one newer bucket replaces one joined bucket. */
  lemma PrependWithBucket(older: Fold, newer: Fold, t: Id, b: Bucket)
    ensures Prepend(older, WithBucket(newer, t, b)) ==
      WithBucket(Prepend(older, newer), t, if t in older.threads.vals then JoinBuckets(older.threads.vals[t], b) else b)
  {
    AddKeyInside(older.threads.keys, newer.threads.keys, t);
    JoinedBucketsWith(older, newer, t, b);
  }

  lemma WithBucketInjective(f: Fold, t: Id, b: Bucket, c: Bucket)
    ensures WithBucket(f, t, b) == WithBucket(f, t, c) <==> b == c
  {
    assert WithBucket(f, t, b).threads.vals[t] == b && WithBucket(f, t, c).threads.vals[t] == c;
  }

  lemma PrependIngest(older: Fold, newer: Fold, route: Route, e: Event)
    ensures Ingest(route, Prepend(older, newer), e) == Prepend(older, Ingest(route, newer, e))
      <==> SeparableOp(older, newer, Ingested(route, e))
  {
    if !Skipped(route, e) {
      var t := e.thread.value;
      var joined := Prepend(older, newer);
      var inside := BucketStep(route, BucketOf(newer, t), e);
      var direct := BucketStep(route, BucketOf(joined, t), e);
      var rejoined := if t in older.threads.vals then JoinBuckets(older.threads.vals[t], inside) else inside;
      JoinedBucketIn(older, newer, t);
      PrependWithBucket(older, newer, t, inside);
      WithBucketInjective(joined, t, direct, rejoined);
      if e.body.ThreadCreated? {
        SetInside(older.parents, newer.parents, t, e.body.link);
      }
      if t in older.threads.vals {
        JoinStep(route, older.threads.vals[t], BucketOf(newer, t), e);
      }
      PrependParents(older, WithBucket(newer, t, inside), Ingest(route, newer, e).parents);
    }
  }

  lemma PrependParents(older: Fold, newer: Fold, parents: JsMap<Id, Link>)
    ensures Prepend(older, newer.(parents := parents)) == Prepend(older, newer).(parents := older.parents.Joined(parents))
  {
    assert forall t :: JoinedBucket(older, newer.(parents := parents), t) == JoinedBucket(older, newer, t);
  }

  lemma AnswerInside(older: Bucket, newer: Bucket, call: Id, content: string)
    ensures AnswerIn(JoinBuckets(older, newer), call, content) == JoinBuckets(older, AnswerIn(newer, call, content))
      <==> !AsksIn(older, call)
  {
    MapSetInside(older.results, newer.results, call, content);
    MapRemoveInside(older.questions, newer.questions, call);
  }

  lemma PrependAnswerClash(older: Fold, newer: Fold, call: Id, content: string, t: Id)
    requires t in older.threads.vals && AsksIn(older.threads.vals[t], call)
    ensures Answer(Prepend(older, newer), call, content) != Prepend(older, Answer(newer, call, content))
  {
    var joined := Prepend(older, newer);
    assert AsksIn(joined.threads.vals[t], call);
    assert !AsksIn(Answer(joined, call, content).threads.vals[t], call);
    JoinedBucketIn(older, Answer(newer, call, content), t);
    assert AsksIn(Prepend(older, Answer(newer, call, content)).threads.vals[t], call);
  }

  /** When the older half does not ask, the joined threads ask where the newer ones do. */
  lemma AsksJoined(older: Fold, newer: Fold, call: Id, t: Id)
    requires forall u | u in older.threads.vals :: !AsksIn(older.threads.vals[u], call)
    requires t in Prepend(older, newer).threads.vals
    ensures AsksIn(Prepend(older, newer).threads.vals[t], call) <==> AsksIn(BucketOf(newer, t), call)
    ensures t !in newer.threads.vals ==> !AsksIn(Prepend(older, newer).threads.vals[t], call)
  {
    JoinedBucketIn(older, newer, t);
  }

  lemma AnswerJoinedBucket(older: Fold, newer: Fold, call: Id, content: string, u: Id)
    requires forall t | t in older.threads.vals :: !AsksIn(older.threads.vals[t], call)
    requires exists t | t in newer.threads.vals :: AsksIn(newer.threads.vals[t], call)
    requires u in Prepend(older, newer).threads.vals
    ensures var b := Prepend(older, newer).threads.vals[u];
      (if AsksIn(b, call) then AnswerIn(b, call, content) else b) == JoinedBucket(older, Answer(newer, call, content), u)
  {
    JoinedBucketIn(older, newer, u);
    AsksJoined(older, newer, call, u);
    if u in older.threads.vals {
      AnswerInside(older.threads.vals[u], BucketOf(newer, u), call, content);
    }
  }

  lemma PrependAnswerInside(older: Fold, newer: Fold, call: Id, content: string)
    requires forall t | t in older.threads.vals :: !AsksIn(older.threads.vals[t], call)
    ensures Answer(Prepend(older, newer), call, content) == Prepend(older, Answer(newer, call, content))
  {
    var joined := Prepend(older, newer);
    forall t | t in joined.threads.vals ensures AsksIn(joined.threads.vals[t], call) <==> AsksIn(BucketOf(newer, t), call) {
      AsksJoined(older, newer, call, t);
    }
    if exists t | t in newer.threads.vals :: AsksIn(newer.threads.vals[t], call) {
      var t :| t in newer.threads.vals && AsksIn(newer.threads.vals[t], call);
      assert t in joined.threads.vals && AsksIn(joined.threads.vals[t], call);
      var left, right := Answer(joined, call, content).threads.vals, JoinedBuckets(older, Answer(newer, call, content));
      assert left.Keys == right.Keys;
      forall u | u in left ensures left[u] == right[u] {
        AnswerJoinedBucket(older, newer, call, content, u);
      }
      assert left == right;
    } else {
      JoinedBucketIn(older, newer, ROOT);
      PrependWithBucket(older, newer, ROOT, AnswerIn(BucketOf(newer, ROOT), call, content));
      if ROOT in older.threads.vals {
        AnswerInside(older.threads.vals[ROOT], BucketOf(newer, ROOT), call, content);
      }
    }
  }

  lemma PrependAnswer(older: Fold, newer: Fold, call: Id, content: string)
    ensures Answer(Prepend(older, newer), call, content) == Prepend(older, Answer(newer, call, content))
      <==> forall t | t in older.threads.vals :: !AsksIn(older.threads.vals[t], call)
  {
    if t :| t in older.threads.vals && AsksIn(older.threads.vals[t], call) {
      PrependAnswerClash(older, newer, call, content, t);
    } else {
      PrependAnswerInside(older, newer, call, content);
    }
  }

  lemma DecideInside(older: Bucket, newer: Bucket, call: Id, d: Decision)
    requires !AwaitsIn(older, call)
    ensures DecideIn(JoinBuckets(older, newer), call, d) == JoinBuckets(older, DecideIn(newer, call, d))
    ensures JoinBuckets(older, newer).(decisions := JoinBuckets(older, newer).decisions[call := d])
      == JoinBuckets(older, newer.(decisions := newer.decisions[call := d]))
  {
    MapSetInside(older.decisions, newer.decisions, call, d);
    assert older.approvals + (newer.approvals - {call}) == (older.approvals + newer.approvals) - {call};
  }

  lemma PrependDecideClash(older: Fold, newer: Fold, call: Id, d: Decision, t: Id)
    requires t in older.threads.vals && AwaitsIn(older.threads.vals[t], call)
    ensures Decide(Prepend(older, newer), call, d) != Prepend(older, Decide(newer, call, d))
  {
    var joined := Prepend(older, newer);
    assert AwaitsIn(joined.threads.vals[t], call);
    assert !AwaitsIn(Decide(joined, call, d).threads.vals[t], call);
    JoinedBucketIn(older, Decide(newer, call, d), t);
    assert AwaitsIn(Prepend(older, Decide(newer, call, d)).threads.vals[t], call);
  }

  lemma AwaitsJoined(older: Fold, newer: Fold, call: Id, t: Id)
    requires forall u | u in older.threads.vals :: !AwaitsIn(older.threads.vals[u], call)
    requires t in Prepend(older, newer).threads.vals
    ensures AwaitsIn(Prepend(older, newer).threads.vals[t], call) <==> AwaitsIn(BucketOf(newer, t), call)
    ensures t !in newer.threads.vals ==> !AwaitsIn(Prepend(older, newer).threads.vals[t], call)
  {
    JoinedBucketIn(older, newer, t);
  }

  lemma DecideJoinedBucket(older: Fold, newer: Fold, call: Id, d: Decision, u: Id)
    requires forall t | t in older.threads.vals :: !AwaitsIn(older.threads.vals[t], call)
    requires exists t | t in newer.threads.vals :: AwaitsIn(newer.threads.vals[t], call)
    requires u in Prepend(older, newer).threads.vals
    ensures var b := Prepend(older, newer).threads.vals[u];
      (if AwaitsIn(b, call) then DecideIn(b, call, d) else b) == JoinedBucket(older, Decide(newer, call, d), u)
  {
    JoinedBucketIn(older, newer, u);
    AwaitsJoined(older, newer, call, u);
    if u in older.threads.vals {
      DecideInside(older.threads.vals[u], BucketOf(newer, u), call, d);
    }
  }

  lemma PrependDecideInside(older: Fold, newer: Fold, call: Id, d: Decision)
    requires forall t | t in older.threads.vals :: !AwaitsIn(older.threads.vals[t], call)
    ensures Decide(Prepend(older, newer), call, d) == Prepend(older, Decide(newer, call, d))
  {
    var joined := Prepend(older, newer);
    forall t | t in joined.threads.vals ensures AwaitsIn(joined.threads.vals[t], call) <==> AwaitsIn(BucketOf(newer, t), call) {
      AwaitsJoined(older, newer, call, t);
    }
    if exists t | t in newer.threads.vals :: AwaitsIn(newer.threads.vals[t], call) {
      var t :| t in newer.threads.vals && AwaitsIn(newer.threads.vals[t], call);
      assert t in joined.threads.vals && AwaitsIn(joined.threads.vals[t], call);
      var left, right := Decide(joined, call, d).threads.vals, JoinedBuckets(older, Decide(newer, call, d));
      assert left.Keys == right.Keys;
      forall u | u in left ensures left[u] == right[u] {
        DecideJoinedBucket(older, newer, call, d, u);
      }
      assert left == right;
    } else {
      var root := BucketOf(newer, ROOT);
      JoinedBucketIn(older, newer, ROOT);
      PrependWithBucket(older, newer, ROOT, root.(decisions := root.decisions[call := d]));
      if ROOT in older.threads.vals {
        DecideInside(older.threads.vals[ROOT], root, call, d);
      }
    }
  }

  lemma PrependDecide(older: Fold, newer: Fold, call: Id, d: Decision)
    ensures Decide(Prepend(older, newer), call, d) == Prepend(older, Decide(newer, call, d))
      <==> forall t | t in older.threads.vals :: !AwaitsIn(older.threads.vals[t], call)
  {
    if t :| t in older.threads.vals && AwaitsIn(older.threads.vals[t], call) {
      PrependDecideClash(older, newer, call, d, t);
    } else {
      PrependDecideInside(older, newer, call, d);
    }
  }

  lemma PrependStep(older: Fold, newer: Fold, op: Op)
    ensures Apply(Prepend(older, newer), op) == Prepend(older, Apply(newer, op)) <==> SeparableOp(older, newer, op)
  {
    match op {
      case Ingested(route, e) => PrependIngest(older, newer, route, e);
      case Answered(call, content) => PrependAnswer(older, newer, call, content);
      case Decided(call, d) => PrependDecide(older, newer, call, d);
    }
  }

  // ----- Runs -----

  /** Joining agrees with folding on after every prefix of `ops`. */
  ghost predicate JoinsThroughout(older: Fold, newer: Fold, ops: seq<Op>) {
    && Run(Prepend(older, newer), ops) == Prepend(older, Run(newer, ops))
    && (ops != [] ==> JoinsThroughout(older, newer, ops[..|ops| - 1]))
  }

  /** Every operation is separable at the point where the newer half performs it. */
  predicate SeparableRun(older: Fold, newer: Fold, ops: seq<Op>) {
    ops != [] ==>
      && SeparableRun(older, newer, ops[..|ops| - 1])
      && SeparableOp(older, Run(newer, ops[..|ops| - 1]), ops[|ops| - 1])
  }

  lemma {:induction false} PrependRun(older: Fold, newer: Fold, ops: seq<Op>)
    ensures JoinsThroughout(older, newer, ops) <==> SeparableRun(older, newer, ops)
    decreases ops
  {
    if ops != [] {
      var front := ops[..|ops| - 1];
      PrependRun(older, newer, front);
      PrependStep(older, Run(newer, front), ops[|ops| - 1]);
    }
  }

  // ----- Monoid -----

  lemma MapUnionAssociative<V>(a: map<Id, V>, b: map<Id, V>, c: map<Id, V>)
    ensures a + (b + c) == (a + b) + c
  {
  }

  lemma JoinBucketsAssociative(a: Bucket, b: Bucket, c: Bucket)
    ensures JoinBuckets(a, JoinBuckets(b, c)) == JoinBuckets(JoinBuckets(a, b), c)
  {
    JoinedAssociative(a.events, b.events, c.events);
    MapUnionAssociative(a.results, b.results, c.results);
    MapUnionAssociative(a.decisions, b.decisions, c.decisions);
    MapUnionAssociative(a.questions, b.questions, c.questions);
    assert a.approvals + (b.approvals + c.approvals) == (a.approvals + b.approvals) + c.approvals;
    assert a.modelIds + (b.modelIds + c.modelIds) == (a.modelIds + b.modelIds) + c.modelIds;
  }

  lemma JoinedBucketAssociative(a: Fold, b: Fold, c: Fold, t: Id)
    ensures JoinedBucket(a, Prepend(b, c), t) == JoinedBucket(Prepend(a, b), c, t)
  {
    JoinedBucketIn(a, b, t);
    JoinedBucketIn(b, c, t);
    if t in a.threads.vals && t in b.threads.vals && t in c.threads.vals {
      JoinBucketsAssociative(a.threads.vals[t], b.threads.vals[t], c.threads.vals[t]);
    }
  }

  lemma PrependAssociative(a: Fold, b: Fold, c: Fold)
    ensures Prepend(a, Prepend(b, c)) == Prepend(Prepend(a, b), c)
  {
    AddKeysAssociative(a.threads.keys, b.threads.keys, c.threads.keys);
    JoinedAssociative(a.parents, b.parents, c.parents);
    forall t { JoinedBucketAssociative(a, b, c, t); }
    var left, right := JoinedBuckets(a, Prepend(b, c)), JoinedBuckets(Prepend(a, b), c);
    assert left.Keys == right.Keys;
    assert left == right;
  }

  lemma PrependEmpty(f: Fold)
    requires Distinct(f.threads.keys) && Distinct(f.parents.keys)
    ensures Prepend(EMPTY, f) == f == Prepend(f, EMPTY)
  {
    AddKeysFromEmpty(f.threads.keys);
    AddKeysFromEmpty(f.parents.keys);
    assert JoinedBuckets(EMPTY, f) == f.threads.vals == JoinedBuckets(f, EMPTY);
    assert f.parents.vals + map[] == f.parents.vals == map[] + f.parents.vals;
  }

  // ----- Segments of a log that do not refer back -----

  predicate ClearIn(b: Bucket, op: Op) {
    match op
    case Answered(call, _) => call !in b.questions
    case Decided(call, _) => call !in b.approvals
    case Ingested(_, e) =>
      match e.body
      case ModelMessage(_) => e.id !in b.modelIds
      case ModelMessageDelta(_) => e.id !in b.events.vals
      case ToolResponse(call, _) => call !in b.questions
      case ResponseRequired(refs) => forall i :: 0 <= i < |refs| ==> refs[i].source !in b.events.vals
      case _ => true
  }

  predicate Clear(f: Fold, op: Op) {
    forall t | t in f.threads.vals :: ClearIn(f.threads.vals[t], op)
  }

  predicate Requests(op: Op, call: Id) {
    op.Ingested? && op.event.body.ResponseRequired? && call in RefIds(op.event.body.questions)
  }

  predicate RequestsApproval(op: Op, call: Id) {
    op.Ingested? && op.event.body.ApprovalRequired? && call in RefIds(op.event.body.approvals)
  }

  predicate Stores(op: Op, id: Id) {
    op.Ingested? && op.event.id == id
  }

  /** The newer operation does not answer, extend or quote anything the older one brought in. */
  predicate Independent(older: Op, newer: Op) {
    match newer
    case Answered(call, _) => !Requests(older, call)
    case Decided(call, _) => !RequestsApproval(older, call)
    case Ingested(_, e) =>
      match e.body
      case ModelMessage(_) => !(Stores(older, e.id) && older.event.body.ModelMessage?)
      case ModelMessageDelta(_) => !Stores(older, e.id)
      case ToolResponse(call, _) => !Requests(older, call)
      case ResponseRequired(refs) => forall i :: 0 <= i < |refs| ==> !Stores(older, refs[i].source)
      case _ => true
  }

  lemma ClearSeparates(older: Fold, newer: Fold, op: Op)
    requires Clear(older, op)
    ensures SeparableOp(older, newer, op)
  {
  }

  /** What one event can add to a bucket. */
  lemma ModelIdGrowth(b: Bucket, e: Event)
    ensures IngestIntoBucket(b, e).modelIds == if e.body.ModelMessage? then AddKey(b.modelIds, e.id) else b.modelIds
  {
  }

  lemma BucketGrowth(route: Route, b: Bucket, e: Event)
    ensures BucketStep(route, b, e).events.vals.Keys <= b.events.vals.Keys + {e.id}
    ensures BucketStep(route, b, e).modelIds == if e.body.ModelMessage? then AddKey(b.modelIds, e.id) else b.modelIds
  {
    Replay.BucketStepFields(route, b, e);
  }

  lemma RequestGrowth(route: Route, b: Bucket, e: Event)
    ensures BucketStep(route, b, e).questions.Keys
      <= b.questions.Keys + (if e.body.ResponseRequired? then RefIds(e.body.questions) else {})
    ensures BucketStep(route, b, e).approvals
      == b.approvals + (if e.body.ApprovalRequired? then RefIds(e.body.approvals) else {})
  {
    Replay.BucketStepFields(route, b, e);
    if e.body.ResponseRequired? {
      var stored := b.events.vals[e.id := e];
      forall id | id in Asked(stored, b.questions, e.body.questions)
        ensures id in b.questions || id in RefIds(e.body.questions)
      {
        AskedAt(stored, b.questions, e.body.questions, id);
      }
    }
  }

  lemma ClearIngest(b: Bucket, older: Op, newer: Op)
    requires older.Ingested? && ClearIn(b, newer) && Independent(older, newer)
    ensures ClearIn(BucketStep(older.route, b, older.event), newer)
  {
    BucketGrowth(older.route, b, older.event);
    RequestGrowth(older.route, b, older.event);
  }

  lemma ClearStep(f: Fold, older: Op, newer: Op)
    requires Clear(f, newer) && Independent(older, newer)
    ensures Clear(Apply(f, older), newer)
  {
    match older {
      case Ingested(route, e) =>
        if !Skipped(route, e) {
          ClearIngest(BucketOf(f, e.thread.value), older, newer);
        }
      case Answered(call, content) =>
        forall t | t in Answer(f, call, content).threads.vals
          ensures ClearIn(Answer(f, call, content).threads.vals[t], newer)
        {
          assert ClearIn(BucketOf(f, t), newer);
        }
      case Decided(call, d) =>
        forall t | t in Decide(f, call, d).threads.vals
          ensures ClearIn(Decide(f, call, d).threads.vals[t], newer)
        {
          assert ClearIn(BucketOf(f, t), newer);
        }
    }
  }

  lemma {:induction false} ClearRun(older: seq<Op>, newer: Op)
    requires forall i :: 0 <= i < |older| ==> Independent(older[i], newer)
    ensures Clear(Run(EMPTY, older), newer)
    decreases older
  {
    if older != [] {
      ClearRun(older[..|older| - 1], newer);
      ClearStep(Run(EMPTY, older[..|older| - 1]), older[|older| - 1], newer);
    }
  }

  predicate AllIndependent(older: seq<Op>, newer: seq<Op>) {
    forall i, j :: 0 <= i < |older| && 0 <= j < |newer| ==> Independent(older[i], newer[j])
  }

  lemma {:induction false} IndependentRun(older: seq<Op>, start: Fold, newer: seq<Op>)
    requires AllIndependent(older, newer)
    ensures SeparableRun(Run(EMPTY, older), start, newer)
    decreases newer
  {
    if newer != [] {
      var n := |newer| - 1;
      IndependentRun(older, start, newer[..n]);
      ClearRun(older, newer[n]);
      ClearSeparates(Run(EMPTY, older), Run(start, newer[..n]), newer[n]);
    }
  }

  /** Folding a log in one go is joining the folds of its two segments. */
  lemma PrependIsFold(older: seq<Op>, newer: seq<Op>)
    requires AllIndependent(older, newer)
    ensures Run(EMPTY, older + newer) == Prepend(Run(EMPTY, older), Run(EMPTY, newer))
  {
    var f := Run(EMPTY, older);
    IndependentRun(older, EMPTY, newer);
    PrependRun(f, EMPTY, newer);
    RunConcat(EMPTY, older, newer);
    assert JoinedBuckets(f, EMPTY) == f.threads.vals;
    assert Prepend(f, EMPTY) == f by {
      assert f.parents.vals + map[] == f.parents.vals;
    }
  }

  /** Cutting the log between a question and its answer brings the question back. */
  lemma AnswerCutFromItsQuestion(ask: Event, content: string)
    requires ask.thread == Some(ROOT) && ask.body == ResponseRequired([Ref("call", "message")])
    ensures "call" !in BucketOf(Run(EMPTY, [Ingested(History, ask), Answered("call", content)]), ROOT).questions
    ensures "call" in BucketOf(Prepend(Run(EMPTY, [Ingested(History, ask)]), Run(EMPTY, [Answered("call", content)])), ROOT).questions
  {
    var asked, answered := Ingested(History, ask), Answered("call", content);
    var f := Run(EMPTY, [asked]);
    RunSnoc(EMPTY, [], asked);
    assert [] + [asked] == [asked];
    AskedAt(map[ask.id := ask], map[], ask.body.questions, "call");
    assert ask.body.questions[0].id == "call";
    assert "call" in BucketOf(f, ROOT).questions;
    RunSnoc(EMPTY, [asked], answered);
    assert [asked] + [answered] == [asked, answered];
    assert AsksIn(f.threads.vals[ROOT], "call");
    JoinedBucketIn(f, Run(EMPTY, [answered]), ROOT);
  }
}
