/** A session read live and the same session reloaded from history render to the same nested content,
    although the two folds hold different events and need not even have the same threads. */
module WholeFolds {
  import opened JsMaps
  import opened Fold
  import opened Replay
  import opened SubAgents
  import Events
  import Reconnect
  import Rendering
  import RouteAgreement

  // ----- Folds that render alike -----

  /** Everything building a thread's content reads of its bucket is the same. */
  ghost predicate SameThread(f: Fold, g: Fold, v: View, t: Id)
    requires BucketsValid(f) && BucketsValid(g)
  {
    var b, c := BucketOf(f, t), BucketOf(g, t);
    && PartsShown(f, v, t) == PartsShown(g, v, t)
    && BucketStatus(b, v) == BucketStatus(c, v) && b.title == c.title && b.agent == c.agent
    && forall call :: Spawning(b, v, call) <==> Spawning(c, v, call)
  }

  ghost predicate RenderAlike(f: Fold, g: Fold, v: View) {
    && Rooted(f.parents) && f.parents == g.parents && BucketsValid(f) && BucketsValid(g)
    && forall t :: SameThread(f, g, v, t)
  }

  lemma {:induction false} SameContent(f: Fold, g: Fold, v: View, t: Id)
    requires RenderAlike(f, g, v)
    ensures Content(f, v, t) == Content(g, v, t)
    decreases |f.parents.keys| - Index(f.parents.keys, t), 2, 0
  {
    assert SameThread(f, g, v, t);
    SameAttach(f, g, v, t, PartsShown(f, v, t));
  }

  lemma {:induction false} SameAttach(f: Fold, g: Fold, v: View, t: Id, parts: seq<Rendering.Part>)
    requires RenderAlike(f, g, v)
    ensures Attach(f, v, t, parts) == Attach(g, v, t, parts)
    decreases |f.parents.keys| - Index(f.parents.keys, t), 1, |parts|
  {
    if parts != [] {
      assert SameThread(f, g, v, t);
      SameAttach(f, g, v, t, parts[1..]);
      if parts[0].ToolPart? {
        SameChildren(f, g, v, t, parts[0].call, f.parents.keys);
      }
    }
  }

  lemma {:induction false} SameChildren(f: Fold, g: Fold, v: View, t: Id, call: Id, ids: seq<Id>)
    requires RenderAlike(f, g, v)
    ensures Children(f, v, t, call, ids) == Children(g, v, t, call, ids)
    decreases |f.parents.keys| - Index(f.parents.keys, t), 0, |ids|
  {
    if ids != [] {
      SameChildren(f, g, v, t, call, ids[1..]);
      if ids[0] in f.parents.vals && f.parents.vals[ids[0]] == Events.Link(t, call) {
        ChildIsLater(f.parents, ids[0]);
        SameContent(f, g, v, ids[0]);
        assert SameThread(f, g, v, ids[0]);
      }
    }
  }

  // ----- Alike buckets -----

  lemma {:induction false} SameToolCall(h: Bucket, s: Bucket, ids: seq<Id>, call: Id)
    requires RouteAgreement.Alike(h, s)
    ensures FindToolCall(h, ids, call) == FindToolCall(s, ids, call)
    decreases ids
  {
    if ids != [] {
      RouteAgreement.AlikeAt(h, s, ids[0]);
      SameToolCall(h, s, ids[1..], call);
    }
  }

  lemma AlikeBucket(b: Bucket, c: Bucket, v: View)
    requires RouteAgreement.Alike(b, c)
    ensures BucketStatus(b, v) == BucketStatus(c, v)
    ensures forall call :: Spawning(b, v, call) <==> Spawning(c, v, call)
  {
    forall call ensures Spawning(b, v, call) <==> Spawning(c, v, call) {
      SameToolCall(b, c, b.modelIds, call);
    }
  }

  lemma AlikeThread(f: Fold, g: Fold, v: View, t: Id)
    requires BucketsValid(f) && BucketsValid(g) && RouteAgreement.Alike(BucketOf(f, t), BucketOf(g, t))
    ensures SameThread(f, g, v, t)
  {
    RouteAgreement.AlikeRendersAlike(BucketOf(f, t), BucketOf(g, t), if t == Events.ROOT then v.scope else None, v.parent);
    AlikeBucket(BucketOf(f, t), BucketOf(g, t), v);
  }

  // ----- The two routes over a whole log -----

  lemma ThreadSnoc(route: Route, log: seq<Events.Event>, e: Events.Event, t: Id)
    ensures OnThread(route, log + [e], t)
      == OnThread(route, log, t) + if !Skipped(route, e) && e.thread == Some(t) then [e] else []
  {
    assert (log + [e])[..|log|] == log;
  }

  /** What reaches a thread live is what history keeps of what reaches it there. */
  lemma {:induction false} ThreadKept(log: seq<Events.Event>, t: Id)
    ensures OnThread(Stream, Reconnect.Kept(log), t) == Reconnect.Kept(OnThread(History, log, t))
    decreases log
  {
    if log != [] {
      var front, e := log[..|log| - 1], log[|log| - 1];
      ThreadKept(front, t);
      var kept, thread := Reconnect.Kept(front), OnThread(History, front, t);
      ThreadSnoc(Stream, kept, e, t);
      Reconnect.KeptSnoc(thread, e);
      assert kept + [] == kept && thread + [] == thread && Reconnect.Kept(thread) + [] == Reconnect.Kept(thread);
    }
  }

  lemma {:induction false} LinksKept(log: seq<Events.Event>)
    ensures LinkedThreads(Stream, Reconnect.Kept(log)) == LinkedThreads(History, log)
    ensures Links(Stream, Reconnect.Kept(log)) == Links(History, log)
    decreases log
  {
    if log != [] {
      var front, e := log[..|log| - 1], log[|log| - 1];
      LinksKept(front);
      var kept := Reconnect.Kept(front);
      assert kept + [] == kept && (kept + [e])[..|kept|] == kept;
      assert LinkedThreads(History, front) + [] == LinkedThreads(History, front);
    }
  }

  lemma {:induction false} ThreadMembers(log: seq<Events.Event>, t: Id, i: nat) returns (k: nat)
    requires i < |OnThread(History, log, t)|
    ensures k < |log| && log[k] == OnThread(History, log, t)[i]
    decreases log
  {
    var front := log[..|log| - 1];
    if i < |OnThread(History, front, t)| {
      k := ThreadMembers(front, t, i);
    } else {
      k := |log| - 1;
    }
  }

  lemma {:induction false} ThreadPlain(log: seq<Events.Event>, t: Id)
    requires RouteAgreement.Plain(log)
    ensures RouteAgreement.Plain(OnThread(History, log, t))
    decreases log
  {
    if log != [] {
      var front, e := log[..|log| - 1], log[|log| - 1];
      assert log == front + [e];
      RouteAgreement.FreshId(front, e);
      ThreadPlain(front, t);
      var thread := OnThread(History, front, t);
      forall i | 0 <= i < |thread| ensures thread[i].id != e.id {
        var k := ThreadMembers(front, t, i);
        assert front[k] == log[k];
      }
    }
  }

  lemma FoldsAlike(log: seq<Events.Event>, t: Id)
    requires RouteAgreement.Plain(log)
    ensures RouteAgreement.Alike(BucketOf(IngestAll(History, EMPTY, log), t), BucketOf(IngestAll(Stream, EMPTY, Reconnect.Kept(log)), t))
  {
    IngestAllBucket(History, EMPTY, log, t);
    IngestAllBucket(Stream, EMPTY, Reconnect.Kept(log), t);
    ThreadKept(log, t);
    ThreadPlain(log, t);
    RouteAgreement.RunsAlike(OnThread(History, log, t));
  }

  /** For every log without deltas whose events have their own ids and whose spawns name new threads
      and existing parents: the reloaded and the live fold have the same links, show the same parts
      on every thread, and build the same nested content. */
  lemma RoutesRenderAlike(log: seq<Events.Event>, v: View, h: Fold, s: Fold)
    requires RouteAgreement.Plain(log) && SpawnsInOrder(History, EMPTY, log)
    requires h == IngestAll(History, EMPTY, log) && s == IngestAll(Stream, EMPTY, Reconnect.Kept(log))
    ensures RenderAlike(h, s, v)
    ensures forall t :: Content(h, v, t) == Content(s, v, t)
  {
    IngestedValid(History, log);
    IngestedValid(Stream, Reconnect.Kept(log));
    LinksStayRooted(History, EMPTY, log);
    IngestAllParents(History, EMPTY, log);
    IngestAllParents(Stream, EMPTY, Reconnect.Kept(log));
    LinksKept(log);
    forall t ensures SameThread(h, s, v, t) {
      FoldsAlike(log, t);
      AlikeThread(h, s, v, t);
    }
    forall t ensures Content(h, v, t) == Content(s, v, t) {
      SameContent(h, s, v, t);
    }
  }

  /** The threads themselves may differ: an auth event on a thread of its own gives that thread a
      bucket in history only. */
  lemma ThreadOnlyInHistory(t: Id, at: int)
    ensures var auth := Events.Event("auth", Some(t), at, Events.McpAuthRequired);
      && t in IngestAll(History, EMPTY, [auth]).threads.vals
      && t !in IngestAll(Stream, EMPTY, Reconnect.Kept([auth])).threads.vals
  {
    var auth := Events.Event("auth", Some(t), at, Events.McpAuthRequired);
    assert [auth][..0] == [];
    IngestAllBucket(History, EMPTY, [auth], t);
    IngestAllBucket(Stream, EMPTY, Reconnect.Kept([auth]), t);
  }
}
