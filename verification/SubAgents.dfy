/** Nesting the messages of sub-agents under the tool calls that spawned them. */
module SubAgents {
  import opened JsMaps
  import opened Events
  import opened Fold
  import Deltas
  import Rendering
  import Replay
  import TimeOrder

  // ----- Parent links form a tree -----

  /** Every thread hangs off the root or off a thread linked before it. */
  ghost predicate Rooted(parents: JsMap<Id, Link>) {
    && parents.Valid()
    && ROOT !in parents.vals
    && forall i :: 0 <= i < |parents.keys| ==>
         parents.vals[parents.keys[i]].parent == ROOT || parents.vals[parents.keys[i]].parent in parents.keys[..i]
  }

  /** A `thread.created` names a new thread and an existing parent, or repeats what is known. */
  predicate WellSpawned(parents: JsMap<Id, Link>, e: Event)
    requires Replay.Linking(Stream, e)
  {
    var t, link := e.thread.value, e.body.link;
    if t in parents.vals then parents.vals[t] == link
    else t != ROOT && (link.parent == ROOT || link.parent in parents.vals)
  }

  lemma SpawnKeepsRooted(parents: JsMap<Id, Link>, t: Id, link: Link)
    requires Rooted(parents)
    requires if t in parents.vals then parents.vals[t] == link
      else t != ROOT && (link.parent == ROOT || link.parent in parents.vals)
    ensures Rooted(parents.Set(t, link))
  {
    var after := parents.Set(t, link);
    if t in parents.vals {
      assert after == parents;
    } else {
      SetValid(parents, t, link);
      forall i | 0 <= i < |after.keys|
        ensures after.vals[after.keys[i]].parent == ROOT || after.vals[after.keys[i]].parent in after.keys[..i]
      {
        if i < |parents.keys| {
          assert after.keys[i] == parents.keys[i] && after.keys[..i] == parents.keys[..i];
          assert parents.keys[i] in parents.vals;
        } else {
          assert after.keys[..i] == parents.keys;
        }
      }
    }
  }

  /** Over a whole log: each spawn is checked against the links before it. */
  predicate SpawnsInOrder(route: Route, f: Fold, log: seq<Event>) {
    log != [] ==>
      && SpawnsInOrder(route, f, log[..|log| - 1])
      && (Replay.Linking(route, log[|log| - 1]) ==> WellSpawned(Replay.IngestAll(route, f, log[..|log| - 1]).parents, log[|log| - 1]))
  }

  lemma {:induction false} LinksStayRooted(route: Route, f: Fold, log: seq<Event>)
    requires Rooted(f.parents) && SpawnsInOrder(route, f, log)
    ensures Rooted(Replay.IngestAll(route, f, log).parents)
    decreases log
  {
    if log != [] {
      var front, e := log[..|log| - 1], log[|log| - 1];
      LinksStayRooted(route, f, front);
      Replay.IngestRest(route, Replay.IngestAll(route, f, front), e);
      if Replay.Linking(route, e) {
        SpawnKeepsRooted(Replay.IngestAll(route, f, front).parents, e.thread.value, e.body.link);
      }
    }
  }

  // ----- Depth of a thread -----

  /** Where a thread stands in the order of links; the root, and anything unknown, comes first. */
  function Index(keys: seq<Id>, t: Id): (i: nat)
    ensures i <= |keys|
    ensures i > 0 ==> keys[i - 1] == t
    ensures i == 0 <==> t !in keys
  {
    if keys == [] then 0
    else if keys[|keys| - 1] == t then |keys|
    else
      assert keys == keys[..|keys| - 1] + [keys[|keys| - 1]];
      Index(keys[..|keys| - 1], t)
  }

  lemma {:induction false} IndexInPrefix(keys: seq<Id>, t: Id, n: nat)
    requires Distinct(keys) && n <= |keys| && t in keys[..n]
    ensures Index(keys, t) <= n
  {
    var j :| 0 <= j < n && keys[j] == t;
    assert keys[Index(keys, t) - 1] == t == keys[j];
  }

  /** A child is linked after its parent. */
  lemma ChildIsLater(parents: JsMap<Id, Link>, t: Id)
    requires Rooted(parents) && t in parents.vals
    ensures Index(parents.keys, parents.vals[t].parent) < Index(parents.keys, t)
  {
    var i := Index(parents.keys, t) - 1;
    assert parents.keys[i] == t;
    var p := parents.vals[t].parent;
    if p in parents.keys[..i] {
      IndexInPrefix(parents.keys, p, i);
    } else {
      assert p == ROOT && ROOT !in parents.keys;
    }
  }

  // ----- The visit -----

  /** The threads whose messages are built for `t`, nested ones after it: for each of its tool
      calls in order, the threads linked to that call in the order they were linked. It ends
      because a child is linked after its parent. */
  ghost function Visit(parents: JsMap<Id, Link>, calls: Id -> seq<Id>, t: Id): seq<Id>
    requires Rooted(parents)
    decreases |parents.keys| - Index(parents.keys, t), 2, 0
  {
    [t] + VisitCalls(parents, calls, t, calls(t))
  }

  ghost function VisitCalls(parents: JsMap<Id, Link>, calls: Id -> seq<Id>, t: Id, cs: seq<Id>): seq<Id>
    requires Rooted(parents)
    decreases |parents.keys| - Index(parents.keys, t), 1, |cs|
  {
    if cs == [] then []
    else VisitChildren(parents, calls, t, cs[0], parents.keys) + VisitCalls(parents, calls, t, cs[1..])
  }

  ghost function VisitChildren(parents: JsMap<Id, Link>, calls: Id -> seq<Id>, t: Id, call: Id, ids: seq<Id>): seq<Id>
    requires Rooted(parents)
    decreases |parents.keys| - Index(parents.keys, t), 0, |ids|
  {
    if ids == [] then []
    else
      (if ids[0] in parents.vals && parents.vals[ids[0]] == Link(t, call) then
         ChildIsLater(parents, ids[0]);
         Visit(parents, calls, ids[0])
       else [])
      + VisitChildren(parents, calls, t, call, ids[1..])
  }

  // ----- Each thread at most once -----

  ghost predicate Under(parents: JsMap<Id, Link>, a: Id, t: Id)
    requires Rooted(parents)
    decreases Index(parents.keys, t)
  {
    a == t || (t in parents.vals && (ChildIsLater(parents, t); Under(parents, a, parents.vals[t].parent)))
  }

  lemma {:induction false} UnderIsEarlier(parents: JsMap<Id, Link>, a: Id, t: Id)
    requires Rooted(parents) && Under(parents, a, t)
    ensures Index(parents.keys, a) <= Index(parents.keys, t)
    decreases Index(parents.keys, t)
  {
    if a != t {
      ChildIsLater(parents, t);
      UnderIsEarlier(parents, a, parents.vals[t].parent);
    }
  }

  lemma {:induction false} UnderChain(parents: JsMap<Id, Link>, a: Id, b: Id, t: Id)
    requires Rooted(parents) && Under(parents, a, t) && Under(parents, b, t)
    ensures Under(parents, a, b) || Under(parents, b, a)
    decreases Index(parents.keys, t)
  {
    if a != t && b != t {
      ChildIsLater(parents, t);
      UnderChain(parents, a, b, parents.vals[t].parent);
    }
  }

  /** No thread is under two children of the same parent. */
  lemma SiblingsApart(parents: JsMap<Id, Link>, a: Id, b: Id, t: Id)
    requires Rooted(parents) && a in parents.vals && b in parents.vals && parents.vals[a].parent == parents.vals[b].parent
    requires Under(parents, a, t) && Under(parents, b, t)
    ensures a == b
  {
    UnderChain(parents, a, b, t);
    ChildIsLater(parents, a);
    ChildIsLater(parents, b);
    if a != b {
      if Under(parents, a, b) {
        UnderIsEarlier(parents, a, parents.vals[b].parent);
      } else {
        UnderIsEarlier(parents, b, parents.vals[a].parent);
      }
    }
  }

  lemma {:induction false} UnderTransitive(parents: JsMap<Id, Link>, a: Id, b: Id, t: Id)
    requires Rooted(parents) && Under(parents, a, b) && Under(parents, b, t)
    ensures Under(parents, a, t)
    decreases Index(parents.keys, t)
  {
    if b != t {
      ChildIsLater(parents, t);
      UnderTransitive(parents, a, b, parents.vals[t].parent);
    }
  }

  /** `x` lies under a child of `t` linked to `call`. */
  ghost predicate UnderCall(parents: JsMap<Id, Link>, t: Id, call: Id, ids: seq<Id>, x: Id)
    requires Rooted(parents)
  {
    exists i :: 0 <= i < |ids| && ids[i] in parents.vals && parents.vals[ids[i]] == Link(t, call) && Under(parents, ids[i], x)
  }

  lemma {:induction false} VisitUnder(parents: JsMap<Id, Link>, calls: Id -> seq<Id>, t: Id, x: Id)
    requires Rooted(parents) && x in Visit(parents, calls, t)
    ensures Under(parents, t, x)
    decreases |parents.keys| - Index(parents.keys, t), 2, 0
  {
    if x != t {
      var call := VisitCallsUnder(parents, calls, t, calls(t), x);
      ChildUnder(parents, t, call, parents.keys, x);
    }
  }

  lemma ChildUnder(parents: JsMap<Id, Link>, t: Id, call: Id, ids: seq<Id>, x: Id)
    requires Rooted(parents) && UnderCall(parents, t, call, ids, x)
    ensures Under(parents, t, x) && x != t
  {
    var i :| 0 <= i < |ids| && ids[i] in parents.vals && parents.vals[ids[i]] == Link(t, call) && Under(parents, ids[i], x);
    ChildIsLater(parents, ids[i]);
    assert Under(parents, t, ids[i]);
    UnderTransitive(parents, t, ids[i], x);
    UnderIsEarlier(parents, ids[i], x);
  }

  lemma {:induction false} VisitCallsUnder(parents: JsMap<Id, Link>, calls: Id -> seq<Id>, t: Id, cs: seq<Id>,
                                           x: Id) returns (call: Id)
    requires Rooted(parents) && x in VisitCalls(parents, calls, t, cs)
    ensures call in cs && UnderCall(parents, t, call, parents.keys, x)
    decreases |parents.keys| - Index(parents.keys, t), 1, |cs|
  {
    if x in VisitChildren(parents, calls, t, cs[0], parents.keys) {
      call := cs[0];
      VisitChildrenUnder(parents, calls, t, call, parents.keys, x);
    } else {
      call := VisitCallsUnder(parents, calls, t, cs[1..], x);
    }
  }

  lemma {:induction false} VisitChildrenUnder(parents: JsMap<Id, Link>, calls: Id -> seq<Id>, t: Id, call: Id,
                                              ids: seq<Id>, x: Id)
    requires Rooted(parents) && x in VisitChildren(parents, calls, t, call, ids)
    ensures UnderCall(parents, t, call, ids, x)
    decreases |parents.keys| - Index(parents.keys, t), 0, |ids|
  {
    if ids[0] in parents.vals && parents.vals[ids[0]] == Link(t, call) && x in Visit(parents, calls, ids[0]) {
      ChildIsLater(parents, ids[0]);
      VisitUnder(parents, calls, ids[0], x);
    } else {
      VisitChildrenUnder(parents, calls, t, call, ids[1..], x);
      var i :| 0 <= i < |ids[1..]| && ids[1..][i] in parents.vals && parents.vals[ids[1..][i]] == Link(t, call) && Under(parents, ids[1..][i], x);
      assert ids[i + 1] == ids[1..][i];
    }
  }

  lemma DistinctConcat(a: seq<Id>, b: seq<Id>)
    requires Distinct(a) && Distinct(b) && forall x | x in a :: x !in b
    ensures Distinct(a + b)
  {
    forall i, j | 0 <= i < j < |a + b| ensures (a + b)[i] != (a + b)[j] {
      if i < |a| <= j {
        assert a[i] in a && b[j - |a|] in b;
      }
    }
  }

  lemma CallsApart(parents: JsMap<Id, Link>, t: Id, c: Id, d: Id, x: Id)
    requires Rooted(parents) && UnderCall(parents, t, c, parents.keys, x) && UnderCall(parents, t, d, parents.keys, x)
    ensures c == d
  {
    var ids := parents.keys;
    var i :| 0 <= i < |ids| && ids[i] in parents.vals && parents.vals[ids[i]] == Link(t, c) && Under(parents, ids[i], x);
    var j :| 0 <= j < |ids| && ids[j] in parents.vals && parents.vals[ids[j]] == Link(t, d) && Under(parents, ids[j], x);
    SiblingsApart(parents, ids[i], ids[j], x);
  }

  /** Each thread is built at most once. */
  lemma {:induction false} VisitOnce(parents: JsMap<Id, Link>, calls: Id -> seq<Id>, t: Id)
    requires Rooted(parents) && forall u :: Distinct(calls(u))
    ensures Distinct(Visit(parents, calls, t))
    decreases |parents.keys| - Index(parents.keys, t), 2, 0
  {
    VisitCallsOnce(parents, calls, t, calls(t));
    forall x | x in VisitCalls(parents, calls, t, calls(t)) ensures x != t {
      var call := VisitCallsUnder(parents, calls, t, calls(t), x);
      ChildUnder(parents, t, call, parents.keys, x);
    }
    DistinctConcat([t], VisitCalls(parents, calls, t, calls(t)));
  }

  lemma {:induction false} VisitCallsOnce(parents: JsMap<Id, Link>, calls: Id -> seq<Id>, t: Id, cs: seq<Id>)
    requires Rooted(parents) && Distinct(cs) && forall u :: Distinct(calls(u))
    ensures Distinct(VisitCalls(parents, calls, t, cs))
    decreases |parents.keys| - Index(parents.keys, t), 1, |cs|
  {
    if cs != [] {
      var first, rest := VisitChildren(parents, calls, t, cs[0], parents.keys), VisitCalls(parents, calls, t, cs[1..]);
      VisitChildrenOnce(parents, calls, t, cs[0], parents.keys);
      VisitCallsOnce(parents, calls, t, cs[1..]);
      forall x | x in first ensures x !in rest {
        if x in rest {
          VisitChildrenUnder(parents, calls, t, cs[0], parents.keys, x);
          var call := VisitCallsUnder(parents, calls, t, cs[1..], x);
          CallsApart(parents, t, cs[0], call, x);
        }
      }
      DistinctConcat(first, rest);
    }
  }

  lemma {:induction false} VisitChildrenOnce(parents: JsMap<Id, Link>, calls: Id -> seq<Id>, t: Id, call: Id,
                                             ids: seq<Id>)
    requires Rooted(parents) && Distinct(ids) && forall u :: Distinct(calls(u))
    ensures Distinct(VisitChildren(parents, calls, t, call, ids))
    decreases |parents.keys| - Index(parents.keys, t), 0, |ids|
  {
    if ids != [] {
      var rest := VisitChildren(parents, calls, t, call, ids[1..]);
      VisitChildrenOnce(parents, calls, t, call, ids[1..]);
      if ids[0] in parents.vals && parents.vals[ids[0]] == Link(t, call) {
        ChildIsLater(parents, ids[0]);
        VisitOnce(parents, calls, ids[0]);
        forall x | x in Visit(parents, calls, ids[0]) ensures x !in rest {
          if x in rest {
            VisitUnder(parents, calls, ids[0], x);
            VisitChildrenUnder(parents, calls, t, call, ids[1..], x);
            var i :| 0 <= i < |ids[1..]| && ids[1..][i] in parents.vals && parents.vals[ids[1..][i]] == Link(t, call) && Under(parents, ids[1..][i], x);
            assert ids[0] != ids[i + 1];
            SiblingsApart(parents, ids[0], ids[1..][i], x);
          }
        }
        DistinctConcat(Visit(parents, calls, ids[0]), rest);
      } else {
        assert [] + rest == rest;
      }
    }
  }

  // ----- Nested content -----

  datatype Status = RequiresAction | Running | Complete | Cancelled | Failed(error: string)

  /** What building content depends on besides the fold: which tool calls create sub-agents, what
      the root is limited to, and how the parent turn ended. */
  datatype View = View(spawns: Deltas.ToolCall -> bool, scope: Option<set<Id>>, parent: Rendering.Parent)

  /** The status of a sub-agent's message. */
  function BucketStatus(b: Bucket, v: View): Status {
    if b.approvals != {} then RequiresAction
    else if exists call | call in b.questions :: call !in b.results then RequiresAction
    else if Rendering.CancelledIn(b, v.parent) then Status.Cancelled
    else if b.error.Some? then Status.Failed(b.error.value)
    else if !b.done && v.parent.terminal == Some(Rendering.ParentFailed) then Status.Failed("Parent turn failed")
    else if !b.done && b.modelIds != [] then Running
    else Complete
  }

  /** A part with the sub-agents nested under it, each with its header and content. */
  datatype Node = Node(part: Rendering.Part, nested: seq<Nested>)

  datatype Nested = Nested(thread: Id, title: Option<string>, agent: Option<string>, status: Status, content: seq<Node>)

  function FindToolCall(b: Bucket, ids: seq<Id>, call: Id): Option<Deltas.ToolCall> {
    if ids == [] then None
    else
      var found := if ids[0] in b.events.vals && b.events.vals[ids[0]].body.ModelMessage?
        then FindCall(Deltas.CallList(b.events.vals[ids[0]].body.message), call) else None;
      if found.Some? then found else FindToolCall(b, ids[1..], call)
  }

  predicate Spawning(b: Bucket, v: View, call: Id) {
    var found := FindToolCall(b, b.modelIds, call);
    found.Some? && v.spawns(found.value)
  }

  ghost predicate BucketsValid(f: Fold) {
    forall t :: BucketOf(f, t).events.Valid()
  }

  /** Only the root thread is limited to a scope. */
  ghost function PartsShown(f: Fold, v: View, t: Id): seq<Rendering.Part>
    requires BucketsValid(f)
  {
    Rendering.ThreadParts(BucketOf(f, t), if t == ROOT then v.scope else None, v.parent)
  }

  /** A thread's content. Building it ends because a child is linked after its parent. */
  ghost function Content(f: Fold, v: View, t: Id): seq<Node>
    requires Rooted(f.parents) && BucketsValid(f)
    decreases |f.parents.keys| - Index(f.parents.keys, t), 2, 0
  {
    Attach(f, v, t, PartsShown(f, v, t))
  }

  ghost function Attach(f: Fold, v: View, t: Id, parts: seq<Rendering.Part>): seq<Node>
    requires Rooted(f.parents) && BucketsValid(f)
    decreases |f.parents.keys| - Index(f.parents.keys, t), 1, |parts|
  {
    if parts == [] then []
    else
      [Node(parts[0], if parts[0].ToolPart? && Spawning(BucketOf(f, t), v, parts[0].call)
                      then Children(f, v, t, parts[0].call, f.parents.keys) else [])]
      + Attach(f, v, t, parts[1..])
  }

  ghost function Children(f: Fold, v: View, t: Id, call: Id, ids: seq<Id>): seq<Nested>
    requires Rooted(f.parents) && BucketsValid(f)
    decreases |f.parents.keys| - Index(f.parents.keys, t), 0, |ids|
  {
    if ids == [] then []
    else
      (if ids[0] in f.parents.vals && f.parents.vals[ids[0]] == Link(t, call) then
         ChildIsLater(f.parents, ids[0]);
         var child := BucketOf(f, ids[0]);
         [Nested(ids[0], child.title, child.agent, BucketStatus(child, v), Content(f, v, ids[0]))]
       else [])
      + Children(f, v, t, call, ids[1..])
  }

  /** The threads nested in content, in order. */
  function ThreadsIn(nodes: seq<Node>): seq<Id>
    decreases nodes
  {
    if nodes == [] then [] else ThreadsUnder(nodes[0].nested) + ThreadsIn(nodes[1..])
  }

  function ThreadsUnder(nested: seq<Nested>): seq<Id>
    decreases nested
  {
    if nested == [] then [] else ([nested[0].thread] + ThreadsIn(nested[0].content)) + ThreadsUnder(nested[1..])
  }

  /** The calls of a thread that sub-agents nest under. */
  function SpawningCalls(b: Bucket, v: View, parts: seq<Rendering.Part>): seq<Id> {
    if parts == [] then []
    else
      (if parts[0].ToolPart? && Spawning(b, v, parts[0].call) then [parts[0].call] else [])
      + SpawningCalls(b, v, parts[1..])
  }

  ghost predicate CallsAre(f: Fold, v: View, calls: Id -> seq<Id>)
    requires BucketsValid(f)
  {
    forall t :: calls(t) == SpawningCalls(BucketOf(f, t), v, PartsShown(f, v, t))
  }

  lemma ThreadsUnderCons(first: Nested, rest: seq<Nested>)
    ensures ThreadsUnder([first] + rest) == ([first.thread] + ThreadsIn(first.content)) + ThreadsUnder(rest)
  {
    assert ([first] + rest)[0] == first && ([first] + rest)[1..] == rest;
  }

  /** Building a thread's content visits exactly the threads it nests, in order. */
  lemma {:induction false} ContentVisits(f: Fold, v: View, calls: Id -> seq<Id>, t: Id)
    requires Rooted(f.parents) && BucketsValid(f) && CallsAre(f, v, calls)
    ensures [t] + ThreadsIn(Content(f, v, t)) == Visit(f.parents, calls, t)
    decreases |f.parents.keys| - Index(f.parents.keys, t), 2, 0
  {
    AttachVisits(f, v, calls, t, PartsShown(f, v, t));
  }

  lemma {:induction false} AttachVisits(f: Fold, v: View, calls: Id -> seq<Id>, t: Id, parts: seq<Rendering.Part>)
    requires Rooted(f.parents) && BucketsValid(f) && CallsAre(f, v, calls)
    ensures ThreadsIn(Attach(f, v, t, parts)) == VisitCalls(f.parents, calls, t, SpawningCalls(BucketOf(f, t), v, parts))
    decreases |f.parents.keys| - Index(f.parents.keys, t), 1, |parts|
  {
    if parts != [] {
      AttachVisits(f, v, calls, t, parts[1..]);
      var rest := SpawningCalls(BucketOf(f, t), v, parts[1..]);
      var nodes := Attach(f, v, t, parts);
      assert nodes[1..] == Attach(f, v, t, parts[1..]);
      if parts[0].ToolPart? && Spawning(BucketOf(f, t), v, parts[0].call) {
        ChildrenVisit(f, v, calls, t, parts[0].call, f.parents.keys);
        assert ([parts[0].call] + rest)[1..] == rest;
      } else {
        assert [] + rest == rest;
      }
    }
  }

  lemma {:induction false} ChildrenVisit(f: Fold, v: View, calls: Id -> seq<Id>, t: Id, call: Id, ids: seq<Id>)
    requires Rooted(f.parents) && BucketsValid(f) && CallsAre(f, v, calls)
    ensures ThreadsUnder(Children(f, v, t, call, ids)) == VisitChildren(f.parents, calls, t, call, ids)
    decreases |f.parents.keys| - Index(f.parents.keys, t), 0, |ids|
  {
    if ids != [] {
      ChildrenVisit(f, v, calls, t, call, ids[1..]);
      if ids[0] in f.parents.vals && f.parents.vals[ids[0]] == Link(t, call) {
        ChildIsLater(f.parents, ids[0]);
        ContentVisits(f, v, calls, ids[0]);
        var child := BucketOf(f, ids[0]);
        ThreadsUnderCons(Nested(ids[0], child.title, child.agent, BucketStatus(child, v), Content(f, v, ids[0])),
                         Children(f, v, t, call, ids[1..]));
      } else {
        assert Children(f, v, t, call, ids) == Children(f, v, t, call, ids[1..]);
      }
    }
  }

  lemma {:induction false} SpawningDistinct(b: Bucket, v: View, parts: seq<Rendering.Part>)
    requires Rendering.OnePerCall(parts)
    ensures Distinct(SpawningCalls(b, v, parts))
    ensures forall call :: call in SpawningCalls(b, v, parts) ==> exists i :: 0 <= i < |parts| && parts[i].ToolPart? && parts[i].call == call
    decreases parts
  {
    if parts != [] {
      SpawningDistinct(b, v, parts[1..]);
      var first, rest := if parts[0].ToolPart? && Spawning(b, v, parts[0].call) then [parts[0].call] else [], SpawningCalls(b, v, parts[1..]);
      forall call | call in rest ensures exists i :: 0 < i < |parts| && parts[i].ToolPart? && parts[i].call == call {
        var i :| 0 <= i < |parts[1..]| && parts[1..][i].ToolPart? && parts[1..][i].call == call;
        assert parts[i + 1].ToolPart? && parts[i + 1].call == call;
      }
      DistinctConcat(first, rest);
    }
  }

  lemma OnePartPerCall(f: Fold, v: View, t: Id)
    requires BucketsValid(f)
    ensures Rendering.OnePerCall(PartsShown(f, v, t))
  {
    var b, scope := BucketOf(f, t), if t == ROOT then v.scope else None;
    var order := TimeOrder.InTimeOrder(Rendering.Entries(b));
    Rendering.Collapsed(Rendering.Walk(b, order, order, scope, Rendering.ModelsShown(b, scope), v.parent));
  }

  /** Building content ends and nests each thread at most once. */
  lemma ContentIsATree(f: Fold, v: View, t: Id)
    requires Rooted(f.parents) && BucketsValid(f)
    ensures Distinct([t] + ThreadsIn(Content(f, v, t)))
  {
    var calls := u => SpawningCalls(BucketOf(f, u), v, PartsShown(f, v, u));
    forall u ensures Distinct(calls(u)) {
      OnePartPerCall(f, v, u);
      SpawningDistinct(BucketOf(f, u), v, PartsShown(f, v, u));
    }
    ContentVisits(f, v, calls, t);
    VisitOnce(f.parents, calls, t);
  }

  // ----- What a log leaves -----

  lemma {:induction false} RunValid(route: Route, b: Bucket, log: seq<Event>)
    requires b.events.Valid()
    ensures Replay.BucketRun(route, b, log).events.Valid()
    decreases log
  {
    if log != [] {
      RunValid(route, b, log[..|log| - 1]);
      Replay.BucketStepFields(route, Replay.BucketRun(route, b, log[..|log| - 1]), log[|log| - 1]);
    }
  }

  lemma IngestedValid(route: Route, log: seq<Event>)
    ensures BucketsValid(Replay.IngestAll(route, EMPTY, log))
  {
    forall t ensures BucketOf(Replay.IngestAll(route, EMPTY, log), t).events.Valid() {
      Replay.IngestAllBucket(route, EMPTY, log, t);
      RunValid(route, EMPTY_BUCKET, Replay.OnThread(route, log, t));
    }
  }

  /** For every log whose spawns name new threads and existing parents, read either way: building
      the root's content ends, nests each thread at most once, and no thread shows two parts for the
      same call. */
  lemma RenderingIsATree(route: Route, log: seq<Event>, v: View, f: Fold)
    requires SpawnsInOrder(route, EMPTY, log) && f == Replay.IngestAll(route, EMPTY, log)
    ensures Rooted(f.parents) && BucketsValid(f)
    ensures Distinct([ROOT] + ThreadsIn(Content(f, v, ROOT)))
    ensures forall t :: Rendering.OnePerCall(PartsShown(f, v, t))
  {
    LinksStayRooted(route, EMPTY, log);
    IngestedValid(route, log);
    ContentIsATree(f, v, ROOT);
    forall t ensures Rendering.OnePerCall(PartsShown(f, v, t)) {
      OnePartPerCall(f, v, t);
    }
  }
}
