/** Context compactions in a thread's time-ordered events: which finish belongs to which start,
    and which message group shows a start. */
module Compaction {
  import opened JsMaps
  import opened TimeOrder

  ghost predicate DistinctIds(order: seq<Entry>) {
    forall i, j :: 0 <= i < j < |order| ==> order[i].id != order[j].id
  }

  /** What follows the entry `id`; nothing when there is none. */
  function After(order: seq<Entry>, id: Id): seq<Entry> {
    if order == [] then [] else if order[0].id == id then order[1..] else After(order[1..], id)
  }

  /** What precedes the entry `id`; everything when there is none. */
  function Before(order: seq<Entry>, id: Id): seq<Entry> {
    if order == [] || order[0].id == id then [] else [order[0]] + Before(order[1..], id)
  }

  function FirstModel(order: seq<Entry>): Option<Id> {
    if order == [] then None
    else if order[0].event.body.ModelMessage? then Some(order[0].id)
    else FirstModel(order[1..])
  }

  function LastModel(order: seq<Entry>): Option<Id> {
    if order == [] then None
    else if order[|order| - 1].event.body.ModelMessage? then Some(order[|order| - 1].id)
    else LastModel(order[..|order| - 1])
  }

  /** The first finish, unless another compaction starts before it. */
  function FirstFinish(order: seq<Entry>): Option<Id> {
    if order == [] || order[0].event.body.CompactionStarted? then None
    else if order[0].event.body.CompactionFinished? then Some(order[0].id)
    else FirstFinish(order[1..])
  }

  function NextModelMessageIdAfter(order: seq<Entry>, id: Id): Option<Id> {
    FirstModel(After(order, id))
  }

  function PreviousModelMessageIdBefore(order: seq<Entry>, id: Id): Option<Id> {
    LastModel(Before(order, id))
  }

  function FinishedForStarted(order: seq<Entry>, id: Id): Option<Id> {
    FirstFinish(After(order, id))
  }

  /** `settled` is when the turn being built was completed, when it was. */
  predicate ShouldIncludeStarted(order: seq<Entry>, id: Id, at: int, scope: Option<set<Id>>, settled: Option<int>) {
    if scope.None? then true
    else
      var next := NextModelMessageIdAfter(order, id);
      if next.Some? then next.value in scope.value
      else if settled.Some? && at > settled.value then false
      else if scope.value == {} then true
      else
        var previous := PreviousModelMessageIdBefore(order, id);
        previous.Some? && previous.value in scope.value
  }

  // ----- The scans -----

  method FindNextModelMessage(order: seq<Entry>, id: Id) returns (next: Option<Id>)
    ensures next == NextModelMessageIdAfter(order, id)
  {
    var passed := false;
    for i := 0 to |order|
      invariant NextModelMessageIdAfter(order, id)
        == if passed then FirstModel(order[i..]) else FirstModel(After(order[i..], id))
    {
      assert order[i..][0] == order[i] && order[i..][1..] == order[i + 1..];
      if !passed {
        if order[i].id == id {
          passed := true;
        }
      } else if order[i].event.body.ModelMessage? {
        return Some(order[i].id);
      }
    }
    next := None;
  }

  method FindPreviousModelMessage(order: seq<Entry>, id: Id) returns (previous: Option<Id>)
    ensures previous == PreviousModelMessageIdBefore(order, id)
  {
    previous := None;
    for i := 0 to |order|
      invariant Before(order, id) == order[..i] + Before(order[i..], id)
      invariant previous == LastModel(order[..i])
    {
      assert order[i..][0] == order[i] && order[i..][1..] == order[i + 1..];
      assert order[..i + 1] == order[..i] + [order[i]] && order[..i + 1][..i] == order[..i];
      if order[i].id == id {
        assert order[..i] + [] == order[..i];
        return;
      }
      if order[i].event.body.ModelMessage? {
        previous := Some(order[i].id);
      }
    }
    assert order[..|order|] + [] == order[..|order|];
  }

  method FindFinishedForStarted(order: seq<Entry>, id: Id) returns (finished: Option<Id>)
    ensures finished == FinishedForStarted(order, id)
  {
    var passed := false;
    for i := 0 to |order|
      invariant FinishedForStarted(order, id)
        == if passed then FirstFinish(order[i..]) else FirstFinish(After(order[i..], id))
    {
      assert order[i..][0] == order[i] && order[i..][1..] == order[i + 1..];
      if !passed {
        if order[i].id == id {
          passed := true;
        }
      } else if order[i].event.body.CompactionStarted? {
        return None;
      } else if order[i].event.body.CompactionFinished? {
        return Some(order[i].id);
      }
    }
    finished := None;
  }

  // ----- Pairing -----

  lemma {:induction false} AfterAt(order: seq<Entry>, p: nat)
    requires DistinctIds(order) && p < |order|
    ensures After(order, order[p].id) == order[p + 1..]
    ensures Before(order, order[p].id) == order[..p]
    decreases order
  {
    if p > 0 {
      assert order[0].id != order[p].id;
      assert order[1..][p - 1] == order[p] && order[1..][p..] == order[p + 1..];
      assert [order[0]] + order[1..][..p - 1] == order[..p];
      AfterAt(order[1..], p - 1);
    } else {
      assert order[..0] == [];
    }
  }

  /** Where the first finish is, and that no compaction starts or finishes before it. */
  lemma {:induction false} FirstFinishAt(order: seq<Entry>) returns (q: nat)
    requires FirstFinish(order).Some?
    ensures q < |order| && order[q].event.body.CompactionFinished? && FirstFinish(order) == Some(order[q].id)
    ensures forall j :: 0 <= j < q ==> !order[j].event.body.CompactionStarted? && !order[j].event.body.CompactionFinished?
    decreases order
  {
    if order[0].event.body.CompactionFinished? {
      q := 0;
    } else {
      var rest := FirstFinishAt(order[1..]);
      q := rest + 1;
      forall j | 0 <= j < q ensures !order[j].event.body.CompactionStarted? && !order[j].event.body.CompactionFinished? {
        if j > 0 {
          assert order[j] == order[1..][j - 1];
        }
      }
    }
  }

  /** No finish is shared: two starts never have the same finish. */
  lemma PairingIsInjective(order: seq<Entry>, a: nat, b: nat)
    requires DistinctIds(order) && a < b < |order|
    requires order[a].event.body.CompactionStarted? && order[b].event.body.CompactionStarted?
    requires FinishedForStarted(order, order[a].id).Some?
    ensures FinishedForStarted(order, order[a].id) != FinishedForStarted(order, order[b].id)
  {
    AfterAt(order, a);
    AfterAt(order, b);
    var q := FirstFinishAt(order[a + 1..]);
    if FinishedForStarted(order, order[b].id).Some? {
      var r := FirstFinishAt(order[b + 1..]);
      assert order[a + 1..][b - a - 1] == order[b];
      assert order[a + 1..][q] == order[a + 1 + q] && order[b + 1..][r] == order[b + 1 + r];
      assert a + 1 + q < b;
    }
  }

  // ----- Attribution -----

  predicate Disjoint(scopes: seq<set<Id>>) {
    forall j, k :: 0 <= j < k < |scopes| ==> scopes[j] !! scopes[k]
  }

  predicate Scopes(scopes: seq<set<Id>>) {
    Disjoint(scopes) && forall k :: 0 <= k < |scopes| ==> scopes[k] != {}
  }

  /** The message a start goes with: the next one, or at the live tip the one before. */
  function Anchor(order: seq<Entry>, id: Id): Option<Id> {
    NextModelMessageIdAfter(order, id).Or(PreviousModelMessageIdBefore(order, id))
  }

  /** The start comes after everything the settled turn did. */
  predicate TooLate(order: seq<Entry>, id: Id, at: int, settled: Option<int>) {
    NextModelMessageIdAfter(order, id).None? && settled.Some? && at > settled.value
  }

  /** With nonempty scopes, a start is shown by the scope that holds its anchor, unless it is too
      late for that scope's turn, and by no other. */
  lemma ShownByAnchor(order: seq<Entry>, id: Id, at: int, scope: set<Id>, settled: Option<int>)
    requires scope != {}
    ensures ShouldIncludeStarted(order, id, at, Some(scope), settled)
      <==> Anchor(order, id).Some? && Anchor(order, id).value in scope && !TooLate(order, id, at, settled)
  {
  }

  predicate NoModel(order: seq<Entry>, lo: nat, hi: nat)
    requires lo <= hi <= |order|
  {
    forall i :: lo <= i < hi ==> !order[i].event.body.ModelMessage?
  }

  /** `order[i]` is the message right before the start at `p`. */
  predicate RightBefore(order: seq<Entry>, p: nat, i: nat)
    requires p < |order|
  {
    i < p && order[i].event.body.ModelMessage? && NoModel(order, i + 1, p)
  }

  /** A scope at the live tip of the start at `p`: it has no message yet, or the one before it. */
  ghost predicate AtTip(order: seq<Entry>, p: nat, scope: set<Id>)
    requires p < |order|
  {
    scope == {} || exists i: nat :: RightBefore(order, p, i) && order[i].id in scope
  }

  predicate AfterSettling(at: int, settled: Option<int>) {
    settled.Some? && at > settled.value
  }

  lemma {:induction false} LastModelAt(order: seq<Entry>) returns (i: nat)
    requires LastModel(order).Some?
    ensures i < |order| && order[i].event.body.ModelMessage? && LastModel(order) == Some(order[i].id)
    ensures NoModel(order, i + 1, |order|)
    decreases order
  {
    i := |order| - 1;
    if !order[i].event.body.ModelMessage? {
      i := LastModelAt(order[..|order| - 1]);
      assert NoModel(order[..|order| - 1], i + 1, |order| - 1);
      assert forall k :: 0 <= k < |order| - 1 ==> order[..|order| - 1][k] == order[k];
    }
  }

  lemma PreviousIsRightBefore(order: seq<Entry>, p: nat, scope: set<Id>)
    requires DistinctIds(order) && p < |order|
    ensures var previous := PreviousModelMessageIdBefore(order, order[p].id);
      (previous.Some? && previous.value in scope) <==> exists i: nat :: RightBefore(order, p, i) && order[i].id in scope
  {
    AfterAt(order, p);
    LastModelExact(order[..p]);
    assert forall k :: 0 <= k < p ==> order[..p][k] == order[k];
    if LastModel(order[..p]).Some? {
      var i := LastModelAt(order[..p]);
      assert NoModel(order[..p], i + 1, p);
      assert RightBefore(order, p, i);
      forall k: nat | RightBefore(order, p, k) ensures k == i {
      }
    }
  }

  lemma NextIsAfter(order: seq<Entry>, p: nat)
    requires DistinctIds(order) && p < |order|
    ensures NextModelMessageIdAfter(order, order[p].id).None? <==> NoModel(order, p + 1, |order|)
  {
    AfterAt(order, p);
    FirstModelExact(order[p + 1..]);
    assert forall k :: p < k < |order| ==> order[p + 1..][k - p - 1] == order[k];
  }

  /** `order[n]` is the first message after the start at `p`. */
  predicate RightAfter(order: seq<Entry>, p: nat, n: nat)
    requires p < |order|
  {
    p < n < |order| && order[n].event.body.ModelMessage? && NoModel(order, p + 1, n)
  }

  lemma {:induction false} FirstModelAt(order: seq<Entry>) returns (i: nat)
    requires FirstModel(order).Some?
    ensures i < |order| && order[i].event.body.ModelMessage? && FirstModel(order) == Some(order[i].id) && NoModel(order, 0, i)
    decreases order
  {
    i := 0;
    if !order[0].event.body.ModelMessage? {
      i := FirstModelAt(order[1..]);
      i := i + 1;
      assert forall k :: 1 <= k < |order| ==> order[k] == order[1..][k - 1];
    }
  }

  lemma NextIsRightAfter(order: seq<Entry>, p: nat, scope: set<Id>)
    requires DistinctIds(order) && p < |order|
    ensures var next := NextModelMessageIdAfter(order, order[p].id);
      (next.Some? && next.value in scope) <==> exists n: nat :: RightAfter(order, p, n) && order[n].id in scope
  {
    AfterAt(order, p);
    var later := order[p + 1..];
    FirstModelExact(later);
    assert forall k :: p < k < |order| ==> order[k] == later[k - p - 1];
    if FirstModel(later).Some? {
      var i := FirstModelAt(later);
      assert RightAfter(order, p, p + 1 + i);
    }
  }

  /** A start belongs to the message that follows it, which shows it when it is shown itself. Without
      one it belongs to the live tip, and is shown unless it came after the turn was completed. Where
      nothing is left out, every start is shown. */
  lemma ShownExactly(order: seq<Entry>, p: nat, scope: Option<set<Id>>, settled: Option<int>)
    requires DistinctIds(order) && p < |order|
    ensures ShouldIncludeStarted(order, order[p].id, order[p].event.at, scope, settled) <==>
      || scope.None?
      || (exists n: nat :: RightAfter(order, p, n) && order[n].id in scope.value)
      || (NoModel(order, p + 1, |order|) && !AfterSettling(order[p].event.at, settled) && AtTip(order, p, scope.value))
  {
    if scope.Some? {
      NextIsRightAfter(order, p, scope.value);
      NextIsAfter(order, p);
      PreviousIsRightBefore(order, p, scope.value);
    }
  }

  /** `order[q]` finishes the start at `p`: no other compaction starts or finishes in between. */
  predicate Finishes(order: seq<Entry>, p: nat, q: nat)
    requires p < |order|
  {
    && p < q < |order| && order[q].event.body.CompactionFinished?
    && forall j :: p < j < q ==> !order[j].event.body.CompactionStarted? && !order[j].event.body.CompactionFinished?
  }

  lemma {:induction false} FirstFinishIs(order: seq<Entry>, q: nat)
    requires q < |order| && order[q].event.body.CompactionFinished?
    requires forall j :: 0 <= j < q ==> !order[j].event.body.CompactionStarted? && !order[j].event.body.CompactionFinished?
    ensures FirstFinish(order) == Some(order[q].id)
    decreases order
  {
    if q > 0 {
      assert forall j :: 1 <= j < |order| ==> order[j] == order[1..][j - 1];
      FirstFinishIs(order[1..], q - 1);
    }
  }

  /** A start is paired with the finish that follows it, when no other compaction comes in between. */
  lemma FinishIsNext(order: seq<Entry>, p: nat, id: Id)
    requires DistinctIds(order) && p < |order|
    ensures FinishedForStarted(order, order[p].id) == Some(id) <==> exists q: nat :: Finishes(order, p, q) && order[q].id == id
  {
    AfterAt(order, p);
    var later := order[p + 1..];
    assert forall k :: p < k < |order| ==> order[k] == later[k - p - 1];
    if FirstFinish(later).Some? {
      var q := FirstFinishAt(later);
      assert Finishes(order, p, p + 1 + q);
    }
    forall q: nat | Finishes(order, p, q) ensures FirstFinish(later) == Some(order[q].id) {
      FirstFinishIs(later, q - p - 1);
    }
  }

  /** Two disjoint scopes show the same start exactly when no model message follows it, neither was
      settled before it, and each is empty or holds the message right before it. */
  lemma SharedExactly(order: seq<Entry>, p: nat, scopes: seq<set<Id>>, settled: seq<Option<int>>, j: nat, k: nat)
    requires DistinctIds(order) && p < |order| && order[p].event.body.CompactionStarted?
    requires Disjoint(scopes) && |settled| == |scopes| && j < |scopes| && k < |scopes| && j != k
    ensures var e := order[p];
      (ShouldIncludeStarted(order, e.id, e.event.at, Some(scopes[j]), settled[j])
       && ShouldIncludeStarted(order, e.id, e.event.at, Some(scopes[k]), settled[k]))
      <==>
      (NoModel(order, p + 1, |order|)
       && !AfterSettling(e.event.at, settled[j]) && !AfterSettling(e.event.at, settled[k])
       && AtTip(order, p, scopes[j]) && AtTip(order, p, scopes[k]))
  {
    assert scopes[j] !! scopes[k] by {
      assert j < k ==> scopes[j] !! scopes[k];
      assert k < j ==> scopes[k] !! scopes[j];
    }
    NextIsAfter(order, p);
    PreviousIsRightBefore(order, p, scopes[j]);
    PreviousIsRightBefore(order, p, scopes[k]);
    var next := NextModelMessageIdAfter(order, order[p].id);
    if next.Some? {
      assert !(next.value in scopes[j] && next.value in scopes[k]);
    }
  }

  /** Once every scope has a message, no start is shown twice. */
  lemma AttributionIsUnambiguous(order: seq<Entry>, p: nat, scopes: seq<set<Id>>, settled: seq<Option<int>>, j: nat,
                                 k: nat)
    requires DistinctIds(order) && p < |order| && order[p].event.body.CompactionStarted?
    requires Scopes(scopes) && |settled| == |scopes| && j < |scopes| && k < |scopes|
    requires ShouldIncludeStarted(order, order[p].id, order[p].event.at, Some(scopes[j]), settled[j])
    requires ShouldIncludeStarted(order, order[p].id, order[p].event.at, Some(scopes[k]), settled[k])
    ensures j == k
  {
    ShownByAnchor(order, order[p].id, order[p].event.at, scopes[j], settled[j]);
    ShownByAnchor(order, order[p].id, order[p].event.at, scopes[k], settled[k]);
  }

  lemma {:induction false} LastModelExact(order: seq<Entry>)
    ensures LastModel(order).None? <==> forall i :: 0 <= i < |order| ==> !order[i].event.body.ModelMessage?
    ensures LastModel(order).Some? ==>
      exists i :: 0 <= i < |order| && order[i].event.body.ModelMessage? && order[i].id == LastModel(order).value
    decreases order
  {
    if order != [] && !order[|order| - 1].event.body.ModelMessage? {
      LastModelExact(order[..|order| - 1]);
      if LastModel(order).Some? {
        var i :| 0 <= i < |order| - 1 && order[..|order| - 1][i].event.body.ModelMessage? && order[..|order| - 1][i].id == LastModel(order).value;
        assert order[i].event.body.ModelMessage? && order[i].id == LastModel(order).value;
      }
      assert forall i :: 0 <= i < |order| - 1 ==> order[..|order| - 1][i] == order[i];
    }
  }

  lemma {:induction false} FirstModelExact(order: seq<Entry>)
    ensures FirstModel(order).None? <==> forall i :: 0 <= i < |order| ==> !order[i].event.body.ModelMessage?
    ensures FirstModel(order).Some? ==>
      exists i :: 0 <= i < |order| && order[i].event.body.ModelMessage? && order[i].id == FirstModel(order).value
    decreases order
  {
    if order != [] && !order[0].event.body.ModelMessage? {
      FirstModelExact(order[1..]);
      if FirstModel(order).Some? {
        var i :| 0 <= i < |order| - 1 && order[1..][i].event.body.ModelMessage? && order[1..][i].id == FirstModel(order).value;
        assert order[i + 1].event.body.ModelMessage? && order[i + 1].id == FirstModel(order).value;
      }
      forall i | 0 < i < |order| ensures order[i] == order[1..][i - 1] {}
    }
  }

  /** A start has an anchor as soon as the thread has any model message. */
  lemma AnchorExists(order: seq<Entry>, p: nat)
    requires DistinctIds(order) && p < |order| && order[p].event.body.CompactionStarted?
    ensures Anchor(order, order[p].id).Some? <==> exists i :: 0 <= i < |order| && order[i].event.body.ModelMessage?
    ensures Anchor(order, order[p].id).Some? ==>
      exists i :: 0 <= i < |order| && order[i].event.body.ModelMessage? && order[i].id == Anchor(order, order[p].id).value
  {
    AfterAt(order, p);
    FirstModelExact(order[p + 1..]);
    LastModelExact(order[..p]);
    forall i | 0 <= i < |order| && order[i].event.body.ModelMessage?
      ensures order[i] in order[..p] || order[i] in order[p + 1..]
    {
      if i < p {
        assert order[..p][i] == order[i];
      } else {
        assert order[p + 1..][i - p - 1] == order[i];
      }
    }
  }

  /** When the scopes hold every model message and no cutoff applies, every start of a thread with
      model messages is shown exactly once. */
  lemma AttributionIsTotal(order: seq<Entry>, p: nat, scopes: seq<set<Id>>, settled: seq<Option<int>>) returns (k: nat)
    requires DistinctIds(order) && p < |order| && order[p].event.body.CompactionStarted?
    requires Scopes(scopes) && |settled| == |scopes|
    requires exists i :: 0 <= i < |order| && order[i].event.body.ModelMessage?
    requires forall i :: 0 <= i < |order| && order[i].event.body.ModelMessage? ==>
      exists k :: 0 <= k < |scopes| && order[i].id in scopes[k]
    requires forall k :: 0 <= k < |settled| ==> !TooLate(order, order[p].id, order[p].event.at, settled[k])
    ensures k < |scopes| && ShouldIncludeStarted(order, order[p].id, order[p].event.at, Some(scopes[k]), settled[k])
  {
    AnchorExists(order, p);
    var i :| 0 <= i < |order| && order[i].event.body.ModelMessage? && order[i].id == Anchor(order, order[p].id).value;
    k :| 0 <= k < |scopes| && order[i].id in scopes[k];
    ShownByAnchor(order, order[p].id, order[p].event.at, scopes[k], settled[k]);
  }

  /** Two cancelled turns without messages share a compaction that started before either was
      completed: with the completion times as cutoffs, both show it. */
  lemma EmptyScopesShare(started: Entry, first: int, second: int)
    requires started.event.body.CompactionStarted? && started.event.at <= first && started.event.at <= second
    ensures Disjoint([{}, {}])
    ensures ShouldIncludeStarted([started], started.id, started.event.at, Some({}), Some(first))
    ensures ShouldIncludeStarted([started], started.id, started.event.at, Some({}), Some(second))
  {
    SharedExactly([started], 0, [{}, {}], [Some(first), Some(second)], 0, 1);
  }
}
