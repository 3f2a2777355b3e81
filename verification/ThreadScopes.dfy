/** Which thread a call's input goes to, by the messages that the call is reached through. */
module ThreadScopes {
  import opened JsMaps
  import opened MessageTree
  import opened RequiredActions
  import Events

  /** A call of the tree, with the assistant messages around it from the outermost in. */
  datatype Reached = Reached(path: seq<Message>, call: Call)

  function Reach(content: seq<Part>, path: seq<Message>): seq<Reached>
    decreases content
  {
    if content == [] then []
    else
      (match content[0]
       case TextPart(_) => []
       case CallPart(call, messages) => [Reached(path, call)] + ReachIn(messages, path))
      + Reach(content[1..], path)
  }

  function ReachIn(messages: seq<Message>, path: seq<Message>): seq<Reached>
    decreases messages
  {
    if messages == [] then []
    else
      (if messages[0].AssistantMessage? then Reach(messages[0].content, path + [messages[0]]) else [])
      + ReachIn(messages[1..], path)
  }

  /** The thread that the innermost message with one names for approvals; the caller's when none does. */
  ghost predicate NearestApproval(path: seq<Message>, caller: Id, t: Id) {
    || (t == caller && forall i :: 0 <= i < |path| ==> path[i].AssistantMessage? && path[i].approvalThread.None?)
    || exists i :: 0 <= i < |path| && path[i].AssistantMessage? && path[i].approvalThread == Some(t)
         && forall j :: i < j < |path| ==> path[j].AssistantMessage? && path[j].approvalThread.None?
  }

  /** The same for answers. */
  ghost predicate NearestResponse(path: seq<Message>, caller: Id, t: Id) {
    || (t == caller && forall i :: 0 <= i < |path| ==> path[i].AssistantMessage? && path[i].responseThread.None?)
    || exists i :: 0 <= i < |path| && path[i].AssistantMessage? && path[i].responseThread == Some(t)
         && forall j :: i < j < |path| ==> path[j].AssistantMessage? && path[j].responseThread.None?
  }

  predicate Threadless(m: Message) {
    m.AssistantMessage? && m.approvalThread.None? && m.responseThread.None?
  }

  /** The thread of the innermost message that names one for either, the one for approvals first. */
  ghost predicate NearestEither(path: seq<Message>, caller: Id, t: Id) {
    || (t == caller && forall i :: 0 <= i < |path| ==> Threadless(path[i]))
    || exists i :: 0 <= i < |path| && path[i].AssistantMessage?
         && (path[i].approvalThread == Some(t) || (path[i].approvalThread.None? && path[i].responseThread == Some(t)))
         && forall j :: i < j < |path| ==> Threadless(path[j])
  }

  ghost predicate Nearest(scope: Scope, path: seq<Message>, caller: Id, t: Id) {
    match scope
    case ByApproval => NearestApproval(path, caller, t)
    case ByResponse => NearestResponse(path, caller, t)
    case ByEither => NearestEither(path, caller, t)
  }

  /** The scoped calls are those reached, in the same order, each in its nearest thread. */
  ghost predicate Follows(scope: Scope, calls: seq<Scoped>, reached: seq<Reached>, caller: Id) {
    && |calls| == |reached|
    && forall i :: 0 <= i < |calls| ==> calls[i].call == reached[i].call && Nearest(scope, reached[i].path, caller, calls[i].thread)
  }

  lemma NearestMore(scope: Scope, path: seq<Message>, m: Message, caller: Id, t: Id)
    requires m.AssistantMessage? && Nearest(scope, path, caller, t)
    ensures Nearest(scope, path + [m], caller, Inner(scope, m, t))
  {
    var more, inner := path + [m], Inner(scope, m, t);
    assert more[|path|] == m;
    match scope {
      case ByApproval =>
        if m.approvalThread.None? && !(forall i :: 0 <= i < |path| ==> path[i].AssistantMessage? && path[i].approvalThread.None?) {
          var i :| 0 <= i < |path| && path[i].AssistantMessage? && path[i].approvalThread == Some(t)
            && forall j :: i < j < |path| ==> path[j].AssistantMessage? && path[j].approvalThread.None?;
          assert more[i] == path[i];
        }
      case ByResponse =>
        if m.responseThread.None? && !(forall i :: 0 <= i < |path| ==> path[i].AssistantMessage? && path[i].responseThread.None?) {
          var i :| 0 <= i < |path| && path[i].AssistantMessage? && path[i].responseThread == Some(t)
            && forall j :: i < j < |path| ==> path[j].AssistantMessage? && path[j].responseThread.None?;
          assert more[i] == path[i];
        }
      case ByEither =>
        if Threadless(m) && !(forall i :: 0 <= i < |path| ==> Threadless(path[i])) {
          var i :| 0 <= i < |path| && path[i].AssistantMessage?
            && (path[i].approvalThread == Some(t) || (path[i].approvalThread.None? && path[i].responseThread == Some(t)))
            && forall j :: i < j < |path| ==> Threadless(path[j]);
          assert more[i] == path[i];
        }
    }
  }

  lemma FollowsConcat(scope: Scope, a: seq<Scoped>, x: seq<Reached>, b: seq<Scoped>, y: seq<Reached>, caller: Id)
    requires Follows(scope, a, x, caller) && Follows(scope, b, y, caller)
    ensures Follows(scope, a + b, x + y, caller)
  {
  }

  /** Every call of the walk is in the thread of the nearest message around it that names one. */
  lemma {:induction false} ScopedByPath(scope: Scope, content: seq<Part>, thread: Id, path: seq<Message>, caller: Id)
    requires Nearest(scope, path, caller, thread)
    ensures Follows(scope, Calls(scope, content, thread), Reach(content, path), caller)
    decreases content
  {
    if content != [] {
      ScopedByPath(scope, content[1..], thread, path, caller);
      if content[0].CallPart? {
        var own, reached := [Scoped(thread, content[0].call)], [Reached(path, content[0].call)];
        var nested, within := CallsIn(scope, content[0].messages, thread), ReachIn(content[0].messages, path);
        ScopedByPathIn(scope, content[0].messages, thread, path, caller);
        FollowsConcat(scope, own, reached, nested, within, caller);
        FollowsConcat(scope, own + nested, reached + within, Calls(scope, content[1..], thread), Reach(content[1..], path), caller);
      }
    }
  }

  lemma {:induction false} ScopedByPathIn(scope: Scope, messages: seq<Message>, thread: Id, path: seq<Message>, caller: Id)
    requires Nearest(scope, path, caller, thread)
    ensures Follows(scope, CallsIn(scope, messages, thread), ReachIn(messages, path), caller)
    decreases messages
  {
    if messages != [] {
      var m := messages[0];
      ScopedByPathIn(scope, messages[1..], thread, path, caller);
      if m.AssistantMessage? {
        NearestMore(scope, path, m, caller, thread);
        ScopedByPath(scope, m.content, Inner(scope, m, thread), path + [m], caller);
        FollowsConcat(scope, Calls(scope, m.content, Inner(scope, m, thread)), Reach(m.content, path + [m]),
                      CallsIn(scope, messages[1..], thread), ReachIn(messages[1..], path), caller);
      }
    }
  }

  // ----- Positions -----

  /** The positions of the chosen ones, in order. */
  function At(chosen: seq<bool>): seq<nat> {
    if chosen == [] then []
    else At(chosen[..|chosen| - 1]) + if chosen[|chosen| - 1] then [|chosen| - 1] else []
  }

  ghost predicate Picks(at: seq<nat>, chosen: seq<bool>) {
    && (forall j, k :: 0 <= j < k < |at| ==> at[j] < at[k])
    && (forall j :: 0 <= j < |at| ==> at[j] < |chosen| && chosen[at[j]])
    && forall i :: 0 <= i < |chosen| && chosen[i] ==> i in at
  }

  lemma PicksMore(at: seq<nat>, chosen: seq<bool>, last: bool)
    requires Picks(at, chosen)
    ensures Picks(at + if last then [|chosen|] else [], chosen + [last])
  {
    var more := at + if last then [|chosen|] else [];
    forall i | 0 <= i < |chosen + [last]| && (chosen + [last])[i] ensures i in more {
      if i < |chosen| {
        assert i in at;
      } else {
        assert more[|at|] == i;
      }
    }
  }

  lemma {:induction false} AtPicks(chosen: seq<bool>)
    ensures Picks(At(chosen), chosen)
    decreases chosen
  {
    if chosen != [] {
      var front, last := chosen[..|chosen| - 1], chosen[|chosen| - 1];
      AtPicks(front);
      PicksMore(At(front), front, last);
      assert chosen == front + [last];
    }
  }

  function WhichAwait(kind: Kind, calls: seq<Scoped>): seq<bool> {
    seq(|calls|, i requires 0 <= i < |calls| => Awaiting(kind, calls[i].call))
  }

  function WhichPend(kind: Kind, calls: seq<Scoped>): seq<bool> {
    seq(|calls|, i requires 0 <= i < |calls| => Pending(kind, calls[i].call))
  }

  lemma {:induction false} InputsAt(kind: Kind, calls: seq<Scoped>)
    ensures var at, inputs := At(WhichAwait(kind, calls)), InputsAmong(kind, calls);
      && |inputs| == |at|
      && forall j :: 0 <= j < |at| ==> at[j] < |calls| && Awaiting(kind, calls[at[j]].call) && inputs[j] == InputOf(kind, calls[at[j]])
    decreases calls
  {
    if calls != [] {
      var front, last := calls[..|calls| - 1], calls[|calls| - 1];
      InputsAt(kind, front);
      InputsConcat(kind, front, [last]);
      assert calls == front + [last] && [last][1..] == [];
      assert WhichAwait(kind, calls)[..|front|] == WhichAwait(kind, front);
    }
  }

  lemma {:induction false} PendingAt(kind: Kind, calls: seq<Scoped>)
    ensures var at, pending := At(WhichPend(kind, calls)), PendingAmong(kind, calls);
      && |pending| == |at|
      && forall j :: 0 <= j < |at| ==> at[j] < |calls| && pending[j] == calls[at[j]]
    decreases calls
  {
    if calls != [] {
      var front, last := calls[..|calls| - 1], calls[|calls| - 1];
      PendingAt(kind, front);
      PendingConcat(kind, front, [last]);
      assert calls == front + [last] && [last][1..] == [];
      assert WhichPend(kind, calls)[..|front|] == WhichPend(kind, front);
    }
  }

  lemma {:induction false} AnsweredConcat(kind: Kind, s: Staged, a: seq<Scoped>, b: seq<Scoped>)
    requires KindOf(s) == kind
    ensures AnsweredAll(kind, s, a + b) == AnsweredAll(kind, s, a) + AnsweredAll(kind, s, b)
    decreases a
  {
    if a == [] {
      assert a + b == b;
    } else {
      assert (a + b)[0] == a[0] && (a + b)[1..] == a[1..] + b;
      AnsweredConcat(kind, s, a[1..], b);
    }
  }

  lemma {:induction false} AnsweredAt(kind: Kind, s: Staged, calls: seq<Scoped>)
    requires KindOf(s) == kind && forall i :: 0 <= i < |calls| && Pending(kind, calls[i].call) ==> Covered(s, calls[i].call)
    ensures var at, inputs := At(WhichPend(kind, calls)), AnsweredAll(kind, s, calls);
      && |inputs| == |at|
      && forall j :: 0 <= j < |at| ==>
           at[j] < |calls| && Pending(kind, calls[at[j]].call) && inputs[j] == Answered(kind, s, calls[at[j]])
    decreases calls
  {
    if calls != [] {
      var front, last := calls[..|calls| - 1], calls[|calls| - 1];
      AnsweredAt(kind, s, front);
      AnsweredConcat(kind, s, front, [last]);
      assert calls == front + [last] && [last][1..] == [];
      assert WhichPend(kind, calls)[..|front|] == WhichPend(kind, front);
    }
  }

  // ----- What is sent, and where -----

  /** Exactly the calls of a kind that are listed by position. */
  ghost predicate ListsAwaiting(kind: Kind, reached: seq<Reached>, at: seq<nat>) {
    && (forall j, k :: 0 <= j < k < |at| ==> at[j] < at[k])
    && (forall j :: 0 <= j < |at| ==> at[j] < |reached|)
    && forall i :: 0 <= i < |reached| ==> (i in at <==> Awaiting(kind, reached[i].call))
  }

  ghost predicate ListsPending(kind: Kind, reached: seq<Reached>, at: seq<nat>) {
    && (forall j, k :: 0 <= j < k < |at| ==> at[j] < at[k])
    && (forall j :: 0 <= j < |at| ==> at[j] < |reached|)
    && forall i :: 0 <= i < |reached| ==> (i in at <==> Pending(kind, reached[i].call))
  }

  /** The input says what is staged on the call, to the thread nearest to it. */
  ghost predicate Sends(kind: Kind, r: Reached, caller: Id, input: Input) {
    match kind
    case Approvals =>
      && input.ApprovalInput? && NearestApproval(r.path, caller, input.thread)
      && r.call.approval.Some? && input.approvalId == r.call.approval.value.id
      && r.call.approval.value.approved == Some(input.allow)
      && input.reason == if input.allow then None else r.call.approval.value.reason
    case Responses =>
      && input.ResponseInput? && NearestResponse(r.path, caller, input.thread)
      && input.toolCallId == r.call.id && r.call.result.Some?
      && input.content == match r.call.result.value
           case ResultText(text) => text
           case ResultError(_) => "[object Object]"
  }

  lemma NearestOwn(scope: Scope, m: Message, caller: Id)
    requires m.AssistantMessage?
    ensures Nearest(scope, [m], caller, Inner(scope, m, caller))
  {
    assert Nearest(scope, [], caller, caller);
    NearestMore(scope, [], m, caller, caller);
    assert [] + [m] == [m];
  }

  lemma InputSends(kind: Kind, s: Scoped, r: Reached, caller: Id)
    requires Awaiting(kind, s.call) && s.call == r.call && Nearest(ScopeFor(kind), r.path, caller, s.thread)
    ensures Sends(kind, r, caller, InputOf(kind, s))
  {
  }

  /** Once nothing is pending, one input is sent per call with something staged, in the order of the
      walk, saying what is staged to the thread nearest to the call. */
  lemma CollectsByPath(kind: Kind, m: Message, caller: Id) returns (at: seq<nat>)
    requires m.AssistantMessage? && !MessagePending(kind, m) && caller != "" && ThreadedIn(kind, [m])
    ensures var reached, inputs := Reach(m.content, [m]), CollectInputs(kind, m, caller);
      && ListsAwaiting(kind, reached, at) && |inputs| == |at|
      && forall j :: 0 <= j < |at| ==> Sends(kind, reached[at[j]], caller, inputs[j])
  {
    var scope := ScopeFor(kind);
    var inner := Inner(scope, m, caller);
    var calls, reached := Calls(scope, m.content, inner), Reach(m.content, [m]);
    NearestOwn(scope, m, caller);
    ScopedByPath(scope, m.content, inner, [m], caller);
    CollectsAwaiting(kind, m.content, inner);
    InputsAt(kind, calls);
    AtPicks(WhichAwait(kind, calls));
    at := At(WhichAwait(kind, calls));
    forall j | 0 <= j < |at| ensures Sends(kind, reached[at[j]], caller, CollectInputs(kind, m, caller)[j]) {
      InputSends(kind, calls[at[j]], reached[at[j]], caller);
    }
    hide Sends, InputsAmong, Awaiting, Calls, Reach, At, CollectInputs, CollectParts;
  }

  /** The list of pending calls is of those reached that are pending, each in its nearest thread; for
      the list of what waits, that is the nearest that a message names for either. */
  lemma WalksByPath(kind: Kind, scope: Scope, content: seq<Part>, path: seq<Message>, caller: Id, thread: Id) returns (at: seq<nat>)
    requires Nearest(scope, path, caller, thread)
    ensures var reached, pending := Reach(content, path), PendingAmong(kind, Calls(scope, content, thread));
      && ListsPending(kind, reached, at) && |pending| == |at|
      && forall j :: 0 <= j < |at| ==>
           pending[j].call == reached[at[j]].call && Nearest(scope, reached[at[j]].path, caller, pending[j].thread)
  {
    var calls := Calls(scope, content, thread);
    ScopedByPath(scope, content, thread, path, caller);
    PendingAt(kind, calls);
    AtPicks(WhichPend(kind, calls));
    at := At(WhichPend(kind, calls));
  }

  /** Something is pending in a message exactly when a call is that is reached in it. */
  lemma PendingReached(kind: Kind, m: Message)
    requires m.AssistantMessage?
    ensures MessagePending(kind, m) <==> exists i :: 0 <= i < |Reach(m.content, [m])| && Pending(kind, Reach(m.content, [m])[i].call)
  {
    var reached := Reach(m.content, [m]);
    NearestOwn(ByApproval, m, "");
    var at := WalksByPath(kind, ByApproval, m.content, [m], "", Inner(ByApproval, m, ""));
    PendingListExact(kind, ByApproval, m.content, Inner(ByApproval, m, ""));
    if i :| 0 <= i < |reached| && Pending(kind, reached[i].call) {
      assert i in at;
    }
    if at != [] {
      assert at[0] in at;
    }
  }

  /** The inputs are of what is staged, decisions before answers. */
  ghost predicate SendsStaged(reached: seq<Reached>, caller: Id, inputs: seq<Input>, x: seq<nat>, y: seq<nat>) {
    && ListsAwaiting(Approvals, reached, x) && ListsAwaiting(Responses, reached, y) && |inputs| == |x| + |y|
    && (forall j :: 0 <= j < |x| ==> Sends(Approvals, reached[x[j]], caller, inputs[j]))
    && (forall j :: 0 <= j < |y| ==> Sends(Responses, reached[y[j]], caller, inputs[|x| + j]))
  }

  lemma SendsBoth(reached: seq<Reached>, caller: Id, a: seq<Input>, b: seq<Input>, x: seq<nat>, y: seq<nat>)
    requires ListsAwaiting(Approvals, reached, x) && ListsAwaiting(Responses, reached, y) && |a| == |x| && |b| == |y|
    requires forall j :: 0 <= j < |x| ==> Sends(Approvals, reached[x[j]], caller, a[j])
    requires forall j :: 0 <= j < |y| ==> Sends(Responses, reached[y[j]], caller, b[j])
    ensures SendsStaged(reached, caller, a + b, x, y)
  {
    hide Sends;
  }

  ghost predicate SomethingPending(reached: seq<Reached>) {
    exists i :: 0 <= i < |reached| && (Pending(Approvals, reached[i].call) || Pending(Responses, reached[i].call))
  }

  /** All or nothing is sent: nothing while a call waits for an approval or an answer, and then
      everything that is staged. */
  lemma SendsAllOrNothing(m: Message, caller: Id) returns (x: seq<nat>, y: seq<nat>)
    requires m.AssistantMessage? && caller != "" && ThreadedIn(Approvals, [m]) && ThreadedIn(Responses, [m])
    ensures var reached, inputs := Reach(m.content, [m]), CollectRequiredActionInputs(m, caller);
      if SomethingPending(reached) then inputs == [] else SendsStaged(reached, caller, inputs, x, y)
  {
    var reached := Reach(m.content, [m]);
    PendingReached(Approvals, m);
    PendingReached(Responses, m);
    x, y := [], [];
    if !MessagePending(Approvals, m) && !MessagePending(Responses, m) {
      assert !SomethingPending(reached);
      x := CollectsByPath(Approvals, m, caller);
      y := CollectsByPath(Responses, m, caller);
      SendsBoth(reached, caller, CollectInputs(Approvals, m, caller), CollectInputs(Responses, m, caller), x, y);
      hide SendsStaged, Reach, CollectInputs;
    }
  }

  /** The input gives the call its own decision or answer, in the thread nearest to it. */
  ghost predicate Resumes(kind: Kind, s: Staged, r: Reached, caller: Id, input: Input) {
    match s
    case Decisions(decisions) =>
      && kind.Approvals? && input.ApprovalInput? && NearestApproval(r.path, caller, input.thread)
      && r.call.approval.Some? && input.approvalId == r.call.approval.value.id && input.approvalId in decisions
      && input.allow == decisions[input.approvalId].approved
      && (input.allow ==> input.reason.None?)
      && (!input.allow ==>
            input.reason == if decisions[input.approvalId].reason.Some? then decisions[input.approvalId].reason else r.call.approval.value.reason)
    case Answers(answers) =>
      && kind.Responses? && input.ResponseInput? && NearestResponse(r.path, caller, input.thread)
      && input.toolCallId == r.call.id && r.call.id in answers && input.content == answers[r.call.id]
  }

  lemma AnsweredByPath(kind: Kind, s: Staged, m: Message, caller: Id) returns (at: seq<nat>)
    requires m.AssistantMessage? && KindOf(s) == kind
    requires forall i :: 0 <= i < |CallsOf(kind, m, caller)| && Pending(kind, CallsOf(kind, m, caller)[i].call) ==>
      Covered(s, CallsOf(kind, m, caller)[i].call)
    ensures var reached, inputs := Reach(m.content, [m]), AnsweredAll(kind, s, CallsOf(kind, m, caller));
      && ListsPending(kind, reached, at) && |inputs| == |at|
      && forall j :: 0 <= j < |at| ==> Resumes(kind, s, reached[at[j]], caller, inputs[j])
  {
    var calls := CallsOf(kind, m, caller);
    NearestOwn(ScopeFor(kind), m, caller);
    ScopedByPath(ScopeFor(kind), m.content, Inner(ScopeFor(kind), m, caller), [m], caller);
    AnsweredAt(kind, s, calls);
    AtPicks(WhichPend(kind, calls));
    at := At(WhichPend(kind, calls));
  }

  /** Resume is complete and goes where it belongs: with something unambiguous staged for everything
      pending, the decisions of the calls that were pending for approval are sent, and then the answers
      of those that asked, each call's own, in the order of the walk and to its nearest thread. */
  lemma ResumesByPath(d: Staged, a: Staged, m: Message, caller: Id) returns (x: seq<nat>, y: seq<nat>)
    requires m.AssistantMessage? && caller != "" && ThreadedIn(Approvals, [m]) && ThreadedIn(Responses, [m])
    requires d.Decisions? && a.Answers?
    requires forall i :: 0 <= i < |Reach(m.content, [m])| ==>
      AllCovered(d, a, Reach(m.content, [m])[i].call) && Unambiguous(d, a, Reach(m.content, [m])[i].call)
    ensures var reached, inputs := Reach(m.content, [m]), CollectRequiredActionInputs(Stage(d, a, m), caller);
      && ListsPending(Approvals, reached, x) && ListsPending(Responses, reached, y) && |inputs| == |x| + |y|
      && (forall j :: 0 <= j < |x| ==> Resumes(Approvals, d, reached[x[j]], caller, inputs[j]))
      && (forall j :: 0 <= j < |y| ==> Resumes(Responses, a, reached[y[j]], caller, inputs[|x| + j]))
  {
    NearestOwn(ByApproval, m, caller);
    NearestOwn(ByResponse, m, caller);
    ScopedByPath(ByApproval, m.content, Inner(ByApproval, m, caller), [m], caller);
    ScopedByPath(ByResponse, m.content, Inner(ByResponse, m, caller), [m], caller);
    ResumeIsComplete(d, a, m, caller);
    x := AnsweredByPath(Approvals, d, m, caller);
    y := AnsweredByPath(Responses, a, m, caller);
  }
}
