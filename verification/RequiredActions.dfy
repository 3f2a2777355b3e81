/** Pausing for the user and resuming: what is pending in a message tree, and the inputs that
    its decisions and answers become. Approvals and questions are handled alike. */
module RequiredActions {
  import opened JsMaps
  import opened MessageTree
  import Events

  datatype Kind = Approvals | Responses

  datatype Input =
    | ApprovalInput(thread: Id, approvalId: Id, allow: bool, reason: Option<string>)
    | ResponseInput(thread: Id, toolCallId: Id, content: string)

  predicate Pending(kind: Kind, c: Call) {
    match kind
    case Approvals => PendingApproval(c)
    case Responses => PendingResponse(c)
  }

  /** A decision or answer that has been staged and not sent. */
  predicate Awaiting(kind: Kind, c: Call) {
    match kind
    case Approvals =>
      && c.approval.Some? && c.approval.value.approved.Some?
      && (if c.approval.value.approved.value then c.result.None? else c.isError)
    case Responses => c.interrupt && c.result.Some?
  }

  function InputOf(kind: Kind, s: Scoped): Input
    requires Awaiting(kind, s.call)
  {
    match kind
    case Approvals =>
      var a := s.call.approval.value;
      ApprovalInput(s.thread, a.id, a.approved.value, if a.approved.value then None else a.reason)
    case Responses => ResponseInput(s.thread, s.call.id, Events.Stringified(s.call.result.value))
  }

  function ScopeFor(kind: Kind): Scope {
    if kind.Approvals? then ByApproval else ByResponse
  }

  // ----- Is anything pending? -----

  predicate PartsPending(kind: Kind, content: seq<Part>)
    decreases content
  {
    content != [] && (PartPending(kind, content[0]) || PartsPending(kind, content[1..]))
  }

  predicate PartPending(kind: Kind, p: Part)
    decreases p
  {
    p.CallPart? && (Pending(kind, p.call) || MessagesPending(kind, p.messages))
  }

  predicate MessagesPending(kind: Kind, messages: seq<Message>)
    decreases messages
  {
    messages != [] && (MessagePending(kind, messages[0]) || MessagesPending(kind, messages[1..]))
  }

  predicate MessagePending(kind: Kind, m: Message)
    decreases m
  {
    m.AssistantMessage? && PartsPending(kind, m.content)
  }

  /** The calls among `calls` that are pending. */
  function PendingAmong(kind: Kind, calls: seq<Scoped>): seq<Scoped> {
    if calls == [] then []
    else (if Pending(kind, calls[0].call) then [calls[0]] else []) + PendingAmong(kind, calls[1..])
  }

  lemma {:induction false} PendingConcat(kind: Kind, a: seq<Scoped>, b: seq<Scoped>)
    ensures PendingAmong(kind, a + b) == PendingAmong(kind, a) + PendingAmong(kind, b)
    decreases a
  {
    if a == [] {
      assert a + b == b;
    } else {
      assert (a + b)[0] == a[0] && (a + b)[1..] == a[1..] + b;
      PendingConcat(kind, a[1..], b);
      Regroup(if Pending(kind, a[0].call) then [a[0]] else [], PendingAmong(kind, a[1..]), PendingAmong(kind, b));
    }
  }

  /** The list of pending calls is empty exactly when the recursive test says nothing is. */
  lemma {:induction false} PendingListExact(kind: Kind, scope: Scope, content: seq<Part>, thread: Id)
    ensures PendingAmong(kind, Calls(scope, content, thread)) == [] <==> !PartsPending(kind, content)
    decreases content
  {
    if content != [] {
      PendingListExact(kind, scope, content[1..], thread);
      match content[0] {
        case TextPart(_) => assert [] + Calls(scope, content[1..], thread) == Calls(scope, content[1..], thread);
        case CallPart(call, messages) =>
          var own, nested := [Scoped(thread, call)], CallsIn(scope, messages, thread);
          PendingListExactIn(kind, scope, messages, thread);
          PendingConcat(kind, own, nested);
          PendingConcat(kind, own + nested, Calls(scope, content[1..], thread));
          assert own[1..] == [];
      }
    }
  }

  lemma {:induction false} PendingListExactIn(kind: Kind, scope: Scope, messages: seq<Message>, thread: Id)
    ensures PendingAmong(kind, CallsIn(scope, messages, thread)) == [] <==> !MessagesPending(kind, messages)
    decreases messages
  {
    if messages != [] {
      PendingListExactIn(kind, scope, messages[1..], thread);
      if messages[0].AssistantMessage? {
        var inner := Inner(scope, messages[0], thread);
        PendingListExact(kind, scope, messages[0].content, inner);
        PendingConcat(kind, Calls(scope, messages[0].content, inner), CallsIn(scope, messages[1..], thread));
      } else {
        assert [] + CallsIn(scope, messages[1..], thread) == CallsIn(scope, messages[1..], thread);
      }
    }
  }

  // ----- What staging leaves pending -----

  predicate Covered(s: Staged, c: Call) {
    match s
    case Decisions(decisions) => c.approval.Some? && c.approval.value.id in decisions
    case Answers(answers) => c.id in answers
  }

  function Uncovered(s: Staged, calls: seq<Scoped>): seq<Scoped> {
    if calls == [] then []
    else (if Covered(s, calls[0].call) then [] else [calls[0]]) + Uncovered(s, calls[1..])
  }

  function KindOf(s: Staged): Kind {
    if s.Decisions? then Approvals else Responses
  }

  lemma StagingSettlesOne(s: Staged, call: Scoped)
    ensures Pending(KindOf(s), Act(s, call.call)) <==> Pending(KindOf(s), call.call) && !Covered(s, call.call)
    ensures !Covered(s, call.call) ==> call.(call := Act(s, call.call)) == call
  {
  }

  lemma UncoveredCons(s: Staged, call: Scoped, rest: seq<Scoped>)
    ensures Uncovered(s, [call] + rest) == (if Covered(s, call.call) then [] else [call]) + Uncovered(s, rest)
  {
    assert ([call] + rest)[1..] == rest;
  }

  /** Exactly the pending calls that nothing is staged for stay pending, unchanged. */
  lemma {:induction false} StagingSettles(s: Staged, calls: seq<Scoped>)
    ensures PendingAmong(KindOf(s), ActAll(s, calls)) == Uncovered(s, PendingAmong(KindOf(s), calls))
    decreases calls
  {
    if calls != [] {
      var kind, rest := KindOf(s), PendingAmong(KindOf(s), calls[1..]);
      StagingSettles(s, calls[1..]);
      assert ActAll(s, calls)[1..] == ActAll(s, calls[1..]);
      assert ActAll(s, calls)[0] == calls[0].(call := Act(s, calls[0].call));
      StagingSettlesOne(s, calls[0]);
      UncoveredCons(s, calls[0], rest);
      assert [] + rest == rest;
    }
  }

  lemma PendingAfterStaging(s: Staged, scope: Scope, content: seq<Part>, thread: Id)
    ensures PendingAmong(KindOf(s), Calls(scope, ApplyParts(s, content), thread))
      == Uncovered(s, PendingAmong(KindOf(s), Calls(scope, content, thread)))
  {
    StagingKeepsTree(s, scope, content, thread);
    StagingSettles(s, Calls(scope, content, thread));
  }

  // ----- Collecting inputs -----

  function CollectParts(kind: Kind, content: seq<Part>, thread: Id): seq<Input>
    decreases content
  {
    if content == [] then []
    else
      (match content[0]
       case TextPart(_) => []
       case CallPart(call, messages) =>
         (if Awaiting(kind, call) then [InputOf(kind, Scoped(thread, call))] else [])
         + CollectMessages(kind, messages, thread))
      + CollectParts(kind, content[1..], thread)
  }

  function CollectMessages(kind: Kind, messages: seq<Message>, thread: Id): seq<Input>
    decreases messages
  {
    if messages == [] then []
    else CollectInputs(kind, messages[0], thread) + CollectMessages(kind, messages[1..], thread)
  }

  /** Nothing is collected from a message while anything in it is pending. */
  function CollectInputs(kind: Kind, m: Message, thread: Id): seq<Input>
    decreases m
  {
    if !m.AssistantMessage? || thread == "" || PartsPending(kind, m.content) then []
    else CollectParts(kind, m.content, Inner(ScopeFor(kind), m, thread))
  }

  function CollectRequiredActionInputs(m: Message, thread: Id): seq<Input> {
    if MessagePending(Approvals, m) || MessagePending(Responses, m) then []
    else CollectInputs(Approvals, m, thread) + CollectInputs(Responses, m, thread)
  }

  function InputsAmong(kind: Kind, calls: seq<Scoped>): seq<Input> {
    if calls == [] then []
    else (if Awaiting(kind, calls[0].call) then [InputOf(kind, calls[0])] else []) + InputsAmong(kind, calls[1..])
  }

  lemma {:induction false} InputsConcat(kind: Kind, a: seq<Scoped>, b: seq<Scoped>)
    ensures InputsAmong(kind, a + b) == InputsAmong(kind, a) + InputsAmong(kind, b)
    decreases a
  {
    if a == [] {
      assert a + b == b;
    } else {
      assert (a + b)[0] == a[0] && (a + b)[1..] == a[1..] + b;
      InputsConcat(kind, a[1..], b);
      Regroup(if Awaiting(kind, a[0].call) then [InputOf(kind, a[0])] else [], InputsAmong(kind, a[1..]), InputsAmong(kind, b));
    }
  }

  /** No message carries an empty thread id for this kind. */
  predicate Threaded(kind: Kind, content: seq<Part>)
    decreases content
  {
    content != [] ==>
      && (content[0].CallPart? ==> ThreadedIn(kind, content[0].messages))
      && Threaded(kind, content[1..])
  }

  predicate ThreadedIn(kind: Kind, messages: seq<Message>)
    decreases messages
  {
    messages != [] ==>
      && (messages[0].AssistantMessage? ==> Inner(ScopeFor(kind), messages[0], "main") != "" && Threaded(kind, messages[0].content))
      && ThreadedIn(kind, messages[1..])
  }

  /** Once nothing is pending, the inputs are those of the staged calls, in walk order, each in
      the thread of its nearest enclosing message. */
  lemma {:induction false} CollectsAwaiting(kind: Kind, content: seq<Part>, thread: Id)
    requires !PartsPending(kind, content) && thread != "" && Threaded(kind, content)
    ensures CollectParts(kind, content, thread) == InputsAmong(kind, Calls(ScopeFor(kind), content, thread))
    decreases content
  {
    if content != [] {
      CollectsAwaiting(kind, content[1..], thread);
      var rest := Calls(ScopeFor(kind), content[1..], thread);
      match content[0] {
        case TextPart(_) => assert [] + rest == rest;
        case CallPart(call, messages) =>
          var own, nested := [Scoped(thread, call)], CallsIn(ScopeFor(kind), messages, thread);
          CollectsAwaitingIn(kind, messages, thread);
          InputsConcat(kind, own, nested);
          InputsConcat(kind, own + nested, rest);
          assert own[1..] == [];
      }
    }
  }

  lemma {:induction false} CollectsAwaitingIn(kind: Kind, messages: seq<Message>, thread: Id)
    requires !MessagesPending(kind, messages) && thread != "" && ThreadedIn(kind, messages)
    ensures CollectMessages(kind, messages, thread) == InputsAmong(kind, CallsIn(ScopeFor(kind), messages, thread))
    decreases messages
  {
    if messages != [] {
      CollectsAwaitingIn(kind, messages[1..], thread);
      var rest := CallsIn(ScopeFor(kind), messages[1..], thread);
      CollectsAwaitingOne(kind, messages[0], thread);
      InputsConcat(kind, CallsUnder(kind, messages[0], thread), rest);
      assert CallsIn(ScopeFor(kind), messages, thread) == CallsUnder(kind, messages[0], thread) + rest;
    }
  }

  /** The calls nested in one message. */
  function CallsUnder(kind: Kind, m: Message, thread: Id): seq<Scoped> {
    if m.AssistantMessage? then Calls(ScopeFor(kind), m.content, Inner(ScopeFor(kind), m, thread)) else []
  }

  lemma {:induction false} CollectsAwaitingOne(kind: Kind, m: Message, thread: Id)
    requires !MessagePending(kind, m) && thread != ""
    requires m.AssistantMessage? ==> Inner(ScopeFor(kind), m, thread) != "" && Threaded(kind, m.content)
    ensures CollectInputs(kind, m, thread) == InputsAmong(kind, CallsUnder(kind, m, thread))
    decreases m
  {
    if m.AssistantMessage? {
      CollectsAwaiting(kind, m.content, Inner(ScopeFor(kind), m, thread));
    }
  }

  // ----- Resuming -----

  /** What one pending call is answered with. */
  function Answered(kind: Kind, staged: Staged, s: Scoped): Input
    requires Pending(kind, s.call) && Covered(staged, s.call) && KindOf(staged) == kind
  {
    match staged
    case Decisions(decisions) =>
      var d := decisions[s.call.approval.value.id];
      ApprovalInput(s.thread, s.call.approval.value.id, d.approved,
                    if d.approved then None else d.reason.Or(s.call.approval.value.reason))
    case Answers(answers) => ResponseInput(s.thread, s.call.id, answers[s.call.id])
  }

  function AnsweredAll(kind: Kind, staged: Staged, calls: seq<Scoped>): seq<Input>
    requires KindOf(staged) == kind
  {
    if calls == [] then []
    else
      (if Pending(kind, calls[0].call) && Covered(staged, calls[0].call) then [Answered(kind, staged, calls[0])] else [])
      + AnsweredAll(kind, staged, calls[1..])
  }

  function ActBoth(d: Staged, a: Staged, c: Call): Call {
    Act(a, Act(d, c))
  }

  /** What a denial is sent as, when the call was also asked a question. */
  const DENIAL_SENT := "[object Object]"

  predicate AllCovered(d: Staged, a: Staged, c: Call) {
    (PendingApproval(c) ==> Covered(d, c)) && (PendingResponse(c) ==> Covered(a, c))
  }

  /** Nothing was waiting to be sent before, and the call does not ask for both. */
  predicate Unambiguous(d: Staged, a: Staged, c: Call)
    requires d.Decisions? && a.Answers? && AllCovered(d, a, c)
  {
    && !Awaiting(Responses, c)
    && (PendingApproval(c) ==>
          if d.decisions[c.approval.value.id].approved then c.result.None? && !c.interrupt
          else c.interrupt ==> a.answers[c.id] == DENIAL_SENT)
    && (Covered(d, c) && c.approval.value.approved.None? && c.approval.value.resolution.Some? ==>
          d.decisions[c.approval.value.id].approved && (c.result.Some? || c.interrupt))
    && (c.approval.Some? && c.approval.value.approved == Some(true) ==> c.result.Some? || c.interrupt)
    && (c.approval.Some? && c.approval.value.approved == Some(false) ==> !c.isError)
  }

  /** The call's own inputs after staging are its answers and nothing else. */
  predicate Resumes(kind: Kind, d: Staged, a: Staged, s: Scoped)
    requires d.Decisions? && a.Answers? && AllCovered(d, a, s.call)
  {
    var after := s.(call := ActBoth(d, a, s.call));
    if Pending(kind, s.call)
    then Awaiting(kind, after.call) && InputOf(kind, after) == Answered(kind, if kind.Approvals? then d else a, s)
    else !Awaiting(kind, after.call)
  }

  lemma ResumesExactly(d: Staged, a: Staged, s: Scoped)
    requires d.Decisions? && a.Answers? && AllCovered(d, a, s.call)
    ensures Resumes(Approvals, d, a, s) && Resumes(Responses, d, a, s) <==> Unambiguous(d, a, s.call)
  {
  }

  predicate AllUnambiguous(d: Staged, a: Staged, calls: seq<Scoped>) {
    d.Decisions? && a.Answers? &&
    forall i :: 0 <= i < |calls| ==> AllCovered(d, a, calls[i].call) && Unambiguous(d, a, calls[i].call)
  }

  lemma {:induction false} ResumeInputs(kind: Kind, d: Staged, a: Staged, calls: seq<Scoped>)
    requires AllUnambiguous(d, a, calls)
    ensures InputsAmong(kind, ActAll(a, ActAll(d, calls))) == AnsweredAll(kind, if kind.Approvals? then d else a, calls)
    decreases calls
  {
    if calls != [] {
      var after := ActAll(a, ActAll(d, calls));
      assert after[1..] == ActAll(a, ActAll(d, calls[1..]));
      assert AllCovered(d, a, calls[0].call);
      ResumesExactly(d, a, calls[0]);
      assert after[0] == calls[0].(call := ActBoth(d, a, calls[0].call));
      assert forall i :: 0 <= i < |calls[1..]| ==> calls[1..][i] == calls[i + 1];
      ResumeInputs(kind, d, a, calls[1..]);
    }
  }

  lemma {:induction false} NonePending(kind: Kind, d: Staged, a: Staged, calls: seq<Scoped>)
    requires AllUnambiguous(d, a, calls)
    ensures PendingAmong(kind, ActAll(a, ActAll(d, calls))) == []
    decreases calls
  {
    if calls != [] {
      var after := ActAll(a, ActAll(d, calls));
      assert after[1..] == ActAll(a, ActAll(d, calls[1..]));
      assert AllCovered(d, a, calls[0].call);
      assert after[0] == calls[0].(call := ActBoth(d, a, calls[0].call));
      assert forall i :: 0 <= i < |calls[1..]| ==> calls[1..][i] == calls[i + 1];
      NonePending(kind, d, a, calls[1..]);
    }
  }

  lemma {:induction false} StagingKeepsThreads(kind: Kind, s: Staged, content: seq<Part>)
    ensures Threaded(kind, ApplyParts(s, content)) <==> Threaded(kind, content)
    decreases content
  {
    if content != [] {
      StagingKeepsThreads(kind, s, content[1..]);
      if content[0].CallPart? {
        StagingKeepsThreadsIn(kind, s, content[0].messages);
      }
    }
  }

  lemma {:induction false} StagingKeepsThreadsIn(kind: Kind, s: Staged, messages: seq<Message>)
    ensures ThreadedIn(kind, ApplyMessages(s, messages)) <==> ThreadedIn(kind, messages)
    decreases messages
  {
    if messages != [] {
      StagingKeepsThreadsIn(kind, s, messages[1..]);
      if messages[0].AssistantMessage? {
        StagingKeepsThreads(kind, s, messages[0].content);
      }
    }
  }

  function Stage(d: Staged, a: Staged, m: Message): Message {
    ApplyMessage(a, ApplyMessage(d, m))
  }

  /** The calls of a message, scoped as inputs of this kind are. */
  function CallsOf(kind: Kind, m: Message, thread: Id): seq<Scoped>
    requires m.AssistantMessage?
  {
    Calls(ScopeFor(kind), m.content, Inner(ScopeFor(kind), m, thread))
  }

  lemma StagedCalls(kind: Kind, d: Staged, a: Staged, m: Message, thread: Id)
    requires m.AssistantMessage?
    ensures CallsOf(kind, Stage(d, a, m), thread) == ActAll(a, ActAll(d, CallsOf(kind, m, thread)))
  {
    var inner := Inner(ScopeFor(kind), m, thread);
    StagingKeepsTree(d, ScopeFor(kind), m.content, inner);
    StagingKeepsTree(a, ScopeFor(kind), ApplyParts(d, m.content), inner);
  }

  lemma StagedCollects(kind: Kind, d: Staged, a: Staged, m: Message, thread: Id)
    requires m.AssistantMessage? && thread != "" && ThreadedIn(kind, [m])
    requires AllUnambiguous(d, a, CallsOf(kind, m, thread))
    ensures !MessagePending(kind, Stage(d, a, m))
    ensures CollectInputs(kind, Stage(d, a, m), thread)
      == AnsweredAll(kind, if kind.Approvals? then d else a, CallsOf(kind, m, thread))
  {
    var staged := Stage(d, a, m);
    var inner := Inner(ScopeFor(kind), m, thread);
    StagedCalls(kind, d, a, m, thread);
    NonePending(kind, d, a, CallsOf(kind, m, thread));
    PendingListExact(kind, ScopeFor(kind), staged.content, inner);
    StagingKeepsThreads(kind, d, m.content);
    StagingKeepsThreads(kind, a, ApplyParts(d, m.content));
    CollectsAwaiting(kind, staged.content, inner);
    ResumeInputs(kind, d, a, CallsOf(kind, m, thread));
  }

  /** One answer for every call that was pending. */
  lemma {:induction false} AnswersPending(kind: Kind, s: Staged, calls: seq<Scoped>)
    requires KindOf(s) == kind && forall i :: 0 <= i < |calls| && Pending(kind, calls[i].call) ==> Covered(s, calls[i].call)
    ensures |AnsweredAll(kind, s, calls)| == |PendingAmong(kind, calls)|
    decreases calls
  {
    if calls != [] {
      assert forall i :: 0 <= i < |calls[1..]| ==> calls[1..][i] == calls[i + 1];
      AnswersPending(kind, s, calls[1..]);
    }
  }

  /** Resume is complete: with a decision or answer staged for everything pending, the inputs
      sent are one per formerly pending call, in walk order, each with its own answer and in the
      thread of its nearest enclosing message. */
  lemma ResumeIsComplete(d: Staged, a: Staged, m: Message, thread: Id)
    requires m.AssistantMessage? && thread != "" && ThreadedIn(Approvals, [m]) && ThreadedIn(Responses, [m])
    requires AllUnambiguous(d, a, CallsOf(Approvals, m, thread)) && AllUnambiguous(d, a, CallsOf(Responses, m, thread))
    ensures CollectRequiredActionInputs(Stage(d, a, m), thread)
      == AnsweredAll(Approvals, d, CallsOf(Approvals, m, thread)) + AnsweredAll(Responses, a, CallsOf(Responses, m, thread))
    ensures |CollectRequiredActionInputs(Stage(d, a, m), thread)|
      == |PendingAmong(Approvals, CallsOf(Approvals, m, thread))| + |PendingAmong(Responses, CallsOf(Responses, m, thread))|
  {
    StagedCollects(Approvals, d, a, m, thread);
    StagedCollects(Responses, d, a, m, thread);
    AnswersPending(Approvals, d, CallsOf(Approvals, m, thread));
    AnswersPending(Responses, a, CallsOf(Responses, m, thread));
  }

  // ----- Calls that ask for both -----

  /** A paused message with one call. */
  function Asking(call: Call): Message {
    AssistantMessage(true, None, None, [CallPart(call, [])])
  }

  lemma StagedAsking(d: Staged, a: Staged, call: Call)
    ensures Stage(d, a, Asking(call)) == Asking(ActBoth(d, a, call))
  {
    assert ApplyMessages(d, []) == [] == ApplyMessages(a, []) && ApplyParts(d, []) == [] == ApplyParts(a, []);
    var content, decided := [CallPart(call, [])], [CallPart(Act(d, call), [])];
    assert content[1..] == [] && ApplyParts(d, content) == decided;
    assert decided[1..] == [] && ApplyParts(a, decided) == [CallPart(ActBoth(d, a, call), [])];
  }

  lemma CollectsAsking(kind: Kind, call: Call)
    ensures MessagePending(kind, Asking(call)) <==> Pending(kind, call)
    ensures !Pending(kind, call) ==>
      CollectInputs(kind, Asking(call), "main") == if Awaiting(kind, call) then [InputOf(kind, Scoped("main", call))] else []
  {
    var content := Asking(call).content;
    assert content[0] == CallPart(call, []) && content[1..] == [];
    assert PartPending(kind, content[0]) <==> Pending(kind, call);
    assert PartsPending(kind, content) <==> PartPending(kind, content[0]) || PartsPending(kind, content[1..]);
    assert CollectMessages(kind, [], "main") == [] && CollectParts(kind, content[1..], "main") == [];
  }

  /** A call that asks for approval and for an answer is not resumed faithfully. Once it is
      approved and answered, the decision is never sent. */
  lemma BothAskedForLosesTheDecision() returns (d: Staged, a: Staged, call: Call)
    ensures d.Decisions? && a.Answers? && AllCovered(d, a, call) && !Unambiguous(d, a, call)
    ensures MessagePending(Approvals, Asking(call))
    ensures !MessagePending(Approvals, Stage(d, a, Asking(call))) && !MessagePending(Responses, Stage(d, a, Asking(call)))
    ensures CollectInputs(Approvals, Stage(d, a, Asking(call)), "main") == []
  {
    call := Call("call", Some(Approval("call", None, None, None)), true, None, false);
    d, a := Decisions(map["call" := Events.Decision(true, None)]), Answers(map["call" := "yes"]);
    StagedAsking(d, a, call);
    CollectsAsking(Approvals, call);
    CollectsAsking(Approvals, ActBoth(d, a, call));
    CollectsAsking(Responses, ActBoth(d, a, call));
  }

  /** Once it is denied and answered, the answer sent is not the one given, even when that is the
      reason of the denial: what is sent names the error object. */
  lemma DeniedAndAnsweredSendsTheObject(reason: string) returns (d: Staged, a: Staged, call: Call)
    requires reason != DENIAL_SENT
    ensures d == Decisions(map[call.id := Events.Decision(false, Some(reason))]) && a == Answers(map[call.id := reason])
    ensures AllCovered(d, a, call) && !Unambiguous(d, a, call)
    ensures CollectInputs(Responses, Asking(call), "main") == [] && MessagePending(Responses, Asking(call))
    ensures CollectInputs(Responses, Stage(d, a, Asking(call)), "main") == [ResponseInput("main", call.id, DENIAL_SENT)]
  {
    call := Call("call", Some(Approval("call", None, None, None)), true, None, false);
    d, a := Decisions(map["call" := Events.Decision(false, Some(reason))]), Answers(map["call" := reason]);
    StagedAsking(d, a, call);
    CollectsAsking(Responses, call);
    CollectsAsking(Responses, ActBoth(d, a, call));
  }
}
