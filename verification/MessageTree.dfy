/** Assistant messages as a tree of tool calls, each of which may hold a sub-agent's messages,
    and staging decisions and answers on it. */
module MessageTree {
  import opened JsMaps
  import Events

  /** `resolution` is set once the server has settled the approval by itself. */
  datatype Approval = Approval(id: Id, approved: Option<bool>, resolution: Option<string>, reason: Option<string>)

  datatype Call = Call(id: Id, approval: Option<Approval>, interrupt: bool, result: Option<Events.Result>, isError: bool)

  /** A call without nested messages has an empty list of them. */
  datatype Part = TextPart(text: string) | CallPart(call: Call, messages: seq<Message>)

  /** `paused` is the status `requires-action`; the thread ids scope the inputs collected from an
      assistant message. */
  datatype Message =
    | UserMessage(text: string)
    | AssistantMessage(paused: bool, approvalThread: Option<Id>, responseThread: Option<Id>, content: seq<Part>)

  /** What is staged: decisions by approval id, or answers by tool call id. */
  datatype Staged = Decisions(decisions: map<Id, Events.Decision>) | Answers(answers: map<Id, string>)

  predicate PendingApproval(c: Call) {
    c.approval.Some? && c.approval.value.approved.None? && c.approval.value.resolution.None?
  }

  predicate PendingResponse(c: Call) {
    c.interrupt && c.result.None?
  }

  // ----- Staging on one call -----

  /** A denial is also the call's result, as an error. */
  function Decide(c: Call, d: Events.Decision): Call
    requires c.approval.Some?
  {
    var approval := c.approval.value.(approved := Some(d.approved), reason := d.reason.Or(c.approval.value.reason));
    if d.approved then c.(approval := Some(approval))
    else c.(approval := Some(approval),
           result := Some(Events.ResultError(d.reason.Or(Some("Tool approval denied")).value)), isError := true)
  }

  function Act(s: Staged, c: Call): Call {
    match s
    case Decisions(decisions) =>
      if c.approval.Some? && c.approval.value.id in decisions && c.approval.value.approved.None?
      then Decide(c, decisions[c.approval.value.id]) else c
    case Answers(answers) =>
      if c.id in answers && PendingResponse(c) then c.(result := Some(Events.ResultText(answers[c.id]))) else c
  }

  /** What staging does to a call: a decision is written on an approval that has none, keeping the
      reason it had when it gives none, and a denial is also the call's result and an error; an answer
      is the result of a call that still asks. Anything else stays. */
  predicate Stages(s: Staged, c: Call, d: Call) {
    match s
    case Decisions(decisions) =>
      if c.approval.None? || c.approval.value.approved.Some? || c.approval.value.id !in decisions then d == c
      else
        var a, decision := c.approval.value, decisions[c.approval.value.id];
        var reason := if decision.reason.Some? then decision.reason else a.reason;
        && d.id == c.id && d.interrupt == c.interrupt
        && d.approval == Some(Approval(a.id, Some(decision.approved), a.resolution, reason))
        && (decision.approved ==> d.result == c.result && d.isError == c.isError)
        && (!decision.approved ==>
              && d.isError
              && d.result == Some(Events.ResultError(if decision.reason.Some? then decision.reason.value else "Tool approval denied")))
    case Answers(answers) =>
      if !c.interrupt || c.result.Some? || c.id !in answers then d == c
      else d == Call(c.id, c.approval, c.interrupt, Some(Events.ResultText(answers[c.id])), c.isError)
  }

  lemma ActStages(s: Staged, c: Call)
    ensures Stages(s, c, Act(s, c))
  {
  }

  // ----- Staging on the tree -----

  function ApplyParts(s: Staged, content: seq<Part>): seq<Part>
    decreases content
  {
    if content == [] then [] else [ApplyPart(s, content[0])] + ApplyParts(s, content[1..])
  }

  function ApplyPart(s: Staged, p: Part): Part
    decreases p
  {
    match p
    case TextPart(_) => p
    case CallPart(call, messages) =>
      CallPart(Act(s, call), ApplyMessages(s, messages))
  }

  function ApplyMessages(s: Staged, messages: seq<Message>): seq<Message>
    decreases messages
  {
    if messages == [] then [] else [ApplyMessage(s, messages[0])] + ApplyMessages(s, messages[1..])
  }

  function ApplyMessage(s: Staged, m: Message): Message
    decreases m
  {
    match m
    case UserMessage(_) => m
    case AssistantMessage(_, _, _, content) => m.(content := ApplyParts(s, content))
  }

  /** Two stagings of the same kind in one, the first winning. */
  function FirstWins(first: Staged, second: Staged): Staged
    requires first.Decisions? <==> second.Decisions?
  {
    if first.Decisions? then Decisions(second.decisions + first.decisions)
    else Answers(second.answers + first.answers)
  }

  lemma ActTwice(a: Staged, b: Staged, c: Call)
    requires a.Decisions? <==> b.Decisions?
    ensures Act(b, Act(a, c)) == Act(FirstWins(a, b), c)
  {
  }

  lemma ActKindsCommute(a: Staged, b: Staged, c: Call)
    requires a.Decisions? && b.Answers?
    ensures Act(b, Act(a, c)) == Act(a, Act(b, c))
  {
  }

  /** The first decision stands: staging twice is staging once with the first winning. */
  lemma {:induction false} FirstDecisionWins(a: Staged, b: Staged, content: seq<Part>)
    requires a.Decisions? <==> b.Decisions?
    ensures ApplyParts(b, ApplyParts(a, content)) == ApplyParts(FirstWins(a, b), content)
    decreases content
  {
    if content != [] {
      FirstDecisionWins(a, b, content[1..]);
      match content[0] {
        case TextPart(_) =>
        case CallPart(call, messages) =>
          ActTwice(a, b, call);
          FirstDecisionWinsIn(a, b, messages);
      }
    }
  }

  lemma {:induction false} FirstDecisionWinsIn(a: Staged, b: Staged, messages: seq<Message>)
    requires a.Decisions? <==> b.Decisions?
    ensures ApplyMessages(b, ApplyMessages(a, messages)) == ApplyMessages(FirstWins(a, b), messages)
    decreases messages
  {
    if messages != [] {
      FirstDecisionWinsIn(a, b, messages[1..]);
      if messages[0].AssistantMessage? {
        FirstDecisionWins(a, b, messages[0].content);
      }
    }
  }

  lemma StagingIsIdempotent(s: Staged, content: seq<Part>)
    ensures ApplyParts(s, ApplyParts(s, content)) == ApplyParts(s, content)
  {
    FirstDecisionWins(s, s, content);
    assert FirstWins(s, s) == s by {
      if s.Decisions? { assert s.decisions + s.decisions == s.decisions; } else { assert s.answers + s.answers == s.answers; }
    }
  }

  /** Decisions and answers can be staged in either order. */
  lemma {:induction false} KindsCommute(a: Staged, b: Staged, content: seq<Part>)
    requires a.Decisions? && b.Answers?
    ensures ApplyParts(b, ApplyParts(a, content)) == ApplyParts(a, ApplyParts(b, content))
    decreases content
  {
    if content != [] {
      KindsCommute(a, b, content[1..]);
      match content[0] {
        case TextPart(_) =>
        case CallPart(call, messages) =>
          ActKindsCommute(a, b, call);
          KindsCommuteIn(a, b, messages);
      }
    }
  }

  lemma {:induction false} KindsCommuteIn(a: Staged, b: Staged, messages: seq<Message>)
    requires a.Decisions? && b.Answers?
    ensures ApplyMessages(b, ApplyMessages(a, messages)) == ApplyMessages(a, ApplyMessages(b, messages))
    decreases messages
  {
    if messages != [] {
      KindsCommuteIn(a, b, messages[1..]);
      if messages[0].AssistantMessage? {
        KindsCommute(a, b, messages[0].content);
      }
    }
  }

  // ----- The calls of the tree, in the order a walk visits them -----

  /** A call with the thread of its nearest enclosing message that names one. */
  datatype Scoped = Scoped(thread: Id, call: Call)

  /** Which of a message's thread ids scope what is nested in it. */
  datatype Scope = ByApproval | ByResponse | ByEither

  function Inner(scope: Scope, m: Message, thread: Id): Id
    requires m.AssistantMessage?
  {
    match scope
    case ByApproval => m.approvalThread.Or(Some(thread)).value
    case ByResponse => m.responseThread.Or(Some(thread)).value
    case ByEither => m.approvalThread.Or(m.responseThread).Or(Some(thread)).value
  }

  function Calls(scope: Scope, content: seq<Part>, thread: Id): seq<Scoped>
    decreases content
  {
    if content == [] then []
    else
      (match content[0]
       case TextPart(_) => []
       case CallPart(call, messages) =>
         [Scoped(thread, call)] + CallsIn(scope, messages, thread))
      + Calls(scope, content[1..], thread)
  }

  function CallsIn(scope: Scope, messages: seq<Message>, thread: Id): seq<Scoped>
    decreases messages
  {
    if messages == [] then []
    else
      (if messages[0].AssistantMessage? then Calls(scope, messages[0].content, Inner(scope, messages[0], thread)) else [])
      + CallsIn(scope, messages[1..], thread)
  }

  function ActAll(s: Staged, calls: seq<Scoped>): seq<Scoped> {
    seq(|calls|, i requires 0 <= i < |calls| => calls[i].(call := Act(s, calls[i].call)))
  }

  lemma ActAllConcat(s: Staged, a: seq<Scoped>, b: seq<Scoped>)
    ensures ActAll(s, a + b) == ActAll(s, a) + ActAll(s, b)
  {
  }

  /** Staging keeps the tree: the same calls are visited in the same order and scope, each with
      its own staging. */
  lemma {:induction false} StagingKeepsTree(s: Staged, scope: Scope, content: seq<Part>, thread: Id)
    ensures Calls(scope, ApplyParts(s, content), thread) == ActAll(s, Calls(scope, content, thread))
    decreases content
  {
    if content != [] {
      StagingKeepsTree(s, scope, content[1..], thread);
      match content[0] {
        case TextPart(_) =>
        case CallPart(call, messages) =>
          var own := [Scoped(thread, call)];
          var nested := CallsIn(scope, messages, thread);
          StagingKeepsTreeIn(s, scope, messages, thread);
          ActAllConcat(s, own, nested);
          ActAllConcat(s, own + nested, Calls(scope, content[1..], thread));
          assert ActAll(s, own) == [Scoped(thread, Act(s, call))];
      }
    }
  }

  lemma {:induction false} StagingKeepsTreeIn(s: Staged, scope: Scope, messages: seq<Message>, thread: Id)
    ensures CallsIn(scope, ApplyMessages(s, messages), thread) == ActAll(s, CallsIn(scope, messages, thread))
    decreases messages
  {
    if messages != [] {
      StagingKeepsTreeIn(s, scope, messages[1..], thread);
      if messages[0].AssistantMessage? {
        var inner := Inner(scope, messages[0], thread);
        StagingKeepsTree(s, scope, messages[0].content, inner);
        ActAllConcat(s, Calls(scope, messages[0].content, inner), CallsIn(scope, messages[1..], thread));
      }
    }
  }

  /** Staging tells each call of the tree what is staged for it, and nothing else. */
  lemma StagingTells(s: Staged, scope: Scope, content: seq<Part>, thread: Id)
    ensures var before, after := Calls(scope, content, thread), Calls(scope, ApplyParts(s, content), thread);
      && |after| == |before|
      && forall i :: 0 <= i < |before| ==> after[i].thread == before[i].thread && Stages(s, before[i].call, after[i].call)
  {
    var before := Calls(scope, content, thread);
    StagingKeepsTree(s, scope, content, thread);
    forall i | 0 <= i < |before| ensures Stages(s, before[i].call, ActAll(s, before)[i].call) {
      ActStages(s, before[i].call);
    }
  }

  // ----- Shape -----

  /** A call without what staging may write. */
  function Blank(c: Call): Call {
    Call(c.id, if c.approval.Some? then Some(c.approval.value.(approved := None, reason := None)) else None, c.interrupt, None, false)
  }

  function ShapeOf(content: seq<Part>): seq<Part>
    decreases content
  {
    if content == [] then []
    else
      [match content[0]
       case TextPart(_) => content[0]
       case CallPart(call, messages) =>
         CallPart(Blank(call), ShapeIn(messages))]
      + ShapeOf(content[1..])
  }

  function ShapeIn(messages: seq<Message>): seq<Message>
    decreases messages
  {
    if messages == [] then []
    else
      [if messages[0].AssistantMessage? then messages[0].(content := ShapeOf(messages[0].content)) else messages[0]]
      + ShapeIn(messages[1..])
  }

  /** Staging writes decisions and results only. */
  lemma {:induction false} StagingKeepsShape(s: Staged, content: seq<Part>)
    ensures ShapeOf(ApplyParts(s, content)) == ShapeOf(content)
    decreases content
  {
    if content != [] {
      StagingKeepsShape(s, content[1..]);
      match content[0] {
        case TextPart(_) =>
        case CallPart(call, messages) =>
          StagingKeepsShapeIn(s, messages);
      }
    }
  }

  lemma {:induction false} StagingKeepsShapeIn(s: Staged, messages: seq<Message>)
    ensures ShapeIn(ApplyMessages(s, messages)) == ShapeIn(messages)
    decreases messages
  {
    if messages != [] {
      StagingKeepsShapeIn(s, messages[1..]);
      if messages[0].AssistantMessage? {
        StagingKeepsShape(s, messages[0].content);
      }
    }
  }
}
