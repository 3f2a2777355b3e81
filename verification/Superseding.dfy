/** Clearing the pause of assistant messages that a later user message abandoned, and what of it a
    nested message can keep. */
module Superseding {
  import opened JsMaps
  import opened MessageTree
  import opened RequiredActions
  import ThreadScopes

  const SUPERSEDED := "Superseded by a later message"

  /** A pending question is dropped, and a pending approval denied; neither gets a result. */
  function StripCall(c: Call): Call {
    var next := if PendingResponse(c) then c.(interrupt := false) else c;
    if PendingApproval(next)
    then next.(approval := Some(next.approval.value.(approved := Some(false), reason := Some(SUPERSEDED)))) else next
  }

  function StripParts(content: seq<Part>): seq<Part>
    decreases content
  {
    if content == [] then [] else [StripPart(content[0])] + StripParts(content[1..])
  }

  function StripPart(p: Part): Part
    decreases p
  {
    match p
    case TextPart(_) => p
    case CallPart(call, messages) => CallPart(StripCall(call), StripMessages(messages))
  }

  function StripMessages(messages: seq<Message>): seq<Message>
    decreases messages
  {
    if messages == [] then [] else [StripIfPaused(messages[0])] + StripMessages(messages[1..])
  }

  /** Only a message that is paused itself is looked into. */
  function StripIfPaused(m: Message): Message
    decreases m
  {
    if m.AssistantMessage? && m.paused then AssistantMessage(false, None, None, StripParts(m.content)) else m
  }

  // ----- What stays pending -----

  /** Something is pending that lies under a message which is not paused. */
  predicate HiddenInParts(kind: Kind, content: seq<Part>)
    decreases content
  {
    content != [] && (HiddenInPart(kind, content[0]) || HiddenInParts(kind, content[1..]))
  }

  predicate HiddenInPart(kind: Kind, p: Part)
    decreases p
  {
    p.CallPart? && HiddenInMessages(kind, p.messages)
  }

  predicate HiddenInMessages(kind: Kind, messages: seq<Message>)
    decreases messages
  {
    messages != [] && (Hidden(kind, messages[0]) || HiddenInMessages(kind, messages[1..]))
  }

  predicate Hidden(kind: Kind, m: Message)
    decreases m
  {
    m.AssistantMessage? && if m.paused then HiddenInParts(kind, m.content) else PartsPending(kind, m.content)
  }

  lemma StripSettlesCall(kind: Kind, c: Call)
    ensures !Pending(kind, StripCall(c))
  {
  }

  /** Stripping settles everything exactly when nothing pending hides under a message that is not
      paused. */
  lemma {:induction false} StripSettles(kind: Kind, m: Message)
    ensures MessagePending(kind, StripIfPaused(m)) <==> Hidden(kind, m)
    decreases m
  {
    if m.AssistantMessage? && m.paused {
      StripSettlesParts(kind, m.content);
    }
  }

  lemma {:induction false} StripSettlesParts(kind: Kind, content: seq<Part>)
    ensures PartsPending(kind, StripParts(content)) <==> HiddenInParts(kind, content)
    decreases content
  {
    if content != [] {
      StripSettlesParts(kind, content[1..]);
      var stripped := StripParts(content);
      assert stripped[0] == StripPart(content[0]) && stripped[1..] == StripParts(content[1..]);
      if content[0].CallPart? {
        StripSettlesCall(kind, content[0].call);
        StripSettlesMessages(kind, content[0].messages);
      }
    }
  }

  lemma {:induction false} StripSettlesMessages(kind: Kind, messages: seq<Message>)
    ensures MessagesPending(kind, StripMessages(messages)) <==> HiddenInMessages(kind, messages)
    decreases messages
  {
    if messages != [] {
      StripSettlesMessages(kind, messages[1..]);
      StripSettles(kind, messages[0]);
      var stripped := StripMessages(messages);
      assert stripped[0] == StripIfPaused(messages[0]) && stripped[1..] == StripMessages(messages[1..]);
    }
  }

  // ----- What stays as it is -----

  /** A call, and a message, without what stripping may write. */
  function Kept(c: Call): Call {
    c.(interrupt := false, approval := if c.approval.Some? then Some(c.approval.value.(approved := None, reason := None)) else None)
  }

  function KeptParts(content: seq<Part>): seq<Part>
    decreases content
  {
    if content == [] then []
    else
      [match content[0]
       case TextPart(_) => content[0]
       case CallPart(call, messages) => CallPart(Kept(call), KeptMessages(messages))]
      + KeptParts(content[1..])
  }

  function KeptMessages(messages: seq<Message>): seq<Message>
    decreases messages
  {
    if messages == [] then []
    else
      [if messages[0].AssistantMessage? then AssistantMessage(false, None, None, KeptParts(messages[0].content)) else messages[0]]
      + KeptMessages(messages[1..])
  }

  /** Texts, calls, results and nesting stay as they are. */
  lemma {:induction false} StripKeeps(content: seq<Part>)
    ensures KeptParts(StripParts(content)) == KeptParts(content)
    decreases content
  {
    if content != [] {
      StripKeeps(content[1..]);
      var stripped := StripParts(content);
      assert stripped[0] == StripPart(content[0]) && stripped[1..] == StripParts(content[1..]);
      if content[0].CallPart? {
        StripKeepsMessages(content[0].messages);
      }
    }
  }

  lemma {:induction false} StripKeepsMessages(messages: seq<Message>)
    ensures KeptMessages(StripMessages(messages)) == KeptMessages(messages)
    decreases messages
  {
    if messages != [] {
      StripKeepsMessages(messages[1..]);
      var stripped := StripMessages(messages);
      assert stripped[0] == StripIfPaused(messages[0]) && stripped[1..] == StripMessages(messages[1..]);
      if messages[0].AssistantMessage? && messages[0].paused {
        StripKeeps(messages[0].content);
      }
    }
  }

  // ----- What becomes of each call -----

  /** An open question is dropped and an open approval denied; what was answered, decided or settled by
      the server stays. */
  ghost predicate Strips(c: Call, d: Call) {
    && d.id == c.id && d.result == c.result && d.isError == c.isError
    && (d.interrupt <==> c.interrupt && c.result.Some?)
    && match c.approval
       case None => d.approval.None?
       case Some(a) =>
         d.approval == Some(if a.approved.Some? || a.resolution.Some? then a else a.(approved := Some(false), reason := Some(SUPERSEDED)))
  }

  predicate AllPaused(path: seq<Message>) {
    forall i :: 0 <= i < |path| ==> path[i].AssistantMessage? && path[i].paused
  }

  /** From the outermost message in, those that are paused stop being so, up to the first that is not. */
  ghost predicate PathStrips(path: seq<Message>, after: seq<Message>) {
    && |after| == |path|
    && forall i :: 0 <= i < |path| ==>
         if AllPaused(path[..i + 1])
         then after[i].AssistantMessage? && !after[i].paused && after[i].approvalThread.None? && after[i].responseThread.None?
         else after[i] == path[i]
  }

  /** The same calls in the same order; those under paused messages only are stripped. */
  ghost predicate ReachStrips(reached: seq<ThreadScopes.Reached>, after: seq<ThreadScopes.Reached>) {
    && |after| == |reached|
    && forall i :: 0 <= i < |reached| ==>
         && PathStrips(reached[i].path, after[i].path)
         && if AllPaused(reached[i].path) then Strips(reached[i].call, after[i].call) else after[i].call == reached[i].call
  }

  lemma ReachStripsConcat(a: seq<ThreadScopes.Reached>, b: seq<ThreadScopes.Reached>, x: seq<ThreadScopes.Reached>, y: seq<ThreadScopes.Reached>)
    requires ReachStrips(a, x) && ReachStrips(b, y)
    ensures ReachStrips(a + b, x + y)
  {
  }

  lemma PathStripsMore(path: seq<Message>, after: seq<Message>, m: Message, n: Message)
    requires PathStrips(path, after)
    requires if AllPaused(path + [m]) then n.AssistantMessage? && !n.paused && n.approvalThread.None? && n.responseThread.None? else n == m
    ensures PathStrips(path + [m], after + [n])
  {
    var longer := path + [m];
    assert longer[..|path| + 1] == longer;
    forall i | 0 <= i < |path| ensures longer[i] == path[i] && longer[..i + 1] == path[..i + 1] {}
  }

  lemma NotAllPaused(path: seq<Message>, m: Message)
    ensures AllPaused(path + [m]) <==> AllPaused(path) && m.AssistantMessage? && m.paused
  {
    assert (path + [m])[|path|] == m;
    assert forall i :: 0 <= i < |path| ==> (path + [m])[i] == path[i];
  }

  /** Under a message that is not paused nothing changes. */
  lemma {:induction false} BelowStays(content: seq<Part>, path: seq<Message>, after: seq<Message>)
    requires PathStrips(path, after) && !AllPaused(path)
    ensures ReachStrips(ThreadScopes.Reach(content, path), ThreadScopes.Reach(content, after))
    decreases content
  {
    if content != [] {
      BelowStays(content[1..], path, after);
      if content[0].CallPart? {
        var call := content[0].call;
        BelowStaysIn(content[0].messages, path, after);
        ReachStripsConcat([ThreadScopes.Reached(path, call)], ThreadScopes.ReachIn(content[0].messages, path),
                          [ThreadScopes.Reached(after, call)], ThreadScopes.ReachIn(content[0].messages, after));
      }
    }
  }

  lemma {:induction false} BelowStaysIn(messages: seq<Message>, path: seq<Message>, after: seq<Message>)
    requires PathStrips(path, after) && !AllPaused(path)
    ensures ReachStrips(ThreadScopes.ReachIn(messages, path), ThreadScopes.ReachIn(messages, after))
    decreases messages
  {
    if messages != [] {
      var m := messages[0];
      BelowStaysIn(messages[1..], path, after);
      NotAllPaused(path, m);
      PathStripsMore(path, after, m, m);
      if m.AssistantMessage? {
        BelowStays(m.content, path + [m], after + [m]);
      }
    }
  }

  /** Stripping denies and drops what is open under paused messages, and touches nothing else. */
  lemma {:induction false} StripReaches(content: seq<Part>, path: seq<Message>, after: seq<Message>)
    requires PathStrips(path, after) && AllPaused(path)
    ensures ReachStrips(ThreadScopes.Reach(content, path), ThreadScopes.Reach(StripParts(content), after))
    decreases content
  {
    if content != [] {
      StripReaches(content[1..], path, after);
      var stripped := StripParts(content);
      assert stripped[0] == StripPart(content[0]) && stripped[1..] == StripParts(content[1..]);
      if content[0].CallPart? {
        var call, messages := content[0].call, content[0].messages;
        StripReachesIn(messages, path, after);
        ReachStripsConcat([ThreadScopes.Reached(path, call)], ThreadScopes.ReachIn(messages, path),
                          [ThreadScopes.Reached(after, StripCall(call))], ThreadScopes.ReachIn(StripMessages(messages), after));
      }
    }
  }

  lemma {:induction false} StripReachesIn(messages: seq<Message>, path: seq<Message>, after: seq<Message>)
    requires PathStrips(path, after) && AllPaused(path)
    ensures ReachStrips(ThreadScopes.ReachIn(messages, path), ThreadScopes.ReachIn(StripMessages(messages), after))
    decreases messages
  {
    if messages != [] {
      var m, n := messages[0], StripIfPaused(messages[0]);
      var stripped := StripMessages(messages);
      assert stripped[0] == n && stripped[1..] == StripMessages(messages[1..]);
      StripReachesIn(messages[1..], path, after);
      NotAllPaused(path, m);
      PathStripsMore(path, after, m, n);
      if m.AssistantMessage? {
        if m.paused {
          StripReaches(m.content, path + [m], after + [n]);
        } else {
          BelowStays(m.content, path + [m], after + [n]);
        }
      }
    }
  }

  // ----- A case -----

  function Under(call: Call, m: Message): seq<Part> {
    [CallPart(call, [m])]
  }

  lemma UnderOne(kind: Kind, call: Call, m: Message)
    ensures PartsPending(kind, Under(call, m)) <==> Pending(kind, call) || MessagePending(kind, m)
    ensures HiddenInParts(kind, Under(call, m)) <==> Hidden(kind, m)
  {
    var content := Under(call, m);
    assert content[0] == CallPart(call, [m]) && content[1..] == [];
    assert [m][0] == m && [m][1..] == [];
    assert MessagesPending(kind, [m]) <==> MessagePending(kind, m);
    assert HiddenInMessages(kind, [m]) <==> Hidden(kind, m);
    assert PartPending(kind, content[0]) <==> Pending(kind, call) || MessagePending(kind, m);
  }

  /** A sub-agent that has nothing pending itself is running or complete, and what waits in a
      sub-agent of its own is not cleared. */
  lemma DeepApprovalStays(pending: Call, spawn: Call) returns (m: Message)
    requires PendingApproval(pending) && !PendingApproval(spawn)
    ensures m == AssistantMessage(true, None, None,
                   Under(spawn, AssistantMessage(false, None, None, Under(spawn, Asking(pending)))))
    ensures MessagePending(Approvals, StripIfPaused(m))
  {
    var running := AssistantMessage(false, None, None, Under(spawn, Asking(pending)));
    m := AssistantMessage(true, None, None, Under(spawn, running));
    CollectsAsking(Approvals, pending);
    UnderOne(Approvals, spawn, Asking(pending));
    UnderOne(Approvals, spawn, running);
    StripSettles(Approvals, m);
  }
}
