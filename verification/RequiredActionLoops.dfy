/** The loops that walk a message tree, against the functions of module RequiredActions. */
module RequiredActionLoops {
  import opened JsMaps
  import opened MessageTree
  import opened RequiredActions

  method MessageHasPending(kind: Kind, m: Message) returns (pending: bool)
    ensures pending == MessagePending(kind, m)
    decreases m
  {
    if m.UserMessage? {
      return false;
    }
    for i := 0 to |m.content|
      invariant PartsPending(kind, m.content) == PartsPending(kind, m.content[i..])
    {
      var part := m.content[i];
      assert m.content[i..][0] == part && m.content[i..][1..] == m.content[i + 1..];
      if part.CallPart? {
        if Pending(kind, part.call) {
          return true;
        }
        var nested := NestedMessagesHavePending(kind, part.messages);
        if nested {
          return true;
        }
      }
    }
    pending := false;
  }

  method NestedMessagesHavePending(kind: Kind, messages: seq<Message>) returns (pending: bool)
    ensures pending == MessagesPending(kind, messages)
    decreases messages
  {
    for i := 0 to |messages|
      invariant MessagesPending(kind, messages) == MessagesPending(kind, messages[i..])
    {
      assert messages[i..][0] == messages[i] && messages[i..][1..] == messages[i + 1..];
      var one := MessageHasPending(kind, messages[i]);
      if one {
        return true;
      }
    }
    pending := false;
  }

  method CollectInputsFrom(kind: Kind, m: Message, thread: Id) returns (inputs: seq<Input>)
    ensures inputs == CollectInputs(kind, m, thread)
    decreases m, 0
  {
    if m.UserMessage? || thread == "" {
      return [];
    }
    var pending := MessageHasPending(kind, m);
    if pending {
      return [];
    }
    var scoped := Inner(ScopeFor(kind), m, thread);
    inputs := [];
    for i := 0 to |m.content|
      invariant inputs + CollectParts(kind, m.content[i..], scoped) == CollectParts(kind, m.content, scoped)
    {
      var part := m.content[i];
      assert m.content[i..][0] == part && m.content[i..][1..] == m.content[i + 1..];
      ghost var rest := CollectParts(kind, m.content[i + 1..], scoped);
      ghost var before := inputs;
      if part.CallPart? {
        if Awaiting(kind, part.call) {
          inputs := inputs + [InputOf(kind, Scoped(scoped, part.call))];
        }
        ghost var own := if Awaiting(kind, part.call) then [InputOf(kind, Scoped(scoped, part.call))] else [];
        var nested := CollectInputsFromMessages(kind, part.messages, scoped);
        inputs := inputs + nested;
        Grouped(before, own, nested, rest);
      } else {
        assert [] + rest == rest;
      }
    }
    assert inputs + [] == inputs;
  }

  lemma Grouped(before: seq<Input>, own: seq<Input>, nested: seq<Input>, rest: seq<Input>)
    ensures ((before + own) + nested) + rest == before + ((own + nested) + rest)
    ensures before + [] == before
  {
  }

  method CollectInputsFromMessages(kind: Kind, messages: seq<Message>, thread: Id) returns (inputs: seq<Input>)
    ensures inputs == CollectMessages(kind, messages, thread)
    decreases messages, 0
  {
    inputs := [];
    for i := 0 to |messages|
      invariant inputs + CollectMessages(kind, messages[i..], thread) == CollectMessages(kind, messages, thread)
    {
      assert messages[i..][0] == messages[i] && messages[i..][1..] == messages[i + 1..];
      var one := CollectInputsFrom(kind, messages[i], thread);
      ghost var rest := CollectMessages(kind, messages[i + 1..], thread);
      assert inputs + (one + rest) == (inputs + one) + rest;
      inputs := inputs + one;
    }
    assert inputs + [] == inputs;
  }

  /** Walks the tree and pushes the pending calls. */
  method WalkToolCallParts(kind: Kind, scope: Scope, content: seq<Part>, thread: Id) returns (pending: seq<Scoped>)
    ensures pending == PendingAmong(kind, Calls(scope, content, thread))
    decreases content, 0
  {
    pending := [];
    for i := 0 to |content|
      invariant pending + PendingAmong(kind, Calls(scope, content[i..], thread)) == PendingAmong(kind, Calls(scope, content, thread))
    {
      var part := content[i];
      assert content[i..][0] == part && content[i..][1..] == content[i + 1..];
      ghost var rest := Calls(scope, content[i + 1..], thread);
      if part.CallPart? {
        var own := Scoped(thread, part.call);
        ghost var before := pending;
        if Pending(kind, part.call) {
          pending := pending + [own];
        }
        assert pending == before + PendingAmong(kind, [own]) by {
          assert [own][1..] == [];
        }
        var nested := WalkMessages(kind, scope, part.messages, thread);
        PendingConcat(kind, [own], CallsIn(scope, part.messages, thread));
        PendingConcat(kind, [own] + CallsIn(scope, part.messages, thread), rest);
        GroupedCalls(before, PendingAmong(kind, [own]), nested, PendingAmong(kind, rest));
        pending := pending + nested;
      } else {
        assert [] + rest == rest;
      }
    }
    assert pending + [] == pending;
  }

  lemma GroupedCalls(before: seq<Scoped>, own: seq<Scoped>, nested: seq<Scoped>, rest: seq<Scoped>)
    ensures ((before + own) + nested) + rest == before + ((own + nested) + rest)
  {
  }

  method WalkMessages(kind: Kind, scope: Scope, messages: seq<Message>, thread: Id) returns (pending: seq<Scoped>)
    ensures pending == PendingAmong(kind, CallsIn(scope, messages, thread))
    decreases messages, 0
  {
    pending := [];
    for i := 0 to |messages|
      invariant pending + PendingAmong(kind, CallsIn(scope, messages[i..], thread)) == PendingAmong(kind, CallsIn(scope, messages, thread))
    {
      var m := messages[i];
      assert messages[i..][0] == m && messages[i..][1..] == messages[i + 1..];
      ghost var rest := CallsIn(scope, messages[i + 1..], thread);
      if m.AssistantMessage? {
        var inner := Inner(scope, m, thread);
        var nested := WalkToolCallParts(kind, scope, m.content, inner);
        PendingConcat(kind, Calls(scope, m.content, inner), rest);
        Regroup(pending, nested, PendingAmong(kind, rest));
        pending := pending + nested;
      } else {
        assert [] + rest == rest;
      }
    }
    assert pending + [] == pending;
  }
}
