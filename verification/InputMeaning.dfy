/** What the answers and decisions of a turn's input leave in the fold. */
module InputMeaning {
  import opened JsMaps
  import opened Events
  import opened Fold

  /** The user's verdicts on a call, in order: an approval gives no reason. */
  function Verdicts(input: seq<InputItem>, call: Id): seq<Decision> {
    if input == [] then []
    else
      var last := input[|input| - 1];
      Verdicts(input[..|input| - 1], call)
      + if last.UserToolApproval? && last.toolCallId == call
        then [if last.allow then Decision(true, None) else Decision(false, last.reason)] else []
  }

  /** The user's answers to a call, in order. */
  function Replies(input: seq<InputItem>, call: Id): seq<string> {
    if input == [] then []
    else
      var last := input[|input| - 1];
      Replies(input[..|input| - 1], call)
      + if last.UserToolResponse? && last.toolCallId == call then [last.content] else []
  }

  ghost predicate SameAt<V>(m: map<Id, V>, n: map<Id, V>, call: Id) {
    (call in m <==> call in n) && (call in m ==> n[call] == m[call])
  }

  ghost predicate SomeoneAwaits(f: Fold, call: Id) {
    exists t :: call in BucketOf(f, t).approvals
  }

  ghost predicate SomeoneAsks(f: Fold, call: Id) {
    exists t :: call in BucketOf(f, t).questions
  }

  /** Every thread that awaited the approval has the first verdict and awaits it no more. The root has
      the last one, unless there is only one and it went to other threads. */
  ghost predicate Decided(f: Fold, g: Fold, verdicts: seq<Decision>, call: Id, t: Id) {
    var before, after := BucketOf(f, t), BucketOf(g, t);
    if verdicts == [] then
      SameAt(before.decisions, after.decisions, call) && (call in before.approvals <==> call in after.approvals)
    else
      && call !in after.approvals
      && if t != ROOT && call in before.approvals then call in after.decisions && after.decisions[call] == verdicts[0]
         else if t == ROOT && (call in before.approvals || !SomeoneAwaits(f, call) || |verdicts| > 1) then
           call in after.decisions && after.decisions[call] == verdicts[|verdicts| - 1]
         else SameAt(before.decisions, after.decisions, call)
  }

  /** The same for answers. */
  ghost predicate Replied(f: Fold, g: Fold, replies: seq<string>, call: Id, t: Id) {
    var before, after := BucketOf(f, t), BucketOf(g, t);
    if replies == [] then SameAt(before.results, after.results, call) && SameAt(before.questions, after.questions, call)
    else
      && call !in after.questions
      && if t != ROOT && call in before.questions then call in after.results && after.results[call] == replies[0]
         else if t == ROOT && (call in before.questions || !SomeoneAsks(f, call) || |replies| > 1) then
           call in after.results && after.results[call] == replies[|replies| - 1]
         else SameAt(before.results, after.results, call)
  }

  lemma {:induction false} InputOpsSnoc(input: seq<InputItem>, item: InputItem)
    ensures InputOps(input + [item]) == InputOps(input) + ItemOps(item)
    decreases input
  {
    if input == [] {
      assert [] + [item] == [item] && [item][1..] == [];
    } else {
      assert (input + [item])[0] == input[0] && (input + [item])[1..] == input[1..] + [item];
      InputOpsSnoc(input[1..], item);
    }
  }

  lemma RunItem(f: Fold, input: seq<InputItem>)
    requires input != []
    ensures var g := Run(f, InputOps(input[..|input| - 1]));
      Run(f, InputOps(input)) == match input[|input| - 1]
        case UserMessage(_) => g
        case UserToolResponse(call, content) => Answer(g, call, content)
        case UserToolApproval(call, allow, reason) => Decide(g, call, if allow then Decision(true, None) else Decision(false, reason))
  {
    var front, last := input[..|input| - 1], input[|input| - 1];
    assert input == front + [last];
    InputOpsSnoc(front, last);
    assert InputOps(front) + [] == InputOps(front);
    if ItemOps(last) != [] {
      RunSnoc(f, InputOps(front), ItemOps(last)[0]);
    }
  }

  /** One decision on the fold, thread by thread. */
  lemma DecideAt(f: Fold, call: Id, d: Decision, t: Id)
    ensures var before, after := BucketOf(f, t), BucketOf(Decide(f, call, d), t);
      after == if call in before.approvals || (!SomeoneAwaits(f, call) && t == ROOT)
        then before.(decisions := before.decisions[call := d], approvals := before.approvals - {call}) else before
  {
    if u :| u in f.threads.vals && AwaitsIn(f.threads.vals[u], call) {
      assert call in BucketOf(f, u).approvals;
    } else {
      assert !SomeoneAwaits(f, call);
      assert BucketOf(f, t).approvals - {call} == BucketOf(f, t).approvals;
    }
  }

  lemma AnswerAt(f: Fold, call: Id, content: string, t: Id)
    ensures var before, after := BucketOf(f, t), BucketOf(Answer(f, call, content), t);
      after == if call in before.questions || (!SomeoneAsks(f, call) && t == ROOT)
        then before.(results := before.results[call := content], questions := before.questions - {call}) else before
  {
    if u :| u in f.threads.vals && AsksIn(f.threads.vals[u], call) {
      assert call in BucketOf(f, u).questions;
    } else {
      assert !SomeoneAsks(f, call);
      assert BucketOf(f, t).questions - {call} == BucketOf(f, t).questions;
    }
  }

  lemma DecidedStep(f: Fold, g: Fold, verdicts: seq<Decision>, call: Id, other: Id, d: Decision, t: Id)
    requires forall u :: Decided(f, g, verdicts, call, u)
    ensures Decided(f, Decide(g, other, d), if other == call then verdicts + [d] else verdicts, call, t)
  {
    DecideAt(g, other, d, t);
    assert Decided(f, g, verdicts, call, t);
    if other == call && verdicts == [] {
      if u :| call in BucketOf(f, u).approvals {
        assert Decided(f, g, verdicts, call, u);
      }
      if u :| call in BucketOf(g, u).approvals {
        assert Decided(f, g, verdicts, call, u);
      }
    } else if other == call {
      forall u ensures call !in BucketOf(g, u).approvals {
        assert Decided(f, g, verdicts, call, u);
      }
    }
  }

  lemma RepliedStep(f: Fold, g: Fold, replies: seq<string>, call: Id, other: Id, content: string, t: Id)
    requires forall u :: Replied(f, g, replies, call, u)
    ensures Replied(f, Answer(g, other, content), if other == call then replies + [content] else replies, call, t)
  {
    AnswerAt(g, other, content, t);
    assert Replied(f, g, replies, call, t);
    if other == call && replies == [] {
      if u :| call in BucketOf(f, u).questions {
        assert Replied(f, g, replies, call, u);
      }
      if u :| call in BucketOf(g, u).questions {
        assert Replied(f, g, replies, call, u);
      }
    } else if other == call {
      forall u ensures call !in BucketOf(g, u).questions {
        assert Replied(f, g, replies, call, u);
      }
    }
  }

  /** A turn's decisions: allowed calls are stored as approved, denied ones as denied with their reason. */
  lemma {:induction false} InputDecides(f: Fold, input: seq<InputItem>, call: Id)
    ensures forall t :: Decided(f, Run(f, InputOps(input)), Verdicts(input, call), call, t)
    decreases input
  {
    if input != [] {
      var front, last := input[..|input| - 1], input[|input| - 1];
      var g := Run(f, InputOps(front));
      InputDecides(f, front, call);
      RunItem(f, input);
      assert Verdicts(front, call) + [] == Verdicts(front, call);
      forall t ensures Decided(f, Run(f, InputOps(input)), Verdicts(input, call), call, t) {
        assert Decided(f, g, Verdicts(front, call), call, t);
        match last {
          case UserToolApproval(other, allow, reason) =>
            DecidedStep(f, g, Verdicts(front, call), call, other, if allow then Decision(true, None) else Decision(false, reason), t);
          case UserToolResponse(other, content) => AnswerAt(g, other, content, t);
          case UserMessage(_) =>
        }
      }
    }
  }

  /** A turn's answers. */
  lemma {:induction false} InputReplies(f: Fold, input: seq<InputItem>, call: Id)
    ensures forall t :: Replied(f, Run(f, InputOps(input)), Replies(input, call), call, t)
    decreases input
  {
    if input != [] {
      var front, last := input[..|input| - 1], input[|input| - 1];
      var g := Run(f, InputOps(front));
      InputReplies(f, front, call);
      RunItem(f, input);
      assert Replies(front, call) + [] == Replies(front, call);
      forall t ensures Replied(f, Run(f, InputOps(input)), Replies(input, call), call, t) {
        assert Replied(f, g, Replies(front, call), call, t);
        match last {
          case UserToolResponse(other, content) => RepliedStep(f, g, Replies(front, call), call, other, content, t);
          case UserToolApproval(other, allow, reason) =>
            DecideAt(g, other, if allow then Decision(true, None) else Decision(false, reason), t);
          case UserMessage(_) =>
        }
      }
    }
  }
}
