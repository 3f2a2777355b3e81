/** What each projected message shows, read off the turn records. */
module ProjectionMeaning {
  import opened JsMaps
  import opened Projection
  import Events
  import InputMeaning
  import RequiredActions
  import Tree = MessageTree

  /** The turn comes from a message of the user. */
  predicate ByUser(r: Record) {
    exists i :: 0 <= i < |r.input| && r.input[i].UserMessage?
  }

  /** A turn with content, or one that was cancelled or failed, is shown. */
  predicate HasSomething(records: seq<Record>, k: nat)
    requires k < |records|
  {
    StagedContent(records, k) != [] || records[k].state.Cancelled? || records[k].state.Failed?
  }

  /** The records that are projected: all, or those up to the first running one. */
  ghost predicate Reaches(records: seq<Record>, n: nat) {
    && n <= |records| && (forall k :: 0 <= k < n - 1 ==> !records[k].state.Running?)
    && (n < |records| ==> n > 0 && records[n - 1].state.Running?)
  }

  ghost predicate InGroup(records: seq<Record>, i: nat, j: nat)
    requires i <= j < |records|
  {
    forall k :: i < k <= j ==> !ByUser(records[k])
  }

  /** Turn `j` is the one that the group of turn `i` shows, among the first `n`: the last finished one
      with something to show, or the group's first turn. */
  ghost predicate Represents(records: seq<Record>, i: nat, j: nat, n: nat)
    requires i <= j < n <= |records|
  {
    && InGroup(records, i, j) && HasSomething(records, j) && (j == i || !records[j].state.Running?)
    && forall k :: j < k < n && InGroup(records, i, k) ==> !HasSomething(records, k) || records[k].state.Running?
  }

  /** Something in the content still asks for an approval or an answer. */
  predicate StillAsks(content: seq<Tree.Part>) {
    RequiredActions.PartsPending(RequiredActions.Approvals, content) || RequiredActions.PartsPending(RequiredActions.Responses, content)
  }

  /** The message shows the turn's staged content. It is paused when the turn is done and asks for a
      login, or for an approval or an answer that is still pending; then, unless it asks for a login, it
      names the thread of the approval, or else of the answer. */
  predicate ShowsTurn(records: seq<Record>, j: nat, m: Tree.Message)
    requires j < |records|
  {
    var r, content := records[j], StagedContent(records, j);
    && m.AssistantMessage? && m.content == content
    && (!r.state.Done? ==> !m.paused)
    && (r.state.Done? && r.state.actions.mcpAuth ==> m.paused && m.approvalThread.None? && m.responseThread.None?)
    && (r.state.Done? && !r.state.actions.mcpAuth ==>
          (m.paused <==> (r.state.actions.approval.Some? || r.state.actions.response.Some?) && StillAsks(content)))
    && (!m.paused ==> m.approvalThread.None? && m.responseThread.None?)
    && (m.paused && !r.state.actions.mcpAuth ==>
          && m.approvalThread == r.state.actions.approval
          && m.responseThread == if r.state.actions.approval.Some? then None else r.state.actions.response)
  }

  lemma BuiltShows(records: seq<Record>, k: nat)
    requires k < |records|
    ensures ShowsTurn(records, k, Built(records, k).shown)
    ensures Built(records, k).user <==> ByUser(records[k])
    ensures Emits(Built(records, k)) <==> HasSomething(records, k)
    ensures Built(records, k).running <==> records[k].state.Running?
  {
  }

  lemma {:induction false} LatestIs(turns: seq<Turn>, i: nat, n: nat)
    requires i < n <= |turns|
    ensures var j := Latest(turns, i, n);
      && (j == i || (Emits(turns[j]) && !turns[j].running))
      && forall k :: j < k < n && SameGroup(turns, i, k) ==> !(Emits(turns[k]) && !turns[k].running)
    decreases n
  {
    if n - 1 != i && !(SameGroup(turns, i, n - 1) && Emits(turns[n - 1]) && !turns[n - 1].running) {
      LatestIs(turns, i, n - 1);
    }
  }

  lemma LatestRepresents(records: seq<Record>, i: nat, n: nat)
    requires i < n <= |records| && HasSomething(records, i)
    ensures Represents(records, i, Latest(AllBuilt(records), i, n), n)
  {
    var turns := AllBuilt(records);
    var j := Latest(turns, i, n);
    LatestIs(turns, i, n);
    forall k | 0 <= k < |records|
      ensures (turns[k].user <==> ByUser(records[k])) && (Emits(turns[k]) <==> HasSomething(records, k))
      ensures turns[k].running <==> records[k].state.Running?
    {
      BuiltShows(records, k);
    }
    forall k | j < k < n && InGroup(records, i, k) ensures !HasSomething(records, k) || records[k].state.Running? {
      assert SameGroup(turns, i, k);
    }
  }

  /** The messages of turn `i`: the user's message, and the assistant's when there is something. */
  ghost predicate IsBlock(records: seq<Record>, i: nat, n: nat, block: seq<Message>)
    requires i < n <= |records|
  {
    if !ByUser(records[i]) then block == []
    else if !HasSomething(records, i) then block == [UserMessage(records[i].id)]
    else
      && |block| == 2 && block[0] == UserMessage(records[i].id)
      && block[1].AssistantMessage? && block[1].turn == records[i].id
      && exists j :: i <= j < n && Represents(records, i, j, n) && block[1].from == records[j].id && ShowsTurn(records, j, block[1].shown)
  }

  lemma BlockShows(records: seq<Record>, i: nat, n: nat)
    requires i < n <= |records|
    ensures IsBlock(records, i, n, Block(AllBuilt(records), i, n))
  {
    BuiltShows(records, i);
    if ByUser(records[i]) && HasSomething(records, i) {
      var j := Latest(AllBuilt(records), i, n);
      LatestRepresents(records, i, n);
      BuiltShows(records, j);
    }
  }

  /** The messages are those of the turns, turn by turn. */
  ghost predicate Concatenates(records: seq<Record>, n: nat, k: nat, messages: seq<Message>)
    requires k <= n <= |records|
    decreases k
  {
    if k == 0 then messages == []
    else exists before, block :: messages == before + block && Concatenates(records, n, k - 1, before) && IsBlock(records, k - 1, n, block)
  }

  lemma Follows(records: seq<Record>, n: nat, k: nat, before: seq<Message>, block: seq<Message>)
    requires 0 < k <= n <= |records| && Concatenates(records, n, k - 1, before) && IsBlock(records, k - 1, n, block)
    ensures Concatenates(records, n, k, before + block)
  {
  }

  lemma {:induction false} BlocksShow(records: seq<Record>, n: nat, k: nat)
    requires k <= n <= |records|
    ensures Concatenates(records, n, k, Blocks(AllBuilt(records), k, n))
    decreases k
  {
    hide IsBlock, Block, AllBuilt;
    if k > 0 {
      BlocksShow(records, n, k - 1);
      BlockShows(records, k - 1, n);
      Follows(records, n, k, Blocks(AllBuilt(records), k - 1, n), Block(AllBuilt(records), k - 1, n));
    }
  }

  lemma CutReaches(records: seq<Record>)
    ensures Reaches(records, Cut(AllBuilt(records)))
  {
    var turns := AllBuilt(records);
    forall k | 0 <= k < |records| ensures turns[k].running <==> records[k].state.Running? {
      assert turns[k] == Built(records, k);
    }
  }

  /** The history is projected turn by turn, up to the first running one: each user's turn gives the
      user's message, and after it the assistant's with the content, the pause and the threads of the
      turn that its group shows. */
  lemma HistoryShows(records: seq<Record>)
    ensures var n := Cut(AllBuilt(records)); Reaches(records, n) && Concatenates(records, n, n, Shape(AllBuilt(records), n))
  {
    CutReaches(records);
    BlocksShow(records, Cut(AllBuilt(records)), Cut(AllBuilt(records)));
    hide Reaches, Concatenates, Blocks, Cut, AllBuilt;
  }

  /** What a turn's input decides and answers is the last word it has on each call. */
  lemma {:induction false} LastWordCounts(input: seq<Events.InputItem>, call: Id)
    ensures var verdicts, d := InputMeaning.Verdicts(input, call), DecisionsIn(input);
      (call in d <==> verdicts != []) && (verdicts != [] ==> d[call] == verdicts[|verdicts| - 1])
    ensures var replies, a := InputMeaning.Replies(input, call), AnswersIn(input);
      (call in a <==> replies != []) && (replies != [] ==> a[call] == replies[|replies| - 1])
    decreases input
  {
    if input != [] {
      LastWordCounts(input[..|input| - 1], call);
    }
  }

  // ----- The last word of a group -----

  /** The group of turn `k` ends before turn `n`. */
  ghost predicate EndsBefore(records: seq<Record>, k: nat, n: nat) {
    k < n <= |records| && (forall m :: k < m < n ==> !ByUser(records[m])) && (n < |records| ==> ByUser(records[n]))
  }

  /** The input of the turns from `k` to `n`, in order. */
  function InputFrom(records: seq<Record>, k: nat, n: nat): seq<Events.InputItem>
    requires k <= n <= |records|
    decreases n - k
  {
    if k == n then [] else records[k].input + InputFrom(records, k + 1, n)
  }

  lemma {:induction false} CollectConcat(a: seq<Events.InputItem>, b: seq<Events.InputItem>)
    ensures DecisionsIn(a + b) == DecisionsIn(a) + DecisionsIn(b)
    ensures AnswersIn(a + b) == AnswersIn(a) + AnswersIn(b)
    decreases b
  {
    if b == [] {
      assert a + b == a;
    } else {
      CollectConcat(a, b[..|b| - 1]);
      assert (a + b)[..|a + b| - 1] == a + b[..|b| - 1];
    }
  }

  /** What a turn and the later ones of its group decide and answer is what their input does, read as
      one. */
  lemma {:induction false} GroupWord(records: seq<Record>, k: nat, n: nat)
    requires EndsBefore(records, k, n)
    ensures DecisionsIn(records[k].input) + LaterDecisions(records, k) == DecisionsIn(InputFrom(records, k, n))
    ensures AnswersIn(records[k].input) + LaterAnswers(records, k) == AnswersIn(InputFrom(records, k, n))
    decreases n - k
  {
    CollectConcat(records[k].input, InputFrom(records, k + 1, n));
    if k + 1 < n {
      assert !ByUser(records[k + 1]);
      GroupWord(records, k + 1, n);
    } else {
      assert InputFrom(records, n, n) == [];
    }
  }

  /** A call of the content is told what the decisions say of it, and then what the answers do. */
  ghost predicate IsTold(decisions: map<Id, Events.Decision>, answers: map<Id, string>, before: Tree.Scoped, after: Tree.Scoped) {
    && after.thread == before.thread
    && exists decided :: Tree.Stages(Tree.Decisions(decisions), before.call, decided) && Tree.Stages(Tree.Answers(answers), decided, after.call)
  }

  /** The content of a turn is what is rendered of it, each call told the last word that the input of
      its group has on it from this turn on. */
  lemma ContentTells(records: seq<Record>, k: nat, n: nat, scope: Tree.Scope, thread: Id)
    requires EndsBefore(records, k, n)
    ensures var input := InputFrom(records, k, n);
      var before, after := Tree.Calls(scope, records[k].rendered, thread), Tree.Calls(scope, StagedContent(records, k), thread);
      && |after| == |before|
      && forall i :: 0 <= i < |before| ==> IsTold(DecisionsIn(input), AnswersIn(input), before[i], after[i])
  {
    var input := InputFrom(records, k, n);
    var decided := Tree.ApplyParts(Tree.Decisions(DecisionsIn(input)), records[k].rendered);
    StagedInTwo(records, k);
    GroupWord(records, k, n);
    Tree.StagingTells(Tree.Decisions(DecisionsIn(input)), scope, records[k].rendered, thread);
    Tree.StagingTells(Tree.Answers(AnswersIn(input)), scope, decided, thread);
    hide StagedContent, InputFrom, Tree.Calls, Tree.ApplyParts, Tree.Stages;
    var before, middle, after := Tree.Calls(scope, records[k].rendered, thread), Tree.Calls(scope, decided, thread),
      Tree.Calls(scope, StagedContent(records, k), thread);
    forall i | 0 <= i < |before| ensures IsTold(DecisionsIn(input), AnswersIn(input), before[i], after[i]) {
      assert Tree.Stages(Tree.Decisions(DecisionsIn(input)), before[i].call, middle[i].call);
    }
  }
}
