/** Projecting turn records onto the chat's messages: one user message per user turn, each followed
    by at most one assistant message for its whole group. */
module Projection {
  import opened JsMaps
  import Events
  import RequiredActions
  import Superseding
  import Tree = MessageTree

  // ----- A turn's content and status -----

  /** The required actions that a finished turn reports. */
  datatype Actions = Actions(mcpAuth: bool, approval: Option<Id>, response: Option<Id>)

  datatype State = Running | Done(actions: Actions) | Cancelled | Failed

  /** `rendered` is the content of the turn's group up to the turn, as built from the fold. */
  datatype Record = Record(id: Id, input: seq<Events.InputItem>, state: State, rendered: seq<Tree.Part>)

  /** What the projection reads of a turn record once its content is built. */
  datatype Turn = Turn(id: Id, user: bool, running: bool, failed: bool, shown: Tree.Message)

  function DecisionsIn(input: seq<Events.InputItem>): map<Id, Events.Decision> {
    if input == [] then map[]
    else
      var before, last := DecisionsIn(input[..|input| - 1]), input[|input| - 1];
      if last.UserToolApproval? then before[last.toolCallId := Events.Decision(last.allow, if last.allow then None else last.reason)]
      else before
  }

  function AnswersIn(input: seq<Events.InputItem>): map<Id, string> {
    if input == [] then map[]
    else
      var before, last := AnswersIn(input[..|input| - 1]), input[|input| - 1];
      if last.UserToolResponse? then before[last.toolCallId := last.content] else before
  }

  /** What the later turns of the same group decide and answer. */
  function LaterDecisions(records: seq<Record>, k: nat): map<Id, Events.Decision>
    decreases |records| - k
  {
    if k + 1 >= |records| || Events.OpensGroup(records[k + 1].input) then map[]
    else DecisionsIn(records[k + 1].input) + LaterDecisions(records, k + 1)
  }

  function LaterAnswers(records: seq<Record>, k: nat): map<Id, string>
    decreases |records| - k
  {
    if k + 1 >= |records| || Events.OpensGroup(records[k + 1].input) then map[]
    else AnswersIn(records[k + 1].input) + LaterAnswers(records, k + 1)
  }

  /** Later turns' decisions and answers are staged on the content, and then the turn's own. */
  function StagedContent(records: seq<Record>, k: nat): seq<Tree.Part>
    requires k < |records|
  {
    var later := Tree.ApplyParts(Tree.Answers(LaterAnswers(records, k)),
                                 Tree.ApplyParts(Tree.Decisions(LaterDecisions(records, k)), records[k].rendered));
    Tree.ApplyParts(Tree.Decisions(DecisionsIn(records[k].input)),
                    Tree.ApplyParts(Tree.Answers(AnswersIn(records[k].input)), later))
  }

  /** Two passes do: in each kind a later turn's word counts before the turn's own. */
  lemma StagedInTwo(records: seq<Record>, k: nat)
    requires k < |records|
    ensures StagedContent(records, k)
      == Tree.ApplyParts(Tree.Answers(AnswersIn(records[k].input) + LaterAnswers(records, k)),
           Tree.ApplyParts(Tree.Decisions(DecisionsIn(records[k].input) + LaterDecisions(records, k)), records[k].rendered))
  {
    var d, e := Tree.Decisions(LaterDecisions(records, k)), Tree.Decisions(DecisionsIn(records[k].input));
    var a, b := Tree.Answers(LaterAnswers(records, k)), Tree.Answers(AnswersIn(records[k].input));
    var decided := Tree.ApplyParts(d, records[k].rendered);
    Tree.KindsCommute(e, b, Tree.ApplyParts(a, decided));
    Tree.KindsCommute(e, a, decided);
    Tree.FirstDecisionWins(d, e, records[k].rendered);
    Tree.FirstDecisionWins(a, b, Tree.ApplyParts(e, decided));
  }

  predicate PendingActions(content: seq<Tree.Part>) {
    RequiredActions.PartsPending(RequiredActions.Approvals, content) || RequiredActions.PartsPending(RequiredActions.Responses, content)
  }

  /** A pause for an approval or an answer holds only while something in the content is pending. */
  predicate Pauses(r: Record, content: seq<Tree.Part>) {
    && r.state.Done?
    && (r.state.actions.mcpAuth || ((r.state.actions.approval.Some? || r.state.actions.response.Some?) && PendingActions(content)))
  }

  /** The first required action decides whose thread is named. */
  function Shown(r: Record, content: seq<Tree.Part>): Tree.Message {
    var asks := Pauses(r, content) && !r.state.actions.mcpAuth;
    Tree.AssistantMessage(Pauses(r, content), if asks then r.state.actions.approval else None,
                          if asks && r.state.actions.approval.None? then r.state.actions.response else None, content)
  }

  function Built(records: seq<Record>, k: nat): Turn
    requires k < |records|
  {
    var r := records[k];
    Turn(r.id, Events.OpensGroup(r.input), r.state.Running?, r.state.Cancelled? || r.state.Failed?, Shown(r, StagedContent(records, k)))
  }

  function AllBuilt(records: seq<Record>): (turns: seq<Turn>)
    ensures |turns| == |records| && forall k :: 0 <= k < |records| ==> turns[k] == Built(records, k)
  {
    seq(|records|, k requires 0 <= k < |records| => Built(records, k))
  }

  lemma LaterAre(records: seq<Record>, k: nat, n: nat, decisions: map<Id, Events.Decision>, answers: map<Id, string>)
    requires k < n < |records| && !Events.OpensGroup(records[n].input)
    ensures (decisions + DecisionsIn(records[n].input)) + LaterDecisions(records, n)
      == decisions + (DecisionsIn(records[n].input) + LaterDecisions(records, n))
    ensures (answers + AnswersIn(records[n].input)) + LaterAnswers(records, n)
      == answers + (AnswersIn(records[n].input) + LaterAnswers(records, n))
  {
  }

  /** Collects from the turns after `k` until a user's message. */
  method CollectSubsequent(records: seq<Record>, k: nat)
    returns (decisions: map<Id, Events.Decision>, answers: map<Id, string>)
    requires k < |records|
    ensures decisions == LaterDecisions(records, k) && answers == LaterAnswers(records, k)
  {
    decisions, answers := map[], map[];
    var n := k + 1;
    while n < |records|
      invariant k < n <= |records|
      invariant decisions + LaterDecisions(records, n - 1) == LaterDecisions(records, k)
      invariant answers + LaterAnswers(records, n - 1) == LaterAnswers(records, k)
    {
      if Events.OpensGroup(records[n].input) {
        return;
      }
      LaterAre(records, k, n, decisions, answers);
      decisions := decisions + DecisionsIn(records[n].input);
      answers := answers + AnswersIn(records[n].input);
      n := n + 1;
    }
  }

  lemma {:induction false} StagingNothing(s: Tree.Staged, content: seq<Tree.Part>)
    requires if s.Decisions? then s.decisions == map[] else s.answers == map[]
    ensures Tree.ApplyParts(s, content) == content
    decreases content
  {
    if content != [] {
      StagingNothing(s, content[1..]);
      if content[0].CallPart? {
        StagingNothingIn(s, content[0].messages);
      }
    }
  }

  lemma {:induction false} StagingNothingIn(s: Tree.Staged, messages: seq<Tree.Message>)
    requires if s.Decisions? then s.decisions == map[] else s.answers == map[]
    ensures Tree.ApplyMessages(s, messages) == messages
    decreases messages
  {
    if messages != [] {
      StagingNothingIn(s, messages[1..]);
      if messages[0].AssistantMessage? {
        StagingNothing(s, messages[0].content);
      }
    }
  }

  method StageDecisions(content: seq<Tree.Part>, decisions: map<Id, Events.Decision>) returns (staged: seq<Tree.Part>)
    ensures staged == Tree.ApplyParts(Tree.Decisions(decisions), content)
  {
    staged := content;
    if decisions != map[] {
      staged := Tree.ApplyParts(Tree.Decisions(decisions), content);
    } else {
      StagingNothing(Tree.Decisions(decisions), content);
    }
  }

  method StageAnswers(content: seq<Tree.Part>, answers: map<Id, string>) returns (staged: seq<Tree.Part>)
    ensures staged == Tree.ApplyParts(Tree.Answers(answers), content)
  {
    staged := content;
    if answers != map[] {
      staged := Tree.ApplyParts(Tree.Answers(answers), content);
    } else {
      StagingNothing(Tree.Answers(answers), content);
    }
  }

  method BuildTurn(records: seq<Record>, k: nat) returns (turn: Turn)
    requires k < |records|
    ensures turn == Built(records, k)
  {
    var record := records[k];
    var decisions, answers := CollectSubsequent(records, k);
    var content := StageDecisions(record.rendered, decisions);
    content := StageAnswers(content, answers);
    content := StageAnswers(content, AnswersIn(record.input));
    content := StageDecisions(content, DecisionsIn(record.input));
    turn := Turn(record.id, Events.OpensGroup(record.input), record.state.Running?,
                 record.state.Cancelled? || record.state.Failed?, Shown(record, content));
  }

  // ----- Messages -----

  /** `from` is the turn whose content and status the message shows. */
  datatype Message = UserMessage(turn: Id) | AssistantMessage(turn: Id, from: Id, shown: Tree.Message)

  /** Cancelled and failed turns are shown even without content. */
  predicate Emits(t: Turn) {
    (t.shown.AssistantMessage? && t.shown.content != []) || (!t.running && t.failed)
  }

  function Assistant(opener: Turn, from: Turn): Message {
    AssistantMessage(opener.id, from.id, from.shown)
  }

  // ----- What is shown -----

  /** The turns up to the first running one. */
  function Cut(turns: seq<Turn>): (n: nat)
    ensures n <= |turns|
    ensures forall i :: 0 <= i < n - 1 ==> !turns[i].running
    ensures n < |turns| ==> n > 0 && turns[n - 1].running
  {
    if turns == [] then 0
    else if turns[0].running then 1
    else 1 + Cut(turns[1..])
  }

  /** No user turn comes after `i` up to `j`. */
  predicate SameGroup(turns: seq<Turn>, i: nat, j: nat)
    requires i <= j < |turns|
  {
    forall k :: i < k <= j ==> !turns[k].user
  }

  /** The latest turn of the group opened at `i`, among the first `n`, that has something to show
      and is not running. */
  function Latest(turns: seq<Turn>, i: nat, n: nat): (j: nat)
    requires i < n <= |turns|
    ensures i <= j < n && SameGroup(turns, i, j)
    ensures Emits(turns[i]) ==> Emits(turns[j])
    decreases n
  {
    if n - 1 == i then i
    else if SameGroup(turns, i, n - 1) && Emits(turns[n - 1]) && !turns[n - 1].running then n - 1
    else Latest(turns, i, n - 1)
  }

  function Block(turns: seq<Turn>, i: nat, n: nat): seq<Message>
    requires i < n <= |turns|
  {
    if !turns[i].user then []
    else [UserMessage(turns[i].id)] + if Emits(turns[i]) then [Assistant(turns[i], turns[Latest(turns, i, n)])] else []
  }

  function Blocks(turns: seq<Turn>, k: nat, n: nat): seq<Message>
    requires k <= n <= |turns|
    decreases k
  {
    if k == 0 then [] else Blocks(turns, k - 1, n) + Block(turns, k - 1, n)
  }

  /** The projection, described group by group. */
  function Shape(turns: seq<Turn>, n: nat): seq<Message>
    requires n <= |turns|
  {
    Blocks(turns, n, n)
  }

  // ----- The loop -----

  /** The opener of the group that the first `n` turns end in. */
  function Opener(turns: seq<Turn>, n: nat): (r: Option<nat>)
    requires n <= |turns|
    ensures r.Some? ==> r.value < n && turns[r.value].user && SameGroup(turns, r.value, n - 1)
    ensures r.None? ==> forall i :: 0 <= i < n ==> !turns[i].user
    decreases n
  {
    if n == 0 then None
    else if turns[n - 1].user then Some(n - 1)
    else Opener(turns, n - 1)
  }

  /** Where the last group's assistant message is, if it has one. */
  function LastAssistant(turns: seq<Turn>, n: nat): Option<nat>
    requires n <= |turns|
  {
    var i := Opener(turns, n);
    if i.Some? && Emits(turns[i.value]) then Some(|Blocks(turns, i.value, n)| + 1) else None
  }

  lemma {:induction false} BlocksSettled(turns: seq<Turn>, k: nat, n: nat)
    requires k <= n < |turns|
    requires turns[n].user || turns[n].running || !Emits(turns[n]) || (Opener(turns, n).Some? && k <= Opener(turns, n).value) || Opener(turns, n).None?
    ensures Blocks(turns, k, n + 1) == Blocks(turns, k, n)
    decreases k
  {
    if k > 0 {
      BlocksSettled(turns, k - 1, n);
      var opener := Opener(turns, n);
      if opener.Some? && k <= opener.value {
        assert !SameGroup(turns, k - 1, n);
      }
    }
  }

  lemma {:induction false} NothingAfter(turns: seq<Turn>, i: nat, k: nat, n: nat)
    requires i < k <= n <= |turns| && forall j :: i < j < k ==> !turns[j].user
    ensures Blocks(turns, k, n) == Blocks(turns, i + 1, n)
    decreases k
  {
    if k > i + 1 {
      NothingAfter(turns, i, k - 1, n);
      assert Blocks(turns, k - 1, n) + [] == Blocks(turns, k - 1, n);
    }
  }

  /** With a last group, the shape is what comes before it and its own block. */
  lemma ShapeByOpener(turns: seq<Turn>, n: nat, i: nat)
    requires n <= |turns| && Opener(turns, n) == Some(i)
    ensures Shape(turns, n) == Blocks(turns, i, n) + Block(turns, i, n)
  {
    assert forall j :: i < j < n ==> !turns[j].user;
    NothingAfter(turns, i, n, n);
  }

  lemma {:induction false} NoOpener(turns: seq<Turn>, k: nat, n: nat)
    requires k <= n <= |turns| && forall i :: 0 <= i < k ==> !turns[i].user
    ensures Blocks(turns, k, n) == []
    decreases k
  {
    if k > 0 {
      NoOpener(turns, k - 1, n);
    }
  }

  /** A user turn opens a new block. */
  lemma AddUser(turns: seq<Turn>, n: nat)
    requires n < |turns| && turns[n].user
    ensures Shape(turns, n + 1) == Shape(turns, n) + Block(turns, n, n + 1)
    ensures Latest(turns, n, n + 1) == n
    ensures LastAssistant(turns, n + 1) == if Emits(turns[n]) then Some(|Shape(turns, n)| + 1) else None
  {
    BlocksSettled(turns, n, n);
  }

  lemma SameBlock(turns: seq<Turn>, n: nat, i: nat)
    requires i < n < |turns| && !turns[n].user && (!Emits(turns[n]) || turns[n].running || !Emits(turns[i]))
    ensures Block(turns, i, n + 1) == Block(turns, i, n)
  {
  }

  /** A continuation that shows nothing, or has no assistant message to show it in, changes
      nothing. */
  lemma AddNothing(turns: seq<Turn>, n: nat)
    requires n < |turns| && !turns[n].user && (!Emits(turns[n]) || turns[n].running || LastAssistant(turns, n).None?)
    ensures Shape(turns, n + 1) == Shape(turns, n) && LastAssistant(turns, n + 1) == LastAssistant(turns, n)
  {
    var opener := Opener(turns, n);
    assert Opener(turns, n + 1) == opener;
    if opener.None? {
      NoOpener(turns, n + 1, n + 1);
      NoOpener(turns, n, n);
    } else {
      var i := opener.value;
      ShapeByOpener(turns, n, i);
      ShapeByOpener(turns, n + 1, i);
      BlocksSettled(turns, i, n);
      SameBlock(turns, n, i);
    }
  }

  lemma ReplaceSecond(before: seq<Message>, u: Message, x: Message, y: Message)
    ensures |before + [u, x]| == |before| + 2 && (before + [u, x])[|before| + 1] == x
    ensures (before + [u, x])[|before| + 1 := y] == before + [u, y]
  {
  }

  lemma OwnBlock(turns: seq<Turn>, i: nat, n: nat)
    requires i < n <= |turns| && turns[i].user && Emits(turns[i])
    ensures Block(turns, i, n) == [UserMessage(turns[i].id), Assistant(turns[i], turns[Latest(turns, i, n)])]
  {
  }

  lemma NewestBlock(turns: seq<Turn>, i: nat, n: nat)
    requires i < n < |turns| && turns[i].user && Emits(turns[i])
    requires SameGroup(turns, i, n) && Emits(turns[n]) && !turns[n].running
    ensures Block(turns, i, n + 1) == [UserMessage(turns[i].id), Assistant(turns[i], turns[n])]
  {
    OwnBlock(turns, i, n + 1);
  }

  /** A continuation that shows something takes over its group's assistant message. */
  lemma AddContinuation(turns: seq<Turn>, n: nat, i: nat, before: seq<Message>)
    requires n < |turns| && !turns[n].user && Emits(turns[n]) && !turns[n].running
    requires Opener(turns, n) == Some(i) && Emits(turns[i]) && before == Blocks(turns, i, n)
    ensures Shape(turns, n) == before + [UserMessage(turns[i].id), Assistant(turns[i], turns[Latest(turns, i, n)])]
    ensures Shape(turns, n + 1) == before + [UserMessage(turns[i].id), Assistant(turns[i], turns[n])]
    ensures LastAssistant(turns, n + 1) == LastAssistant(turns, n) == Some(|before| + 1)
  {
    hide Shape, Blocks, Block, Latest, Emits;
    assert Opener(turns, n + 1) == Some(i);
    ShapeByOpener(turns, n, i);
    ShapeByOpener(turns, n + 1, i);
    BlocksSettled(turns, i, n);
    OwnBlock(turns, i, n);
    NewestBlock(turns, i, n);
  }

  /** What the loop has made of the first `n` turns. */
  ghost predicate Projected(turns: seq<Turn>, n: nat, messages: seq<Message>, last: Option<nat>)
    requires n <= |turns|
  {
    messages == Shape(turns, n) && last == LastAssistant(turns, n)
  }

  /** One turn of the loop, on the messages so far and the place of the group's assistant message. */
  method ProjectTurn(turn: Turn, before: seq<Message>, lastAssistant: Option<nat>)
    returns (messages: seq<Message>, last: Option<nat>)
    requires lastAssistant.Some? ==> lastAssistant.value < |before| && before[lastAssistant.value].AssistantMessage?
    ensures messages == ProjectedBy(turn, before, lastAssistant).0 && last == ProjectedBy(turn, before, lastAssistant).1
  {
    messages, last := before, lastAssistant;
    if turn.user {
      messages := messages + [UserMessage(turn.id)];
      last := None;
      if Emits(turn) {
        messages := messages + [Assistant(turn, turn)];
        last := Some(|messages| - 1);
      }
    } else if Emits(turn) && !turn.running && lastAssistant.Some? {
      messages := messages[last.value := messages[last.value].(from := turn.id, shown := turn.shown)];
    }
  }

  function ProjectedBy(turn: Turn, before: seq<Message>, lastAssistant: Option<nat>): (seq<Message>, Option<nat>)
    requires lastAssistant.Some? ==> lastAssistant.value < |before| && before[lastAssistant.value].AssistantMessage?
  {
    if turn.user then
      if Emits(turn) then (before + [UserMessage(turn.id), Assistant(turn, turn)], Some(|before| + 1))
      else (before + [UserMessage(turn.id)], None)
    else if Emits(turn) && !turn.running && lastAssistant.Some? then
      var i := lastAssistant.value;
      (before[i := before[i].(from := turn.id, shown := turn.shown)], lastAssistant)
    else (before, lastAssistant)
  }

  /** The group's assistant message is where the shape has it. */
  lemma LastAssistantAt(turns: seq<Turn>, n: nat)
    requires n <= |turns| && LastAssistant(turns, n).Some?
    ensures var p, i := LastAssistant(turns, n).value, Opener(turns, n).value;
      p < |Shape(turns, n)| && Shape(turns, n)[p] == Assistant(turns[i], turns[Latest(turns, i, n)])
  {
    var i := Opener(turns, n).value;
    ShapeByOpener(turns, n, i);
    OwnBlock(turns, i, n);
  }

  /** One turn of the loop makes the shape of one turn more. */
  lemma TurnProjected(turns: seq<Turn>, n: nat, before: seq<Message>, lastAssistant: Option<nat>)
    requires n < |turns| && Projected(turns, n, before, lastAssistant)
    ensures lastAssistant.Some? ==> lastAssistant.value < |before| && before[lastAssistant.value].AssistantMessage?
    ensures Projected(turns, n + 1, ProjectedBy(turns[n], before, lastAssistant).0, ProjectedBy(turns[n], before, lastAssistant).1)
  {
    if lastAssistant.Some? {
      LastAssistantAt(turns, n);
    }
    var turn := turns[n];
    if turn.user {
      AddUser(turns, n);
    } else if turn.running || !Emits(turn) || lastAssistant.None? {
      AddNothing(turns, n);
    } else {
      var i := Opener(turns, n).value;
      AddContinuation(turns, n, i, Blocks(turns, i, n));
      ReplaceSecond(Blocks(turns, i, n), UserMessage(turns[i].id), Assistant(turns[i], turns[Latest(turns, i, n)]), Assistant(turns[i], turn));
    }
  }

  lemma NothingProjected(turns: seq<Turn>)
    ensures Projected(turns, 0, [], None)
  {
  }

  /** The loop stops after the first running turn. */
  lemma AllProjected(turns: seq<Turn>, n: nat, messages: seq<Message>, last: Option<nat>)
    requires n <= |turns| && Projected(turns, n, messages, last)
    requires forall i :: 0 <= i < n - 1 ==> !turns[i].running
    requires n == |turns| || (n > 0 && turns[n - 1].running)
    ensures messages == Shape(turns, Cut(turns))
  {
    if n > 0 && turns[n - 1].running {
      CutIs(turns, n - 1);
    } else {
      assert forall i :: 0 <= i < |turns| ==> !turns[i].running;
      NoCut(turns);
    }
  }

  method ProjectHistoryTurns(records: seq<Record>) returns (messages: seq<Message>)
    ensures messages == Shape(AllBuilt(records), Cut(AllBuilt(records)))
  {
    hide Built, Shape, LastAssistant, Cut, ProjectedBy;
    ghost var turns := AllBuilt(records);
    messages := [];
    var lastAssistant: Option<nat> := None;
    NothingProjected(turns);
    for n := 0 to |records|
      invariant Projected(turns, n, messages, lastAssistant)
      invariant forall i :: 0 <= i < n ==> !turns[i].running
    {
      var turn := BuildTurn(records, n);
      TurnProjected(turns, n, messages, lastAssistant);
      messages, lastAssistant := ProjectTurn(turn, messages, lastAssistant);
      if turn.running {
        AllProjected(turns, n + 1, messages, lastAssistant);
        return;
      }
    }
    AllProjected(turns, |records|, messages, lastAssistant);
  }

  lemma {:induction false} CutIs(turns: seq<Turn>, n: nat)
    requires n < |turns| && turns[n].running && forall i :: 0 <= i < n ==> !turns[i].running
    ensures Cut(turns) == n + 1
    decreases n
  {
    if n > 0 {
      assert forall i :: 0 <= i < n - 1 ==> turns[1..][i] == turns[i + 1];
      CutIs(turns[1..], n - 1);
    }
  }

  lemma NoCut(turns: seq<Turn>)
    requires forall i :: 0 <= i < |turns| ==> !turns[i].running
    ensures Cut(turns) == |turns|
  {
  }

  // ----- The shape -----

  function UserTurns(turns: seq<Turn>): seq<Id> {
    if turns == [] then []
    else UserTurns(turns[..|turns| - 1]) + if turns[|turns| - 1].user then [turns[|turns| - 1].id] else []
  }

  function UsersIn(messages: seq<Message>): seq<Id> {
    if messages == [] then []
    else
      var last := messages[|messages| - 1];
      UsersIn(messages[..|messages| - 1]) + if last.UserMessage? then [last.turn] else []
  }

  lemma {:induction false} UsersConcat(a: seq<Message>, b: seq<Message>)
    ensures UsersIn(a + b) == UsersIn(a) + UsersIn(b)
    decreases b
  {
    if b == [] {
      assert a + b == a;
    } else {
      UsersConcat(a, b[..|b| - 1]);
      assert (a + b)[..|a + b| - 1] == a + b[..|b| - 1];
    }
  }

  lemma BlockUsers(turns: seq<Turn>, i: nat, n: nat)
    requires i < n <= |turns|
    ensures UsersIn(Block(turns, i, n)) == if turns[i].user then [turns[i].id] else []
  {
    var block := Block(turns, i, n);
    if turns[i].user {
      assert block[..1] == [UserMessage(turns[i].id)] && block[..1][..0] == [];
      assert UsersIn(block[..1]) == [turns[i].id];
      if |block| == 2 {
        assert block == block[..1] + [block[1]];
        UsersConcat(block[..1], [block[1]]);
        assert [block[1]][..0] == [];
        assert [turns[i].id] + [] == [turns[i].id];
      } else {
        assert block == block[..1];
      }
    }
  }

  lemma UserTurnsTo(turns: seq<Turn>, k: nat)
    requires 0 < k <= |turns|
    ensures UserTurns(turns[..k]) == UserTurns(turns[..k - 1]) + if turns[k - 1].user then [turns[k - 1].id] else []
  {
    assert turns[..k][..k - 1] == turns[..k - 1];
  }

  /** User messages are the user turns, in turn order. */
  lemma {:induction false} OneMessagePerUserTurn(turns: seq<Turn>, k: nat, n: nat)
    requires k <= n <= |turns|
    ensures UsersIn(Blocks(turns, k, n)) == UserTurns(turns[..k])
    decreases k
  {
    if k > 0 {
      OneMessagePerUserTurn(turns, k - 1, n);
      UsersConcat(Blocks(turns, k - 1, n), Block(turns, k - 1, n));
      BlockUsers(turns, k - 1, n);
      UserTurnsTo(turns, k);
    }
  }

  /** Every assistant message comes right after the user message of its own turn, and shows a turn
      of that turn's group. */
  ghost predicate WellPlaced(turns: seq<Turn>, messages: seq<Message>) {
    forall p :: 0 <= p < |messages| && messages[p].AssistantMessage? ==>
      && p > 0 && messages[p - 1] == UserMessage(messages[p].turn)
      && exists i, j :: 0 <= i <= j < |turns| && Shows(turns, i, j, messages[p])
  }

  predicate Shows(turns: seq<Turn>, i: nat, j: nat, m: Message)
    requires i <= j < |turns|
  {
    m.AssistantMessage? && turns[i].user && SameGroup(turns, i, j) && m == Assistant(turns[i], turns[j])
  }

  lemma PlacedConcat(turns: seq<Turn>, before: seq<Message>, block: seq<Message>)
    requires WellPlaced(turns, before) && WellPlaced(turns, block)
    ensures WellPlaced(turns, before + block)
  {
    var all := before + block;
    forall p | 0 <= p < |all| && all[p].AssistantMessage?
      ensures p > 0 && all[p - 1] == UserMessage(all[p].turn) && exists i, j :: 0 <= i <= j < |turns| && Shows(turns, i, j, all[p])
    {
      if p < |before| {
        assert all[p] == before[p];
      } else {
        assert all[p] == block[p - |before|];
      }
    }
  }

  lemma BlockWellPlaced(turns: seq<Turn>, i: nat, n: nat)
    requires i < n <= |turns|
    ensures WellPlaced(turns, Block(turns, i, n))
  {
    if turns[i].user && Emits(turns[i]) {
      OwnBlock(turns, i, n);
      assert Shows(turns, i, Latest(turns, i, n), Block(turns, i, n)[1]);
    }
  }

  lemma {:induction false} AssistantsWellPlaced(turns: seq<Turn>, k: nat, n: nat)
    requires k <= n <= |turns|
    ensures WellPlaced(turns, Blocks(turns, k, n))
    decreases k
  {
    if k > 0 {
      AssistantsWellPlaced(turns, k - 1, n);
      BlockWellPlaced(turns, k - 1, n);
      PlacedConcat(turns, Blocks(turns, k - 1, n), Block(turns, k - 1, n));
    }
  }

  // ----- Message ids -----

  function MessageId(m: Message): string {
    match m
    case UserMessage(turn) => turn + "-user"
    case AssistantMessage(turn, _, _) => turn + "-assistant"
  }

  lemma SuffixId(m: Message, k: Message)
    requires MessageId(m) == MessageId(k)
    ensures m.turn == k.turn && (m.UserMessage? <==> k.UserMessage?)
  {
    var a, b := MessageId(m), MessageId(k);
    assert m.UserMessage? ==> a[|a| - 1] == "-user"[4] == 'r';
    assert m.AssistantMessage? ==> a[|a| - 1] == "-assistant"[9] == 't';
    assert k.UserMessage? ==> b[|b| - 1] == "-user"[4] == 'r';
    assert k.AssistantMessage? ==> b[|b| - 1] == "-assistant"[9] == 't';
    assert a[..|m.turn|] == m.turn && b[..|k.turn|] == k.turn;
  }

  ghost predicate DistinctTurns(turns: seq<Turn>) {
    forall i, j :: 0 <= i < j < |turns| ==> turns[i].id != turns[j].id
  }

  ghost predicate DistinctMessages(messages: seq<Message>) {
    forall p, q :: 0 <= p < q < |messages| ==> MessageId(messages[p]) != MessageId(messages[q])
  }

  lemma {:induction false} TurnsOfBlocks(turns: seq<Turn>, k: nat, n: nat, p: int)
    requires k <= n <= |turns| && 0 <= p < |Blocks(turns, k, n)|
    ensures exists i :: 0 <= i < k && turns[i].id == Blocks(turns, k, n)[p].turn
    decreases k
  {
    if p < |Blocks(turns, k - 1, n)| {
      TurnsOfBlocks(turns, k - 1, n, p);
      var i :| 0 <= i < k - 1 && turns[i].id == Blocks(turns, k - 1, n)[p].turn;
      assert turns[i].id == Blocks(turns, k, n)[p].turn;
    } else {
      assert turns[k - 1].id == Blocks(turns, k, n)[p].turn;
    }
  }

  lemma IdsConcat(before: seq<Message>, block: seq<Message>)
    requires DistinctMessages(before) && DistinctMessages(block)
    requires forall p, q :: 0 <= p < |before| && 0 <= q < |block| ==> before[p].turn != block[q].turn
    ensures DistinctMessages(before + block)
  {
    var all := before + block;
    forall p, q | 0 <= p < q < |all| ensures MessageId(all[p]) != MessageId(all[q]) {
      if p < |before| <= q && MessageId(all[p]) == MessageId(all[q]) {
        SuffixId(before[p], block[q - |before|]);
      }
    }
  }

  lemma BlockIds(turns: seq<Turn>, i: nat, n: nat)
    requires i < n <= |turns|
    ensures DistinctMessages(Block(turns, i, n))
    ensures forall q :: 0 <= q < |Block(turns, i, n)| ==> Block(turns, i, n)[q].turn == turns[i].id
  {
    var block := Block(turns, i, n);
    if |block| == 2 && MessageId(block[0]) == MessageId(block[1]) {
      SuffixId(block[0], block[1]);
    }
  }

  /** With distinct turn ids, all message ids are distinct. */
  lemma {:induction false} MessageIdsDistinct(turns: seq<Turn>, k: nat, n: nat)
    requires k <= n <= |turns| && DistinctTurns(turns)
    ensures DistinctMessages(Blocks(turns, k, n))
    decreases k
  {
    if k > 0 {
      MessageIdsDistinct(turns, k - 1, n);
      BlockIds(turns, k - 1, n);
      var before := Blocks(turns, k - 1, n);
      forall p | 0 <= p < |before| ensures before[p].turn != turns[k - 1].id {
        TurnsOfBlocks(turns, k - 1, n, p);
      }
      IdsConcat(before, Block(turns, k - 1, n));
    }
  }

  // ----- Supersession -----

  function LastUser(messages: seq<Message>): int {
    if messages == [] then -1
    else if messages[|messages| - 1].UserMessage? then |messages| - 1
    else LastUser(messages[..|messages| - 1])
  }

  /** What superseding makes of one message: an assistant message before the last user message loses
      its pause. */
  function SupersedeOne(m: Message, superseded: bool): Message {
    if superseded && m.AssistantMessage? then m.(shown := Superseding.StripIfPaused(m.shown)) else m
  }

  function Supersede(messages: seq<Message>): (after: seq<Message>)
    ensures |after| == |messages|
    ensures forall p :: 0 <= p < |messages| ==> after[p] == SupersedeOne(messages[p], p < LastUser(messages))
  {
    seq(|messages|, p requires 0 <= p < |messages| => SupersedeOne(messages[p], p < LastUser(messages)))
  }

  method AbandonSuperseded(messages: seq<Message>) returns (after: seq<Message>)
    ensures after == Supersede(messages)
  {
    var last := LastUser(messages);
    after := [];
    for p := 0 to |messages|
      invariant |after| == p
      invariant forall q :: 0 <= q < p ==> after[q] == SupersedeOne(messages[q], q < last)
    {
      if p >= last || !messages[p].AssistantMessage? || !messages[p].shown.AssistantMessage? || !messages[p].shown.paused {
        after := after + [messages[p]];
      } else {
        after := after + [messages[p].(shown := Superseding.StripIfPaused(messages[p].shown))];
      }
    }
  }

  predicate IsPaused(m: Message) {
    m.AssistantMessage? && m.shown.AssistantMessage? && m.shown.paused
  }

  /** After superseding, an assistant message before a user message is not paused; and something in
      it still asks for the user exactly when it hid under a message that was not paused. */
  lemma NoneSuperseded(messages: seq<Message>, p: nat, q: nat, kind: RequiredActions.Kind)
    requires p < q < |messages| && messages[p].AssistantMessage? && messages[q].UserMessage?
    ensures !IsPaused(Supersede(messages)[p])
    ensures RequiredActions.MessagePending(kind, Supersede(messages)[p].shown) <==> Superseding.Hidden(kind, messages[p].shown)
  {
    LastUserIsLast(messages);
    Superseding.StripSettles(kind, messages[p].shown);
  }

  /** The message shows a turn of the group that its own turn opened. */
  ghost predicate FromGroup(turns: seq<Turn>, m: Message) {
    exists i, j :: 0 <= i <= j < |turns| && Spans(turns, i, j, m)
  }

  predicate Spans(turns: seq<Turn>, i: nat, j: nat, m: Message)
    requires i <= j < |turns|
  {
    m.AssistantMessage? && turns[i].user && SameGroup(turns, i, j) && m.turn == turns[i].id && m.from == turns[j].id
  }

  ghost predicate AfterOwnUser(messages: seq<Message>) {
    forall p :: 0 <= p < |messages| && messages[p].AssistantMessage? ==> p > 0 && messages[p - 1] == UserMessage(messages[p].turn)
  }

  lemma PlacesCarryOver(turns: seq<Turn>, projected: seq<Message>)
    requires WellPlaced(turns, projected)
    ensures AfterOwnUser(Supersede(projected))
    ensures forall p :: 0 <= p < |projected| && Supersede(projected)[p].AssistantMessage? ==> FromGroup(turns, Supersede(projected)[p])
  {
    var messages := Supersede(projected);
    forall p | 0 <= p < |messages| && messages[p].AssistantMessage? ensures FromGroup(turns, messages[p]) {
      var i, j :| 0 <= i <= j < |turns| && Shows(turns, i, j, projected[p]);
      assert Spans(turns, i, j, messages[p]);
    }
  }

  lemma IdsCarryOver(projected: seq<Message>)
    requires DistinctMessages(projected)
    ensures DistinctMessages(Supersede(projected)) && UsersIn(Supersede(projected)) == UsersIn(projected)
  {
    var messages := Supersede(projected);
    SameUsers(projected, messages);
    forall p, q | 0 <= p < q < |messages| ensures MessageId(messages[p]) != MessageId(messages[q]) {
      assert MessageId(messages[p]) == MessageId(projected[p]) && MessageId(messages[q]) == MessageId(projected[q]);
    }
  }

  /** The message has lost its pause and whatever asks for the user, but for what hid in it. */
  predicate SettledFrom(projected: Message, m: Message, kind: RequiredActions.Kind) {
    m.AssistantMessage? ==>
      && projected.AssistantMessage? && !IsPaused(m)
      && (RequiredActions.MessagePending(kind, m.shown) <==> Superseding.Hidden(kind, projected.shown))
  }

  /** Every assistant message before a user message is settled. */
  ghost predicate Settled(projected: seq<Message>, messages: seq<Message>) {
    && |projected| == |messages|
    && forall p, q :: 0 <= p < q < |messages| && messages[q].UserMessage? ==>
         forall kind :: SettledFrom(projected[p], messages[p], kind)
  }

  lemma SupersedeSettles(projected: seq<Message>)
    ensures Settled(projected, Supersede(projected))
  {
    var messages := Supersede(projected);
    forall p, q, kind | 0 <= p < q < |messages| && messages[q].UserMessage?
      ensures SettledFrom(projected[p], messages[p], kind)
    {
      if messages[p].AssistantMessage? {
        NoneSuperseded(projected, p, q, kind);
      }
    }
  }

  ghost predicate Projects(turns: seq<Turn>, messages: seq<Message>) {
    && UsersIn(messages) == UserTurns(turns[..Cut(turns)])
    && AfterOwnUser(messages) && DistinctMessages(messages) && Settled(Shape(turns, Cut(turns)), messages)
    && forall p :: 0 <= p < |messages| && messages[p].AssistantMessage? ==> FromGroup(turns, messages[p])
  }

  lemma ShapeProjects(turns: seq<Turn>)
    requires DistinctTurns(turns)
    ensures Projects(turns, Supersede(Shape(turns, Cut(turns))))
  {
    var n := Cut(turns);
    var projected := Shape(turns, n);
    OneMessagePerUserTurn(turns, n, n);
    AssistantsWellPlaced(turns, n, n);
    MessageIdsDistinct(turns, n, n);
    PlacesCarryOver(turns, projected);
    IdsCarryOver(projected);
    SupersedeSettles(projected);
  }

  /** The history projection: one message per user turn up to the first running turn, in order;
      assistants only right after them, showing their own group; distinct ids; and before the last
      user message nothing paused, and nothing asking for the user but what hid. */
  method ProjectHistory(records: seq<Record>) returns (messages: seq<Message>)
    requires DistinctTurns(AllBuilt(records))
    ensures Projects(AllBuilt(records), messages)
    ensures messages == Supersede(Shape(AllBuilt(records), Cut(AllBuilt(records))))
  {
    var projected := ProjectHistoryTurns(records);
    messages := AbandonSuperseded(projected);
    ShapeProjects(AllBuilt(records));
  }

  lemma {:induction false} SameUsers(a: seq<Message>, b: seq<Message>)
    requires |a| == |b| && forall p :: 0 <= p < |a| ==> a[p].UserMessage? == b[p].UserMessage? && a[p].turn == b[p].turn
    ensures UsersIn(a) == UsersIn(b)
    decreases |a|
  {
    if a != [] {
      SameUsers(a[..|a| - 1], b[..|b| - 1]);
    }
  }

  lemma {:induction false} LastUserIsLast(messages: seq<Message>)
    ensures forall q :: 0 <= q < |messages| && messages[q].UserMessage? ==> q <= LastUser(messages)
    decreases messages
  {
    if messages != [] && !messages[|messages| - 1].UserMessage? {
      LastUserIsLast(messages[..|messages| - 1]);
    }
  }
}
