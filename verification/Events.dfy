/** The events of a session log, as the client reads them. */
module Events {
  import opened JsMaps
  import Deltas

  const ROOT: Id := "main"

  datatype Ref = Ref(id: Id, source: Id)

  datatype Link = Link(parent: Id, toolCallId: Id)

  datatype InputItem =
    | UserMessage(text: string)
    | UserToolResponse(toolCallId: Id, content: string)
    | UserToolApproval(toolCallId: Id, allow: bool, reason: Option<string>)

  /** The user's verdict on a tool call. */
  datatype Decision = Decision(approved: bool, reason: Option<string>)

  /** What a tool call came to: the text of an answer, or the error object that a denial leaves. */
  datatype Result = ResultText(text: string) | ResultError(error: string)

  /** `String(result)`, which does not show what an object holds. */
  function Stringified(r: Result): string {
    match r
    case ResultText(text) => text
    case ResultError(_) => "[object Object]"
  }

  /** How a turn ended. */
  datatype DoneState = Finished | Failed(message: string) | Cancelled(reason: string)

  datatype Body =
    | TurnCreated(input: seq<InputItem>)
    | TurnDone(state: DoneState)
    | ModelMessage(message: Deltas.Message)
    | ModelMessageDelta(delta: Deltas.Delta)
    | ToolResponse(toolCallId: Id, content: string)
    | ApprovalRequired(approvals: seq<Ref>)
    | ResponseRequired(questions: seq<Ref>)
    | ThreadCreated(link: Link, title: string, agent: string)
    | ThreadDone(doneTitle: Option<string>, failed: bool, error: Option<string>)
    | CompactionStarted
    | CompactionFinished
    | McpAuthRequired
    | McpInitialize
    | SandboxCreated(sandboxId: Id)

  /** `at` is the creation instant. Lifecycle and session-wide events carry no thread. */
  datatype Event = Event(id: Id, thread: Option<Id>, at: int, body: Body)

  predicate IsTurnScoped(e: Event) {
    e.body.TurnCreated? || e.body.TurnDone?
  }

  predicate OpensGroup(input: seq<InputItem>) {
    exists i :: 0 <= i < |input| && input[i].UserMessage?
  }
}
