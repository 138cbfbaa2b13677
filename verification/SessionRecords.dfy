/** The record values stored in a session log and rebuilt by replay. */
module SessionRecords {
  import opened Basics
  import opened Conversation

  /** A floating-point number as the log stores it: `mantissa` times a power of two. */
  datatype Float = Float(mantissa: int, exponent: int)

  datatype Accounting = Accounting(
    calibration: Float,
    lastActual: Option<int>,
    lastEstimated: Option<int>,
    failures: nat,
    proactiveDisabled: bool)

  datatype Todo = Todo(content: string, status: string)

  datatype Workflow = Workflow(
    mode: string,
    approvedPlan: Option<string>,
    checkpointId: Option<string>,
    changesAccepted: bool)

  /** The state a transition stores besides the transcript. */
  datatype View = View(
    active: seq<Segment>,
    checkpoints: seq<Checkpoint>,
    todos: seq<Todo>,
    accounting: Accounting,
    workflow: Workflow)

  datatype CommitKind =
    | StateCommitted
    | ContextCommitted
    | WorkflowCommitted
    | TurnFailed
    | TurnInterrupted
    | TurnSteered
    | OtherKind(name: string)

  datatype Payload =
    | Created(todos: seq<Todo>, workflow: Workflow)
    | Committed(kind: CommitKind, delta: seq<Segment>, view: View)
    | Aborted(userText: string, reason: string)
    | Closed

  datatype Body = Body(sequence: int, previous: Bytes, timestamp: int, payload: Payload)

  /** One log line: the body fields plus the hash over them. */
  datatype Record = Record(body: Body, hash: Bytes)

  /** The payload of one transition: the transcript beyond `stored`, and the whole view. */
  function StatePayload(kind: CommitKind, transcript: seq<Segment>, stored: nat, view: View): Payload {
    Committed(kind, Drop(transcript, stored), view)
  }
}
