/** The values the runtime passes around: task records, their audit trail, the
    events announced on the bus, and failure contexts.  Free-form metadata
    dictionaries are not part of the model; what the supervisor itself stores in
    them (attempt numbers, failure contexts) is carried by `Action`. */
module Tasks {

  datatype Option<+T> = None | Some(value: T)

  predicate Distinct<T(==)>(s: seq<T>) {
    forall i, j :: 0 <= i < j < |s| ==> s[i] != s[j]
  }

  /** Python's `a or b` on an optional string: an absent or empty `a` yields `b`. */
  function OrElse(a: Option<string>, b: string): string {
    if a.Some? && a.value != "" then a.value else b
  }

  /** White space as `strip` and `split` see it in ASCII text. */
  predicate Space(c: char) {
    c == ' ' || '\t' <= c <= '\r' || '\U{1c}' <= c <= '\U{1f}'
  }

  datatype Status =
    | Pending | Running | Completed | Failed | AwaitingApproval
    | Approved | PolicyDenied | Cancelled | Escalated

  predicate Terminal(s: Status) {
    s in {Completed, Failed, PolicyDenied, Cancelled, Escalated}
  }

  predicate Executable(s: Status) {
    s == Pending || s == Approved
  }

  /** A capability input; JSON values are represented by their text. */
  type Payload = map<string, string>

  datatype FailureContext = FailureContext(
    taskId: string,
    capability: string,
    attempt: nat,
    maxRetries: int,
    errorType: string,
    errorMessage: string,
    inputFingerprint: Option<string>)

  /** The action of an audit entry, with the part of its metadata that records
      attempts and failures. */
  datatype Action =
    | Submit
    | Allow
    | Deny
    | AwaitApproval
    | Approve
    | Cancel
    | ApplySuggestion
    | Start(attempt: nat)
    | RecordFailure(failure: FailureContext)
    | Retry(attempt: nat)
    | Complete(attempt: nat)
    | Escalate(attempt: nat, totalFailures: nat)
    | Fail(attempt: nat)

  datatype AuditEntry = AuditEntry(
    timestamp: int,
    actor: string,
    action: Action,
    from: Option<Status>,
    to: Option<Status>)

  datatype TaskResult = TaskResult(
    success: bool,
    output: Option<string>,
    error: Option<string>,
    startedAt: Option<int>,
    completedAt: int)

  datatype TaskSubmission = TaskSubmission(
    name: string,
    capability: string,
    input: Payload,
    maxRetries: int,
    workflowId: Option<string>)

  datatype TaskRecord = TaskRecord(
    id: string,
    name: string,
    capability: string,
    input: Payload,
    status: Status,
    result: Option<TaskResult>,
    attempt: nat,
    maxRetries: int,
    workflowId: Option<string>,
    trail: seq<AuditEntry>,
    createdAt: int,
    updatedAt: int)

  datatype EventKind =
    | TaskStarted | TaskCompleted | TaskFailed | TaskRetry | TaskPolicyDenied
    | TaskAwaitingApproval | TaskApproved | TaskCancelled | TaskEscalated

  datatype TaskEvent = TaskEvent(kind: EventKind, taskId: string, status: Status, attempt: nat)

  /** Which event, if any, announces an audit entry with this action. */
  function KindOf(a: Action): Option<EventKind> {
    match a
    case Submit => None
    case Allow => None
    case ApplySuggestion => None
    case RecordFailure(_) => None
    case Deny => Some(TaskPolicyDenied)
    case AwaitApproval => Some(TaskAwaitingApproval)
    case Approve => Some(TaskApproved)
    case Cancel => Some(TaskCancelled)
    case Start(_) => Some(TaskStarted)
    case Retry(_) => Some(TaskRetry)
    case Complete(_) => Some(TaskCompleted)
    case Escalate(_, _) => Some(TaskEscalated)
    case Fail(_) => Some(TaskFailed)
  }

  function LastAction(r: TaskRecord): Action
    requires r.trail != []
  {
    r.trail[|r.trail| - 1].action
  }
}
