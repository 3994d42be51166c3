/** The records the approval service reads and writes: flows and their
    steps, requests, audit-log entries and dispatched events. Persistence is
    left out, so each table row is a plain immutable value. */
module Workflow {
  import opened Wrappers

  /** A user or team id. Ids are positive, so an id is "set" in PHP's
      truthiness sense exactly when it is present, and `null` never equals
      an id in a list. */
  type Id = i: nat | 0 < i witness 1

  /** The value of `now()` at the moment of a transition. */
  type Timestamp = int

  /** The five request statuses and the strings stored for them. */
  datatype Status = Pending | Approved | Rejected | Skipped | Returned {
    function Value(): string {
      match this
      case Pending => "pending"
      case Approved => "approved"
      case Rejected => "rejected"
      case Skipped => "skipped"
      case Returned => "returned"
    }
  }

  /** The record a request is about (the morph pair `model_type`, `model_id`). */
  datatype Subject = Subject(modelType: string, modelId: int)

  /** One level of a flow: the level number and its single optional approver. */
  datatype Step = Step(level: int, approverId: Option<Id>)

  /** A flow row together with its steps, in the order the steps are read. */
  datatype Flow = Flow(
    id: nat,
    actionType: string,
    teamId: Option<Id>,
    isActive: bool,
    conditionClass: Option<string>,
    steps: seq<Step>)

  type Metadata = map<string, string>

  /** A request row. `pendingApprovers` is a column the service never writes
      but the notification listener reads. A `null` `removed_approvers`
      column reads as the empty list. */
  datatype Request = Request(
    flowId: nat,
    subject: Subject,
    currentLevel: int,
    status: Status,
    creatorId: Option<Id>,
    currentApproverId: Option<Id>,
    pendingApprovers: seq<Id>,
    removedApprovers: seq<Id>,
    requestedChanges: Option<seq<string>>,
    metadata: Option<Metadata>,
    approvedAt: Option<Timestamp>,
    rejectedAt: Option<Timestamp>)

  /** The `action` column of an audit-log row. */
  datatype Action =
    | LogSubmitted | LogSkipped | LogApproved | LogRejected
    | LogReturned | LogRerouted | LogApproverRemoved
  {
    function Tag(): string {
      match this
      case LogSubmitted => "submitted"
      case LogSkipped => "skipped"
      case LogApproved => "approved"
      case LogRejected => "rejected"
      case LogReturned => "returned"
      case LogRerouted => "rerouted"
      case LogApproverRemoved => "approver_removed"
    }
  }

  /** An audit-log row: who acted, what they did and the comment. */
  datatype LogEntry = LogEntry(userId: Option<Id>, action: Action, comment: Option<string>)

  /** A dispatched event with the request as it stood when it was dispatched. */
  datatype Event =
    | ApprovalRequested(request: Request)
    | ApprovalSkipped(request: Request)
    | RequestApproved(request: Request)
    | RequestRejected(request: Request)
    | ChangesRequested(request: Request)
    | ApproverRemoved(request: Request, removedApproverId: Id)

  /** What one service call produces: the request afterwards, the log rows it
      appended and the events it dispatched, each in order. */
  datatype Transition = Transition(request: Request, logs: seq<LogEntry>, events: seq<Event>)

  /** PHP truthiness of a nullable string: `null`, "" and "0" are false. */
  predicate Truthy(s: Option<string>) {
    s.Some? && s.value != "" && s.value != "0"
  }

  /** The number of levels of a flow is the number of its steps, whatever
      level numbers those steps carry. */
  function TotalLevels(flow: Flow): nat {
    |flow.steps|
  }

  /** The database keeps at most one step per (flow, level). */
  predicate UniqueLevels(flow: Flow) {
    forall i, j :: 0 <= i < j < |flow.steps| ==> flow.steps[i].level != flow.steps[j].level
  }

  /** The first of `steps` with the given level, if any. */
  function FindStep(steps: seq<Step>, level: int): (r: Option<Step>)
    ensures r.Some? ==> r.value.level == level
    ensures r.Some? ==>
              exists i :: 0 <= i < |steps| && steps[i] == r.value && forall k :: 0 <= k < i ==> steps[k].level != level
    ensures r.None? <==> forall i :: 0 <= i < |steps| ==> steps[i].level != level
    decreases |steps|
  {
    if |steps| == 0 then None
    else if steps[0].level == level then Some(steps[0])
    else
      FindStep(steps[1..], level)
  }

  /** The step of `flow` at `level`, looked up by level value. */
  function StepAt(flow: Flow, level: int): Option<Step> {
    FindStep(flow.steps, level)
  }

  /** The approver of the step at `level`; a missing step reads as no approver. */
  function ApproverAt(flow: Flow, level: int): (r: Option<Id>)
    ensures r.Some? ==> exists i :: 0 <= i < |flow.steps| && flow.steps[i].level == level && flow.steps[i].approverId == r
    ensures (forall i :: 0 <= i < |flow.steps| ==> flow.steps[i].level != level) ==> r.None?
    ensures UniqueLevels(flow) ==>
              forall i :: 0 <= i < |flow.steps| && flow.steps[i].level == level ==> r == flow.steps[i].approverId
  {
    match StepAt(flow, level)
    case Some(step) => step.approverId
    case None => None
  }

  /** With unique levels, looking a step up by its own level finds that step. */
  lemma StepAtFindsStep(flow: Flow, i: int)
    requires UniqueLevels(flow)
    requires 0 <= i < |flow.steps|
    ensures StepAt(flow, flow.steps[i].level) == Some(flow.steps[i])
    ensures ApproverAt(flow, flow.steps[i].level) == flow.steps[i].approverId
  {
  }

  /** PHP's `in_array($id, $list)` for a nullable id and a list of ids. */
  predicate InList(id: Option<Id>, list: seq<Id>) {
    id.Some? && id.value in list
  }

  /** The list holds each id at most once. */
  predicate NoDuplicates(list: seq<Id>) {
    forall i, j :: 0 <= i < j < |list| ==> list[i] != list[j]
  }
}
