/** The approval state machine of `ApprovalService`: each operation takes a
    request (or, for `Submit`, the flows table) and returns the request
    afterwards, the audit-log rows it appends and the events it dispatches.
    A request has a single current approver; `approve`, `reject`,
    `reroute`, `requestChanges` and `removeApprover` never read its status;
    `submit` throws when no active flow matches. */
module ApprovalService {
  import opened Wrappers
  import opened Text
  import opened Workflow

  /** The fixed log comments of the service. */
  const SubmittedComment: string := "Submitted for approval"
  const SkippedCommentPrefix: string := "Approval skipped by condition: "
  const AutoAdvanceComment: string := "System Auto-Advance: Current Approver Removed"

  /** The comment of a reroute: both ids interpolated, `null` as "". */
  function RerouteComment(oldApprover: Option<Id>, newApprover: Option<Id>): (r: string)
    ensures var a := IdText(oldApprover);
            var b := IdText(newApprover);
            && |r| == 23 + |a| + |b|
            && r[..19] == "Rerouted from user " && r[19 + |a|..23 + |a|] == " to "
            && r[19..19 + |a|] == a && r[23 + |a|..] == b
    ensures oldApprover.None? <==> r[19] == ' '
    ensures oldApprover.Some? ==> var a := |IdText(oldApprover)|;
              AllDigits(r[19..19 + a]) && ParseDecimal(r[19..19 + a]) == oldApprover.value
    ensures newApprover.Some? ==> var a := |IdText(oldApprover)|;
              AllDigits(r[23 + a..]) && ParseDecimal(r[23 + a..]) == newApprover.value
  {
    "Rerouted from user " + IdText(oldApprover) + " to " + IdText(newApprover)
  }

  /** The comment of an approver removal. */
  function RemovedComment(removed: Id): (r: string)
    ensures 34 < |r| && r[..17] == "Removed approver " && r[|r| - 17..] == " from the request"
    ensures AllDigits(r[17..|r| - 17]) && ParseDecimal(r[17..|r| - 17]) == removed
  {
    "Removed approver " + IdText(Some(removed)) + " from the request"
  }

  // ---------------------------------------------------------------------
  // Submission
  // ---------------------------------------------------------------------

  /** The `$attributes` array a caller passes to `submit`. */
  datatype SubmitAttributes = SubmitAttributes(
    actionType: Option<string>,
    teamId: Option<Id>,
    creatorId: Option<Id>,
    metadata: Option<Metadata>)

  /** What resolving the flow's condition class from the container yields:
      whether the object implements the condition contract, and what its
      `requiresApproval` answers for this submission. */
  datatype ConditionOracle = ConditionOracle(implementsContract: bool, requiresApproval: bool)

  /** The exceptions `submit` throws. */
  datatype SubmitError =
    | MissingActionType
    | NoActiveFlow(actionType: string)
    | ConditionNotImplemented(conditionClass: string)

  /** The flow query's filter: action type, active, and the team only when a
      team id is given. */
  predicate FlowMatches(flow: Flow, actionType: string, team: Option<Id>) {
    flow.actionType == actionType && flow.isActive && (team.Some? ==> flow.teamId == team)
  }

  /** The index of the first row of `flows` at or after `from` that the
      query selects (`->first()`), if any. */
  function FirstMatch(flows: seq<Flow>, actionType: string, team: Option<Id>, from: nat): (r: Option<nat>)
    requires from <= |flows|
    ensures r.Some? ==> from <= r.value < |flows| && FlowMatches(flows[r.value], actionType, team)
    ensures r.Some? ==> forall k :: from <= k < r.value ==> !FlowMatches(flows[k], actionType, team)
    ensures r.None? <==> forall k :: from <= k < |flows| ==> !FlowMatches(flows[k], actionType, team)
    decreases |flows| - from
  {
    if from == |flows| then None
    else if FlowMatches(flows[from], actionType, team) then Some(from)
    else FirstMatch(flows, actionType, team, from + 1)
  }

  /** The team filter: the attribute's team, else the model's team. */
  function SubmitTeam(attrs: SubmitAttributes, modelTeamId: Option<Id>): Option<Id> {
    attrs.teamId.OrElse(modelTeamId)
  }

  /** The flow `submit` selects for these attributes, if any. */
  function SelectedFlow(flows: seq<Flow>, attrs: SubmitAttributes, modelTeamId: Option<Id>): Option<Flow>
    requires attrs.actionType.Some?
  {
    match FirstMatch(flows, attrs.actionType.value, SubmitTeam(attrs, modelTeamId), 0)
    case Some(i) => Some(flows[i])
    case None => None
  }

  /** The flow declares a condition class that answered "not required". */
  predicate SkipsApproval(flow: Flow, oracle: ConditionOracle) {
    Truthy(flow.conditionClass) && !oracle.requiresApproval
  }

  /** The row `ApprovalRequest::create` inserts at level 1. */
  function NewRequest(flow: Flow, subject: Subject, attrs: SubmitAttributes, status: Status, approver: Option<Id>): Request {
    Request(flow.id, subject, 1, status, attrs.creatorId, approver, [], [], None, attrs.metadata, None, None)
  }

  /** A request `submit` has just created for `flow`: level 1, nothing
      removed, no changes requested, no timestamps. */
  predicate FreshRequest(r: Request, flow: Flow, subject: Subject, attrs: SubmitAttributes) {
    && r.flowId == flow.id && r.subject == subject && r.currentLevel == 1
    && r.creatorId == attrs.creatorId && r.metadata == attrs.metadata
    && r.pendingApprovers == [] && r.removedApprovers == [] && r.requestedChanges.None?
    && r.approvedAt.None? && r.rejectedAt.None?
  }

  /** `submit`: select the flow, consult its condition, and create the
      request either SKIPPED or PENDING at level 1. */
  function Submit(
    flows: seq<Flow>, subject: Subject, attrs: SubmitAttributes,
    modelTeamId: Option<Id>, oracle: ConditionOracle): (r: Result<Transition, SubmitError>)
    ensures !Truthy(attrs.actionType) ==> r == Failure(MissingActionType)
    ensures Truthy(attrs.actionType) && SelectedFlow(flows, attrs, modelTeamId).None? ==>
              r == Failure(NoActiveFlow(attrs.actionType.value))
    ensures Truthy(attrs.actionType) && SelectedFlow(flows, attrs, modelTeamId).Some? ==>
              var flow := SelectedFlow(flows, attrs, modelTeamId).value;
              Truthy(flow.conditionClass) && !oracle.implementsContract ==>
                r == Failure(ConditionNotImplemented(flow.conditionClass.value))
    ensures r.Success? <==>
              && Truthy(attrs.actionType)
              && SelectedFlow(flows, attrs, modelTeamId).Some?
              && (Truthy(SelectedFlow(flows, attrs, modelTeamId).value.conditionClass) ==> oracle.implementsContract)
    ensures r.Success? ==>
              var flow := SelectedFlow(flows, attrs, modelTeamId).value;
              var t := r.value;
              && FreshRequest(t.request, flow, subject, attrs)
              && |t.logs| == 1 && t.logs[0].userId == attrs.creatorId
              && |t.events| == 1
              && (t.request.status == Status.Skipped <==> SkipsApproval(flow, oracle))
    ensures r.Success? && SkipsApproval(SelectedFlow(flows, attrs, modelTeamId).value, oracle) ==>
              var flow := SelectedFlow(flows, attrs, modelTeamId).value;
              var t := r.value;
              && t.request.currentApproverId.None?
              && t.logs[0].action == LogSkipped
              && t.logs[0].comment == Some(SkippedCommentPrefix + ClassBasename(flow.conditionClass.value))
              && t.events == [ApprovalSkipped(t.request)]
    ensures r.Success? && !SkipsApproval(SelectedFlow(flows, attrs, modelTeamId).value, oracle) ==>
              var flow := SelectedFlow(flows, attrs, modelTeamId).value;
              var t := r.value;
              && t.request.status == Pending
              && t.request.currentApproverId == ApproverAt(flow, 1)
              && t.logs[0] == LogEntry(attrs.creatorId, LogSubmitted, Some(SubmittedComment))
              && t.events == [ApprovalRequested(t.request)]
  {
    if !Truthy(attrs.actionType) then Failure(MissingActionType)
    else match SelectedFlow(flows, attrs, modelTeamId)
      case None => Failure(NoActiveFlow(attrs.actionType.value))
      case Some(flow) =>
        if Truthy(flow.conditionClass) && !oracle.implementsContract then
          Failure(ConditionNotImplemented(flow.conditionClass.value))
        else if SkipsApproval(flow, oracle) then
          var request := NewRequest(flow, subject, attrs, Status.Skipped, None);
          var comment := SkippedCommentPrefix + ClassBasename(flow.conditionClass.value);
          Success(Transition(request, [LogEntry(request.creatorId, LogSkipped, Some(comment))], [ApprovalSkipped(request)]))
        else
          var request := NewRequest(flow, subject, attrs, Pending, ApproverAt(flow, 1));
          Success(Transition(request, [LogEntry(request.creatorId, LogSubmitted, Some(SubmittedComment))], [ApprovalRequested(request)]))
  }

  /** `submit` throws for a missing action type exactly when the attribute
      is null, "" or "0", the values PHP's `!` treats as false. */
  lemma SubmitRejectsFalsyActionType(
    flows: seq<Flow>, subject: Subject, attrs: SubmitAttributes,
    modelTeamId: Option<Id>, oracle: ConditionOracle)
    ensures var r := Submit(flows, subject, attrs, modelTeamId, oracle);
            r == Failure(MissingActionType) <==> attrs.actionType in {None, Some(""), Some("0")}
  {
    assert Truthy(attrs.actionType) <==> attrs.actionType !in {None, Some(""), Some("0")};
  }

  /** A condition class that is null, "" or "0" is never resolved: a
      matching flow with such a class is submitted as PENDING. */
  lemma SubmitIgnoresFalsyConditionClass(
    flows: seq<Flow>, subject: Subject, attrs: SubmitAttributes,
    modelTeamId: Option<Id>, oracle: ConditionOracle)
    requires attrs.actionType.Some? && attrs.actionType.value !in {"", "0"}
    requires SelectedFlow(flows, attrs, modelTeamId).Some?
    requires SelectedFlow(flows, attrs, modelTeamId).value.conditionClass in {None, Some(""), Some("0")}
    ensures var r := Submit(flows, subject, attrs, modelTeamId, oracle);
            r.Success? && r.value.request.status == Pending
  {
  }

  /** The flow a successful `submit` uses has the action type and is active;
      it belongs to the attributes' team when one is given, and otherwise to
      the model's team when the model has one. */
  lemma SubmitTeamFilter(
    flows: seq<Flow>, subject: Subject, attrs: SubmitAttributes,
    modelTeamId: Option<Id>, oracle: ConditionOracle)
    ensures Submit(flows, subject, attrs, modelTeamId, oracle).Success? ==>
              var flow := SelectedFlow(flows, attrs, modelTeamId).value;
              && flow in flows && Some(flow.actionType) == attrs.actionType && flow.isActive
              && (attrs.teamId.Some? ==> flow.teamId == attrs.teamId)
              && (attrs.teamId.None? && modelTeamId.Some? ==> flow.teamId == modelTeamId)
  {
  }

  // ---------------------------------------------------------------------
  // The forward search of `approve`
  // ---------------------------------------------------------------------

  /** A level the search may stop at: its step's approver, if any, has not
      been removed. A missing step or a step without approver is acceptable. */
  predicate Acceptable(flow: Flow, removed: seq<Id>, level: int) {
    !InList(ApproverAt(flow, level), removed)
  }

  /** `level` is the least acceptable level after `current`, within the
      flow's level count. */
  predicate IsNextLevel(flow: Flow, removed: seq<Id>, current: int, level: int) {
    && current < level <= TotalLevels(flow)
    && Acceptable(flow, removed, level)
    && forall k :: current < k < level ==> !Acceptable(flow, removed, k)
  }

  /** Every level after `current`, up to the level count, is unacceptable
      (vacuously so when `current` is already at or past the last level). */
  predicate NoneAcceptableAfter(flow: Flow, removed: seq<Id>, current: int) {
    forall k :: current < k <= TotalLevels(flow) ==> !Acceptable(flow, removed, k)
  }

  /** The next level `approve` moves to, or `None` when it finishes. */
  function FindNextLevel(flow: Flow, removed: seq<Id>, current: int): (r: Option<int>)
    ensures r.Some? ==> IsNextLevel(flow, removed, current, r.value)
    ensures r.None? <==> NoneAcceptableAfter(flow, removed, current)
    decreases TotalLevels(flow) - current
  {
    if current >= TotalLevels(flow) then None
    else if Acceptable(flow, removed, current + 1) then Some(current + 1)
    else FindNextLevel(flow, removed, current + 1)
  }

  /** The least acceptable level is unique. */
  lemma NextLevelUnique(flow: Flow, removed: seq<Id>, current: int, a: int, b: int)
    requires IsNextLevel(flow, removed, current, a)
    requires IsNextLevel(flow, removed, current, b)
    ensures a == b
  {
  }

  /** The `while` loop of `approve` as written: step the level up one at a
      time and stop at the first step whose approver is not in the removed
      list. It finds exactly what `FindNextLevel` specifies. */
  method SearchNextLevel(flow: Flow, removed: seq<Id>, currentLevel: int)
    returns (foundNext: bool, nextLevel: int, nextApproverId: Option<Id>)
    ensures foundNext <==> !NoneAcceptableAfter(flow, removed, currentLevel)
    ensures foundNext ==> IsNextLevel(flow, removed, currentLevel, nextLevel)
    ensures foundNext ==> nextApproverId == ApproverAt(flow, nextLevel)
    ensures foundNext ==> FindNextLevel(flow, removed, currentLevel) == Some(nextLevel)
    ensures nextApproverId.Some? ==> nextApproverId.value !in removed
  {
    var totalLevels := TotalLevels(flow);
    nextLevel := currentLevel;
    nextApproverId := None;
    foundNext := false;
    while nextLevel < totalLevels
      invariant currentLevel <= nextLevel
      invariant currentLevel < totalLevels ==> nextLevel <= totalLevels
      invariant forall k :: currentLevel < k <= nextLevel ==> !Acceptable(flow, removed, k)
      decreases totalLevels - nextLevel
    {
      nextLevel := nextLevel + 1;
      var potentialApproverId := ApproverAt(flow, nextLevel);
      if !InList(potentialApproverId, removed) {
        nextApproverId := potentialApproverId;
        foundNext := true;
        break;
      }
    }
    if foundNext {
      assert Acceptable(flow, removed, nextLevel);
      NextLevelUnique(flow, removed, currentLevel, nextLevel, FindNextLevel(flow, removed, currentLevel).value);
    }
  }

  // ---------------------------------------------------------------------
  // The transitions
  // ---------------------------------------------------------------------

  /** `approve` finishes the request rather than advancing it. */
  predicate Finishes(request: Request, flow: Flow) {
    NoneAcceptableAfter(flow, request.removedApprovers, request.currentLevel)
  }

  /** Two requests agree on everything but status, level, current approver
      and the approval/rejection timestamps. */
  predicate SameRecord(a: Request, b: Request) {
    && a.flowId == b.flowId && a.subject == b.subject && a.creatorId == b.creatorId
    && a.pendingApprovers == b.pendingApprovers && a.removedApprovers == b.removedApprovers
    && a.requestedChanges == b.requestedChanges && a.metadata == b.metadata
  }

  /** `approve`: log the approval, then move to the next acceptable level or
      finish the request as APPROVED. No status is checked. */
  function Approve(request: Request, flow: Flow, actor: Id, comment: Option<string>, now: Timestamp): (t: Transition)
    ensures t.logs == [LogEntry(Some(actor), LogApproved, comment)]
    ensures SameRecord(t.request, request) && t.request.rejectedAt == request.rejectedAt
    ensures !Finishes(request, flow) ==>
              && IsNextLevel(flow, request.removedApprovers, request.currentLevel, t.request.currentLevel)
              && t.request.currentApproverId == ApproverAt(flow, t.request.currentLevel)
              && t.request.status == request.status
              && t.request.approvedAt == request.approvedAt
              && t.events == [ApprovalRequested(t.request)]
    ensures Finishes(request, flow) ==>
              && t.request.status == Approved
              && t.request.approvedAt == Some(now)
              && t.request.currentApproverId.None?
              && t.request.currentLevel == request.currentLevel
              && t.events == [RequestApproved(t.request)]
    ensures t.request.currentApproverId.Some? ==> t.request.currentApproverId.value !in request.removedApprovers
  {
    var log := [LogEntry(Some(actor), LogApproved, comment)];
    var finished := request.(status := Approved, approvedAt := Some(now), currentApproverId := None);
    if request.currentLevel < TotalLevels(flow) then
      match FindNextLevel(flow, request.removedApprovers, request.currentLevel)
      case Some(next) =>
        var advanced := request.(currentLevel := next, currentApproverId := ApproverAt(flow, next));
        Transition(advanced, log, [ApprovalRequested(advanced)])
      case None =>
        // every remaining level's approver has been removed
        Transition(finished, log, [RequestApproved(finished)])
    else
      // approval at (or past) the last level
      Transition(finished, log, [RequestApproved(finished)])
  }

  /** `reject`: REJECTED, stamped, no current approver; nothing else moves. */
  function Reject(request: Request, actor: Id, comment: Option<string>, now: Timestamp): (t: Transition)
    ensures t.request.status == Rejected && t.request.rejectedAt == Some(now) && t.request.currentApproverId.None?
    ensures SameRecord(t.request, request)
    ensures t.request.currentLevel == request.currentLevel && t.request.approvedAt == request.approvedAt
    ensures t.logs == [LogEntry(Some(actor), LogRejected, comment)]
    ensures t.events == [RequestRejected(t.request)]
  {
    var rejected := request.(status := Rejected, rejectedAt := Some(now), currentApproverId := None);
    Transition(rejected, [LogEntry(Some(actor), LogRejected, comment)], [RequestRejected(rejected)])
  }

  /** `reroute`: only the current approver changes — putting the old one
      back restores the request exactly. */
  function Reroute(request: Request, newApproverId: Option<Id>, admin: Id): (t: Transition)
    ensures t.request.currentApproverId == newApproverId
    ensures t.request.(currentApproverId := request.currentApproverId) == request
    ensures t.logs == [LogEntry(Some(admin), LogRerouted, Some(RerouteComment(request.currentApproverId, newApproverId)))]
    ensures t.events == [ApprovalRequested(t.request)]
  {
    var oldApproverId := request.currentApproverId;
    var rerouted := request.(currentApproverId := newApproverId);
    Transition(rerouted, [LogEntry(Some(admin), LogRerouted, Some(RerouteComment(oldApproverId, newApproverId)))], [ApprovalRequested(rerouted)])
  }

  /** `requestChanges`: RETURNED with the given field list replacing any
      earlier one; level and current approver stay. */
  function RequestChanges(request: Request, actor: Id, comment: Option<string>, fields: seq<string>): (t: Transition)
    ensures t.request.status == Returned && t.request.requestedChanges == Some(fields)
    ensures t.request.(status := request.status, requestedChanges := request.requestedChanges) == request
    ensures t.logs == [LogEntry(Some(actor), LogReturned, comment)]
    ensures t.events == [ChangesRequested(t.request)]
  {
    var returned := request.(status := Returned, requestedChanges := Some(fields));
    Transition(returned, [LogEntry(Some(actor), LogReturned, comment)], [ChangesRequested(returned)])
  }

  /** The removed list after appending `id` unless it is already there. */
  function AddRemoved(removed: seq<Id>, id: Id): (r: seq<Id>)
    ensures removed <= r
    ensures forall x :: x in r <==> x in removed || x == id
    ensures NoDuplicates(removed) ==> NoDuplicates(r)
    ensures |r| == |removed| + (if id in removed then 0 else 1)
  {
    if id in removed then removed else removed + [id]
  }

  /** `removeApprover`: record the removal, log it, announce it, and when the
      removed id is the current approver, run `approve` as the admin. */
  function RemoveApprover(request: Request, flow: Flow, id: Id, admin: Id, now: Timestamp): (t: Transition)
    ensures forall x :: x in t.request.removedApprovers <==> x in request.removedApprovers || x == id
    ensures request.removedApprovers <= t.request.removedApprovers
    ensures NoDuplicates(request.removedApprovers) ==> NoDuplicates(t.request.removedApprovers)
    ensures t.request.removedApprovers == AddRemoved(request.removedApprovers, id)
    ensures 1 <= |t.logs| && t.logs[0] == LogEntry(Some(admin), LogApproverRemoved, Some(RemovedComment(id)))
    ensures 1 <= |t.events| && t.events[0].ApproverRemoved? && t.events[0].removedApproverId == id
    ensures |t.logs| == (if request.currentApproverId == Some(id) then 2 else 1)
    ensures request.currentApproverId == Some(id) ==>
              var removed := request.(removedApprovers := t.request.removedApprovers);
              var approval := Approve(removed, flow, admin, Some(AutoAdvanceComment), now);
              && t.request == approval.request
              && t.logs[1] == LogEntry(Some(admin), LogApproved, Some(AutoAdvanceComment))
              && t.events == [ApproverRemoved(removed, id)] + approval.events
    ensures request.currentApproverId != Some(id) ==>
              && t.request == request.(removedApprovers := t.request.removedApprovers)
              && t.events == [ApproverRemoved(t.request, id)]
    ensures t.request.currentApproverId != Some(id)
  {
    var removed := request.(removedApprovers := AddRemoved(request.removedApprovers, id));
    var log := LogEntry(Some(admin), LogApproverRemoved, Some(RemovedComment(id)));
    var event := ApproverRemoved(removed, id);
    if request.currentApproverId == Some(id) then
      var approval := Approve(removed, flow, admin, Some(AutoAdvanceComment), now);
      Transition(approval.request, [log] + approval.logs, [event] + approval.events)
    else
      Transition(removed, [log], [event])
  }

  // ---------------------------------------------------------------------
  // Properties relating several calls
  // ---------------------------------------------------------------------

  /** Removing the same approver twice leaves the request as removing it
      once did: the id is already listed, and it is no longer the current
      approver, so the second call neither grows the list nor approves. */
  lemma RemoveApproverIdempotent(
    request: Request, flow: Flow, id: Id, admin: Id, now: Timestamp, admin': Id, now': Timestamp)
    ensures var once := RemoveApprover(request, flow, id, admin, now).request;
            RemoveApprover(once, flow, id, admin', now').request == once
  {
  }

  /** Removing the current approver when no later level is acceptable (in
      particular at the last level) finishes the request as APPROVED, with
      the admin's approval logged after the removal. */
  lemma RemoveCurrentApproverFinishes(request: Request, flow: Flow, id: Id, admin: Id, now: Timestamp)
    requires request.currentApproverId == Some(id)
    requires forall k :: request.currentLevel < k <= TotalLevels(flow) ==> InList(ApproverAt(flow, k), request.removedApprovers + [id])
    ensures var t := RemoveApprover(request, flow, id, admin, now);
            && t.request.status == Approved
            && t.request.approvedAt == Some(now)
            && t.request.currentApproverId.None?
            && t.request.currentLevel == request.currentLevel
            && [t.logs[0].action, t.logs[1].action] == [LogApproverRemoved, LogApproved]
            && t.events[1] == RequestApproved(t.request)
  {
  }

  /** Removing the current approver at the last level finishes the request. */
  lemma RemoveCurrentAtLastLevelApproves(request: Request, flow: Flow, id: Id, admin: Id, now: Timestamp)
    requires request.currentApproverId == Some(id)
    requires request.currentLevel >= TotalLevels(flow)
    ensures RemoveApprover(request, flow, id, admin, now).request.status == Approved
  {
  }

  /** Removing someone other than the current approver only records the
      removal: status, level and current approver stay. */
  lemma RemoveOtherKeepsPosition(request: Request, flow: Flow, id: Id, admin: Id, now: Timestamp)
    requires request.currentApproverId != Some(id)
    ensures var t := RemoveApprover(request, flow, id, admin, now);
            && t.request.status == request.status
            && t.request.currentLevel == request.currentLevel
            && t.request.currentApproverId == request.currentApproverId
            && |t.logs| == 1
  {
  }

  /** With no steps, one approval finishes the request. */
  lemma ApproveWithoutStepsFinishes(request: Request, flow: Flow, actor: Id, comment: Option<string>, now: Timestamp)
    requires flow.steps == []
    requires request.currentLevel >= 1
    ensures Approve(request, flow, actor, comment, now).request.status == Approved
  {
  }

  /** Rerouting back to the previous approver undoes a reroute. */
  lemma RerouteRoundTrip(request: Request, newApproverId: Option<Id>, admin: Id, admin': Id)
    ensures var there := Reroute(request, newApproverId, admin).request;
            Reroute(there, request.currentApproverId, admin').request == request
  {
  }
}
