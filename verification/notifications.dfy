/** The notification listener: which user ids an event is sent to. User
    lookup and delivery (queue or immediate, mail channel) are left out, so
    the result is the set of ids notified. */
module Notifications {
  import opened Wrappers
  import opened Workflow
  import ApprovalService

  /** The ids the approval-requested notification goes to: the request's
      pending approvers; failing those, its current approver; failing that,
      the approver of the flow's step at the request's current level. */
  function ApprovalRequestedRecipients(request: Request, flow: Flow): (r: set<Id>)
    ensures |request.pendingApprovers| > 0 ==> r == set id | id in request.pendingApprovers
    ensures request.pendingApprovers == [] && request.currentApproverId.Some? ==>
              r == {request.currentApproverId.value}
    ensures request.pendingApprovers == [] && request.currentApproverId.None? ==>
              r == (if ApproverAt(flow, request.currentLevel).Some? then {ApproverAt(flow, request.currentLevel).value} else {})
    ensures request.pendingApprovers == [] ==> |r| <= 1
  {
    var pending := request.pendingApprovers;
    var legacy := if |pending| == 0 && request.currentApproverId.Some? then [request.currentApproverId.value] else pending;
    var ids :=
      if |legacy| == 0 then
        match ApproverAt(flow, request.currentLevel)
        case Some(approver) => [approver]
        case None => []
      else legacy;
    set id | id in ids
  }

  /** The creator, when the request has one. */
  function CreatorRecipients(request: Request): (r: set<Id>)
    ensures r == {} <==> request.creatorId.None?
    ensures forall id :: id in r <==> request.creatorId == Some(id)
  {
    match request.creatorId
    case Some(creator) => {creator}
    case None => {}
  }

  /** `handle`: nothing when notifications are disabled; approval requests
      go to the approvers; approvals, rejections and change requests go to
      the creator; every other event goes to nobody. `flow` is the flow of
      the event's request. */
  function Recipients(event: Event, flow: Flow, enabled: bool): (r: set<Id>)
    ensures !enabled ==> r == {}
    ensures enabled && event.ApprovalRequested? ==> r == ApprovalRequestedRecipients(event.request, flow)
    ensures enabled && (event.RequestApproved? || event.RequestRejected? || event.ChangesRequested?) ==>
              forall id :: id in r <==> event.request.creatorId == Some(id)
    ensures event.ApprovalSkipped? || event.ApproverRemoved? ==> r == {}
  {
    if !enabled then {}
    else match event
      case ApprovalRequested(request) => ApprovalRequestedRecipients(request, flow)
      case RequestApproved(request) => CreatorRecipients(request)
      case RequestRejected(request) => CreatorRecipients(request)
      case ChangesRequested(request) => CreatorRecipients(request)
      case ApprovalSkipped(_) => {}
      case ApproverRemoved(_, _) => {}
  }

  /** A pending submission notifies exactly the approver of the level-1
      step, and nobody when that step has none or is missing. */
  lemma SubmitNotifiesFirstApprover(
    flows: seq<Flow>, subject: Subject, attrs: ApprovalService.SubmitAttributes,
    modelTeamId: Option<Id>, oracle: ApprovalService.ConditionOracle)
    requires ApprovalService.Submit(flows, subject, attrs, modelTeamId, oracle).Success?
    ensures var t := ApprovalService.Submit(flows, subject, attrs, modelTeamId, oracle).value;
            var flow := ApprovalService.SelectedFlow(flows, attrs, modelTeamId).value;
            forall id :: id in Recipients(t.events[0], flow, true) <==>
              t.request.status == Pending && ApproverAt(flow, 1) == Some(id)
  {
  }

  /** When `approve` advances a request the service created, the
      notification goes to the new level's approver only, and never to a
      removed approver. */
  lemma AdvanceNotifiesNextApprover(request: Request, flow: Flow, actor: Id, comment: Option<string>, now: Timestamp)
    requires request.pendingApprovers == []
    requires !ApprovalService.Finishes(request, flow)
    ensures var t := ApprovalService.Approve(request, flow, actor, comment, now);
            var notified := Recipients(t.events[0], flow, true);
            && (forall id :: id in notified <==> ApproverAt(flow, t.request.currentLevel) == Some(id))
            && (forall id :: id in notified ==> id !in request.removedApprovers)
  {
  }

  /** When `approve` finishes a request, the notification goes to its
      creator and to nobody else. */
  lemma FinishNotifiesCreator(request: Request, flow: Flow, actor: Id, comment: Option<string>, now: Timestamp)
    requires ApprovalService.Finishes(request, flow)
    ensures var t := ApprovalService.Approve(request, flow, actor, comment, now);
            forall id :: id in Recipients(t.events[0], flow, true) <==> request.creatorId == Some(id)
  {
  }

  /** A reroute notifies the new approver when the request has no pending
      list, even an approver who has been removed from the request. */
  lemma RerouteNotifiesNewApprover(request: Request, flow: Flow, newApproverId: Id, admin: Id)
    requires request.pendingApprovers == []
    ensures Recipients(ApprovalService.Reroute(request, Some(newApproverId), admin).events[0], flow, true) == {newApproverId}
  {
  }
}
