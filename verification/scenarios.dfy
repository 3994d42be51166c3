/** The feature tests of the service and the listener, replayed on the
    model with concrete flows, plus consequences of `approve` and `reroute`
    never reading a request's status and of `reroute` never reading the
    removed list. */
module Scenarios {
  import opened Wrappers
  import opened Workflow
  import opened ApprovalService
  import Notifications

  const Expense: Subject := Subject("TestModel", 1)

  /** Two levels, neither with a named approver. */
  const OpenTwoLevelFlow: Flow := Flow(1, "expense", None, true, None, [Step(1, None), Step(2, None)])

  function ExpenseAttributes(creator: Option<Id>): SubmitAttributes {
    SubmitAttributes(Some("expense"), None, creator, None)
  }

  const AnyOracle: ConditionOracle := ConditionOracle(true, true)

  /** Submitting creates a PENDING request at level 1; the first approval
      moves it to level 2 still PENDING; the second approves it and leaves
      it at level 2. */
  lemma AdvancesLevelOnApproval(creator: Id, approver: Id, now: Timestamp)
    ensures var s := Submit([OpenTwoLevelFlow], Expense, ExpenseAttributes(Some(creator)), None, AnyOracle);
            && s.Success?
            && s.value.request.status.Value() == "pending" && s.value.request.currentLevel == 1
            && var first := Approve(s.value.request, OpenTwoLevelFlow, approver, None, now).request;
               && first.currentLevel == 2 && first.status.Value() == "pending"
               && var second := Approve(first, OpenTwoLevelFlow, approver, None, now).request;
                  second.currentLevel == 2 && second.status.Value() == "approved"
  {
  }

  /** The namespace of the test's condition classes. */
  const TestNamespace: string := "Azeem\\ApprovalWorkflow\\Tests\\Feature\\"

  /** A flow with the given condition class and approver 99 at level 1. */
  function ConditionalFlow(actionType: string, conditionClass: string): Flow {
    Flow(2, actionType, None, true, Some(TestNamespace + conditionClass), [Step(1, Some(99))])
  }

  /** A condition that requires approval gives a PENDING request for 99. */
  lemma PendingWhenConditionHolds()
    ensures var flow := ConditionalFlow("conditional_true", "TrueCondition");
            var s := Submit([flow], Expense, SubmitAttributes(Some("conditional_true"), None, Some(1), None), None, ConditionOracle(true, true));
            && s.Success? && s.value.request.status.Value() == "pending" && s.value.request.currentApproverId == Some(99)
  {
  }

  /** A condition that does not require approval gives a SKIPPED request
      with no approver, a 'skipped' log row and an ApprovalSkipped event. */
  lemma SkippedWhenConditionFails()
    ensures var flow := ConditionalFlow("conditional_false", "FalseCondition");
            var s := Submit([flow], Expense, SubmitAttributes(Some("conditional_false"), None, Some(1), None), None, ConditionOracle(true, false));
            && s.Success? && s.value.request.status.Value() == "skipped" && s.value.request.currentApproverId.None?
            && s.value.logs[0].action.Tag() == "skipped"
            && s.value.logs[0].comment == Some("Approval skipped by condition: FalseCondition")
            && s.value.events[0].ApprovalSkipped?
  {
    var flow := ConditionalFlow("conditional_false", "FalseCondition");
    var attrs := SubmitAttributes(Some("conditional_false"), None, Some(1), None);
    assert FirstMatch([flow], "conditional_false", None, 0) == Some(0);
    assert SelectedFlow([flow], attrs, None) == Some(flow);
    assert |TestNamespace| == 37 && TestNamespace[36] == '\\';
    assert |flow.conditionClass.value| == 51;
    assert SkipsApproval(flow, ConditionOracle(true, false));
    Text.ClassBasenameOf(TestNamespace, "FalseCondition");
    assert Text.ClassBasename(flow.conditionClass.value) == "FalseCondition";
    assert SkippedCommentPrefix + "FalseCondition" == "Approval skipped by condition: FalseCondition";
  }

  /** Submitting notifies the level-1 approver; approving the one-level
      request, or rejecting it, notifies the creator. */
  lemma NotificationsOfOneLevelFlow(creator: Id, approver: Id, now: Timestamp)
    ensures var flow := Flow(3, "test_action", None, true, None, [Step(1, Some(approver))]);
            var s := Submit([flow], Expense, SubmitAttributes(Some("test_action"), None, Some(creator), None), None, AnyOracle);
            && s.Success?
            && Notifications.Recipients(s.value.events[0], flow, true) == {approver}
            && Notifications.Recipients(Approve(s.value.request, flow, approver, None, now).events[0], flow, true) == {creator}
            && Notifications.Recipients(Reject(s.value.request, approver, None, now).events[0], flow, true) == {creator}
  {
  }

  /** `approve` and `reroute` never read the status: approving a REJECTED
      request at its last level turns it APPROVED, and a reroute on it names
      a current approver again. */
  lemma RejectedRequestCanBeApproved(request: Request, flow: Flow, actor: Id, newApprover: Id, now: Timestamp)
    requires request.status == Rejected
    requires request.currentLevel >= TotalLevels(flow)
    ensures Approve(request, flow, actor, None, now).request.status == Approved
    ensures Reroute(request, Some(newApprover), actor).request.currentApproverId == Some(newApprover)
    ensures Reroute(request, Some(newApprover), actor).request.status == Rejected
  {
  }

  /** A reroute may name a removed approver, who then is the current one. */
  lemma RerouteMayNameRemovedApprover(request: Request, removed: Id, admin: Id)
    requires removed in request.removedApprovers
    ensures var t := Reroute(request, Some(removed), admin).request;
            t.currentApproverId == Some(removed) && removed in t.removedApprovers
  {
  }

  /** Approving a RETURNED request does not put it back to PENDING: an
      advance keeps it RETURNED at the next level, and only finishing
      changes the status. The requested fields stay recorded either way. */
  lemma ApprovingReturnedRequest(request: Request, flow: Flow, actor: Id, comment: Option<string>, now: Timestamp)
    requires request.status == Returned
    ensures var t := Approve(request, flow, actor, comment, now).request;
            && (Finishes(request, flow) ==> t.status == Approved)
            && (!Finishes(request, flow) ==> t.status == Returned && t.currentLevel > request.currentLevel)
            && t.requestedChanges == request.requestedChanges
  {
  }

  /** Level numbers need not be contiguous, but the search counts levels by
      the number of steps and looks steps up by level value. With steps at
      levels 1 and 3 the request moves to the missing level 2, with no
      approver, and the next approval finishes it: the level-3 approver is
      never asked. */
  lemma GapInLevelsSkipsLastStep(request: Request, actor: Id, now: Timestamp)
    requires request.currentLevel == 1 && request.removedApprovers == []
    ensures var flow := Flow(4, "leave", None, true, None, [Step(1, Some(5)), Step(3, Some(7))]);
            var first := Approve(request, flow, actor, None, now).request;
            var second := Approve(first, flow, actor, None, now).request;
            && first.currentLevel == 2 && first.currentApproverId.None?
            && second.status == Approved && second.currentLevel == 2
  {
    var flow := Flow(4, "leave", None, true, None, [Step(1, Some(5)), Step(3, Some(7))]);
    assert StepAt(flow, 2) == None;
    assert Acceptable(flow, [], 2);
  }
}
