/** Sequences of service calls on one request, and the properties that hold
    along every such sequence whatever the calls are: the level never goes
    down, the removed list only grows, the audit log is append-only, and
    every log row is matched by one dispatched event. */
module Lifecycle {
  import opened Wrappers
  import opened Workflow
  import ApprovalService

  /** One call on an existing request, with its non-request arguments. */
  datatype Call =
    | Approving(actor: Id, comment: Option<string>, now: Timestamp)
    | Rejecting(actor: Id, comment: Option<string>, now: Timestamp)
    | Rerouting(newApproverId: Option<Id>, admin: Id)
    | RequestingChanges(actor: Id, comment: Option<string>, fields: seq<string>)
    | RemovingApprover(id: Id, admin: Id, now: Timestamp)

  function Apply(request: Request, flow: Flow, call: Call): Transition {
    match call
    case Approving(actor, comment, now) => ApprovalService.Approve(request, flow, actor, comment, now)
    case Rejecting(actor, comment, now) => ApprovalService.Reject(request, actor, comment, now)
    case Rerouting(newApproverId, admin) => ApprovalService.Reroute(request, newApproverId, admin)
    case RequestingChanges(actor, comment, fields) => ApprovalService.RequestChanges(request, actor, comment, fields)
    case RemovingApprover(id, admin, now) => ApprovalService.RemoveApprover(request, flow, id, admin, now)
  }

  /** The calls applied in order by `step`; logs and events accumulate in
      order. Kept apart from the service so that its shape can be reasoned
      about without unfolding the transitions. */
  function Fold(step: (Request, Call) -> Transition, request: Request, calls: seq<Call>): Transition
    decreases |calls|
  {
    if |calls| == 0 then Transition(request, [], [])
    else
      var first := step(request, calls[0]);
      var rest := Fold(step, first.request, calls[1..]);
      Transition(rest.request, first.logs + rest.logs, first.events + rest.events)
  }

  /** The calls applied in order to one request of `flow`. */
  function Run(request: Request, flow: Flow, calls: seq<Call>): Transition {
    Fold((r, c) => Apply(r, flow, c), request, calls)
  }

  /** `later` is a possible future of `earlier`: same request identity, no
      lower level, the removed list extended (never shortened or
      reordered), and the pending list the service never writes unchanged. */
  predicate Progress(earlier: Request, later: Request) {
    && earlier.flowId == later.flowId && earlier.subject == later.subject
    && earlier.creatorId == later.creatorId
    && earlier.currentLevel <= later.currentLevel
    && earlier.removedApprovers <= later.removedApprovers
    && earlier.pendingApprovers == later.pendingApprovers
  }

  /** What every request the service has created satisfies: a level of at
      least 1, a removed list without duplicates, and no pending list. */
  predicate Invariant(request: Request) {
    && 1 <= request.currentLevel
    && NoDuplicates(request.removedApprovers)
    && request.pendingApprovers == []
  }

  /** One call makes progress, keeps the invariant, and appends as many
      events as log rows (one each, or two each when a removal approves). */
  lemma ApplyProgress(request: Request, flow: Flow, call: Call)
    ensures var t := Apply(request, flow, call);
            && Progress(request, t.request)
            && (Invariant(request) ==> Invariant(t.request))
            && 1 <= |t.logs| == |t.events| <= 2
  {
  }

  /** Along any sequence of calls: progress, the invariant, and at least one
      log row and exactly one event per log row. */
  lemma {:induction false} RunProgress(request: Request, flow: Flow, calls: seq<Call>)
    ensures var t := Run(request, flow, calls);
            && Progress(request, t.request)
            && (Invariant(request) ==> Invariant(t.request))
            && |calls| <= |t.logs| == |t.events|
    decreases |calls|
  {
    if |calls| > 0 {
      var head := Apply(request, flow, calls[0]);
      ApplyProgress(request, flow, calls[0]);
      RunProgress(head.request, flow, calls[1..]);
      var tail := Run(head.request, flow, calls[1..]);
      assert Run(request, flow, calls) == Transition(tail.request, head.logs + tail.logs, head.events + tail.events);
    }
  }

  /** Folding two sequences one after the other is folding their
      concatenation. */
  lemma {:induction false} FoldAppend(step: (Request, Call) -> Transition, request: Request, first: seq<Call>, second: seq<Call>)
    ensures var a := Fold(step, request, first);
            var b := Fold(step, a.request, second);
            Fold(step, request, first + second) == Transition(b.request, a.logs + b.logs, a.events + b.events)
    decreases |first|
  {
    if |first| == 0 {
      assert first + second == second;
    } else {
      var calls := first + second;
      assert calls[0] == first[0];
      assert calls[1..] == first[1..] + second;
      var head := step(request, first[0]);
      var tail := Fold(step, head.request, first[1..]);
      var b := Fold(step, tail.request, second);
      FoldAppend(step, head.request, first[1..], second);
      assert head.logs + (tail.logs + b.logs) == (head.logs + tail.logs) + b.logs;
      assert head.events + (tail.events + b.events) == (head.events + tail.events) + b.events;
    }
  }

  /** The audit log and the event stream are append-only: running two
      sequences one after the other is running their concatenation. */
  lemma RunAppend(request: Request, flow: Flow, first: seq<Call>, second: seq<Call>)
    ensures var a := Run(request, flow, first);
            var b := Run(a.request, flow, second);
            Run(request, flow, first + second) == Transition(b.request, a.logs + b.logs, a.events + b.events)
  {
    FoldAppend((r, c) => Apply(r, flow, c), request, first, second);
  }

  /** Submission establishes the invariant, so it holds for every request
      the service ever produces. */
  lemma SubmitEstablishesInvariant(
    flows: seq<Flow>, subject: Subject, attrs: ApprovalService.SubmitAttributes,
    modelTeamId: Option<Id>, oracle: ApprovalService.ConditionOracle)
    requires ApprovalService.Submit(flows, subject, attrs, modelTeamId, oracle).Success?
    ensures Invariant(ApprovalService.Submit(flows, subject, attrs, modelTeamId, oracle).value.request)
  {
  }
}
