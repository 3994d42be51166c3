# Approval workflow: a Dafny model of the approval service

This project models the core of a Laravel approval-workflow package: the
state machine in `ApprovalService` (`submit`, `approve`, `reject`,
`reroute`, `requestChanges`, `removeApprover`) and the recipient resolution
of the `SendApprovalNotifications` listener. Every operation is a pure
function. It takes a request record and its flow, or the flows table for
`submit`. It returns a `Transition`: the request afterwards, the audit-log
rows appended (`logAction`), and the events dispatched, in order.

Modules, one per concern:

- `Wrappers`: `Option` (PHP `null`) and `Result` (return or throw).
- `Text`: PHP interpolation of an integer id into a log comment
  (`IdText`, with `ParseDecimal` as its proved inverse) and Laravel's
  `class_basename`.
- `Workflow`: the records. These are status, step, flow, request, log
  entry, event and transition. It also holds lookup of a step by its level
  value (a missing step reads as "no approver") and PHP truthiness of strings.
- `ApprovalService`: the six operations and the forward search of `approve`.
  `FindNextLevel` is the recursive reference. `SearchNextLevel` is the PHP
  `while` loop, proved to find the same level.
- `Lifecycle`: any sequence of calls on one request. The level never
  decreases. The removed list only grows. The audit log and event stream
  are append-only. Each log row is matched by one event.
- `Notifications`: `handle` and its fallback chain.
- `Scenarios`: the package's feature tests replayed on concrete flows. It
  also shows behaviours the code allows because it checks no status.

Facts about the code that the model keeps:

- of the approver columns, the service reads and writes only `current_approver_id`; the `approvers`,
  `strategy`, `pending_approvers` and `approved_by` columns added by
  `database/migrations/2026_02_28_000007_add_multi_approver_columns_to_workflow_tables.php`
  are never touched by it;
- `submit` throws when no active flow matches, and a flow with no steps
  is submitted as PENDING with no approver;
- no operation checks the request's status, so a REJECTED request can be
  approved or rerouted;
- `reroute` does not check the old approver, and it may name a removed
  approver;
- the number of levels is the number of steps, while steps are looked up
  by level value, so a flow whose level numbers have a gap visits the
  missing level (with no approver) and never reaches its highest steps.

Ids are positive integers. So an id is "set" in PHP's sense exactly when
it is present, and `null` never matches an entry of `removed_approvers`.
Inputs the code takes from its environment are parameters:

- `now()` is a `Timestamp` argument;
- the creator is passed explicitly instead of `auth()->id()`;
- resolving the flow's condition class is a `ConditionOracle`, which says
  whether the object implements the contract and what `requiresApproval`
  answers;
- the flows table is a sequence of its live rows in storage order;
- the `flow` argument of each operation stands for `$request->flow`.

## Model

| member | source | states |
|---|---|---|
| ApprovalService.Submit | src/Services/ApprovalService.php:23-99 | Fails with no request, log or event exactly when the action type is missing or falsy, no active flow matches (team filter only when a team id is given), or the condition class does not implement the contract. Otherwise it creates a level-1 request. The request is SKIPPED with no approver, one 'skipped' row by the creator and ApprovalSkipped when the condition answers false. Else it is PENDING with the level-1 step's approver, one 'submitted' row and ApprovalRequested |
| ApprovalService.FirstMatch | src/Services/ApprovalService.php:35-40 | The flow chosen is the first row, in storage order, with the action type, active, and (only when a team id is given) that team; none when no row qualifies |
| ApprovalService.FindNextLevel | src/Services/ApprovalService.php:118-134 | The search result is the least level after the current one, up to the step count, whose step approver is not removed. It is none exactly when every such level's approver is removed, which includes the case of being at or past the last level |
| ApprovalService.SearchNextLevel | src/Services/ApprovalService.php:120-134 | The level-by-level loop with `break` finds a level exactly when one is acceptable, and then the least one and that level's approver, who is not removed; it agrees with FindNextLevel |
| ApprovalService.Approve | src/Services/ApprovalService.php:104-163 | Always exactly one 'approved' row by the actor and no status check. When an acceptable later level exists it moves to the least one, keeps the status and names that level's approver, with ApprovalRequested. Otherwise it sets APPROVED and approved_at, clears the approver, keeps the level, with RequestApproved. The new current approver is never a removed one; removed list and requested changes are untouched |
| ApprovalService.Reject | src/Services/ApprovalService.php:168-183 | REJECTED, rejected_at set, current approver cleared; level, removed list and requested changes unchanged; one 'rejected' row and RequestRejected |
| ApprovalService.Reroute | src/Services/ApprovalService.php:193-213 | Only the current approver changes (restoring the old one gives back the request); one 'rerouted' row by the admin naming old and new ids; ApprovalRequested |
| ApprovalService.RequestChanges | src/Services/ApprovalService.php:228-242 | RETURNED with requested_changes replaced by the given fields; level and current approver unchanged; one 'returned' row and ChangesRequested |
| ApprovalService.AddRemoved | src/Services/ApprovalService.php:250-258 | The removed list gains the id with set semantics: old entries kept in order as a prefix, the id present, nothing else added, and exactly one entry more when the id was absent and none when it was present |
| ApprovalService.RemoveApprover | src/Services/ApprovalService.php:247-274 | The removed list becomes AddRemoved of the old one: the id appended once when absent, unchanged when present, so no duplicate is introduced. Always logs 'approver_removed' and emits ApproverRemoved first. It runs approve as the admin, adding a second row and event, exactly when the id is the current approver, and otherwise changes nothing else. The removed id is never left as current approver |
| ApprovalService.NextLevelUnique | src/Services/ApprovalService.php:124-133 | The level the search stops at is uniquely determined |
| ApprovalService.RemoveApproverIdempotent | src/Services/ApprovalService.php:250-270 | Removing the same approver twice leaves the request as one removal did |
| ApprovalService.RemoveCurrentApproverFinishes | src/Services/ApprovalService.php:264-270 | Removing the current approver when every later level's approver is then removed gives APPROVED at the same level with approved_at set, logging the removal then the admin's approval |
| ApprovalService.RemoveCurrentAtLastLevelApproves | src/Services/ApprovalService.php:264-270 | Removing the current approver at the last level yields APPROVED |
| ApprovalService.RemoveOtherKeepsPosition | src/Services/ApprovalService.php:264-265 | Removing anyone but the current approver keeps status, level and current approver and logs one row |
| ApprovalService.ApproveWithoutStepsFinishes | src/Services/ApprovalService.php:111-118 | With zero steps a single approve finishes the request |
| ApprovalService.RerouteRoundTrip | src/Services/ApprovalService.php:196-198 | Rerouting back to the previous approver restores the request exactly |
| ApprovalService.SubmitTeamFilter | src/Services/ApprovalService.php:29-40 | A successful submit uses a flow from the table with the action type that is active; it has the attributes' team when one is given, and otherwise the model's team when the model has one |
| ApprovalService.RerouteComment | src/Services/ApprovalService.php:205 | The comment is "Rerouted from user " then the old id, " to ", then the new id; each id segment is all digits and reads back as that id, and a null old approver leaves its segment empty |
| ApprovalService.RemovedComment | src/Services/ApprovalService.php:260 | The comment is "Removed approver " then the removed id, then " from the request"; the id segment is all digits and reads back as that id |
| ApprovalService.SubmitRejectsFalsyActionType | src/Services/ApprovalService.php:31-33 | submit throws the missing-action-type error exactly when the action type is null, "" or "0" |
| ApprovalService.SubmitIgnoresFalsyConditionClass | src/Services/ApprovalService.php:47 | A matching flow whose condition class is null, "" or "0" is submitted as PENDING, whatever the condition would answer |
| Workflow.ApproverAt | src/Services/ApprovalService.php:126-127 | A level's approver is the approver of a step carrying that level, none when no step carries it, and with unique levels the approver of every step at that level (the same lookup serves level 1 in submit at lines 78-79) |
| Workflow.FindStep | src/Services/ApprovalService.php:126-127 | Lookup by level value returns the first step carrying that level, and nothing exactly when no step carries it |
| Workflow.StepAtFindsStep | database/migrations/2024_01_01_000002_create_approval_flow_steps_table.php:40 | With levels unique per flow, looking up a step's own level finds that step and its approver |
| Text.DecimalString | src/Services/ApprovalService.php:205 | An interpolated id renders as a non-empty run of digits without a leading zero |
| Text.DecimalRoundTrip | src/Services/ApprovalService.php:260 | The rendered id reads back as the same number, so the log comment names the id exactly |
| Text.IdText | src/Services/ApprovalService.php:205 | A null id interpolates as the empty string; a present id as digits that read back as that id |
| Text.ClassBasename | src/Services/ApprovalService.php:67 | The basename is a suffix of the class name containing no `\` or `/`, preceded by one of them unless it is the whole name |
| Text.ClassBasenameOf | src/Services/ApprovalService.php:67 | Whatever follows the last `\` or `/` is the basename |
| Lifecycle.ApplyProgress | src/Services/ApprovalService.php:104-274 | One call never lowers the level or shrinks the removed list, keeps the request's identity, keeps the invariant, and appends one or two log rows with as many events |
| Lifecycle.RunProgress | src/Services/ApprovalService.php:104-274 | Along any sequence of calls the level never decreases, the removed list only grows, the invariant holds, and logs and events grow together, at least one row per call |
| Lifecycle.FoldAppend | src/Services/ApprovalService.php:215-223 | The fold's append law: applying calls in two batches is applying their concatenation |
| Lifecycle.RunAppend | src/Services/ApprovalService.php:215-223 | Running two batches of calls one after the other is running their concatenation; since each call only appends, the log and event stream of the first run are a prefix of the whole |
| Lifecycle.SubmitEstablishesInvariant | src/Services/ApprovalService.php:56-90 | Every created request is at level 1 with no removed duplicates and no pending list |
| Notifications.ApprovalRequestedRecipients | src/Listeners/SendApprovalNotifications.php:41-69 | Recipients are the pending approvers if any. Else the current approver if set. Else the current level's step approver if set. Else nobody. With no pending list at most one user is notified |
| Notifications.CreatorRecipients | src/Listeners/SendApprovalNotifications.php:71-96 | Exactly the creator, and nobody when there is no creator |
| Notifications.Recipients | src/Listeners/SendApprovalNotifications.php:24-39 | Nobody when notifications are disabled. Approval requests go to the approvers, and approvals, rejections and change requests to the creator. Skips and removals go to nobody |
| Notifications.SubmitNotifiesFirstApprover | src/Listeners/SendApprovalNotifications.php:45-61 | A pending submission notifies exactly the level-1 step's approver, and a skipped one nobody |
| Notifications.AdvanceNotifiesNextApprover | src/Listeners/SendApprovalNotifications.php:45-61 | An advancing approve notifies exactly the new level's approver, never a removed one |
| Notifications.FinishNotifiesCreator | src/Listeners/SendApprovalNotifications.php:71-78 | A finishing approve notifies exactly the creator |
| Notifications.RerouteNotifiesNewApprover | src/Services/ApprovalService.php:208-209 | A reroute notifies exactly the new approver, even a removed one |
| Scenarios.AdvancesLevelOnApproval | tests/Feature/ApprovalServiceTest.php:62-91 | Two open levels: submit gives status value "pending" at 1, approve gives "pending" at 2, approve gives "approved" at 2 |
| Scenarios.PendingWhenConditionHolds | tests/Feature/ApprovalServiceTest.php:93-110 | With the test's `TrueCondition` class, status value "pending" and approver 99 |
| Scenarios.SkippedWhenConditionFails | tests/Feature/ApprovalServiceTest.php:112-137 | With the test's `FalseCondition` class, status value "skipped", no approver, a 'skipped' row whose comment is "Approval skipped by condition: FalseCondition", and ApprovalSkipped |
| Scenarios.NotificationsOfOneLevelFlow | tests/Feature/NotificationTest.php:31-104 | Submission notifies the level-1 approver; approval and rejection notify the creator |
| Scenarios.RejectedRequestCanBeApproved | src/Services/ApprovalService.php:104-198 | A REJECTED request at its last level becomes APPROVED on approve, and a reroute gives it a current approver while it stays REJECTED |
| Scenarios.ApprovingReturnedRequest | src/Services/ApprovalService.php:136-141 | Approving a RETURNED request that advances keeps it RETURNED at a higher level; only finishing changes the status; the requested fields stay |
| Scenarios.GapInLevelsSkipsLastStep | src/Services/ApprovalService.php:111-127 | With steps at levels 1 and 3, approving moves to the missing level 2 with no approver, and the next approval finishes the request, so the level-3 approver is never current |
| Scenarios.RerouteMayNameRemovedApprover | src/Services/ApprovalService.php:193-198 | A reroute may make a removed approver the current one |

## Left out

- Persistence: `DB::transaction`, the Eloquent models, table-name configuration, UUID keys, soft deletes and the migrations. Rows are plain values. The flows table is the sequence of live rows. Migrations contribute only unique levels per flow and the level-1 / pending defaults.
- Event dispatch and delivery: queued versus immediate sending, channels, `SerializesModels` reloading the request when a queued listener runs, and the user lookup with `whereIn` / `isNotEmpty`. Events carry the request as it stood when dispatched. Recipients are ids, not loaded users.
- Listener registration: the service provider registers the listener for ApprovalRequested, RequestApproved and RequestRejected only. So ChangesRequested notifications are never delivered in the package as wired. `Notifications.Recipients` models `handle` on its own.
- Notification and mail rendering (`MailMessage`, views, URLs): framework output with no state.
- A container that fails to build the condition class (an exception from `app`): the oracle always yields an object.
- `now()`, `auth()->id()` and container resolution of the condition class: these are parameters (see above).
- PHP loose comparison (`in_array`, `==`) on mixed id types, and string (UUID) ids. Ids are positive integers here.
- The `pending_approvers` column is not cast to an array on the request model. The listener is modelled as reading it as a decoded list.
- `HasApprovals` (it compares the enum-cast status with strings) and the service-provider wiring.
- Concurrency and locking between simultaneous approvers: each call is one atomic step here.
- The `true` every operation returns, and the `metadata` contents (an opaque map).
- Text.ClassBasename: a class name ending in a separator (`\` or `/`) gives the empty basename here, whereas Laravel's `basename` would first strip the trailing separator; class names never end that way.
