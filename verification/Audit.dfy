// The operation audit of internal/storage/sqlite.go and the finishes that internal/hub builds for it.
module Audit {
  import opened Text
  import Policy = DeploymentPolicy
  import Runs = DeploymentRuns

  datatype OperationKind = StartWorkload | StopWorkload | RestartWorkload | ReadLogs | DeployRelease | RollbackRelease
  datatype OperationState = Requested | Running | Succeeded | Failed | RolledBack

  datatype Operation = Operation(
    id: string,
    host: string,
    workloadKey: string,
    kind: OperationKind,
    state: OperationState,
    requestedBy: string,
    requestedAt: int,
    startedAt: Option<int>,
    finishedAt: Option<int>,
    summary: string,
    error: string,
    targetImage: string,
    deploymentId: string,
    targetReleaseId: string,
    beforeReleaseId: string,
    afterReleaseId: string)

  predicate SnapshotOk(value: string, maximum: nat) {
    value == "" || (|value| <= maximum && !HasControl(value) && ' ' !in value && '\t' !in value)
  }

  predicate IsHex(c: char) { '0' <= c <= '9' || 'a' <= c <= 'f' }

  // <repository>@sha256:<64 hex digits>, cut at the first separator.
  predicate ImageReferenceOk(text: string) {
    && 72 < |text| <= 512 && !HasControl(text) && ' ' !in text && '\t' !in text
    && MatchesAt(text, "@sha256:", |text| - 72)
    && (forall i | 0 <= i < |text| - 72 :: !MatchesAt(text, "@sha256:", i))
    && (forall i | |text| - 64 <= i < |text| :: IsHex(text[i]))
  }

  predicate ErrorCategory(value: string) {
    value != "" && |value| <= 64 && forall c | c in value :: c == '_' || 'a' <= c <= 'z' || '0' <= c <= '9'
  }

  predicate IsDeployment(kind: OperationKind) {
    kind.DeployRelease? || kind.RollbackRelease?
  }

  predicate FieldsOk(op: Operation) {
    && Identifier(op.id, 128) && Identifier(op.host, 128) && Identifier(op.requestedBy, 128)
    && if IsDeployment(op.kind) then
         && (op.workloadKey != "" ==> Identifier(op.workloadKey, 512))
         && (op.targetImage != "" ==> ImageReferenceOk(op.targetImage))
         && SnapshotOk(op.deploymentId, 256) && SnapshotOk(op.targetReleaseId, 64)
         && SnapshotOk(op.beforeReleaseId, 64) && SnapshotOk(op.afterReleaseId, 64)
       else
         && Identifier(op.workloadKey, 512)
         && op.targetImage == "" && op.deploymentId == "" && op.targetReleaseId == ""
         && op.beforeReleaseId == "" && op.afterReleaseId == ""
  }

  predicate TimesOk(op: Operation) {
    && (op.startedAt.Some? ==> op.requestedAt <= op.startedAt.value)
    && (op.finishedAt.Some? ==>
         op.requestedAt <= op.finishedAt.value && (op.startedAt.Some? ==> op.startedAt.value <= op.finishedAt.value))
  }

  predicate SummaryOk(summary: string) {
    |summary| <= 240 && !HasControl(summary)
  }

  // Operation.Validate
  predicate Valid(op: Operation) {
    && FieldsOk(op) && TimesOk(op) && SummaryOk(op.summary)
    && (op.error != "" ==> ErrorCategory(op.error))
    && match op.state
       case Requested => op.startedAt.None? && op.finishedAt.None? && op.summary == "" && op.error == "" && op.afterReleaseId == ""
       case Running => op.startedAt.Some? && op.finishedAt.None? && op.summary == "" && op.error == "" && op.afterReleaseId == ""
       case Succeeded => op.startedAt.Some? && op.finishedAt.Some? && op.error == "" && !Blank(op.summary)
       case Failed => op.finishedAt.Some? && op.error != ""
       case RolledBack => op.startedAt.Some? && op.finishedAt.Some? && op.error != "" && !Blank(op.summary)
  }

  predicate Terminal(op: Operation) {
    op.state.Succeeded? || op.state.Failed? || op.state.RolledBack?
  }

  // ---- The table ----

  type Rows = map<string, Operation>

  datatype Outcome = Written(op: Operation) | NotFound | WrongState | Invalid | Duplicate

  ghost predicate RowsOk(rows: Rows) {
    forall id :: id in rows ==> rows[id].id == id && Valid(rows[id])
  }

  datatype Finish = Finish(
    state: OperationState,
    at: int,
    summary: string,
    error: string,
    afterReleaseId: string,
    confirmedBeforeReleaseId: string)

  function CreateOutcome(rows: Rows, op: Operation): Outcome {
    if !op.state.Requested? then WrongState
    else if !Valid(op) then Invalid
    else if op.id in rows then Duplicate
    else Written(op)
  }

  function Started(op: Operation, at: int): Operation {
    op.(state := Running, startedAt := Some(at))
  }

  function StartOutcome(rows: Rows, id: string, at: int): Outcome {
    if id !in rows then NotFound
    else if !rows[id].state.Requested? then WrongState
    else if !Valid(Started(rows[id], at)) then Invalid
    else Written(Started(rows[id], at))
  }

  function Finished(op: Operation, f: Finish): Operation {
    op.(state := f.state, finishedAt := Some(f.at), summary := f.summary, error := f.error, afterReleaseId := f.afterReleaseId,
        beforeReleaseId := if f.confirmedBeforeReleaseId != "" then f.confirmedBeforeReleaseId else op.beforeReleaseId)
  }

  function FinishOutcome(rows: Rows, id: string, f: Finish): Outcome {
    if !f.state.Succeeded? && !f.state.Failed? && !f.state.RolledBack? then WrongState
    else if id !in rows then NotFound
    else if !rows[id].state.Running? then WrongState
    else if !Valid(Finished(rows[id], f)) then Invalid
    else Written(Finished(rows[id], f))
  }

  function After(rows: Rows, outcome: Outcome): Rows {
    match outcome
    case Written(op) => rows[op.id := op]
    case _ => rows
  }

  // What a restart makes of a row.
  function Interrupted(op: Operation, at: int): Operation {
    if Terminal(op) then op
    else
      var base := if op.startedAt.Some? then op.startedAt.value else op.requestedAt;
      op.(state := Failed, finishedAt := Some(if base > at then base else at), summary := "", error := "hub_restarted")
  }

  function FailInterrupted(rows: Rows, at: int): Rows {
    map id | id in rows :: Interrupted(rows[id], at)
  }

  // ---- What the table keeps ----

  predicate RowForward(op: Operation, op': Operation) {
    && op'.id == op.id && op'.kind == op.kind && op'.host == op.host && op'.requestedAt == op.requestedAt
    && (op.startedAt.Some? ==> op'.startedAt == op.startedAt)
    && (Terminal(op) ==> op' == op)
    && (op.state.Running? ==> !op'.state.Requested?)
  }

  ghost predicate Forward(rows: Rows, after: Rows) {
    forall id :: id in rows ==> id in after && RowForward(rows[id], after[id])
  }

  // A written row is valid and continues the row it replaces.
  ghost predicate Continues(rows: Rows, outcome: Outcome) {
    outcome.Written? ==>
      Valid(outcome.op) && (outcome.op.id in rows ==> RowForward(rows[outcome.op.id], outcome.op))
  }

  lemma WriteKeepsRows(rows: Rows, outcome: Outcome)
    requires RowsOk(rows) && Continues(rows, outcome)
    ensures RowsOk(After(rows, outcome)) && Forward(rows, After(rows, outcome))
  {
  }

  lemma CreateKeepsRows(rows: Rows, op: Operation)
    requires RowsOk(rows)
    ensures var after := After(rows, CreateOutcome(rows, op)); RowsOk(after) && Forward(rows, after)
  {
    WriteKeepsRows(rows, CreateOutcome(rows, op));
  }

  lemma StartKeepsRows(rows: Rows, id: string, at: int)
    requires RowsOk(rows)
    ensures var after := After(rows, StartOutcome(rows, id, at)); RowsOk(after) && Forward(rows, after)
  {
    assert id in rows ==> rows[id].id == id;
    WriteKeepsRows(rows, StartOutcome(rows, id, at));
  }

  lemma FinishKeepsRows(rows: Rows, id: string, f: Finish)
    requires RowsOk(rows)
    ensures var after := After(rows, FinishOutcome(rows, id, f)); RowsOk(after) && Forward(rows, after)
  {
    assert id in rows ==> rows[id].id == id;
    WriteKeepsRows(rows, FinishOutcome(rows, id, f));
  }

  // A restart closes every open row with ordered times and touches no other.
  lemma RestartClosesRows(rows: Rows, at: int)
    requires RowsOk(rows)
    ensures RowsOk(FailInterrupted(rows, at)) && Forward(rows, FailInterrupted(rows, at))
    ensures forall id :: id in FailInterrupted(rows, at) ==> Terminal(FailInterrupted(rows, at)[id])
    ensures FailInterrupted(FailInterrupted(rows, at), at) == FailInterrupted(rows, at)
    ensures FailInterrupted(rows, at).Keys == rows.Keys && forall id :: id in rows ==>
      if rows[id].state in {Requested, Running} then
        && FailInterrupted(rows, at)[id].state.Failed? && FailInterrupted(rows, at)[id].error == "hub_restarted"
        && FailInterrupted(rows, at)[id].summary == "" && FailInterrupted(rows, at)[id].finishedAt.Some?
        && (FailInterrupted(rows, at)[id].finishedAt.value == at || at < FailInterrupted(rows, at)[id].finishedAt.value)
        && FailInterrupted(rows, at)[id].finishedAt.value in
             {at, rows[id].requestedAt, rows[id].startedAt.GetOrElse(rows[id].requestedAt)}
      else FailInterrupted(rows, at)[id] == rows[id]
  {
    assert ErrorCategory("hub_restarted");
    forall id | id in rows
      ensures Valid(Interrupted(rows[id], at)) && RowForward(rows[id], Interrupted(rows[id], at)) && Terminal(Interrupted(rows[id], at))
    {
      assert Valid(rows[id]);
    }
  }

  class AuditStore {
    var rows: Rows

    constructor ()
      ensures rows == map[] && RowsOk(rows)
    {
      rows := map[];
    }

    method CreateOperation(op: Operation) returns (outcome: Outcome)
      requires RowsOk(rows)
      modifies this
      ensures RowsOk(rows) && Forward(old(rows), rows)
      ensures outcome == CreateOutcome(old(rows), op) && rows == After(old(rows), outcome)
    {
      CreateKeepsRows(rows, op);
      if !op.state.Requested? {
        return WrongState;
      }
      if !Valid(op) {
        return Invalid;
      }
      if op.id in rows {
        return Duplicate;
      }
      rows := rows[op.id := op];
      outcome := Written(op);
    }

    method StartOperation(id: string, at: int) returns (outcome: Outcome)
      requires RowsOk(rows)
      modifies this
      ensures RowsOk(rows) && Forward(old(rows), rows)
      ensures outcome == StartOutcome(old(rows), id, at) && rows == After(old(rows), outcome)
    {
      StartKeepsRows(rows, id, at);
      if id !in rows {
        return NotFound;
      }
      var op := rows[id];
      if !op.state.Requested? {
        return WrongState;
      }
      op := op.(state := Running, startedAt := Some(at));
      if !Valid(op) {
        return Invalid;
      }
      rows := rows[id := op];
      outcome := Written(op);
    }

    method FinishOperation(id: string, f: Finish) returns (outcome: Outcome)
      requires RowsOk(rows)
      modifies this
      ensures RowsOk(rows) && Forward(old(rows), rows)
      ensures outcome == FinishOutcome(old(rows), id, f) && rows == After(old(rows), outcome)
    {
      FinishKeepsRows(rows, id, f);
      if !f.state.Succeeded? && !f.state.Failed? && !f.state.RolledBack? {
        return WrongState;
      }
      if id !in rows {
        return NotFound;
      }
      var op := rows[id];
      if !op.state.Running? {
        return WrongState;
      }
      op := op.(state := f.state, finishedAt := Some(f.at), summary := f.summary, error := f.error, afterReleaseId := f.afterReleaseId);
      if f.confirmedBeforeReleaseId != "" {
        op := op.(beforeReleaseId := f.confirmedBeforeReleaseId);
      }
      if !Valid(op) {
        return Invalid;
      }
      rows := rows[id := op];
      outcome := Written(op);
    }

    method FailInterruptedOperations(at: int) returns (closed: nat)
      requires RowsOk(rows)
      modifies this
      ensures RowsOk(rows) && rows == FailInterrupted(old(rows), at)
      ensures closed == |set id | id in old(rows) && !Terminal(old(rows)[id])|
    {
      RestartClosesRows(rows, at);
      var open := set id | id in rows && !Terminal(rows[id]);
      closed := |open|;
      rows := CloseRows(rows, open, at);
    }
  }

  method CloseRows(rows: Rows, open: set<string>, at: int) returns (after: Rows)
    requires forall id :: id in open <==> id in rows && !Terminal(rows[id])
    ensures after == FailInterrupted(rows, at)
  {
    after := rows;
    var done, todo := {}, open;
    while todo != {}
      invariant done + todo == open && done !! todo
      invariant after.Keys == rows.Keys
      invariant forall id :: id in rows ==> after[id] == if id in done then Interrupted(rows[id], at) else rows[id]
      decreases todo
    {
      var id :| id in todo;
      var op := after[id];
      var base := if op.startedAt.Some? then op.startedAt.value else op.requestedAt;
      after := after[id := op.(state := Failed, finishedAt := Some(if base > at then base else at), summary := "", error := "hub_restarted")];
      done, todo := done + {id}, todo - {id};
    }
  }

  // ---- The finishes of the handlers ----

  datatype ActionKind = ActionStart | ActionStop | ActionRestart | ActionLogs
  datatype ActionDefinition = ActionDefinition(id: string, targetKey: string, kind: ActionKind)
  datatype ActionResult = ActionResult(
    actionId: string, targetKey: string, kind: ActionKind, ok: bool, errorKind: string, summary: string,
    stateBefore: string, stateAfter: string, logs: seq<string>)

  // What a client call gives back. An error carries its category and an empty
  // result.
  datatype Reply<R> = ClientError(category: string) | Replied(result: R)

  const CLIENT_ERRORS := {"agent_invalid_config", "agent_invalid_action", "agent_invalid_response", "agent_timeout",
                          "agent_unavailable", "agent_auth_failed", "agent_incompatible", "agent_http_error"}
  const ACTION_ERRORS := {"log_read_failed", "state_read_failed", "command_failed", "health_verification_failed"}

  predicate ActionResultOk(r: ActionResult, d: ActionDefinition) {
    && r.actionId == d.id && r.targetKey == d.targetKey && r.kind == d.kind
    && (r.ok <==> r.errorKind == "") && (!r.ok ==> r.errorKind in ACTION_ERRORS)
    && (r.ok ==> !Blank(r.summary)) && |r.summary| <= 240 && !HasControl(r.summary)
    && r.stateBefore in {"", "running", "stopped"} && r.stateAfter in {"", "running", "stopped"}
    && (if d.kind.ActionLogs? then r.stateBefore == "" && r.stateAfter == ""
        else
          && r.logs == []
          && (r.ok ==> r.stateBefore != "" && r.stateAfter == if d.kind.ActionStop? then "stopped" else "running"))
    && |r.logs| <= 200 && (!r.ok ==> r.logs == [])
  }

  function Latest(a: int, b: int): int { if a < b then b else a }

  function ActionFinish(reply: Reply<ActionResult>, d: ActionDefinition, running: Operation, now: int): Finish
    requires running.startedAt.Some?
  {
    var at := Latest(now, running.startedAt.value);
    match reply
    case ClientError(category) => Finish(Failed, at, "", category, "", "")
    case Replied(r) =>
      if !ActionResultOk(r, d) then Finish(Failed, at, "", "agent_invalid_response", "", "")
      else if !r.ok then Finish(Failed, at, r.summary, r.errorKind, "", "")
      else Finish(Succeeded, at, r.summary, "", "", "")
  }

  function DeploymentFinish(reply: Reply<Policy.Result>, d: Policy.Definition, running: Operation, now: int): Finish
    requires running.startedAt.Some?
  {
    var at := Latest(now, running.startedAt.value);
    match reply
    case ClientError(category) => Finish(Failed, at, "", category, "", "")
    case Replied(r) =>
      if !Runs.HubAcceptsResult(r, d) then Finish(Failed, at, "", "agent_invalid_response", "", r.previousReleaseId)
      else if !r.ok && r.rollbackPerformed then
        Finish(RolledBack, at, r.summary, r.errorKind, r.previousReleaseId, r.previousReleaseId)
      else if !r.ok then Finish(Failed, at, r.summary, r.errorKind, "", r.previousReleaseId)
      else Finish(Succeeded, at, r.summary, "", r.releaseId, r.previousReleaseId)
  }

  // What a finish must look like, whatever row it closes.
  predicate FinishShape(f: Finish, deployment: bool) {
    && SummaryOk(f.summary) && (f.error != "" ==> ErrorCategory(f.error))
    && (if deployment then SnapshotOk(f.afterReleaseId, 64) && SnapshotOk(f.confirmedBeforeReleaseId, 64)
        else f.afterReleaseId == "" && f.confirmedBeforeReleaseId == "")
    && match f.state
       case Succeeded => f.error == "" && !Blank(f.summary)
       case Failed => f.error != ""
       case RolledBack => f.error != "" && !Blank(f.summary)
       case _ => false
  }

  lemma FinishAccepted(rows: Rows, id: string, f: Finish)
    requires RowsOk(rows) && id in rows && rows[id].state.Running? && f.at >= rows[id].startedAt.value
    ensures FinishOutcome(rows, id, f).Written? <==> FinishShape(f, IsDeployment(rows[id].kind))
  {
    assert Valid(rows[id]);
  }

  lemma ClientCategoriesOk(category: string)
    requires category in CLIENT_ERRORS
    ensures ErrorCategory(category)
  {
  }

  lemma ActionCategoriesOk(category: string)
    requires category in ACTION_ERRORS
    ensures ErrorCategory(category)
  {
  }

  lemma DeploymentCategoriesOk(category: string)
    requires category in Runs.ERROR_KINDS
    ensures ErrorCategory(category)
  {
    LateCategoriesOk();
  }

  lemma LateCategoriesOk()
    ensures ErrorCategory("compose_apply_failed") && ErrorCategory("health_verification_failed")
    ensures ErrorCategory("state_commit_failed") && ErrorCategory("rollback_failed")
  {
  }

  // No finish of an action is ever refused; the row says succeeded exactly
  // when the agent's valid result does, and otherwise why not.
  lemma ActionFinishAccepted(rows: Rows, id: string, reply: Reply<ActionResult>, d: ActionDefinition, now: int)
    requires RowsOk(rows) && id in rows && rows[id].state.Running? && !IsDeployment(rows[id].kind)
    requires reply.ClientError? ==> reply.category in CLIENT_ERRORS
    ensures FinishOutcome(rows, id, ActionFinish(reply, d, rows[id], now)).Written?
    ensures var op := FinishOutcome(rows, id, ActionFinish(reply, d, rows[id], now)).op;
      var valid := reply.Replied? && ActionResultOk(reply.result, d);
      && (op.state.Succeeded? <==> valid && reply.result.ok)
      && (op.state.Failed? <==> !(valid && reply.result.ok))
      && op.summary == (if valid then reply.result.summary else "")
      && op.error == (if valid then reply.result.errorKind else if reply.Replied? then "agent_invalid_response" else reply.category)
      && op.finishedAt == Some(if now < rows[id].startedAt.value then rows[id].startedAt.value else now)
      && op.startedAt == rows[id].startedAt && op.beforeReleaseId == rows[id].beforeReleaseId && op.afterReleaseId == ""
  {
    FinishAccepted(rows, id, ActionFinish(reply, d, rows[id], now));
    ClientCategoriesOk("agent_invalid_response");
    match reply
    case ClientError(category) => ClientCategoriesOk(category);
    case Replied(r) =>
      if ActionResultOk(r, d) && !r.ok {
        ActionCategoriesOk(r.errorKind);
      }
  }

  lemma PatternIsSnapshot(id: string)
    requires Policy.ReleasePattern(id)
    ensures SnapshotOk(id, 64)
  {
  }

  // A finish of a deployment is refused exactly when the client handed over a
  // result that the handler rejects and whose previous release is malformed.
  lemma DeploymentFinishAccepted(rows: Rows, id: string, reply: Reply<Policy.Result>, d: Policy.Definition, now: int)
    requires RowsOk(rows) && id in rows && rows[id].state.Running? && IsDeployment(rows[id].kind)
    requires Policy.HubAccepts(d)
    requires reply.ClientError? ==> reply.category in CLIENT_ERRORS
    ensures FinishOutcome(rows, id, DeploymentFinish(reply, d, rows[id], now)).Written?
            <==> (reply.Replied? && !Runs.HubAcceptsResult(reply.result, d) ==> SnapshotOk(reply.result.previousReleaseId, 64))
  {
    FinishAccepted(rows, id, DeploymentFinish(reply, d, rows[id], now));
    ClientCategoriesOk("agent_invalid_response");
    match reply
    case ClientError(category) => ClientCategoriesOk(category);
    case Replied(r) =>
      if Runs.HubAcceptsResult(r, d) {
        PatternIsSnapshot(d.releaseId);
        if r.previousReleaseId != "" {
          PatternIsSnapshot(r.previousReleaseId);
        }
        if !r.ok {
          DeploymentCategoriesOk(r.errorKind);
        }
      }
  }

  // ---- The deployment client of the hub ----

  // What comes back for the one request: nothing, or a status with a body that
  // may not decode.
  datatype Response = Unbuildable | NoAnswer(timedOut: bool) | WithStatus(status: int, body: Option<Policy.Result>)

  function StatusCategory(status: int): string {
    if status == 401 || status == 403 then "agent_auth_failed"
    else if status == 404 || status == 405 then "agent_incompatible"
    else "agent_http_error"
  }

  function ClientExecute(d: Policy.Definition, response: Response): Reply<Policy.Result> {
    if !Policy.HubAccepts(d) then ClientError("agent_invalid_action")
    else match response
      case Unbuildable => ClientError("agent_invalid_config")
      case NoAnswer(timedOut) => ClientError(if timedOut then "agent_timeout" else "agent_unavailable")
      case WithStatus(status, body) =>
        if status != 200 && status != 502 then ClientError(StatusCategory(status))
        else if body.None? || !Runs.HubAcceptsResult(body.value, d) then ClientError("agent_invalid_response")
        else if (status == 200 && !body.value.ok) || (status == 502 && body.value.ok) then ClientError("agent_invalid_response")
        else Replied(body.value)
  }

  // The result the client hands over: the agent answered with a valid result,
  // and with the status that belongs to it.
  predicate Accepts(d: Policy.Definition, response: Response) {
    && Policy.HubAccepts(d) && response.WithStatus? && response.body.Some?
    && Runs.HubAcceptsResult(response.body.value, d)
    && response.status == if response.body.value.ok then 200 else 502
  }

  // The category of every other response.
  function Category(d: Policy.Definition, response: Response): string {
    if !Policy.HubAccepts(d) then "agent_invalid_action"
    else match response
      case Unbuildable => "agent_invalid_config"
      case NoAnswer(timedOut) => if timedOut then "agent_timeout" else "agent_unavailable"
      case WithStatus(status, _) =>
        if status in {200, 502} then "agent_invalid_response"
        else if status in {401, 403} then "agent_auth_failed"
        else if status in {404, 405} then "agent_incompatible"
        else "agent_http_error"
  }

  // An honest answer of the agent to an approved deployment.
  predicate Confirms(d: Policy.Definition, response: Response) {
    && Policy.HubAccepts(d) && response.WithStatus? && response.status == 200
    && response.body.Some? && Runs.HubAcceptsResult(response.body.value, d) && response.body.value.ok
  }

  // What the stored row says of an operation with this response: succeeded or
  // rolled back exactly as an accepted result says, with its releases, summary
  // and error, and failed with the client's category otherwise.
  ghost predicate Records(op: Operation, before: Operation, d: Policy.Definition, response: Response, now: int)
    requires before.startedAt.Some?
  {
    && op.id == before.id && op.startedAt == before.startedAt
    && op.finishedAt == Some(if now < before.startedAt.value then before.startedAt.value else now)
    && if Accepts(d, response) then
         var r := response.body.value;
         && (op.state.Succeeded? <==> r.ok)
         && (op.state.RolledBack? <==> r.rollbackPerformed)
         && (op.state.Failed? <==> !r.ok && !r.rollbackPerformed)
         && op.summary == r.summary && op.error == r.errorKind
         && op.afterReleaseId == (if r.ok then d.releaseId else if r.rollbackPerformed then r.previousReleaseId else "")
         && op.beforeReleaseId == (if r.previousReleaseId != "" then r.previousReleaseId else before.beforeReleaseId)
       else
         && op.state.Failed? && op.summary == "" && op.error == Category(d, response)
         && op.afterReleaseId == "" && op.beforeReleaseId == before.beforeReleaseId
  }

  // Whatever comes back, the finish is stored and never keeps the row running.
  lemma ClientFinishIsStored(rows: Rows, id: string, d: Policy.Definition, response: Response, now: int)
    requires RowsOk(rows) && id in rows && rows[id].state.Running? && IsDeployment(rows[id].kind)
    ensures var outcome := FinishOutcome(rows, id, DeploymentFinish(ClientExecute(d, response), d, rows[id], now));
            && outcome.Written? && Terminal(outcome.op)
            && (outcome.op.state.Succeeded? <==> Confirms(d, response))
            && (outcome.op.state.RolledBack? <==> Accepts(d, response) && response.body.value.rollbackPerformed)
            && Records(outcome.op, rows[id], d, response, now)
  {
    var reply := ClientExecute(d, response);
    if reply.Replied? {
      DeploymentFinishAccepted(rows, id, reply, d, now);
    } else {
      ClientCategoriesOk(reply.category);
      FinishAccepted(rows, id, DeploymentFinish(reply, d, rows[id], now));
    }
  }

  // A reply the handler alone would not survive exists: the row then stays
  // running until the next restart.
  lemma RefusedDeploymentFinish(rows: Rows, id: string, d: Policy.Definition, now: int)
    requires RowsOk(rows) && id in rows && rows[id].state.Running? && IsDeployment(rows[id].kind) && Policy.HubAccepts(d)
    ensures var r := Policy.Result(d.id, d.stackKey, d.kind, d.releaseId, "not a release", true, false, "", "");
            After(rows, FinishOutcome(rows, id, DeploymentFinish(Replied(r), d, rows[id], now))) == rows
  {
    var r := Policy.Result(d.id, d.stackKey, d.kind, d.releaseId, "not a release", true, false, "", "");
    assert "not a release"[3] == ' ';
    DeploymentFinishAccepted(rows, id, Replied(r), d, now);
  }
}
