/** Proposals, confirmations, the executor boundary and the audit log (apps/daemon/src/service.rs and the
    confirmation part of apps/daemon/src/interaction_service.rs). Every service operation runs under one
    lock, so a run is a sequence of whole operations; clock readings, executor results and storage
    failures are inputs. */
module Authority {
  import opened Prelude
  import opened Domain
  import opened Policy
  import opened GrantStore

  type ConfirmationId = int

  datatype ResultCode = Simulated | Launched
  datatype ErrorCode =
    | ExecutorContractRejected | ApplicationNotRegistered | ExecutableIdentityChanged
    | ApplicationSpawnFailed | ApplicationRegistryUnavailable | CapabilityTimeout
  datatype ExecutorOutcome = Finished(result: ResultCode) | Rejected(error: ErrorCode) | DeadlineExceeded
  datatype ExecutionStatus = DryRunSucceeded | Succeeded | Failed | TimedOut | NotExecuted

  datatype AuditEvent =
    | ProposalCreated(execution: ExecutionId)
    | ActionRequested(execution: ExecutionId)
    | PolicyEvaluated(subject: Option<ExecutionId>, decision: PolicyDecision)
    | ConfirmationRequired(execution: ExecutionId)
    | ConfirmationReceived(execution: ExecutionId, accepted: bool)
    | AuthorizationCreated(execution: ExecutionId)
    | ActionDenied(execution: ExecutionId)
    | ExecutionStarted(execution: ExecutionId)
    | ExecutionCompleted(execution: ExecutionId, result: ResultCode)
    | ExecutionFailed(execution: ExecutionId, error: ErrorCode)
    | ExecutionTimedOut(execution: ExecutionId, error: ErrorCode)
  {
    /** The execution the event row is filed under; an evaluation without one is filed under its capability. */
    function Execution(): Option<ExecutionId> {
      if PolicyEvaluated? then subject else Some(execution)
    }
  }

  datatype Receipt = Receipt(
    executionId: ExecutionId,
    startedAtMs: int,
    finishedAtMs: int,
    decision: PolicyDecision,
    status: ExecutionStatus,
    result: Option<ResultCode>,
    error: Option<ErrorCode>)

  datatype Pending = Pending(
    requestExecutionId: ExecutionId,
    proposal: ActionProposal,
    expiresAtMs: int,
    chat: Option<ChatSessionId>)

  datatype ExecutorCall = ExecutorCall(authorization: Authorization, simulate: bool, confirmation: Option<ConfirmationId>)

  datatype ProtocolError = NotFound | InvalidAction | PrivacyDenied | ConfirmationExpired | Validation | Internal

  datatype Persistence = OnlyOnce | ForSession | UntilTime | Forever

  /** What the outside world decides about one operation: clock readings, drawn identifiers, the executor's
      outcome, and which of its reads and writes fail. */
  datatype Attempt = Attempt(
    executionId: ExecutionId,
    checkedAtMs: int,
    startedAtMs: int,
    decidedAtMs: int,
    finishedAtMs: int,
    outcome: ExecutorOutcome,
    permissionId: PermissionId,
    scopeBytes: nat,
    lookupFails: bool,
    claimFails: bool,
    grantFails: bool,
    intentFails: bool,
    recordFails: bool)

  /** The fixed parts of the service. */
  datatype Kernel = Kernel(engine: Engine, registry: map<CapabilityId, CapabilityDescriptor>) {
    predicate Valid() {
      forall id | id in registry :: registry[id].id == id
    }

    function DescriptorFor(action: ActionRequest): Result<CapabilityDescriptor, ProtocolError> {
      if action.capabilityId !in registry then Err(NotFound)
      else if action.arguments.Kind() != registry[action.capabilityId].arguments then Err(InvalidAction)
      else Ok(registry[action.capabilityId])
    }
  }

  /** The service's state. `issued` and `calls` are histories: every confirmation ever offered, and every
      use of an executor. */
  datatype Core = Core(
    grants: seq<PermissionGrant>,
    profile: SecurityProfile,
    audit: seq<AuditEvent>,
    executions: map<ExecutionId, Receipt>,
    pending: map<ConfirmationId, Pending>,
    issued: map<ConfirmationId, Pending>,
    calls: seq<ExecutorCall>)

  const INITIAL := Core([], Balanced, [], map[], map[], map[], [])

  function CallerFor(p: ActionProposal, chat: Option<ChatSessionId>, nowMs: int): Caller {
    match p.context.agent
    case Some(identity) => Caller(nowMs, Some(AgentSession(identity.sessionId)), Some(identity.agentId))
    case None => Caller(nowMs, if chat.Some? then Some(ChatSession(chat.value)) else None, None)
  }

  function ContextFor(s: Core, p: ActionProposal, chat: Option<ChatSessionId>, nowMs: int): ContextView {
    var caller := CallerFor(p, chat, nowMs);
    ContextView({}, Shown(ActiveGrantForProposal(s.grants, p, caller)), s.profile, caller)
  }

  function Opening(id: ExecutionId, decision: PolicyDecision): seq<AuditEvent> {
    [ProposalCreated(id), ActionRequested(id), PolicyEvaluated(Some(id), decision)]
  }

  function Closing(id: ExecutionId, outcome: ExecutorOutcome): seq<AuditEvent> {
    [AuthorizationCreated(id), ExecutionStarted(id),
     match outcome
     case Finished(result) => ExecutionCompleted(id, result)
     case Rejected(error) => ExecutionFailed(id, error)
     case DeadlineExceeded => ExecutionTimedOut(id, CapabilityTimeout)]
  }

  function ExecutedReceipt(a: Attempt, decision: PolicyDecision): Receipt {
    var finished := Max(a.finishedAtMs, a.startedAtMs);
    match a.outcome
    case Finished(Simulated) => Receipt(a.executionId, a.startedAtMs, finished, decision, DryRunSucceeded, Some(Simulated), None)
    case Finished(Launched) => Receipt(a.executionId, a.startedAtMs, finished, decision, Succeeded, Some(Launched), None)
    case Rejected(error) => Receipt(a.executionId, a.startedAtMs, finished, decision, Failed, None, Some(error))
    case DeadlineExceeded => Receipt(a.executionId, a.startedAtMs, finished, decision, TimedOut, None, Some(CapabilityTimeout))
  }

  function BlockedReceipt(a: Attempt, decision: PolicyDecision): Receipt {
    Receipt(a.executionId, a.startedAtMs, Max(a.finishedAtMs, a.startedAtMs), decision, NotExecuted, None, None)
  }

  /** One transaction stores the receipt and its whole trace, or nothing. */
  function Recorded(s: Core, a: Attempt, receipt: Receipt, events: seq<AuditEvent>): (Core, Result<Receipt, ProtocolError>) {
    if a.recordFails || a.executionId in s.executions then (s, Err(Internal))
    else (s.(executions := s.executions[a.executionId := receipt], audit := s.audit + events), Ok(receipt))
  }

  /** The state once the grants are settled and the executor has run: nothing is recorded yet. */
  function AfterCall(s: Core, grants: seq<PermissionGrant>, call: ExecutorCall): Core {
    s.(grants := grants, calls := s.calls + [call])
  }

  function BlockedEvents(a: Attempt, d: PolicyDecision): seq<AuditEvent> {
    Opening(a.executionId, d) + [if d.outcome.Confirm? then ConfirmationRequired(a.executionId) else ActionDenied(a.executionId)]
  }

  function ExecutedEvents(a: Attempt, d: PolicyDecision): seq<AuditEvent> {
    Opening(a.executionId, d) + Closing(a.executionId, a.outcome)
  }

  function ConfirmedEvents(a: Attempt, d: PolicyDecision): seq<AuditEvent> {
    Opening(a.executionId, d) + [ConfirmationReceived(a.executionId, true)] + Closing(a.executionId, a.outcome)
  }

  /** Recording that nothing was executed. */
  function Blocked(s: Core, a: Attempt, d: PolicyDecision): (Core, Result<Receipt, ProtocolError>) {
    Recorded(s, a, BlockedReceipt(a, d), BlockedEvents(a, d))
  }

  /** Executing, and then recording it. */
  function Executed(s: Core, grants: seq<PermissionGrant>, call: ExecutorCall, a: Attempt, d: PolicyDecision, events: seq<AuditEvent>):
    (Core, Result<Receipt, ProtocolError>)
  {
    Recorded(AfterCall(s, grants, call), a, ExecutedReceipt(a, d), events)
  }

  /** Acting on an evaluation: claim a use if a stored grant allowed the action, execute, record. */
  function CarriedOut(s: Core, p: ActionProposal, chat: Option<ChatSessionId>, simulate: bool, a: Attempt, evaluation: Evaluation):
    (Core, Result<Receipt, ProtocolError>)
  {
    var d := evaluation.decision;
    if evaluation.authorization.None? then Blocked(s, a, d)
    else
      var claimer := CallerFor(p, chat, a.startedAtMs);
      var claims := d.reason.PersistentExactAllow?;
      if claims && a.claimFails then (s, Err(Internal))
      else if claims && ClaimCandidate(s.grants, p, claimer).None? then (s, Err(PrivacyDenied))
      else Executed(s, if claims then Claimed(s.grants, p, claimer) else s.grants,
                    ExecutorCall(evaluation.authorization.value, simulate, None), a, d, ExecutedEvents(a, d))
  }

  function Process(k: Kernel, s: Core, p: ActionProposal, chat: Option<ChatSessionId>, simulate: bool, a: Attempt):
    (Core, Result<Receipt, ProtocolError>)
  {
    var found := k.DescriptorFor(p.action);
    if found.Err? then (s, Err(found.error))
    else if a.lookupFails then (s, Err(Internal))
    else CarriedOut(s, p, chat, simulate, a, k.engine.Authorize(found.value, p, a.executionId, ContextFor(s, p, chat, a.decidedAtMs)))
  }

  /** The grant that a lasting confirmation leaves behind, if any. */
  function GrantToKeep(pend: Pending, persistence: Persistence, expiresAtMs: Option<int>, a: Attempt):
    Result<Option<PermissionGrant>, ProtocolError>
  {
    var agent := pend.proposal.context.agent;
    var agentId := if agent.Some? then Some(agent.value.agentId) else None;
    var base := PermissionGrant(a.permissionId, Allow, Always, PermissionScope.FromProposal(pend.proposal), None, agentId,
                                UserExplicit, a.startedAtMs, None, None, None, 0);
    match persistence
    case OnlyOnce => Ok(None)
    case Forever => Ok(Some(base))
    case UntilTime =>
      if expiresAtMs.Some? && expiresAtMs.value > a.startedAtMs then Ok(Some(base.(lifetime := Until, expiresAtMs := expiresAtMs)))
      else Err(Validation)
    case ForSession =>
      if agent.Some? then Ok(Some(base.(lifetime := Session, session := Some(AgentSession(agent.value.sessionId)))))
      else if pend.chat.Some? then Ok(Some(base.(lifetime := Session, session := Some(ChatSession(pend.chat.value)))))
      else Err(Validation)
  }

  predicate UsageIsRecorded(p: ActionProposal, outcome: ExecutorOutcome) {
    outcome.Finished? && p.action.arguments.OpenApp?
  }

  /** Executing a confirmed action, noting its use, and then recording it. */
  function ExecutedConfirmed(s: Core, grants: seq<PermissionGrant>, call: ExecutorCall, p: ActionProposal, a: Attempt, d: PolicyDecision):
    (Core, Result<Option<Receipt>, ProtocolError>)
  {
    if UsageIsRecorded(p, a.outcome) && a.intentFails then (AfterCall(s, grants, call), Err(Internal))
    else
      var (after, r) := Executed(s, grants, call, a, d, ConfirmedEvents(a, d));
      (after, if r.Ok? then Ok(Some(r.value)) else Err(r.error))
  }

  /** Acting on a confirmed evaluation: keep a grant if asked to, execute, record. No stored use is spent. */
  function ConfirmedCarriedOut(s: Core, id: ConfirmationId, pend: Pending, persistence: Persistence, expiresAtMs: Option<int>, a: Attempt, evaluation: Evaluation):
    (Core, Result<Option<Receipt>, ProtocolError>)
  {
    var kept := GrantToKeep(pend, persistence, expiresAtMs, a);
    if evaluation.authorization.None? then (s, Err(PrivacyDenied))
    else if kept.Err? then (s, Err(kept.error))
    else if kept.value.Some? && (a.grantFails || !Storable(kept.value.value, a.scopeBytes)) then (s, Err(Internal))
    else
      var grants := if kept.value.Some? then Upserted(s.grants, kept.value.value) else s.grants;
      ExecutedConfirmed(s, grants, ExecutorCall(evaluation.authorization.value, false, Some(id)), pend.proposal, a, evaluation.decision)
  }

  /** Answering a confirmation. The token is consumed before anything is checked. */
  function ConfirmAction(k: Kernel, s: Core, id: ConfirmationId, allow: bool, persistence: Persistence, expiresAtMs: Option<int>, a: Attempt):
    (Core, Result<Option<Receipt>, ProtocolError>)
  {
    if id !in s.pending then (s, Err(ConfirmationExpired))
    else
      var pend, taken := s.pending[id], s.(pending := s.pending - {id});
      if pend.expiresAtMs < a.checkedAtMs then (taken, Err(ConfirmationExpired))
      else if !allow then
        if a.recordFails then (taken, Err(Internal))
        else (taken.(audit := taken.audit + [ConfirmationReceived(pend.requestExecutionId, false)]), Ok(None))
      else
        var found := k.DescriptorFor(pend.proposal.action);
        if found.Err? then (taken, Err(found.error))
        else if a.lookupFails then (taken, Err(Internal))
        else
          var context := ContextFor(s, pend.proposal, pend.chat, a.decidedAtMs);
          ConfirmedCarriedOut(taken, id, pend, persistence, expiresAtMs, a,
                              k.engine.AuthorizeConfirmedOnce(found.value, pend.proposal, a.executionId, context))
  }

  /** A chat request: process the proposal, and offer a confirmation if one is required. */
  function ChatOpen(k: Kernel, s: Core, p: ActionProposal, chat: ChatSessionId, a: Attempt, id: ConfirmationId, expiresAtMs: int): Core {
    var (after, r) := Process(k, s, p, Some(chat), false, a);
    if r.Ok? && r.value.decision.outcome.Confirm? then
      var pend := Pending(r.value.executionId, p, expiresAtMs, Some(chat));
      after.(pending := after.pending[id := pend], issued := after.issued[id := pend])
    else after
  }

  class HalquenService {
    const kernel: Kernel
    const table: GrantTable
    var profile: SecurityProfile
    var audit: seq<AuditEvent>
    var executions: map<ExecutionId, Receipt>
    var pending: map<ConfirmationId, Pending>
    ghost var issued: map<ConfirmationId, Pending>
    var calls: seq<ExecutorCall>

    ghost function State(): Core
      reads this, table
    {
      Core(table.rows, profile, audit, executions, pending, issued, calls)
    }

    ghost predicate Valid()
      reads this, table
    {
      table.Valid()
    }

    constructor (kernel: Kernel)
      ensures Valid() && fresh(table) && this.kernel == kernel
      ensures State() == INITIAL
    {
      this.kernel := kernel;
      table := new GrantTable();
      profile, audit, executions, pending, calls := Balanced, [], map[], map[], [];
      issued := map[];
    }

    method PolicyContextFor(p: ActionProposal, chat: Option<ChatSessionId>, nowMs: int) returns (context: PolicyContext)
      requires Valid()
      ensures fresh(context)
      ensures context.View() == ContextFor(State(), p, chat, nowMs)
    {
      context := new PolicyContext();
      context.SetActionContext(p.context);
      context.SetProfile(profile);
      context.SetNowMs(nowMs);
      context.SetSessionId(chat);
      var row := table.ActiveFor(p, CallerFor(p, chat, nowMs));
      if row.Some? {
        context.AddPermissionGrant(row.value);
      }
    }

    method RecordExecution(receipt: Receipt, records: seq<AuditEvent>, fails: bool) returns (r: Result<(), ProtocolError>)
      modifies this`executions, this`audit
      ensures r == if fails || receipt.executionId in old(executions) then Err(Internal) else Ok(())
      ensures executions == if r.Ok? then old(executions)[receipt.executionId := receipt] else old(executions)
      ensures audit == if r.Ok? then old(audit) + records else old(audit)
    {
      if fails || receipt.executionId in executions {
        return Err(Internal);
      }
      executions := executions[receipt.executionId := receipt];
      audit := audit + records;
      return Ok(());
    }

    /** Calls the executor and appends the rest of the trace. */
    method Execute(call: ExecutorCall, a: Attempt, decision: PolicyDecision, opening: seq<AuditEvent>)
      returns (receipt: Receipt, records: seq<AuditEvent>)
      modifies this`calls
      ensures calls == old(calls) + [call]
      ensures receipt == ExecutedReceipt(a, decision)
      ensures records == opening + Closing(a.executionId, a.outcome)
    {
      records := opening + [AuthorizationCreated(a.executionId)] + [ExecutionStarted(a.executionId)];
      calls := calls + [call];
      var status, result, error := NotExecuted, None, None;
      match a.outcome {
        case Finished(code) =>
          status := if code.Simulated? then DryRunSucceeded else Succeeded;
          result := Some(code);
          records := records + [ExecutionCompleted(a.executionId, code)];
        case Rejected(code) =>
          status, error := Failed, Some(code);
          records := records + [ExecutionFailed(a.executionId, code)];
        case DeadlineExceeded =>
          status, error := TimedOut, Some(CapabilityTimeout);
          records := records + [ExecutionTimedOut(a.executionId, CapabilityTimeout)];
      }
      receipt := Receipt(a.executionId, a.startedAtMs, Max(a.finishedAtMs, a.startedAtMs), decision, status, result, error);
    }

    /** Executes and then records; the grants are already settled. */
    method ExecuteAndRecord(call: ExecutorCall, a: Attempt, d: PolicyDecision, opening: seq<AuditEvent>) returns (r: Result<Receipt, ProtocolError>)
      requires Valid()
      modifies this
      ensures Valid() && table.rows == old(table.rows)
      ensures (State(), r) == Executed(old(State()), table.rows, call, a, d, opening + Closing(a.executionId, a.outcome))
    {
      var receipt, records := Execute(call, a, d, opening);
      var recorded := RecordExecution(receipt, records, a.recordFails);
      r := if recorded.Ok? then Ok(receipt) else Err(recorded.error);
    }

    method CarryOut(p: ActionProposal, chat: Option<ChatSessionId>, simulate: bool, a: Attempt, evaluation: Evaluation)
      returns (r: Result<Receipt, ProtocolError>)
      requires Valid()
      modifies this, table
      ensures Valid()
      ensures (State(), r) == CarriedOut(old(State()), p, chat, simulate, a, evaluation)
    {
      var decision := evaluation.decision;
      var records := [ProposalCreated(a.executionId), ActionRequested(a.executionId), PolicyEvaluated(Some(a.executionId), decision)];
      if evaluation.authorization.None? {
        records := records + [if decision.outcome.Confirm? then ConfirmationRequired(a.executionId) else ActionDenied(a.executionId)];
        var receipt := BlockedReceipt(a, decision);
        var recorded := RecordExecution(receipt, records, a.recordFails);
        return if recorded.Ok? then Ok(receipt) else Err(recorded.error);
      }
      if decision.reason.PersistentExactAllow? {
        var claim := table.Claim(p, CallerFor(p, chat, a.startedAtMs), a.claimFails);
        if claim.Err? {
          return Err(Internal);
        }
        if claim.value.None? {
          return Err(PrivacyDenied);
        }
      }
      r := ExecuteAndRecord(ExecutorCall(evaluation.authorization.value, simulate, None), a, decision, records);
    }

    method ProcessProposal(p: ActionProposal, chat: Option<ChatSessionId>, simulate: bool, a: Attempt)
      returns (r: Result<Receipt, ProtocolError>)
      requires Valid()
      modifies this, table
      ensures Valid()
      ensures (State(), r) == Process(kernel, old(State()), p, chat, simulate, a)
    {
      var found := kernel.DescriptorFor(p.action);
      if found.Err? {
        return Err(found.error);
      }
      if a.lookupFails {
        return Err(Internal);
      }
      var context := PolicyContextFor(p, chat, a.decidedAtMs);
      r := CarryOut(p, chat, simulate, a, kernel.engine.Authorize(found.value, p, a.executionId, context.View()));
    }

    method ExecuteConfirmed(call: ExecutorCall, p: ActionProposal, a: Attempt, d: PolicyDecision) returns (r: Result<Option<Receipt>, ProtocolError>)
      requires Valid()
      modifies this
      ensures Valid() && table.rows == old(table.rows)
      ensures (State(), r) == ExecutedConfirmed(old(State()), table.rows, call, p, a, d)
    {
      var records := [ProposalCreated(a.executionId), ActionRequested(a.executionId), PolicyEvaluated(Some(a.executionId), d)]
                     + [ConfirmationReceived(a.executionId, true)];
      var receipt;
      receipt, records := Execute(call, a, d, records);
      if UsageIsRecorded(p, a.outcome) && a.intentFails {
        return Err(Internal);
      }
      var recorded := RecordExecution(receipt, records, a.recordFails);
      r := if recorded.Ok? then Ok(Some(receipt)) else Err(recorded.error);
    }

    method CarryOutConfirmed(id: ConfirmationId, pend: Pending, persistence: Persistence, expiresAtMs: Option<int>, a: Attempt, evaluation: Evaluation)
      returns (r: Result<Option<Receipt>, ProtocolError>)
      requires Valid()
      modifies this, table
      ensures Valid()
      ensures (State(), r) == ConfirmedCarriedOut(old(State()), id, pend, persistence, expiresAtMs, a, evaluation)
    {
      if evaluation.authorization.None? {
        return Err(PrivacyDenied);
      }
      var kept := GrantToKeep(pend, persistence, expiresAtMs, a);
      if kept.Err? {
        return Err(kept.error);
      }
      if kept.value.Some? {
        var stored := table.Upsert(kept.value.value, a.scopeBytes, a.grantFails);
        if stored.Err? {
          return Err(Internal);
        }
      }
      r := ExecuteConfirmed(ExecutorCall(evaluation.authorization.value, false, Some(id)), pend.proposal, a, evaluation.decision);
    }

    method Confirm(id: ConfirmationId, allow: bool, persistence: Persistence, expiresAtMs: Option<int>, a: Attempt)
      returns (r: Result<Option<Receipt>, ProtocolError>)
      requires Valid()
      modifies this, table
      ensures Valid()
      ensures (State(), r) == ConfirmAction(kernel, old(State()), id, allow, persistence, expiresAtMs, a)
    {
      if id !in pending {
        return Err(ConfirmationExpired);
      }
      var pend := pending[id];
      pending := pending - {id};
      if pend.expiresAtMs < a.checkedAtMs {
        return Err(ConfirmationExpired);
      }
      if !allow {
        if a.recordFails {
          return Err(Internal);
        }
        audit := audit + [ConfirmationReceived(pend.requestExecutionId, false)];
        return Ok(None);
      }
      var found := kernel.DescriptorFor(pend.proposal.action);
      if found.Err? {
        return Err(found.error);
      }
      if a.lookupFails {
        return Err(Internal);
      }
      var context := PolicyContextFor(pend.proposal, pend.chat, a.decidedAtMs);
      r := CarryOutConfirmed(id, pend, persistence, expiresAtMs, a,
                             kernel.engine.AuthorizeConfirmedOnce(found.value, pend.proposal, a.executionId, context.View()));
    }

    method OpenFromChat(p: ActionProposal, chat: ChatSessionId, a: Attempt, id: ConfirmationId, expiresAtMs: int)
      requires Valid()
      modifies this, table
      ensures Valid()
      ensures State() == ChatOpen(kernel, old(State()), p, chat, a, id, expiresAtMs)
    {
      var r := ProcessProposal(p, Some(chat), false, a);
      if r.Ok? && r.value.decision.outcome.Confirm? {
        var pend := Pending(r.value.executionId, p, expiresAtMs, Some(chat));
        pending := pending[id := pend];
        issued := issued[id := pend];
      }
    }
  }
}
