/** What every run of the service keeps: traces that follow one automaton and match their receipts,
    single-use confirmations, and decisions that see every stored grant. */
module AuthorityRuns {
  import opened Prelude
  import opened SqlOrder
  import opened Domain
  import opened Policy
  import opened GrantStore
  import opened Authority
  import Sessions

  /** How far an execution's trace has come. `Broken` is the sink of the automaton. */
  datatype Phase =
    | Unknown
    | Proposed
    | Requested
    | Evaluated(decision: PolicyDecision)
    | Refused(decision: PolicyDecision)
    | Waiting(decision: PolicyDecision)
    | Declined(decision: PolicyDecision)
    | Accepted(decision: PolicyDecision)
    | Granted(decision: PolicyDecision)
    | Running(decision: PolicyDecision)
    | Done(decision: PolicyDecision, result: ResultCode)
    | Erred(decision: PolicyDecision, error: ErrorCode)
    | Late(decision: PolicyDecision)
    | Broken

  function Advance(phase: Phase, e: AuditEvent): Phase {
    match (phase, e)
    case (Unknown, ProposalCreated(_)) => Proposed
    case (Proposed, ActionRequested(_)) => Requested
    case (Requested, PolicyEvaluated(_, d)) => Evaluated(d)
    case (Evaluated(d), ActionDenied(_)) => if d.outcome.Denied? then Refused(d) else Broken
    case (Evaluated(d), ConfirmationRequired(_)) => if d.outcome.Confirm? then Waiting(d) else Broken
    case (Waiting(d), ConfirmationReceived(_, accepted)) => if accepted then Broken else Declined(d)
    case (Evaluated(d), ConfirmationReceived(_, accepted)) => if accepted && d.outcome.Allowed? then Accepted(d) else Broken
    case (Evaluated(d), AuthorizationCreated(_)) => if d.outcome.Allowed? then Granted(d) else Broken
    case (Accepted(d), AuthorizationCreated(_)) => Granted(d)
    case (Granted(d), ExecutionStarted(_)) => Running(d)
    case (Running(d), ExecutionCompleted(_, r)) => Done(d, r)
    case (Running(d), ExecutionFailed(_, x)) => Erred(d, x)
    case (Running(d), ExecutionTimedOut(_, x)) => if x.CapabilityTimeout? then Late(d) else Broken
    case _ => Broken
  }

  /** The phase that the audit log's events for one execution lead to. */
  function PhaseOf(audit: seq<AuditEvent>, id: ExecutionId): Phase {
    if audit == [] then Unknown
    else
      var before, last := PhaseOf(audit[..|audit| - 1], id), audit[|audit| - 1];
      if last.Execution() == Some(id) then Advance(before, last) else before
  }

  /** A finished trace and the receipt stored with it tell the same story. */
  predicate Agrees(phase: Phase, r: Receipt) {
    && r.finishedAtMs >= r.startedAtMs
    && match phase
       case Refused(d) => r.decision == d && r.status.NotExecuted? && r.result.None? && r.error.None?
       case Waiting(d) => r.decision == d && r.status.NotExecuted? && r.result.None? && r.error.None?
       case Declined(d) => r.decision == d && r.status.NotExecuted? && r.result.None? && r.error.None?
       case Done(d, code) =>
         r.decision == d && r.status == (if code.Simulated? then DryRunSucceeded else Succeeded) && r.result == Some(code) && r.error.None?
       case Erred(d, x) => r.decision == d && r.status.Failed? && r.result.None? && r.error == Some(x)
       case Late(d) => r.decision == d && r.status.TimedOut? && r.result.None? && r.error == Some(CapabilityTimeout)
       case _ => false
  }

  datatype Op =
    | ExecuteOp(p: ActionProposal, chat: Option<ChatSessionId>, simulate: bool, a: Attempt)
    | ChatOp(p: ActionProposal, session: ChatSessionId, a: Attempt, offered: ConfirmationId, expiresAtMs: int)
    | ConfirmOp(id: ConfirmationId, allow: bool, persistence: Persistence, until: Option<int>, a: Attempt)
    | EvaluateOp(decision: PolicyDecision)
    | GrantOp(op: TableOp)
    | ProfileOp(profile: SecurityProfile)
    | RestartOp(nowMs: int)

  /** A new daemon on the same database: it holds no confirmations, and has revoked what was bound to a daemon or
      agent session. */
  function Restarted(s: Core, nowMs: int): Core {
    s.(pending := map[], grants := Sessions.RevokeBound(s.grants, Sessions.AgentOrDaemon(), nowMs))
  }

  function Next(k: Kernel, s: Core, op: Op): Core {
    match op
    case ExecuteOp(p, chat, simulate, a) => Process(k, s, p, chat, simulate, a).0
    case ChatOp(p, session, a, offered, expiry) => ChatOpen(k, s, p, session, a, offered, expiry)
    case ConfirmOp(id, allow, persistence, until, a) => ConfirmAction(k, s, id, allow, persistence, until, a).0
    case EvaluateOp(decision) => s.(audit := s.audit + [PolicyEvaluated(None, decision)])
    case GrantOp(tableOp) => s.(grants := Step(s.grants, tableOp))
    case ProfileOp(profile) => s.(profile := profile)
    case RestartOp(nowMs) => Restarted(s, nowMs)
  }

  /** A generated confirmation identifier has not been offered before. */
  predicate Enabled(s: Core, op: Op) {
    op.ChatOp? ==> op.offered !in s.issued
  }

  function Run(k: Kernel, ops: seq<Op>): Core {
    if ops == [] then INITIAL else Next(k, Run(k, ops[..|ops| - 1]), ops[|ops| - 1])
  }

  ghost predicate Admissible(k: Kernel, ops: seq<Op>) {
    forall i | 0 <= i < |ops| :: Enabled(Run(k, ops[..i]), ops[i])
  }

  ghost predicate GrantsInv(s: Core) {
    && DistinctIds(s.grants)
    && forall g | g in s.grants :: SessionConsistent(g)
  }

  ghost predicate TraceInv(audit: seq<AuditEvent>, executions: map<ExecutionId, Receipt>) {
    forall id :: if id in executions then executions[id].executionId == id && Agrees(PhaseOf(audit, id), executions[id])
                 else PhaseOf(audit, id).Unknown?
  }

  ghost predicate PendingInv(s: Core) {
    && (forall id | id in s.pending :: && id in s.issued && s.issued[id] == s.pending[id]
                                       && PhaseOf(s.audit, s.pending[id].requestExecutionId).Waiting?)
    && (forall i, j | i in s.pending && j in s.pending && s.pending[i].requestExecutionId == s.pending[j].requestExecutionId :: i == j)
  }

  ghost predicate CallsInv(s: Core) {
    && (forall c | c in s.calls && c.confirmation.Some? ::
          && c.confirmation.value in s.issued && c.confirmation.value !in s.pending
          && c.authorization.action == s.issued[c.confirmation.value].proposal.action
          && !c.simulate)
    && (forall i, j | 0 <= i < j < |s.calls| && s.calls[i].confirmation.Some? :: s.calls[i].confirmation != s.calls[j].confirmation)
  }

  /** No receipt claims an execution that did not reach an executor. */
  ghost predicate ReceiptsInv(s: Core) {
    forall id | id in s.executions && !s.executions[id].status.NotExecuted? ::
      exists c | c in s.calls :: c.authorization.executionId == id
  }

  lemma PhaseAppend(audit: seq<AuditEvent>, e: AuditEvent, id: ExecutionId)
    ensures PhaseOf(audit + [e], id) ==
            if e.Execution() == Some(id) then Advance(PhaseOf(audit, id), e) else PhaseOf(audit, id)
  {
    assert (audit + [e])[..|audit|] == audit;
  }

  lemma {:induction false} PhaseOfOthers(audit: seq<AuditEvent>, events: seq<AuditEvent>, id: ExecutionId)
    requires forall e | e in events :: e.Execution() != Some(id)
    ensures PhaseOf(audit + events, id) == PhaseOf(audit, id)
  {
    if events == [] {
      assert audit + events == audit;
    } else {
      var front := events[..|events| - 1];
      PhaseOfOthers(audit, front, id);
      PhaseAppend(audit + front, events[|events| - 1], id);
      assert audit + events == audit + front + [events[|events| - 1]];
    }
  }

  lemma PhaseAfterOpening(audit: seq<AuditEvent>, id: ExecutionId, d: PolicyDecision)
    requires PhaseOf(audit, id).Unknown?
    ensures PhaseOf(audit + Opening(id, d), id) == Evaluated(d)
  {
    var a1 := audit + [ProposalCreated(id)];
    var a2 := a1 + [ActionRequested(id)];
    PhaseAppend(audit, ProposalCreated(id), id);
    PhaseAppend(a1, ActionRequested(id), id);
    PhaseAppend(a2, PolicyEvaluated(Some(id), d), id);
    assert audit + Opening(id, d) == a2 + [PolicyEvaluated(Some(id), d)];
  }

  lemma PhaseAfterClosing(audit: seq<AuditEvent>, a: Attempt, d: PolicyDecision)
    requires d.outcome.Allowed?
    requires PhaseOf(audit, a.executionId) == Evaluated(d) || PhaseOf(audit, a.executionId) == Accepted(d)
    ensures Agrees(PhaseOf(audit + Closing(a.executionId, a.outcome), a.executionId), ExecutedReceipt(a, d))
  {
    var id, closing := a.executionId, Closing(a.executionId, a.outcome);
    var a1 := audit + [closing[0]];
    var a2 := a1 + [closing[1]];
    PhaseAppend(audit, closing[0], id);
    PhaseAppend(a1, closing[1], id);
    PhaseAppend(a2, closing[2], id);
    assert audit + closing == a2 + [closing[2]];
  }

  /** Recording a fresh execution with a well-formed trace keeps every trace matched to its receipt. */
  lemma RecordingKeepsTraces(s: Core, a: Attempt, receipt: Receipt, events: seq<AuditEvent>)
    requires TraceInv(s.audit, s.executions)
    requires receipt.executionId == a.executionId
    requires forall e | e in events :: e.Execution() == Some(a.executionId)
    requires PhaseOf(s.audit, a.executionId).Unknown? ==> Agrees(PhaseOf(s.audit + events, a.executionId), receipt)
    ensures var after := Recorded(s, a, receipt, events).0;
            && TraceInv(after.audit, after.executions)
            && (forall id | PhaseOf(s.audit, id).Waiting? :: PhaseOf(after.audit, id) == PhaseOf(s.audit, id))
  {
    var after := Recorded(s, a, receipt, events).0;
    if after != s {
      forall id | id != a.executionId ensures PhaseOf(after.audit, id) == PhaseOf(s.audit, id) {
        PhaseOfOthers(s.audit, events, id);
      }
    }
  }

  lemma BlockedTrace(audit: seq<AuditEvent>, a: Attempt, d: PolicyDecision)
    requires PhaseOf(audit, a.executionId).Unknown? && !d.outcome.Allowed?
    ensures var phase := PhaseOf(audit + BlockedEvents(a, d), a.executionId);
            Agrees(phase, BlockedReceipt(a, d)) && (d.outcome.Confirm? ==> phase == Waiting(d))
  {
    var events := BlockedEvents(a, d);
    PhaseAfterOpening(audit, a.executionId, d);
    PhaseAppend(audit + Opening(a.executionId, d), events[3], a.executionId);
    assert audit + events == audit + Opening(a.executionId, d) + [events[3]];
  }

  lemma ExecutedTrace(audit: seq<AuditEvent>, a: Attempt, d: PolicyDecision)
    requires PhaseOf(audit, a.executionId).Unknown? && d.outcome.Allowed?
    ensures Agrees(PhaseOf(audit + ExecutedEvents(a, d), a.executionId), ExecutedReceipt(a, d))
  {
    PhaseAfterOpening(audit, a.executionId, d);
    PhaseAfterClosing(audit + Opening(a.executionId, d), a, d);
    assert audit + ExecutedEvents(a, d)
        == audit + Opening(a.executionId, d) + Closing(a.executionId, a.outcome);
  }

  lemma ConfirmedTrace(audit: seq<AuditEvent>, a: Attempt, d: PolicyDecision)
    requires PhaseOf(audit, a.executionId).Unknown? && d.outcome.Allowed?
    ensures Agrees(PhaseOf(audit + ConfirmedEvents(a, d), a.executionId), ExecutedReceipt(a, d))
  {
    var begun, received := audit + Opening(a.executionId, d), ConfirmationReceived(a.executionId, true);
    PhaseAfterOpening(audit, a.executionId, d);
    PhaseAppend(begun, received, a.executionId);
    PhaseAfterClosing(begun + [received], a, d);
    assert audit + ConfirmedEvents(a, d) == begun + [received] + Closing(a.executionId, a.outcome);
  }

  /** Declining a confirmation appends one event to the waiting trace and to no other. */
  lemma DecliningKeepsTraces(s: Core, id: ExecutionId)
    requires TraceInv(s.audit, s.executions) && PhaseOf(s.audit, id).Waiting?
    ensures TraceInv(s.audit + [ConfirmationReceived(id, false)], s.executions)
    ensures forall x | x != id :: PhaseOf(s.audit + [ConfirmationReceived(id, false)], x) == PhaseOf(s.audit, x)
  {
    forall x ensures PhaseOf(s.audit + [ConfirmationReceived(id, false)], x) ==
                     if x == id then Declined(PhaseOf(s.audit, id).decision) else PhaseOf(s.audit, x) {
      PhaseAppend(s.audit, ConfirmationReceived(id, false), x);
    }
  }

  ghost predicate Inv(s: Core) {
    GrantsInv(s) && TraceInv(s.audit, s.executions) && PendingInv(s) && CallsInv(s) && ReceiptsInv(s)
  }

  lemma WaitingIsStored(s: Core, id: ExecutionId)
    requires TraceInv(s.audit, s.executions) && PhaseOf(s.audit, id).Waiting?
    ensures id in s.executions
  {
  }

  /** What processing one proposal leaves: the invariant, the confirmations, and, when it must be confirmed,
      a waiting trace for an execution not seen before. */
  ghost predicate StepKept(s: Core, step: (Core, Result<Receipt, ProtocolError>)) {
    var (after, r) := step;
    && Inv(after) && after.pending == s.pending && after.issued == s.issued
    && (forall id | PhaseOf(s.audit, id).Waiting? :: PhaseOf(after.audit, id).Waiting?)
    && (r.Ok? && r.value.decision.outcome.Confirm? ==>
          && PhaseOf(after.audit, r.value.executionId).Waiting?
          && r.value.executionId !in s.executions)
  }

  lemma PendingStays(s: Core, after: Core)
    requires PendingInv(s) && after.pending == s.pending && after.issued == s.issued
    requires forall id | PhaseOf(s.audit, id).Waiting? :: PhaseOf(after.audit, id) == PhaseOf(s.audit, id)
    ensures PendingInv(after)
  {
  }

  lemma BlockedKeepsInv(s: Core, a: Attempt, d: PolicyDecision)
    requires Inv(s) && !d.outcome.Allowed?
    ensures StepKept(s, Blocked(s, a, d))
  {
    var (after, r) := Blocked(s, a, d);
    if PhaseOf(s.audit, a.executionId).Unknown? {
      BlockedTrace(s.audit, a, d);
    }
    RecordingKeepsTraces(s, a, BlockedReceipt(a, d), BlockedEvents(a, d));
    PendingStays(s, after);
    ReceiptsAfterCall(s, after, a.executionId);
  }

  lemma NewCallKeepsCalls(s: Core, call: ExecutorCall)
    requires CallsInv(s)
    requires call.confirmation.Some? ==>
               && call.confirmation.value in s.issued && call.confirmation.value !in s.pending && !call.simulate
               && call.authorization.action == s.issued[call.confirmation.value].proposal.action
               && forall c | c in s.calls :: c.confirmation != call.confirmation
    ensures CallsInv(s.(calls := s.calls + [call]))
  {
  }

  lemma ExecutedKeepsTraces(s: Core, grants: seq<PermissionGrant>, call: ExecutorCall, a: Attempt, d: PolicyDecision, events: seq<AuditEvent>)
    requires TraceInv(s.audit, s.executions) && d.outcome.Allowed?
    requires events == ExecutedEvents(a, d) || events == ConfirmedEvents(a, d)
    ensures var after := Executed(s, grants, call, a, d, events).0;
            && TraceInv(after.audit, after.executions)
            && (forall id | PhaseOf(s.audit, id).Waiting? :: PhaseOf(after.audit, id) == PhaseOf(s.audit, id))
  {
    if PhaseOf(s.audit, a.executionId).Unknown? {
      ExecutedTrace(s.audit, a, d);
      ConfirmedTrace(s.audit, a, d);
    }
    RecordingKeepsTraces(AfterCall(s, grants, call), a, ExecutedReceipt(a, d), events);
  }

  lemma CallKeepsInv(s: Core, grants: seq<PermissionGrant>, call: ExecutorCall)
    requires Inv(s) && GrantsInv(s.(grants := grants))
    requires call.confirmation.Some? ==>
               && call.confirmation.value in s.issued && call.confirmation.value !in s.pending && !call.simulate
               && call.authorization.action == s.issued[call.confirmation.value].proposal.action
               && forall c | c in s.calls :: c.confirmation != call.confirmation
    ensures Inv(AfterCall(s, grants, call))
  {
    NewCallKeepsCalls(s, call);
    PendingStays(s, AfterCall(s, grants, call));
    forall id | id in s.executions && !s.executions[id].status.NotExecuted?
      ensures exists c | c in s.calls + [call] :: c.authorization.executionId == id
    {
      var c :| c in s.calls && c.authorization.executionId == id;
      assert c in s.calls + [call];
    }
  }

  lemma ExecutedKeepsReceipts(s: Core, grants: seq<PermissionGrant>, call: ExecutorCall, a: Attempt, d: PolicyDecision, events: seq<AuditEvent>)
    requires ReceiptsInv(AfterCall(s, grants, call)) && call.authorization.executionId == a.executionId
    ensures ReceiptsInv(Executed(s, grants, call, a, d, events).0)
  {
    var called, after := AfterCall(s, grants, call), Executed(s, grants, call, a, d, events).0;
    assert call in after.calls;
    ReceiptsAfterCall(called, after, a.executionId);
  }

  lemma ExecutedKeepsTheRest(s: Core, grants: seq<PermissionGrant>, call: ExecutorCall, a: Attempt, d: PolicyDecision, events: seq<AuditEvent>)
    ensures var after := Executed(s, grants, call, a, d, events).0;
            after.grants == grants && after.pending == s.pending && after.issued == s.issued && after.calls == s.calls + [call]
    ensures var r := Executed(s, grants, call, a, d, events).1; r.Ok? ==> r.value.decision == d
  {
  }

  lemma ExecutedKeepsInv(s: Core, grants: seq<PermissionGrant>, call: ExecutorCall, a: Attempt, d: PolicyDecision, events: seq<AuditEvent>)
    requires Inv(s) && GrantsInv(s.(grants := grants)) && d.outcome.Allowed? && call.authorization.executionId == a.executionId
    requires events == ExecutedEvents(a, d) || events == ConfirmedEvents(a, d)
    requires call.confirmation.Some? ==>
               && call.confirmation.value in s.issued && call.confirmation.value !in s.pending && !call.simulate
               && call.authorization.action == s.issued[call.confirmation.value].proposal.action
               && forall c | c in s.calls :: c.confirmation != call.confirmation
    ensures StepKept(s, Executed(s, grants, call, a, d, events))
  {
    var after := Executed(s, grants, call, a, d, events).0;
    CallKeepsInv(s, grants, call);
    ExecutedKeepsTheRest(s, grants, call, a, d, events);
    ExecutedKeepsTraces(s, grants, call, a, d, events);
    ExecutedKeepsReceipts(s, grants, call, a, d, events);
    PendingStays(s, after);
  }

  lemma CarryingOutKeepsInv(s: Core, p: ActionProposal, chat: Option<ChatSessionId>, simulate: bool, a: Attempt, e: Evaluation)
    requires Inv(s)
    requires e.authorization.Some? <==> e.decision.outcome.Allowed?
    requires e.authorization.Some? ==> e.authorization.value.executionId == a.executionId
    ensures StepKept(s, CarriedOut(s, p, chat, simulate, a, e))
  {
    if e.authorization.None? {
      BlockedKeepsInv(s, a, e.decision);
    } else {
      var claimer := CallerFor(p, chat, a.startedAtMs);
      ClaimKeepsTable(s.grants, p, claimer);
      ExecutedKeepsInv(s, if e.decision.reason.PersistentExactAllow? then Claimed(s.grants, p, claimer) else s.grants,
                       ExecutorCall(e.authorization.value, simulate, None), a, e.decision, ExecutedEvents(a, e.decision));
    }
  }

  lemma ProcessKeepsInv(k: Kernel, s: Core, p: ActionProposal, chat: Option<ChatSessionId>, simulate: bool, a: Attempt)
    requires Inv(s)
    ensures StepKept(s, Process(k, s, p, chat, simulate, a))
  {
    var found := k.DescriptorFor(p.action);
    if found.Ok? && !a.lookupFails {
      var ctx := ContextFor(s, p, chat, a.decidedAtMs);
      AuthorizationNamesExecution(k.engine, found.value, p, a.executionId, ctx);
      CarryingOutKeepsInv(s, p, chat, simulate, a, k.engine.Authorize(found.value, p, a.executionId, ctx));
    }
  }

  lemma OfferKeepsInv(k: Kernel, s: Core, p: ActionProposal, session: ChatSessionId, a: Attempt, id: ConfirmationId, expiry: int)
    requires Inv(s) && id !in s.issued
    ensures Inv(ChatOpen(k, s, p, session, a, id, expiry))
  {
    ProcessKeepsInv(k, s, p, Some(session), false, a);
    forall j | j in s.pending ensures s.pending[j].requestExecutionId in s.executions {
      WaitingIsStored(s, s.pending[j].requestExecutionId);
    }
    var step := Process(k, s, p, Some(session), false, a);
    OfferStep(s, step, ChatOpen(k, s, p, session, a, id, expiry), p, session, id, expiry);
  }

  lemma OfferStep(s: Core, step: (Core, Result<Receipt, ProtocolError>), after: Core, p: ActionProposal, session: ChatSessionId, id: ConfirmationId, expiry: int)
    requires Inv(s) && StepKept(s, step) && id !in s.issued
    requires forall j | j in s.pending :: s.pending[j].requestExecutionId in s.executions
    requires after == if step.1.Ok? && step.1.value.decision.outcome.Confirm?
                      then var pend := Pending(step.1.value.executionId, p, expiry, Some(session));
                           step.0.(pending := step.0.pending[id := pend], issued := step.0.issued[id := pend])
                      else step.0
    ensures Inv(after)
  {
  }

  lemma TakingKeepsInv(s: Core, id: ConfirmationId)
    requires Inv(s) && id in s.pending
    ensures Inv(s.(pending := s.pending - {id}))
    ensures forall c | c in s.calls :: c.confirmation != Some(id)
    ensures forall j | j in s.pending - {id} :: s.pending[j].requestExecutionId != s.pending[id].requestExecutionId
  {
  }

  lemma ConfirmingKeepsInv(s: Core, id: ConfirmationId, pend: Pending, persistence: Persistence, until: Option<int>, a: Attempt, e: Evaluation)
    requires Inv(s) && id !in s.pending && id in s.issued && s.issued[id] == pend
    requires forall c | c in s.calls :: c.confirmation != Some(id)
    requires e.authorization.Some? <==> e.decision.outcome.Allowed?
    requires e.authorization.Some? ==> e.authorization.value.executionId == a.executionId && e.authorization.value.action == pend.proposal.action
    ensures Inv(ConfirmedCarriedOut(s, id, pend, persistence, until, a, e).0)
  {
    var kept := GrantToKeep(pend, persistence, until, a);
    if e.authorization.Some? && kept.Ok? && (kept.value.Some? ==> Storable(kept.value.value, a.scopeBytes)) {
      if kept.value.Some? {
        UpsertKeepsTable(s.grants, kept.value.value);
      }
      var grants := if kept.value.Some? then Upserted(s.grants, kept.value.value) else s.grants;
      var call := ExecutorCall(e.authorization.value, false, Some(id));
      CallKeepsInv(s, grants, call);
      ExecutedKeepsInv(s, grants, call, a, e.decision, ConfirmedEvents(a, e.decision));
    }
  }

  lemma AnsweringKeepsInv(k: Kernel, s: Core, id: ConfirmationId, allow: bool, persistence: Persistence, until: Option<int>, a: Attempt)
    requires Inv(s)
    ensures Inv(ConfirmAction(k, s, id, allow, persistence, until, a).0)
  {
    if id in s.pending {
      var pend, taken := s.pending[id], s.(pending := s.pending - {id});
      TakingKeepsInv(s, id);
      DecliningKeepsTraces(s, pend.requestExecutionId);
      var found := k.DescriptorFor(pend.proposal.action);
      if pend.expiresAtMs >= a.checkedAtMs && allow && found.Ok? && !a.lookupFails {
        var ctx := ContextFor(s, pend.proposal, pend.chat, a.decidedAtMs);
        AuthorizationNamesExecution(k.engine, found.value, pend.proposal, a.executionId, ctx);
        ConfirmingKeepsInv(taken, id, pend, persistence, until, a,
                           k.engine.AuthorizeConfirmedOnce(found.value, pend.proposal, a.executionId, ctx));
      }
    }
  }

  lemma RestartingKeepsInv(s: Core, nowMs: int)
    requires Inv(s)
    ensures Inv(Restarted(s, nowMs))
  {
    var after := Restarted(s, nowMs);
    forall i | 0 <= i < |s.grants| ensures after.grants[i].id == s.grants[i].id && SessionConsistent(after.grants[i]) {
      assert s.grants[i] in s.grants;
    }
  }

  lemma NextKeepsInv(k: Kernel, s: Core, op: Op)
    requires Inv(s) && Enabled(s, op)
    ensures Inv(Next(k, s, op))
  {
    match op
    case ExecuteOp(p, chat, simulate, a) => ProcessKeepsInv(k, s, p, chat, simulate, a);
    case ChatOp(p, session, a, offered, expiry) => OfferKeepsInv(k, s, p, session, a, offered, expiry);
    case ConfirmOp(id, allow, persistence, until, a) => AnsweringKeepsInv(k, s, id, allow, persistence, until, a);
    case EvaluateOp(decision) =>
      forall id ensures PhaseOf(s.audit + [PolicyEvaluated(None, decision)], id) == PhaseOf(s.audit, id) {
        PhaseAppend(s.audit, PolicyEvaluated(None, decision), id);
      }
    case GrantOp(tableOp) =>
      match tableOp {
        case UpsertOp(g, bytes) => if Storable(g, bytes) { UpsertKeepsTable(s.grants, g); }
        case RevokeOp(id, nowMs) =>
        case ClaimOp(p, caller) => ClaimKeepsTable(s.grants, p, caller);
      }
    case ProfileOp(profile) =>
    case RestartOp(nowMs) => RestartingKeepsInv(s, nowMs);
  }

  lemma AdmissibleFront(k: Kernel, ops: seq<Op>)
    requires Admissible(k, ops) && ops != []
    ensures Admissible(k, ops[..|ops| - 1])
  {
    var front := ops[..|ops| - 1];
    forall i | 0 <= i < |front| ensures Enabled(Run(k, front[..i]), front[i]) {
      assert front[..i] == ops[..i];
    }
  }

  lemma {:induction false} RunKeepsInv(k: Kernel, ops: seq<Op>)
    requires Admissible(k, ops)
    ensures Inv(Run(k, ops))
  {
    if ops != [] {
      var front := ops[..|ops| - 1];
      AdmissibleFront(k, ops);
      RunKeepsInv(k, front);
      assert Enabled(Run(k, ops[..|ops| - 1]), ops[|ops| - 1]);
      NextKeepsInv(k, Run(k, front), ops[|ops| - 1]);
    }
  }

  /** In every reachable state the events of each execution spell a word of the automaton, and the stored
      receipt has the decision, status and codes of that word. Without a receipt there are no events, and a
      receipt of an execution implies a call of an executor. */
  lemma TracesMatchReceipts(k: Kernel, ops: seq<Op>, id: ExecutionId)
    requires Admissible(k, ops)
    ensures var s := Run(k, ops);
            && (id in s.executions ==> Agrees(PhaseOf(s.audit, id), s.executions[id]))
            && (id !in s.executions ==> forall e | e in s.audit :: e.Execution() != Some(id))
            && (id in s.executions && !s.executions[id].status.NotExecuted? ==>
                  exists c | c in s.calls :: c.authorization.executionId == id)
  {
    RunKeepsInv(k, ops);
    NoEventsWhileUnknown(Run(k, ops).audit, id);
  }

  lemma {:induction false} NoEventsWhileUnknown(audit: seq<AuditEvent>, id: ExecutionId)
    ensures PhaseOf(audit, id).Unknown? ==> forall e | e in audit :: e.Execution() != Some(id)
  {
    if audit != [] {
      NoEventsWhileUnknown(audit[..|audit| - 1], id);
    }
  }

  /** A confirmation leads to at most one executor call over the whole run, and that call carries exactly the
      action it was offered for. */
  lemma ConfirmationsAreSingleUse(k: Kernel, ops: seq<Op>)
    requires Admissible(k, ops)
    ensures var s := Run(k, ops);
            && (forall i, j | 0 <= i < j < |s.calls| && s.calls[i].confirmation.Some? :: s.calls[i].confirmation != s.calls[j].confirmation)
            && (forall c | c in s.calls && c.confirmation.Some? ::
                  && c.confirmation.value in s.issued
                  && c.authorization.action == s.issued[c.confirmation.value].proposal.action)
  {
    RunKeepsInv(k, ops);
  }

  lemma ConfirmedCallsExactlyWhen(s: Core, id: ConfirmationId, pend: Pending, persistence: Persistence, until: Option<int>, a: Attempt, e: Evaluation)
    ensures ConfirmedCarriedOut(s, id, pend, persistence, until, a, e).0.calls != s.calls <==>
            && e.authorization.Some?
            && var kept := GrantToKeep(pend, persistence, until, a);
               kept.Ok? && (kept.value.Some? ==> !a.grantFails && Storable(kept.value.value, a.scopeBytes))
    ensures ConfirmedCarriedOut(s, id, pend, persistence, until, a, e).0.pending == s.pending
    ensures ConfirmedCarriedOut(s, id, pend, persistence, until, a, e).0.issued == s.issued
  {
    assert forall c: ExecutorCall :: s.calls + [c] != s.calls;
  }

  /** What keeping a grant needs: for a time, one that lies ahead; for a session, one to bind it to; and a write that
      succeeds. */
  predicate Keepable(pend: Pending, persistence: Persistence, until: Option<int>, a: Attempt) {
    || persistence.OnlyOnce?
    || (&& !a.grantFails && a.scopeBytes <= MAX_SCOPE_BYTES
        && (persistence.UntilTime? ==> until.Some? && a.startedAtMs < until.value)
        && (persistence.ForSession? ==> pend.proposal.context.agent.Some? || pend.chat.Some?))
  }

  lemma KeepingExactlyWhen(pend: Pending, persistence: Persistence, until: Option<int>, a: Attempt)
    requires |pend.proposal.context.resources| <= MAX_ACTION_RESOURCES
    ensures var kept := GrantToKeep(pend, persistence, until, a);
            kept.Ok? && (kept.value.Some? ==> !a.grantFails && Storable(kept.value.value, a.scopeBytes)) <==>
            Keepable(pend, persistence, until, a)
  {
  }

  /** Answering a confirmation reaches the executor exactly when the token is still held and unexpired, the
      answer is yes, the capability fits, policy at that moment does not deny, and any grant to keep can be kept. */
  lemma ConfirmationExecutesExactlyWhen(k: Kernel, s: Core, id: ConfirmationId, allow: bool, persistence: Persistence, until: Option<int>, a: Attempt)
    requires k.Valid()
    ensures var after := ConfirmAction(k, s, id, allow, persistence, until, a).0;
            after.calls != s.calls <==>
            && id in s.pending && a.checkedAtMs <= s.pending[id].expiresAtMs && allow && !a.lookupFails
            && (var pend := s.pending[id];
                var found := k.DescriptorFor(pend.proposal.action);
                && found.Ok?
                && !k.engine.Decide(found.value, pend.proposal, ContextFor(s, pend.proposal, pend.chat, a.decidedAtMs)).outcome.Denied?
                && Keepable(pend, persistence, until, a))
  {
    if id in s.pending {
      var pend := s.pending[id];
      var found := k.DescriptorFor(pend.proposal.action);
      if found.Ok? {
        var ctx := ContextFor(s, pend.proposal, pend.chat, a.decidedAtMs);
        k.engine.ConfirmationLiftsExactlyConfirm(found.value, pend.proposal, a.executionId, ctx);
        if !k.engine.Decide(found.value, pend.proposal, ctx).outcome.Denied? {
          NotDeniedIsValid(k.engine, found.value, pend.proposal, ctx);
          KeepingExactlyWhen(pend, persistence, until, a);
        }
        ConfirmedCallsExactlyWhen(s.(pending := s.pending - {id}), id, pend, persistence, until, a,
                                  k.engine.AuthorizeConfirmedOnce(found.value, pend.proposal, a.executionId, ctx));
      }
    }
  }

  lemma NotDeniedIsValid(engine: Engine, c: CapabilityDescriptor, p: ActionProposal, ctx: ContextView)
    requires !engine.Decide(c, p, ctx).outcome.Denied?
    ensures c.Valid() && p.context.Valid()
  {
  }

  lemma CarryingOutOffersNothing(s: Core, p: ActionProposal, chat: Option<ChatSessionId>, simulate: bool, a: Attempt, e: Evaluation)
    ensures var after := CarriedOut(s, p, chat, simulate, a, e).0; after.pending == s.pending && after.issued == s.issued
  {
  }

  lemma ProcessingOffersNothing(k: Kernel, s: Core, p: ActionProposal, chat: Option<ChatSessionId>, simulate: bool, a: Attempt)
    ensures var after := Process(k, s, p, chat, simulate, a).0; after.pending == s.pending && after.issued == s.issued
  {
    var found := k.DescriptorFor(p.action);
    if found.Ok? && !a.lookupFails {
      CarryingOutOffersNothing(s, p, chat, simulate, a,
                               k.engine.Authorize(found.value, p, a.executionId, ContextFor(s, p, chat, a.decidedAtMs)));
    }
  }

  lemma AnsweringOffersNothing(k: Kernel, s: Core, id: ConfirmationId, allow: bool, persistence: Persistence, until: Option<int>, a: Attempt)
    ensures var after := ConfirmAction(k, s, id, allow, persistence, until, a).0;
            after.pending == s.pending - {id} && after.issued == s.issued
  {
    if id in s.pending {
      var pend, taken := s.pending[id], s.(pending := s.pending - {id});
      var found := k.DescriptorFor(pend.proposal.action);
      if found.Ok? {
        var ctx := ContextFor(s, pend.proposal, pend.chat, a.decidedAtMs);
        ConfirmedCallsExactlyWhen(taken, id, pend, persistence, until, a,
                                  k.engine.AuthorizeConfirmedOnce(found.value, pend.proposal, a.executionId, ctx));
      }
    }
  }

  lemma SpentStep(k: Kernel, s: Core, op: Op, id: ConfirmationId)
    requires Enabled(s, op) && id in s.issued && id !in s.pending
    ensures id in Next(k, s, op).issued && id !in Next(k, s, op).pending
  {
    match op
    case ExecuteOp(p, chat, simulate, a) => ProcessingOffersNothing(k, s, p, chat, simulate, a);
    case ChatOp(p, session, a, offered, expiry) => ProcessingOffersNothing(k, s, p, Some(session), false, a);
    case ConfirmOp(other, allow, persistence, until, a) => AnsweringOffersNothing(k, s, other, allow, persistence, until, a);
    case EvaluateOp(_) =>
    case GrantOp(_) =>
    case ProfileOp(_) =>
    case RestartOp(_) =>
  }

  lemma AnsweringSpends(k: Kernel, s: Core, op: Op)
    requires op.ConfirmOp? && op.id in s.issued
    ensures op.id in Next(k, s, op).issued && op.id !in Next(k, s, op).pending
  {
    AnsweringOffersNothing(k, s, op.id, op.allow, op.persistence, op.until, op.a);
  }

  /** Once a confirmation that was offered has been answered, however the answer ended, every later answer finds
      it expired and changes nothing. */
  lemma {:induction false} AnsweredConfirmationStaysSpent(k: Kernel, ops: seq<Op>, i: nat, again: bool, persistence: Persistence, until: Option<int>, a: Attempt)
    requires Admissible(k, ops) && i < |ops| && ops[i].ConfirmOp? && ops[i].id in Run(k, ops[..i]).issued
    ensures ops[i].id in Run(k, ops).issued && ops[i].id !in Run(k, ops).pending
    ensures ConfirmAction(k, Run(k, ops), ops[i].id, again, persistence, until, a) == (Run(k, ops), Err(ConfirmationExpired))
  {
    var front, op := ops[..|ops| - 1], ops[|ops| - 1];
    assert Enabled(Run(k, ops[..|ops| - 1]), op);
    if i == |ops| - 1 {
      AnsweringSpends(k, Run(k, front), op);
    } else {
      AdmissibleFront(k, ops);
      assert front[..i] == ops[..i];
      AnsweredConfirmationStaysSpent(k, front, i, again, persistence, until, a);
      SpentStep(k, Run(k, front), op, ops[i].id);
    }
  }

  lemma KeepingAGrantSpendsNone(s: Core, id: ConfirmationId, pend: Pending, persistence: Persistence, until: Option<int>, a: Attempt, e: Evaluation)
    requires forall g | g in s.grants :: g.id != a.permissionId
    ensures s.grants <= ConfirmedCarriedOut(s, id, pend, persistence, until, a, e).0.grants
  {
  }

  /** Confirmed execution never spends a stored grant: every row stays as it was. */
  lemma ConfirmationSpendsNoGrant(k: Kernel, s: Core, id: ConfirmationId, allow: bool, persistence: Persistence, until: Option<int>, a: Attempt)
    requires forall g | g in s.grants :: g.id != a.permissionId
    ensures s.grants <= ConfirmAction(k, s, id, allow, persistence, until, a).0.grants
  {
    if id in s.pending {
      var pend, taken := s.pending[id], s.(pending := s.pending - {id});
      var found := k.DescriptorFor(pend.proposal.action);
      if pend.expiresAtMs >= a.checkedAtMs && allow && found.Ok? && !a.lookupFails {
        var ctx := ContextFor(s, pend.proposal, pend.chat, a.decidedAtMs);
        KeepingAGrantSpendsNone(taken, id, pend, persistence, until, a,
                                k.engine.AuthorizeConfirmedOnce(found.value, pend.proposal, a.executionId, ctx));
      }
    }
  }

  /** The view that shows the engine every stored grant, newest first. */
  function WholeView(s: Core, p: ActionProposal, chat: Option<ChatSessionId>, nowMs: int): ContextView {
    ContextView({}, Sort(s.grants, NewestFirst), s.profile, CallerFor(p, chat, nowMs))
  }

  lemma ReceiptHasTheDecision(s: Core, p: ActionProposal, chat: Option<ChatSessionId>, simulate: bool, a: Attempt, e: Evaluation)
    ensures var r := CarriedOut(s, p, chat, simulate, a, e).1; r.Ok? ==> r.value.decision == e.decision
  {
  }

  /** Every decision of a run is the decision on all the grants then stored, newest first. */
  lemma DecisionsSeeEveryGrant(k: Kernel, ops: seq<Op>, p: ActionProposal, chat: Option<ChatSessionId>, simulate: bool, a: Attempt)
    requires Admissible(k, ops) && k.Valid()
    ensures var s := Run(k, ops);
            var r := Process(k, s, p, chat, simulate, a).1;
            r.Ok? ==> p.action.capabilityId in k.registry &&
                      r.value.decision == k.engine.Decide(k.registry[p.action.capabilityId], p, WholeView(s, p, chat, a.decidedAtMs))
  {
    var s := Run(k, ops);
    RunKeepsInv(k, ops);
    var found := k.DescriptorFor(p.action);
    if found.Ok? && !a.lookupFails {
      var ctx := ContextFor(s, p, chat, a.decidedAtMs);
      ReceiptHasTheDecision(s, p, chat, simulate, a, k.engine.Authorize(found.value, p, a.executionId, ctx));
      FastLookupAgrees(k.engine, found.value, p, ctx, s.grants);
    }
  }

  lemma CarryingOutCallsExactlyWhen(s: Core, p: ActionProposal, chat: Option<ChatSessionId>, simulate: bool, a: Attempt, e: Evaluation)
    ensures CarriedOut(s, p, chat, simulate, a, e).0.calls != s.calls <==>
            && e.authorization.Some?
            && (e.decision.reason.PersistentExactAllow? ==>
                  !a.claimFails && ClaimCandidate(s.grants, p, CallerFor(p, chat, a.startedAtMs)).Some?)
  {
    assert forall c: ExecutorCall :: s.calls + [c] != s.calls;
  }

  /** Processing a proposal reaches an executor exactly when the capability fits, policy on all the stored grants
      allows the action and, if a stored grant is what allows it, a claim commits and finds an allow grant that
      is active when the request started. */
  lemma ProcessingExecutesExactlyWhen(k: Kernel, s: Core, p: ActionProposal, chat: Option<ChatSessionId>, simulate: bool, a: Attempt)
    requires k.Valid() && GrantsInv(s)
    ensures Process(k, s, p, chat, simulate, a).0.calls != s.calls <==>
            && p.action.capabilityId in k.registry && k.registry[p.action.capabilityId].arguments == p.action.arguments.Kind()
            && !a.lookupFails
            && var d := k.engine.Decide(k.registry[p.action.capabilityId], p, WholeView(s, p, chat, a.decidedAtMs));
               && d.outcome.Allowed?
               && (d.reason.PersistentExactAllow? ==>
                     && !a.claimFails
                     && exists g | g in s.grants :: g.effect.Allow? && SqlActive(g, p, CallerFor(p, chat, a.startedAtMs)))
  {
    var found := k.DescriptorFor(p.action);
    if found.Ok? && !a.lookupFails {
      var ctx := ContextFor(s, p, chat, a.decidedAtMs);
      CarryingOutCallsExactlyWhen(s, p, chat, simulate, a, k.engine.Authorize(found.value, p, a.executionId, ctx));
      k.engine.ConfirmationLiftsExactlyConfirm(found.value, p, a.executionId, ctx);
      FastLookupAgrees(k.engine, found.value, p, ctx, s.grants);
      ClaimTakesNewest(s.grants, p, CallerFor(p, chat, a.startedAtMs));
    }
  }

  lemma ConfirmedEvaluationSeesEveryGrant(k: Kernel, s: Core, c: CapabilityDescriptor, p: ActionProposal, chat: Option<ChatSessionId>, a: Attempt)
    requires GrantsInv(s)
    ensures k.engine.AuthorizeConfirmedOnce(c, p, a.executionId, ContextFor(s, p, chat, a.decidedAtMs)) ==
            k.engine.AuthorizeConfirmedOnce(c, p, a.executionId, WholeView(s, p, chat, a.decidedAtMs))
  {
    FastLookupAgrees(k.engine, c, p, ContextFor(s, p, chat, a.decidedAtMs), s.grants);
  }

  lemma ConfirmedReceiptHasTheDecision(s: Core, id: ConfirmationId, pend: Pending, persistence: Persistence, until: Option<int>, a: Attempt, e: Evaluation)
    ensures var r := ConfirmedCarriedOut(s, id, pend, persistence, until, a, e).1;
            r.Ok? ==> r.value.Some? && r.value.value.decision == e.decision
  {
  }

  /** So is what a confirmation re-evaluates: in every reachable state a receipt of a confirmed execution has the
      decision of the confirmed path on all the grants then stored, and reaching the executor requires that the
      decision on all of them is not a denial. */
  lemma ConfirmedDecisionsSeeEveryGrant(k: Kernel, ops: seq<Op>, id: ConfirmationId, persistence: Persistence, until: Option<int>, a: Attempt)
    requires Admissible(k, ops) && k.Valid() && id in Run(k, ops).pending
    requires k.DescriptorFor(Run(k, ops).pending[id].proposal.action).Ok?
    ensures var s := Run(k, ops);
            var pend := s.pending[id];
            var c := k.DescriptorFor(pend.proposal.action).value;
            var all := WholeView(s, pend.proposal, pend.chat, a.decidedAtMs);
            var (after, r) := ConfirmAction(k, s, id, true, persistence, until, a);
            && (r.Ok? ==> r.value.Some? && r.value.value.decision == k.engine.AuthorizeConfirmedOnce(c, pend.proposal, a.executionId, all).decision)
            && (after.calls != s.calls ==> !k.engine.Decide(c, pend.proposal, all).outcome.Denied?)
  {
    var s := Run(k, ops);
    RunKeepsInv(k, ops);
    var pend := s.pending[id];
    var c, ctx := k.DescriptorFor(pend.proposal.action).value, ContextFor(s, pend.proposal, pend.chat, a.decidedAtMs);
    ConfirmedEvaluationSeesEveryGrant(k, s, c, pend.proposal, pend.chat, a);
    FastLookupAgrees(k.engine, c, pend.proposal, ctx, s.grants);
    ConfirmedReceiptHasTheDecision(s.(pending := s.pending - {id}), id, pend, persistence, until, a,
                                   k.engine.AuthorizeConfirmedOnce(c, pend.proposal, a.executionId, ctx));
    ConfirmationExecutesExactlyWhen(k, s, id, true, persistence, until, a);
  }

  lemma AuthorizationNamesExecution(engine: Engine, c: CapabilityDescriptor, p: ActionProposal, id: ExecutionId, ctx: ContextView)
    ensures var e := engine.Authorize(c, p, id, ctx);
            && (e.authorization.Some? ==> e.authorization.value.executionId == id)
            && (e.authorization.Some? <==> e.decision.outcome.Allowed?)
    ensures var e := engine.AuthorizeConfirmedOnce(c, p, id, ctx);
            && (e.authorization.Some? ==> e.authorization.value.executionId == id && e.authorization.value.action == p.action)
            && (e.authorization.Some? <==> e.decision.outcome.Allowed?)
  {
  }

  lemma ReceiptsAfterCall(s: Core, after: Core, id: ExecutionId)
    requires ReceiptsInv(s)
    requires forall c | c in s.calls :: c in after.calls
    requires forall x | x in after.executions && x != id :: x in s.executions && after.executions[x] == s.executions[x]
    requires id in after.executions && after.executions != s.executions && !after.executions[id].status.NotExecuted? ==>
               exists c | c in after.calls :: c.authorization.executionId == id
    ensures ReceiptsInv(after)
  {
    forall x | x in after.executions && !after.executions[x].status.NotExecuted?
      ensures exists c | c in after.calls :: c.authorization.executionId == x
    {
      if after.executions == s.executions || x != id {
        var c :| c in s.calls && c.authorization.executionId == x;
        assert c in after.calls;
      }
    }
  }
}
