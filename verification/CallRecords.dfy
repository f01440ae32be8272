/** What each use of an executor carries, and which leave a receipt. The executor runs before anything is stored, on
    both paths, and the confirmed path makes one more write in between (apps/daemon/src/service.rs,
    apps/daemon/src/interaction_service.rs). */
module CallRecords {
  import opened Prelude
  import opened Domain
  import opened Policy
  import GrantStore
  import opened Authority
  import opened AuthorityRuns

  /** The attempt of an operation that may reach an executor. */
  function AttemptOf(op: Op): Option<Attempt> {
    match op
    case ExecuteOp(_, _, _, a) => Some(a)
    case ChatOp(_, _, a, _, _) => Some(a)
    case ConfirmOp(_, _, _, _, a) => Some(a)
    case EvaluateOp(_) => None
    case GrantOp(_) => None
    case ProfileOp(_) => None
    case RestartOp(_) => None
  }

  predicate MakesCall(k: Kernel, s: Core, op: Op) {
    Next(k, s, op).calls != s.calls
  }

  /** The proposal that an operation may bring to an executor. */
  function ProposalOf(s: Core, op: Op): Option<ActionProposal> {
    match op
    case ExecuteOp(p, _, _, _) => Some(p)
    case ChatOp(p, _, _, _, _) => Some(p)
    case ConfirmOp(id, _, _, _, _) => if id in s.pending then Some(s.pending[id].proposal) else None
    case EvaluateOp(_) => None
    case GrantOp(_) => None
    case ProfileOp(_) => None
    case RestartOp(_) => None
  }

  /** The call carries the operation's own action, the registered descriptor and the drawn identifier. It is a dry run
      exactly if a dry run was asked for, and names a confirmation exactly if it answers that one. */
  predicate Carries(k: Kernel, s: Core, op: Op, call: ExecutorCall) {
    && AttemptOf(op).Some? && ProposalOf(s, op).Some?
    && var action := ProposalOf(s, op).value.action;
       && action.capabilityId in k.registry
       && (k.registry[action.capabilityId].arguments.KindOpenApp? <==> action.arguments.OpenApp?)
       && call.authorization.action == action
       && call.authorization.descriptor == k.registry[action.capabilityId]
       && call.authorization.executionId == AttemptOf(op).value.executionId
       && call.authorization.grantedScopes == {}
       && (call.simulate <==> op.ExecuteOp? && op.simulate)
       && call.confirmation == (if op.ConfirmOp? then Some(op.id) else None)
  }

  lemma AuthorizationCarries(engine: Engine, c: CapabilityDescriptor, p: ActionProposal, id: ExecutionId, ctx: ContextView)
    ensures forall e | e == engine.Authorize(c, p, id, ctx) || e == engine.AuthorizeConfirmedOnce(c, p, id, ctx) ::
              e.authorization.Some? ==> c.Fits(p.action) && e.authorization.value == Authorization(id, c, p.action, ctx.grantedScopes)
  {
  }

  lemma CarryingOutCalls(s: Core, p: ActionProposal, chat: Option<ChatSessionId>, simulate: bool, a: Attempt, e: Evaluation)
    requires CarriedOut(s, p, chat, simulate, a, e).0.calls != s.calls
    ensures e.authorization.Some?
    ensures CarriedOut(s, p, chat, simulate, a, e).0.calls == s.calls + [ExecutorCall(e.authorization.value, simulate, None)]
  {
  }

  lemma ConfirmingCalls(s: Core, id: ConfirmationId, pend: Pending, persistence: Persistence, until: Option<int>, a: Attempt, e: Evaluation)
    requires ConfirmedCarriedOut(s, id, pend, persistence, until, a, e).0.calls != s.calls
    ensures e.authorization.Some?
    ensures ConfirmedCarriedOut(s, id, pend, persistence, until, a, e).0.calls == s.calls + [ExecutorCall(e.authorization.value, false, Some(id))]
  {
  }

  lemma ProcessingCarries(k: Kernel, s: Core, p: ActionProposal, chat: Option<ChatSessionId>, simulate: bool, a: Attempt) returns (call: ExecutorCall)
    requires Process(k, s, p, chat, simulate, a).0.calls != s.calls
    ensures Process(k, s, p, chat, simulate, a).0.calls == s.calls + [call]
    ensures Carries(k, s, ExecuteOp(p, chat, simulate, a), call)
  {
    var c, ctx := k.DescriptorFor(p.action).value, ContextFor(s, p, chat, a.decidedAtMs);
    var e := k.engine.Authorize(c, p, a.executionId, ctx);
    CarryingOutCalls(s, p, chat, simulate, a, e);
    AuthorizationCarries(k.engine, c, p, a.executionId, ctx);
    call := ExecutorCall(e.authorization.value, simulate, None);
  }

  lemma AnsweringCarries(k: Kernel, s: Core, id: ConfirmationId, allow: bool, persistence: Persistence, until: Option<int>, a: Attempt) returns (call: ExecutorCall)
    requires ConfirmAction(k, s, id, allow, persistence, until, a).0.calls != s.calls
    ensures ConfirmAction(k, s, id, allow, persistence, until, a).0.calls == s.calls + [call]
    ensures Carries(k, s, ConfirmOp(id, allow, persistence, until, a), call)
  {
    var pend, taken := s.pending[id], s.(pending := s.pending - {id});
    var c, ctx := k.DescriptorFor(pend.proposal.action).value, ContextFor(s, pend.proposal, pend.chat, a.decidedAtMs);
    var e := k.engine.AuthorizeConfirmedOnce(c, pend.proposal, a.executionId, ctx);
    ConfirmingCalls(taken, id, pend, persistence, until, a, e);
    AuthorizationCarries(k.engine, c, pend.proposal, a.executionId, ctx);
    call := ExecutorCall(e.authorization.value, false, Some(id));
  }

  /** An operation makes at most one call, and that call carries what the operation was asked for. */
  lemma StepCarries(k: Kernel, s: Core, op: Op) returns (call: ExecutorCall)
    requires MakesCall(k, s, op)
    ensures Next(k, s, op).calls == s.calls + [call] && Carries(k, s, op, call)
  {
    match op
    case ExecuteOp(p, chat, simulate, a) => call := ProcessingCarries(k, s, p, chat, simulate, a);
    case ChatOp(p, session, a, offered, expiry) => call := ProcessingCarries(k, s, p, Some(session), false, a);
    case ConfirmOp(id, allow, persistence, until, a) => call := AnsweringCarries(k, s, id, allow, persistence, until, a);
    case EvaluateOp(_) =>
    case GrantOp(_) =>
    case ProfileOp(_) =>
    case RestartOp(_) =>
  }

  /** Every write after the executor succeeds: the transaction with receipt and trace and, for a confirmed and
      finished opening of an application, the usage event before it. */
  predicate WritesSucceed(s: Core, op: Op) {
    && AttemptOf(op).Some?
    && var a := AttemptOf(op).value;
       && !a.recordFails && a.executionId !in s.executions
       && (op.ConfirmOp? && op.id in s.pending && UsageIsRecorded(s.pending[op.id].proposal, a.outcome) ==> !a.intentFails)
  }

  /** What an executor call leaves behind: its receipt and its trace, or nothing at all. */
  ghost predicate LeavesReceiptIff(s: Core, after: Core, id: ExecutionId, stored: bool) {
    && (exists c: ExecutorCall :: after.calls == s.calls + [c] && c.authorization.executionId == id)
    && if stored then
         && id !in s.executions && id in after.executions && !after.executions[id].status.NotExecuted?
         && after.executions == s.executions[id := after.executions[id]]
         && s.audit < after.audit
       else after.executions == s.executions && after.audit == s.audit
  }

  lemma ExecutedLeavesReceiptIff(s: Core, grants: seq<PermissionGrant>, call: ExecutorCall, a: Attempt, d: PolicyDecision, events: seq<AuditEvent>)
    requires call.authorization.executionId == a.executionId && events != []
    ensures var (after, r) := Executed(s, grants, call, a, d, events);
            && (r.Ok? <==> !a.recordFails && a.executionId !in s.executions)
            && LeavesReceiptIff(s, after, a.executionId, r.Ok?)
  {
    assert Executed(s, grants, call, a, d, events).0.calls == s.calls + [call];
  }

  /** On the direct path a call leaves its receipt exactly when the storing transaction succeeds. */
  lemma CallLeavesReceiptExactlyWhen(s: Core, p: ActionProposal, chat: Option<ChatSessionId>, simulate: bool, a: Attempt, e: Evaluation)
    requires e.authorization.Some? ==> e.authorization.value.executionId == a.executionId
    requires CarriedOut(s, p, chat, simulate, a, e).0.calls != s.calls
    ensures var (after, r) := CarriedOut(s, p, chat, simulate, a, e);
            && (r.Ok? <==> !a.recordFails && a.executionId !in s.executions)
            && LeavesReceiptIff(s, after, a.executionId, r.Ok?)
  {
    var d, claimer := e.decision, CallerFor(p, chat, a.startedAtMs);
    if e.authorization.Some? {
      ExecutedLeavesReceiptIff(s, if d.reason.PersistentExactAllow? then GrantStore.Claimed(s.grants, p, claimer) else s.grants,
                               ExecutorCall(e.authorization.value, simulate, None), a, d, ExecutedEvents(a, d));
    }
  }

  /** On the confirmed path a failing usage event loses the receipt as well. */
  lemma ConfirmedCallLeavesReceiptExactlyWhen(s: Core, id: ConfirmationId, pend: Pending, persistence: Persistence, until: Option<int>, a: Attempt, e: Evaluation)
    requires e.authorization.Some? ==> e.authorization.value.executionId == a.executionId
    requires ConfirmedCarriedOut(s, id, pend, persistence, until, a, e).0.calls != s.calls
    ensures var (after, r) := ConfirmedCarriedOut(s, id, pend, persistence, until, a, e);
            && (r.Ok? <==> !(UsageIsRecorded(pend.proposal, a.outcome) && a.intentFails) && !a.recordFails && a.executionId !in s.executions)
            && LeavesReceiptIff(s, after, a.executionId, r.Ok?)
  {
    var kept := GrantToKeep(pend, persistence, until, a);
    if e.authorization.Some? && kept.Ok? {
      var grants := if kept.value.Some? then GrantStore.Upserted(s.grants, kept.value.value) else s.grants;
      var call := ExecutorCall(e.authorization.value, false, Some(id));
      assert AfterCall(s, grants, call).calls == s.calls + [call];
      ExecutedLeavesReceiptIff(s, grants, call, a, e.decision, ConfirmedEvents(a, e.decision));
    }
  }

  lemma ProcessingLeavesReceiptIff(k: Kernel, s: Core, p: ActionProposal, chat: Option<ChatSessionId>, simulate: bool, a: Attempt)
    requires Process(k, s, p, chat, simulate, a).0.calls != s.calls
    ensures LeavesReceiptIff(s, Process(k, s, p, chat, simulate, a).0, a.executionId, !a.recordFails && a.executionId !in s.executions)
  {
    var c, ctx := k.DescriptorFor(p.action).value, ContextFor(s, p, chat, a.decidedAtMs);
    AuthorizationNamesExecution(k.engine, c, p, a.executionId, ctx);
    CallLeavesReceiptExactlyWhen(s, p, chat, simulate, a, k.engine.Authorize(c, p, a.executionId, ctx));
  }

  lemma AnsweringLeavesReceiptIff(k: Kernel, s: Core, id: ConfirmationId, allow: bool, persistence: Persistence, until: Option<int>, a: Attempt)
    requires ConfirmAction(k, s, id, allow, persistence, until, a).0.calls != s.calls
    ensures id in s.pending
    ensures LeavesReceiptIff(s, ConfirmAction(k, s, id, allow, persistence, until, a).0, a.executionId,
                             WritesSucceed(s, ConfirmOp(id, allow, persistence, until, a)))
  {
    var pend, taken := s.pending[id], s.(pending := s.pending - {id});
    var c, ctx := k.DescriptorFor(pend.proposal.action).value, ContextFor(s, pend.proposal, pend.chat, a.decidedAtMs);
    AuthorizationNamesExecution(k.engine, c, pend.proposal, a.executionId, ctx);
    ConfirmedCallLeavesReceiptExactlyWhen(taken, id, pend, persistence, until, a,
                                          k.engine.AuthorizeConfirmedOnce(c, pend.proposal, a.executionId, ctx));
  }

  /** Any operation that reaches an executor calls it once, under the identifier it drew, and leaves the receipt
      exactly when its writes succeed. */
  lemma StepLeavesReceiptIff(k: Kernel, s: Core, op: Op)
    requires MakesCall(k, s, op)
    ensures AttemptOf(op).Some?
    ensures LeavesReceiptIff(s, Next(k, s, op), AttemptOf(op).value.executionId, WritesSucceed(s, op))
  {
    match op
    case ExecuteOp(p, chat, simulate, a) => ProcessingLeavesReceiptIff(k, s, p, chat, simulate, a);
    case ChatOp(p, session, a, offered, expiry) => ProcessingLeavesReceiptIff(k, s, p, Some(session), false, a);
    case ConfirmOp(id, allow, persistence, until, a) => AnsweringLeavesReceiptIff(k, s, id, allow, persistence, until, a);
    case EvaluateOp(_) =>
    case GrantOp(_) =>
    case ProfileOp(_) =>
    case RestartOp(_) =>
  }

  // ---- Whole runs ----

  /** Receipts are only ever added, under the identifier the operation drew. */
  ghost predicate OnlyAdds(s: Core, after: Core, op: Op) {
    || after.executions == s.executions
    || (&& AttemptOf(op).Some? && AttemptOf(op).value.executionId !in s.executions
        && AttemptOf(op).value.executionId in after.executions
        && after.executions == s.executions[AttemptOf(op).value.executionId := after.executions[AttemptOf(op).value.executionId]])
  }

  lemma CarryingOutOnlyAdds(s: Core, p: ActionProposal, chat: Option<ChatSessionId>, simulate: bool, a: Attempt, e: Evaluation)
    ensures OnlyAdds(s, CarriedOut(s, p, chat, simulate, a, e).0, ExecuteOp(p, chat, simulate, a))
  {
  }

  lemma ConfirmingOnlyAdds(s: Core, id: ConfirmationId, pend: Pending, persistence: Persistence, until: Option<int>, a: Attempt, e: Evaluation)
    ensures OnlyAdds(s, ConfirmedCarriedOut(s, id, pend, persistence, until, a, e).0, ConfirmOp(id, true, persistence, until, a))
  {
  }

  lemma ProcessingOnlyAdds(k: Kernel, s: Core, p: ActionProposal, chat: Option<ChatSessionId>, simulate: bool, a: Attempt)
    ensures OnlyAdds(s, Process(k, s, p, chat, simulate, a).0, ExecuteOp(p, chat, simulate, a))
  {
    var found := k.DescriptorFor(p.action);
    if found.Ok? && !a.lookupFails {
      CarryingOutOnlyAdds(s, p, chat, simulate, a,
                          k.engine.Authorize(found.value, p, a.executionId, ContextFor(s, p, chat, a.decidedAtMs)));
    }
  }

  lemma AnsweringOnlyAdds(k: Kernel, s: Core, id: ConfirmationId, allow: bool, persistence: Persistence, until: Option<int>, a: Attempt)
    ensures OnlyAdds(s, ConfirmAction(k, s, id, allow, persistence, until, a).0, ConfirmOp(id, allow, persistence, until, a))
  {
    if id in s.pending {
      var pend, taken := s.pending[id], s.(pending := s.pending - {id});
      var found := k.DescriptorFor(pend.proposal.action);
      if pend.expiresAtMs >= a.checkedAtMs && allow && found.Ok? && !a.lookupFails {
        var ctx := ContextFor(s, pend.proposal, pend.chat, a.decidedAtMs);
        ConfirmingOnlyAdds(taken, id, pend, persistence, until, a,
                           k.engine.AuthorizeConfirmedOnce(found.value, pend.proposal, a.executionId, ctx));
      }
    }
  }

  lemma StepOnlyAdds(k: Kernel, s: Core, op: Op)
    ensures OnlyAdds(s, Next(k, s, op), op)
  {
    match op
    case ExecuteOp(p, chat, simulate, a) => ProcessingOnlyAdds(k, s, p, chat, simulate, a);
    case ChatOp(p, session, a, offered, expiry) => ProcessingOnlyAdds(k, s, p, Some(session), false, a);
    case ConfirmOp(id, allow, persistence, until, a) => AnsweringOnlyAdds(k, s, id, allow, persistence, until, a);
    case EvaluateOp(_) =>
    case GrantOp(_) =>
    case ProfileOp(_) =>
    case RestartOp(_) =>
  }

  /** The identifiers that operations draw are not drawn twice. */
  ghost predicate DrawsAreDistinct(ops: seq<Op>) {
    forall i, j | 0 <= i < j < |ops| && AttemptOf(ops[i]).Some? && AttemptOf(ops[j]).Some? ::
      AttemptOf(ops[i]).value.executionId != AttemptOf(ops[j]).value.executionId
  }

  predicate Draws(op: Op, id: ExecutionId) {
    AttemptOf(op).Some? && AttemptOf(op).value.executionId == id
  }

  /** An identifier that no operation after the first `n` draws keeps what it had then. */
  lemma {:induction false} UndrawnStays(k: Kernel, ops: seq<Op>, n: nat, id: ExecutionId)
    requires n <= |ops| && forall j | n <= j < |ops| :: !Draws(ops[j], id)
    ensures id in Run(k, ops).executions <==> id in Run(k, ops[..n]).executions
    ensures id in Run(k, ops).executions ==> Run(k, ops).executions[id] == Run(k, ops[..n]).executions[id]
  {
    if n == |ops| {
      assert ops[..n] == ops;
    } else {
      var front, op := ops[..|ops| - 1], ops[|ops| - 1];
      assert front[..n] == ops[..n];
      UndrawnStays(k, front, n, id);
      StepOnlyAdds(k, Run(k, front), op);
      assert !Draws(op, id);
    }
  }

  lemma RunOfPrefix(k: Kernel, ops: seq<Op>, i: nat)
    requires i < |ops|
    ensures Run(k, ops[..i + 1]) == Next(k, Run(k, ops[..i]), ops[i])
  {
    assert ops[..i + 1][..i] == ops[..i];
  }

  /** Over every run in which execution identifiers are not drawn twice: a call of an executor has a receipt of an
      execution at the end of the run exactly when the writes of its own operation succeeded; otherwise it has
      no receipt and its operation left no trace. */
  lemma CallsHaveReceiptsExactlyWhen(k: Kernel, ops: seq<Op>, i: nat)
    requires DrawsAreDistinct(ops) && i < |ops| && MakesCall(k, Run(k, ops[..i]), ops[i])
    ensures AttemptOf(ops[i]).Some?
    ensures var s, after, id := Run(k, ops[..i]), Run(k, ops[..i + 1]), AttemptOf(ops[i]).value.executionId;
            && (id in Run(k, ops).executions <==> WritesSucceed(s, ops[i]))
            && (WritesSucceed(s, ops[i]) ==> !Run(k, ops).executions[id].status.NotExecuted?)
            && (!WritesSucceed(s, ops[i]) ==> after.audit == s.audit)
  {
    RunOfPrefix(k, ops, i);
    StepLeavesReceiptIff(k, Run(k, ops[..i]), ops[i]);
    var id := AttemptOf(ops[i]).value.executionId;
    forall j | 0 <= j < |ops| && j != i ensures !Draws(ops[j], id) {
    }
    UndrawnStays(k, ops, i + 1, id);
    UndrawnStays(k, ops[..i], 0, id);
    assert ops[..i][..0] == [];
  }

  /** Every recorded call was made by one operation of the run, and carries what that operation was asked for: its
      proposal's action with the registered descriptor, dry exactly if the operation asked for a dry run, and with
      a confirmation exactly if it answered that one. */
  lemma {:induction false} EveryCallWasMade(k: Kernel, ops: seq<Op>, n: nat) returns (i: nat)
    requires n < |Run(k, ops).calls|
    ensures i < |ops| && MakesCall(k, Run(k, ops[..i]), ops[i])
    ensures |Run(k, ops[..i]).calls| == n
    ensures Carries(k, Run(k, ops[..i]), ops[i], Run(k, ops).calls[n])
  {
    hide Next, Carries;
    var front, op := ops[..|ops| - 1], ops[|ops| - 1];
    if MakesCall(k, Run(k, front), op) {
      var call := StepCarries(k, Run(k, front), op);
      if n == |Run(k, front).calls| {
        return |ops| - 1;
      }
    }
    i := EveryCallWasMade(k, front, n);
    assert front[..i] == ops[..i];
  }

  // ---- What receipts say ----

  /** A receipt of attempt `a` tells whether an executor was called, what it answered, and when. */
  predicate Reports(a: Attempt, called: bool, r: Receipt) {
    && r.executionId == a.executionId && r.startedAtMs == a.startedAtMs
    && r.finishedAtMs == (if a.finishedAtMs >= a.startedAtMs then a.finishedAtMs else a.startedAtMs)
    && if !called then r.status.NotExecuted? && r.result.None? && r.error.None?
       else match a.outcome
         case Finished(code) =>
           r.result == Some(code) && r.error.None? && (if code.Launched? then r.status.Succeeded? else r.status.DryRunSucceeded?)
         case Rejected(code) => r.status.Failed? && r.result.None? && r.error == Some(code)
         case DeadlineExceeded => r.status.TimedOut? && r.result.None? && r.error == Some(CapabilityTimeout)
  }

  /** If a step of attempt `a` stores a receipt, that receipt reports the step. */
  predicate StepReported(s: Core, after: Core, a: Attempt) {
    after.executions != s.executions ==>
      a.executionId in after.executions && Reports(a, after.calls != s.calls, after.executions[a.executionId])
  }

  lemma ExecutedReports(s: Core, grants: seq<PermissionGrant>, call: ExecutorCall, a: Attempt, d: PolicyDecision, events: seq<AuditEvent>)
    ensures StepReported(s, Executed(s, grants, call, a, d, events).0, a)
  {
    assert s.calls + [call] != s.calls;
  }

  lemma BlockedReports(s: Core, a: Attempt, d: PolicyDecision)
    ensures StepReported(s, Blocked(s, a, d).0, a)
  {
  }

  lemma CarryingOutReports(s: Core, p: ActionProposal, chat: Option<ChatSessionId>, simulate: bool, a: Attempt, e: Evaluation)
    ensures StepReported(s, CarriedOut(s, p, chat, simulate, a, e).0, a)
  {
    hide Executed, Blocked, Reports, GrantStore.ClaimCandidate, GrantStore.Claimed;
    var d, claimer := e.decision, CallerFor(p, chat, a.startedAtMs);
    if e.authorization.None? {
      BlockedReports(s, a, d);
    } else {
      ExecutedReports(s, if d.reason.PersistentExactAllow? then GrantStore.Claimed(s.grants, p, claimer) else s.grants,
                      ExecutorCall(e.authorization.value, simulate, None), a, d, ExecutedEvents(a, d));
    }
  }

  lemma ConfirmingReports(s: Core, id: ConfirmationId, pend: Pending, persistence: Persistence, until: Option<int>, a: Attempt, e: Evaluation)
    ensures StepReported(s, ConfirmedCarriedOut(s, id, pend, persistence, until, a, e).0, a)
  {
    hide Executed, Reports, GrantToKeep, GrantStore.Upserted, GrantStore.Storable;
    var kept := GrantToKeep(pend, persistence, until, a);
    if e.authorization.Some? && kept.Ok? {
      var grants := if kept.value.Some? then GrantStore.Upserted(s.grants, kept.value.value) else s.grants;
      ExecutedReports(s, grants, ExecutorCall(e.authorization.value, false, Some(id)), a, e.decision, ConfirmedEvents(a, e.decision));
    }
  }

  lemma ProcessingReports(k: Kernel, s: Core, p: ActionProposal, chat: Option<ChatSessionId>, simulate: bool, a: Attempt)
    ensures StepReported(s, Process(k, s, p, chat, simulate, a).0, a)
  {
    hide CarriedOut, Reports;
    var found := k.DescriptorFor(p.action);
    if found.Ok? && !a.lookupFails {
      CarryingOutReports(s, p, chat, simulate, a, k.engine.Authorize(found.value, p, a.executionId, ContextFor(s, p, chat, a.decidedAtMs)));
    }
  }

  lemma AnsweringReports(k: Kernel, s: Core, id: ConfirmationId, allow: bool, persistence: Persistence, until: Option<int>, a: Attempt)
    ensures StepReported(s, ConfirmAction(k, s, id, allow, persistence, until, a).0, a)
  {
    hide ConfirmedCarriedOut, Reports;
    if id in s.pending {
      var pend, taken := s.pending[id], s.(pending := s.pending - {id});
      var found := k.DescriptorFor(pend.proposal.action);
      if found.Ok? {
        ConfirmingReports(taken, id, pend, persistence, until, a,
                          k.engine.AuthorizeConfirmedOnce(found.value, pend.proposal, a.executionId,
                                                          ContextFor(s, pend.proposal, pend.chat, a.decidedAtMs)));
      }
    }
  }

  lemma StepReports(k: Kernel, s: Core, op: Op)
    ensures if AttemptOf(op).Some? then StepReported(s, Next(k, s, op), AttemptOf(op).value) else Next(k, s, op).executions == s.executions
  {
    hide Reports, Process, ConfirmAction;
    match op {
      case ExecuteOp(p, chat, simulate, a) => ProcessingReports(k, s, p, chat, simulate, a);
      case ChatOp(p, session, a, offered, expiry) => ProcessingReports(k, s, p, Some(session), false, a);
      case ConfirmOp(id, allow, persistence, until, a) => AnsweringReports(k, s, id, allow, persistence, until, a);
      case EvaluateOp(_) =>
      case GrantOp(_) =>
      case ProfileOp(_) =>
      case RestartOp(_) =>
    }
  }

  /** Every stored receipt was written by one operation of the run, under the identifier that it drew, and reports
      what happened in it. */
  lemma {:induction false} EveryReceiptReports(k: Kernel, ops: seq<Op>, id: ExecutionId) returns (i: nat)
    requires id in Run(k, ops).executions
    ensures i < |ops| && Draws(ops[i], id) && id !in Run(k, ops[..i]).executions
    ensures Reports(AttemptOf(ops[i]).value, MakesCall(k, Run(k, ops[..i]), ops[i]), Run(k, ops).executions[id])
  {
    hide Next, Reports;
    var front, op := ops[..|ops| - 1], ops[|ops| - 1];
    StepOnlyAdds(k, Run(k, front), op);
    if id in Run(k, front).executions {
      i := EveryReceiptReports(k, front, id);
      assert front[..i] == ops[..i];
    } else {
      i := |ops| - 1;
      StepReports(k, Run(k, front), op);
    }
  }
}
