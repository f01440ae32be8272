/** What an agent is told about its proposals, against what the service did with them
    (apps/daemon/src/agent_service.rs, apps/daemon/src/service.rs). */
module AgentReports {
  import opened Prelude
  import opened Domain
  import opened Policy
  import opened Authority
  import opened AuthorityRuns
  import AgentRuns
  import Answers
  import CallRecords
  import GrantStore
  import Payments

  /** What the broker sees of an answer to an executed proposal. */
  function ResponseOf(r: Result<Receipt, ProtocolError>): AgentRuns.Response {
    match r
    case Err(_) => AgentRuns.NoExecution
    case Ok(receipt) =>
      AgentRuns.Execution(
        match receipt.decision.outcome
        case Allowed => AgentRuns.OutcomeAllow
        case Confirm => AgentRuns.OutcomeConfirm
        case Denied => AgentRuns.OutcomeDeny,
        match receipt.status
        case Succeeded => AgentRuns.ReceiptStatus.Succeeded
        case DryRunSucceeded => AgentRuns.ReceiptStatus.DryRunSucceeded
        case Failed => AgentRuns.NotSucceeded
        case TimedOut => AgentRuns.NotSucceeded
        case NotExecuted => AgentRuns.NotSucceeded)
  }

  /** What the agent is told of its proposal. */
  function Told(k: Kernel, s: Core, p: ActionProposal, a: Attempt): AgentRuns.Disposition {
    AgentRuns.DispositionOf(ResponseOf(Process(k, s, p, None, false, a).1))
  }

  /** A stored receipt has an allowing decision exactly if an executor was called. */
  lemma ReceiptAllowsExactlyIfCalled(k: Kernel, s: Core, p: ActionProposal, a: Attempt)
    ensures var (after, r) := Process(k, s, p, None, false, a);
            r.Ok? ==> (r.value.decision.outcome.Allowed? <==> after.calls != s.calls)
                      && CallRecords.Reports(a, after.calls != s.calls, r.value)
  {
    hide CallRecords.Reports;
    CallRecords.ProcessingReports(k, s, p, None, false, a);
    Answers.ProcessingAnswers(k, s, p, None, false, a);
    var found := k.DescriptorFor(p.action);
    if found.Ok? && !a.lookupFails {
      var ctx := ContextFor(s, p, None, a.decidedAtMs);
      var e := k.engine.Authorize(found.value, p, a.executionId, ctx);
      AuthorizationNamesExecution(k.engine, found.value, p, a.executionId, ctx);
      ReceiptHasTheDecision(s, p, None, false, a, e);
      CarriedOutOkCalls(s, p, a, e);
    }
  }

  lemma CarriedOutOkCalls(s: Core, p: ActionProposal, a: Attempt, e: Evaluation)
    ensures var (after, r) := CarriedOut(s, p, None, false, a, e);
            r.Ok? ==> (after.calls != s.calls <==> e.authorization.Some?) && a.executionId !in s.executions
                      && after.executions == s.executions[a.executionId := r.value]
  {
    assert forall c: ExecutorCall :: s.calls + [c] != s.calls;
  }

  /** An agent is told the truth: executed or simulated exactly if the executor was called, said so, and the receipt was
      stored; asked or denied exactly if policy on all the stored grants asked or denied and that was stored. */
  lemma AgentIsToldTheTruth(k: Kernel, s: Core, p: ActionProposal, a: Attempt)
    requires k.Valid() && GrantsInv(s)
    ensures var (after, r) := Process(k, s, p, None, false, a);
            var called := after.calls != s.calls;
            var told := Told(k, s, p, a);
            && (told.Executed? <==> r.Ok? && called && a.outcome == Finished(Launched))
            && (told.Simulated? <==> r.Ok? && called && a.outcome == Finished(Simulated))
            && (told.ConfirmationRequired? <==> r.Ok? && r.value.decision.outcome.Confirm?)
            && (told.Denied? <==> r.Ok? && r.value.decision.outcome.Denied?)
            && (r.Ok? ==> p.action.capabilityId in k.registry &&
                          r.value.decision == k.engine.Decide(k.registry[p.action.capabilityId], p, WholeView(s, p, None, a.decidedAtMs)))
  {
    hide Process, WholeView;
    ReceiptAllowsExactlyIfCalled(k, s, p, a);
    DecisionOnAllGrants(k, s, p, a);
  }

  lemma DecisionOnAllGrants(k: Kernel, s: Core, p: ActionProposal, a: Attempt)
    requires k.Valid() && GrantsInv(s)
    ensures var r := Process(k, s, p, None, false, a).1;
            r.Ok? ==> p.action.capabilityId in k.registry &&
                      r.value.decision == k.engine.Decide(k.registry[p.action.capabilityId], p, WholeView(s, p, None, a.decidedAtMs))
  {
    var found := k.DescriptorFor(p.action);
    if found.Ok? && !a.lookupFails {
      var ctx := ContextFor(s, p, None, a.decidedAtMs);
      ReceiptHasTheDecision(s, p, None, false, a, k.engine.Authorize(found.value, p, a.executionId, ctx));
      GrantStore.FastLookupAgrees(k.engine, found.value, p, ctx, s.grants);
    }
  }

  /** What `failed` leaves open: an executor was called for a proposal that is reported failed exactly if it rejected the
      request or ran late, or if whatever it did was not recorded. */
  lemma ReportedFailedButCalledExactlyWhen(k: Kernel, s: Core, p: ActionProposal, a: Attempt)
    requires k.Valid() && GrantsInv(s)
    ensures var called := Process(k, s, p, None, false, a).0.calls != s.calls;
            called ==> (Told(k, s, p, a).ProposalFailed? <==> !a.outcome.Finished? || a.recordFails || a.executionId in s.executions)
  {
    hide Process;
    ReceiptAllowsExactlyIfCalled(k, s, p, a);
    if Process(k, s, p, None, false, a).0.calls != s.calls {
      CalledIsStoredExactlyWhen(k, s, p, a);
    }
  }

  lemma CalledIsStoredExactlyWhen(k: Kernel, s: Core, p: ActionProposal, a: Attempt)
    requires Process(k, s, p, None, false, a).0.calls != s.calls
    ensures Process(k, s, p, None, false, a).1.Ok? <==> !a.recordFails && a.executionId !in s.executions
  {
    var c, ctx := k.DescriptorFor(p.action).value, ContextFor(s, p, None, a.decidedAtMs);
    AuthorizationNamesExecution(k.engine, c, p, a.executionId, ctx);
    CallRecords.CallLeavesReceiptExactlyWhen(s, p, None, false, a, k.engine.Authorize(c, p, a.executionId, ctx));
  }
}
