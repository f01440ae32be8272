/** What each service operation answers, what it offers, and what a restart ends (apps/daemon/src/service.rs,
    apps/daemon/src/interaction_service.rs). */
module Answers {
  import opened Prelude
  import opened SqlOrder
  import opened Domain
  import opened Policy
  import opened Authority
  import opened AuthorityRuns
  import CallRecords
  import GrantStore
  import Payments
  import Sessions

  predicate Registered(k: Kernel, action: ActionRequest) {
    action.capabilityId in k.registry && (k.registry[action.capabilityId].arguments.KindOpenApp? <==> action.arguments.OpenApp?)
  }

  /** The answer to a processed proposal. It is the stored receipt exactly when the capability fits, every read and write
      succeeds and a use can be claimed if a stored grant allowed the action. */
  lemma ProcessingAnswers(k: Kernel, s: Core, p: ActionProposal, chat: Option<ChatSessionId>, simulate: bool, a: Attempt)
    ensures var (after, r) := Process(k, s, p, chat, simulate, a);
            && (r == Err(NotFound) <==> p.action.capabilityId !in k.registry)
            && (r == Err(InvalidAction) <==> p.action.capabilityId in k.registry && !Registered(k, p.action))
            && (r.Ok? <==>
                && Registered(k, p.action) && !a.lookupFails && !a.recordFails && a.executionId !in s.executions
                && (Payments.RestsOnGrant(k, s, p, chat, a) ==> !a.claimFails && !Payments.AllExpiredAtStart(s, p, chat, a)))
            && (r.Ok? ==> after.executions == s.executions[a.executionId := r.value])
            && (r.Err? ==> after.executions == s.executions && after.audit == s.audit && r.error in {NotFound, InvalidAction, PrivacyDenied, Internal})
  {
    var found := k.DescriptorFor(p.action);
    if found.Ok? && !a.lookupFails {
      var e := k.engine.Authorize(found.value, p, a.executionId, ContextFor(s, p, chat, a.decidedAtMs));
      if Payments.RestsOnGrant(k, s, p, chat, a) {
        Payments.RestingOnGrantShowsIt(k, s, p, chat, a);
      }
      CarryingOutAnswers(s, p, chat, simulate, a, e);
    }
  }

  /** What storing a receipt answers: the receipt, or an internal error without effect on receipts and log. */
  predicate StoresOrFails(s: Core, after: Core, r: Result<Receipt, ProtocolError>, a: Attempt) {
    && (r.Ok? <==> !a.recordFails && a.executionId !in s.executions)
    && (r.Ok? ==> after.executions == s.executions[a.executionId := r.value])
    && (r.Err? ==> after.executions == s.executions && after.audit == s.audit && r.error == Internal)
  }

  lemma ExecutedAnswers(s: Core, grants: seq<PermissionGrant>, call: ExecutorCall, a: Attempt, d: PolicyDecision, events: seq<AuditEvent>)
    ensures var (after, r) := Executed(s, grants, call, a, d, events); StoresOrFails(s, after, r, a)
  {
  }

  lemma BlockedAnswers(s: Core, a: Attempt, d: PolicyDecision)
    ensures var (after, r) := Blocked(s, a, d); StoresOrFails(s, after, r, a)
  {
  }

  lemma CarryingOutAnswers(s: Core, p: ActionProposal, chat: Option<ChatSessionId>, simulate: bool, a: Attempt, e: Evaluation)
    ensures var (after, r) := CarriedOut(s, p, chat, simulate, a, e);
            && (r.Ok? <==>
                && !a.recordFails && a.executionId !in s.executions
                && (e.authorization.Some? && e.decision.reason.PersistentExactAllow? ==>
                      !a.claimFails && GrantStore.ClaimCandidate(s.grants, p, CallerFor(p, chat, a.startedAtMs)).Some?))
            && (r.Ok? ==> after.executions == s.executions[a.executionId := r.value])
            && (r.Err? ==> after.executions == s.executions && after.audit == s.audit && r.error in {PrivacyDenied, Internal})
  {
    hide Executed, Blocked, GrantStore.ClaimCandidate, GrantStore.Claimed;
    var d, claimer := e.decision, CallerFor(p, chat, a.startedAtMs);
    if e.authorization.None? {
      BlockedAnswers(s, a, d);
    } else {
      ExecutedAnswers(s, if d.reason.PersistentExactAllow? then GrantStore.Claimed(s.grants, p, claimer) else s.grants,
                      ExecutorCall(e.authorization.value, simulate, None), a, d, ExecutedEvents(a, d));
    }
  }

  predicate Held(s: Core, id: ConfirmationId, a: Attempt) {
    id in s.pending && a.checkedAtMs <= s.pending[id].expiresAtMs
  }

  /** The answer to a confirmation that is not held or has expired, or that is declined. */
  lemma DecliningAnswers(k: Kernel, s: Core, id: ConfirmationId, allow: bool, persistence: Persistence, until: Option<int>, a: Attempt)
    requires Inv(s)
    ensures var (after, r) := ConfirmAction(k, s, id, allow, persistence, until, a);
            && (r == Err(ConfirmationExpired) <==> !Held(s, id, a))
            && (r == Ok(None) <==> Held(s, id, a) && !allow && !a.recordFails)
            && (!Held(s, id, a) || !allow ==>
                  && after == s.(pending := s.pending - {id}, audit := after.audit)
                  && (r != Ok(None) ==> after.audit == s.audit)
                  && (r == Ok(None) ==>
                        var request := s.pending[id].requestExecutionId;
                        && PhaseOf(after.audit, request).Declined?
                        && forall x | x != request :: PhaseOf(after.audit, x) == PhaseOf(s.audit, x)))
  {
    hide ConfirmedCarriedOut;
    if Held(s, id, a) {
      var pend := s.pending[id];
      if allow && k.DescriptorFor(pend.proposal.action).Ok? {
        AcceptingAnswers(s.(pending := s.pending - {id}), id, pend, persistence, until, a,
                         k.engine.AuthorizeConfirmedOnce(k.DescriptorFor(pend.proposal.action).value, pend.proposal, a.executionId,
                                                         ContextFor(s, pend.proposal, pend.chat, a.decidedAtMs)));
      }
      if !allow && !a.recordFails {
        DecliningKeepsTraces(s, pend.requestExecutionId);
        PhaseAppend(s.audit, ConfirmationReceived(pend.requestExecutionId, false), pend.requestExecutionId);
      }
    } else {
      assert id !in s.pending ==> s.pending - {id} == s.pending;
    }
  }

  /** What keeping asks of the request itself. */
  predicate Answerable(pend: Pending, persistence: Persistence, until: Option<int>, a: Attempt) {
    && (persistence.UntilTime? ==> until.Some? && a.startedAtMs < until.value)
    && (persistence.ForSession? ==> pend.proposal.context.agent.Some? || pend.chat.Some?)
  }

  lemma AcceptingAnswers(s: Core, id: ConfirmationId, pend: Pending, persistence: Persistence, until: Option<int>, a: Attempt, e: Evaluation)
    ensures var (after, r) := ConfirmedCarriedOut(s, id, pend, persistence, until, a, e);
            && (r == Err(PrivacyDenied) <==> e.authorization.None?)
            && (r == Err(Validation) <==> e.authorization.Some? && !Answerable(pend, persistence, until, a))
            && (r.Ok? ==> r.value.Some? && after.calls != s.calls && after.executions == s.executions[a.executionId := r.value.value])
            && (r.Err? ==> after.executions == s.executions && after.audit == s.audit && r.error in {PrivacyDenied, Validation, Internal})
            && (r.Ok? <==> after.calls != s.calls && !a.recordFails && a.executionId !in s.executions
                           && !(UsageIsRecorded(pend.proposal, a.outcome) && a.intentFails))
  {
    hide Executed, GrantToKeep, GrantStore.Upserted, GrantStore.Storable;
    assert forall c: ExecutorCall :: s.calls + [c] != s.calls;
    var kept := GrantToKeep(pend, persistence, until, a);
    KeepingAnswers(pend, persistence, until, a);
    if e.authorization.Some? && kept.Ok? {
      var grants := if kept.value.Some? then GrantStore.Upserted(s.grants, kept.value.value) else s.grants;
      var call := ExecutorCall(e.authorization.value, false, Some(id));
      ExecutedAnswers(s, grants, call, a, e.decision, ConfirmedEvents(a, e.decision));
      ExecutedKeepsTheRest(s, grants, call, a, e.decision, ConfirmedEvents(a, e.decision));
    }
  }

  lemma KeepingAnswers(pend: Pending, persistence: Persistence, until: Option<int>, a: Attempt)
    ensures var kept := GrantToKeep(pend, persistence, until, a);
            (kept.Ok? <==> Answerable(pend, persistence, until, a)) && (kept.Err? ==> kept.error == Validation)
  {
  }

  /** The answer to an accepted confirmation: refused by the registry, by policy, or for what it asks to keep; otherwise the
      stored receipt, exactly when the executor was reached and every later write succeeded. */
  lemma ConfirmingAnswers(k: Kernel, s: Core, id: ConfirmationId, persistence: Persistence, until: Option<int>, a: Attempt)
    requires k.Valid() && Held(s, id, a)
    ensures var (after, r) := ConfirmAction(k, s, id, true, persistence, until, a);
            var pend := s.pending[id];
            var action := pend.proposal.action;
            var denied := Registered(k, action) &&
              k.engine.Decide(k.registry[action.capabilityId], pend.proposal, ContextFor(s, pend.proposal, pend.chat, a.decidedAtMs)).outcome.Denied?;
            && (r == Err(NotFound) <==> action.capabilityId !in k.registry)
            && (r == Err(InvalidAction) <==> action.capabilityId in k.registry && !Registered(k, action))
            && (r == Err(PrivacyDenied) <==> Registered(k, action) && !a.lookupFails && denied)
            && (r == Err(Validation) <==> Registered(k, action) && !a.lookupFails && !denied && !Answerable(pend, persistence, until, a))
            && (r.Ok? <==> after.calls != s.calls && !a.recordFails && a.executionId !in s.executions
                           && !(a.outcome.Finished? && action.arguments.OpenApp? && a.intentFails))
            && (r.Ok? ==> r.value.Some? && after.executions == s.executions[a.executionId := r.value.value])
            && (r.Err? ==> after.executions == s.executions && after.audit == s.audit)
  {
    hide ConfirmedCarriedOut;
    var pend := s.pending[id];
    var found := k.DescriptorFor(pend.proposal.action);
    if found.Ok? {
      var ctx := ContextFor(s, pend.proposal, pend.chat, a.decidedAtMs);
      k.engine.ConfirmationLiftsExactlyConfirm(found.value, pend.proposal, a.executionId, ctx);
      AcceptingAnswers(s.(pending := s.pending - {id}), id, pend, persistence, until, a,
                       k.engine.AuthorizeConfirmedOnce(found.value, pend.proposal, a.executionId, ctx));
    }
  }

  // ---- What is offered ----

  /** A chat's proposal is offered for confirmation exactly when policy on all the stored grants asks and its receipt is
      stored; whatever else was offered stays. */
  lemma OfferedExactlyWhen(k: Kernel, s: Core, p: ActionProposal, session: ChatSessionId, a: Attempt, id: ConfirmationId, expiresAtMs: int)
    requires k.Valid() && GrantsInv(s) && id !in s.pending
    ensures var after := ChatOpen(k, s, p, session, a, id, expiresAtMs);
            && (id in after.pending <==>
                && Registered(k, p.action) && !a.lookupFails && !a.recordFails && a.executionId !in s.executions
                && k.engine.Decide(k.registry[p.action.capabilityId], p, WholeView(s, p, Some(session), a.decidedAtMs)).outcome.Confirm?)
            && (id in after.pending ==> after.pending[id] == Pending(a.executionId, p, expiresAtMs, Some(session)))
            && after.pending - {id} == s.pending
  {
    hide Process, Payments.RestsOnGrant, Payments.AllExpiredAtStart, WholeView;
    ProcessingOffersNothing(k, s, p, Some(session), false, a);
    ProcessingAnswers(k, s, p, Some(session), false, a);
    AnswerIsNew(k, s, p, Some(session), false, a);
    if Registered(k, p.action) && !a.lookupFails {
      AnswerHasTheDecision(k, s, p, Some(session), false, a);
    }
  }

  lemma AnswerHasTheDecision(k: Kernel, s: Core, p: ActionProposal, chat: Option<ChatSessionId>, simulate: bool, a: Attempt)
    requires k.Valid() && GrantsInv(s) && Registered(k, p.action) && !a.lookupFails
    ensures var d := k.engine.Decide(k.registry[p.action.capabilityId], p, WholeView(s, p, chat, a.decidedAtMs));
            && (Process(k, s, p, chat, simulate, a).1.Ok? ==> Process(k, s, p, chat, simulate, a).1.value.decision == d)
            && (Payments.RestsOnGrant(k, s, p, chat, a) ==> d.outcome.Allowed?)
  {
    var c, ctx := k.registry[p.action.capabilityId], ContextFor(s, p, chat, a.decidedAtMs);
    ReceiptHasTheDecision(s, p, chat, simulate, a, k.engine.Authorize(c, p, a.executionId, ctx));
    GrantStore.FastLookupAgrees(k.engine, c, p, ctx, s.grants);
    if Payments.RestsOnGrant(k, s, p, chat, a) {
      Payments.AllowanceComesFromShownGrant(k.engine, c, p, ctx);
    }
  }

  /** Every confirmation of a run was offered by a chat, for its own proposal, request and expiry. */
  lemma {:induction false} EveryOfferWasMade(k: Kernel, ops: seq<Op>, id: ConfirmationId) returns (i: nat)
    requires Admissible(k, ops) && id in Run(k, ops).issued
    ensures i < |ops| && ops[i].ChatOp? && ops[i].offered == id
    ensures Run(k, ops).issued[id] == Pending(ops[i].a.executionId, ops[i].p, ops[i].expiresAtMs, Some(ops[i].session))
  {
    hide Next;
    var front, op := ops[..|ops| - 1], ops[|ops| - 1];
    var s := Run(k, front);
    AdmissibleFront(k, ops);
    if id in s.issued {
      i := EveryOfferWasMade(k, front, id);
      assert Enabled(Run(k, ops[..|ops| - 1]), op);
      OfferingKeepsOffers(k, s, op, id);
    } else {
      i := |ops| - 1;
      NewOffer(k, s, op, id);
    }
  }

  /** So what an executor is given on a confirmation is what a chat proposed before, and never a dry run. */
  lemma EveryConfirmedCallWasProposed(k: Kernel, ops: seq<Op>, n: nat) returns (i: nat)
    requires Admissible(k, ops) && n < |Run(k, ops).calls| && Run(k, ops).calls[n].confirmation.Some?
    ensures i < |ops| && ops[i].ChatOp? && Run(k, ops).calls[n].confirmation == Some(ops[i].offered)
    ensures Run(k, ops).calls[n].authorization.action == ops[i].p.action && !Run(k, ops).calls[n].simulate
  {
    hide Run;
    RunKeepsInv(k, ops);
    var call := Run(k, ops).calls[n];
    assert call in Run(k, ops).calls;
    i := EveryOfferWasMade(k, ops, call.confirmation.value);
  }

  lemma OfferingKeepsOffers(k: Kernel, s: Core, op: Op, id: ConfirmationId)
    requires Enabled(s, op) && id in s.issued
    ensures id in Next(k, s, op).issued && Next(k, s, op).issued[id] == s.issued[id]
  {
    hide Process, ConfirmAction;
    match op
    case ExecuteOp(p, chat, simulate, a) => ProcessingOffersNothing(k, s, p, chat, simulate, a);
    case ChatOp(p, session, a, offered, expiry) => ProcessingOffersNothing(k, s, p, Some(session), false, a);
    case ConfirmOp(other, allow, persistence, until, a) => AnsweringOffersNothing(k, s, other, allow, persistence, until, a);
    case EvaluateOp(_) =>
    case GrantOp(_) =>
    case ProfileOp(_) =>
    case RestartOp(_) =>
  }

  lemma NewOffer(k: Kernel, s: Core, op: Op, id: ConfirmationId)
    requires id !in s.issued && id in Next(k, s, op).issued
    ensures op.ChatOp? && op.offered == id
    ensures Next(k, s, op).issued[id] == Pending(op.a.executionId, op.p, op.expiresAtMs, Some(op.session))
  {
    hide Process, ConfirmAction;
    match op
    case ExecuteOp(p, chat, simulate, a) => ProcessingOffersNothing(k, s, p, chat, simulate, a);
    case ChatOp(p, session, a, offered, expiry) =>
      ProcessingOffersNothing(k, s, p, Some(session), false, a);
      ProcessingAnswers(k, s, p, Some(session), false, a);
      CallRecords.ProcessingReports(k, s, p, Some(session), false, a);
      AnswerIsNew(k, s, p, Some(session), false, a);
    case ConfirmOp(other, allow, persistence, until, a) => AnsweringOffersNothing(k, s, other, allow, persistence, until, a);
    case EvaluateOp(_) =>
    case GrantOp(_) =>
    case ProfileOp(_) =>
    case RestartOp(_) =>
  }

  lemma AnswerIsNew(k: Kernel, s: Core, p: ActionProposal, chat: Option<ChatSessionId>, simulate: bool, a: Attempt)
    ensures var (after, r) := Process(k, s, p, chat, simulate, a); r.Ok? ==> r.value.executionId == a.executionId
  {
    ProcessingAnswers(k, s, p, chat, simulate, a);
    CallRecords.ProcessingReports(k, s, p, chat, simulate, a);
    var (after, r) := Process(k, s, p, chat, simulate, a);
    if r.Ok? {
      assert after.executions[a.executionId] == r.value;
      assert a.executionId !in s.executions;
    }
  }

  // ---- Restarts ----

  /** After a restart every confirmation is spent, and a grant is active for whom it was before unless it is bound to a
      daemon or agent session; then it is active for nobody. */
  lemma RestartEndsSessions(k: Kernel, s: Core, nowMs: int)
    ensures var after := Restarted(s, nowMs);
            && (forall id, allow, persistence, until, a :: ConfirmAction(k, after, id, allow, persistence, until, a) == (after, Err(ConfirmationExpired)))
            && |after.grants| == |s.grants|
            && (forall i, p, caller | 0 <= i < |s.grants| ::
                  GrantStore.SqlActive(after.grants[i], p, caller) <==>
                  && GrantStore.SqlActive(s.grants[i], p, caller)
                  && !(caller.session.Some? && !caller.session.value.ChatSession? && s.grants[i].session == caller.session))
            && after.audit == s.audit && after.executions == s.executions && after.profile == s.profile && after.calls == s.calls
  {
  }
}
