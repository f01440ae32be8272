/** What a confirmation leaves behind for later, and how long a stored grant speaks over whole runs of the service
    (the confirmation part of apps/daemon/src/interaction_service.rs, crates/storage/src/security.rs). */
module GrantLives {
  import opened Prelude
  import opened SqlOrder
  import opened Domain
  import opened Policy
  import opened Authority
  import opened AuthorityRuns
  import opened Diversions
  import GrantStore
  import Payments
  import Sessions

  // ---- The grant a confirmation keeps ----

  /** Whether a stored row speaks for a proposal made now: it is unrevoked, unexpired and unspent, of exactly that scope and for
      exactly the agent that proposes (or for none, if it is not an agent); and if it is bound to a session, that is the
      agent's own or, for others, the chat. */
  predicate Speaks(g: PermissionGrant, p: ActionProposal, chat: Option<ChatSessionId>, nowMs: int) {
    && g.revokedAtMs.None?
    && (g.expiresAtMs.Some? ==> nowMs <= g.expiresAtMs.value)
    && (g.useLimit.Some? ==> g.useCount < g.useLimit.value)
    && g.scope.capabilityId == p.action.capabilityId && g.scope.arguments == p.action.arguments
    && g.scope.resources == p.context.resources
    && g.scope.destination == (match p.context.dataFlow case None => None case Some(flow) => Some(flow.destination))
    && match p.context.agent
       case None =>
         && g.agentId.None?
         && (g.session.Some? ==> chat.Some? && g.session.value == ChatSession(chat.value))
       case Some(agent) =>
         && g.agentId == Some(agent.agentId)
         && (g.session.Some? ==> g.session.value == AgentSession(agent.sessionId))
  }

  predicate SessionMatchesLifetime(g: PermissionGrant) {
    g.lifetime.Session? <==> g.session.Some?
  }

  /** Both queries of the service find a row active exactly when it speaks for the proposal. */
  lemma ActiveExactlyWhenItSpeaks(g: PermissionGrant, p: ActionProposal, chat: Option<ChatSessionId>, nowMs: int)
    requires SessionMatchesLifetime(g)
    ensures GrantStore.SqlActive(g, p, CallerFor(p, chat, nowMs)) <==> Speaks(g, p, chat, nowMs)
  {
  }

  /** For whom, and until when, the answer to `pend` was given. */
  predicate AnswersFor(pend: Pending, persistence: Persistence, until: Option<int>, caller: Caller) {
    var agent := pend.proposal.context.agent;
    && caller.agentId == (if agent.Some? then Some(agent.value.agentId) else None)
    && match persistence
       case OnlyOnce => false
       case ForSession =>
         caller.session.Some? &&
         (match caller.session.value
          case AgentSession(session) => agent.Some? && session == agent.value.sessionId
          case ChatSession(session) => agent.None? && pend.chat == Some(session)
          case DaemonSession(_) => false)
       case UntilTime => until.Some? && caller.nowMs <= until.value
       case Forever => true
  }

  /** A valid allow grant of the user that speaks for every proposal of the same scope, however often it was used, to
      exactly those the answer was given for. */
  ghost predicate KeepsAnswer(g: PermissionGrant, pend: Pending, persistence: Persistence, until: Option<int>, a: Attempt) {
    && g.id == a.permissionId && g.effect.Allow? && g.Valid()
    && g.grantedBy.UserExplicit? && g.grantedAtMs == a.startedAtMs && g.revokedAtMs.None?
    && g.useLimit.None? && g.useCount == 0
    && (g.lifetime.Session? <==> persistence.ForSession?) && (g.lifetime.Until? <==> persistence.UntilTime?)
    && (g.lifetime.Always? <==> persistence.Forever?)
    && (g.lifetime.Session? ==> (g.session.value.ChatSession? <==> pend.proposal.context.agent.None?))
    && forall uses: nat, q: ActionProposal, caller: Caller ::
         GrantStore.SqlActive(g.(useCount := uses), q, caller) <==>
         pend.proposal.action.capabilityId == q.action.capabilityId && pend.proposal.action.arguments == q.action.arguments
         && pend.proposal.context.resources == q.context.resources && pend.proposal.Destination() == q.Destination()
         && AnswersFor(pend, persistence, until, caller)
  }

  lemma KeptGrantKeepsAnswer(pend: Pending, persistence: Persistence, until: Option<int>, a: Attempt)
    requires !persistence.OnlyOnce? && Keepable(pend, persistence, until, a) && |pend.proposal.context.resources| <= MAX_ACTION_RESOURCES
    ensures var kept := GrantToKeep(pend, persistence, until, a);
            kept.Ok? && kept.value.Some? && KeepsAnswer(kept.value.value, pend, persistence, until, a)
  {
  }

  /** A confirmation that executed leaves the grants alone if it was given once. Otherwise, under a fresh identifier, it
      adds one grant, which keeps the answer that was given. */
  lemma ConfirmationKeepsAnswer(k: Kernel, s: Core, id: ConfirmationId, allow: bool, persistence: Persistence, until: Option<int>, a: Attempt)
    requires k.Valid() && ConfirmAction(k, s, id, allow, persistence, until, a).0.calls != s.calls
    ensures id in s.pending
    ensures var grants := ConfirmAction(k, s, id, allow, persistence, until, a).0.grants;
            && (persistence.OnlyOnce? ==> grants == s.grants)
            && (!persistence.OnlyOnce? && GrantStore.RowNamed(s.grants, a.permissionId).None? ==>
                  |grants| == |s.grants| + 1 && s.grants < grants
                  && KeepsAnswer(grants[|s.grants|], s.pending[id], persistence, until, a))
  {
    ConfirmationExecutesExactlyWhen(k, s, id, allow, persistence, until, a);
    var pend := s.pending[id];
    NotDeniedIsValid(k.engine, k.DescriptorFor(pend.proposal.action).value, pend.proposal, ContextFor(s, pend.proposal, pend.chat, a.decidedAtMs));
    ConfirmingStores(k, s, ConfirmOp(id, allow, persistence, until, a));
    if !persistence.OnlyOnce? {
      KeptGrantKeepsAnswer(pend, persistence, until, a);
    }
  }

  // ---- How long a stored grant speaks ----

  predicate Stores(k: Kernel, s: Core, op: Op, id: PermissionId) {
    StoredBy(k, s, op).Some? && StoredBy(k, s, op).value.id == id
  }

  /** A revocation that names the grant, or a restart when the grant is bound to a daemon or agent session. */
  predicate Ends(op: Op, g: PermissionGrant) {
    || (op.GrantOp? && op.op.RevokeOp? && op.op.id == g.id)
    || (op.RestartOp? && g.lifetime.Session? && g.session.Some? && !g.session.value.ChatSession?)
  }

  /** What a step that does not store the grant may change of its row: the count, and whether it is revoked. */
  predicate RowLives(was: Option<PermissionGrant>, now: Option<PermissionGrant>, op: Op) {
    && (was.None? <==> now.None?)
    && (was.Some? ==>
          && now.value.(useCount := was.value.useCount, revokedAtMs := was.value.revokedAtMs) == was.value
          && if was.value.revokedAtMs.Some? then now.value.revokedAtMs == was.value.revokedAtMs
             else now.value.revokedAtMs.Some? <==> Ends(op, was.value))
  }

  lemma ClaimedRowLives(rows: seq<PermissionGrant>, p: ActionProposal, caller: Caller, id: PermissionId, op: Op)
    requires GrantStore.DistinctIds(rows) && forall g: PermissionGrant :: !Ends(op, g)
    ensures RowLives(GrantStore.RowNamed(rows, id), GrantStore.RowNamed(GrantStore.Claimed(rows, p, caller), id), op)
  {
    hide GrantStore.Claimed, GrantStore.ClaimCandidate, GrantStore.RowNamed, GrantStore.IndexOf, Ends;
    GrantStore.ClaimNames(rows, p, caller, id);
    GrantStore.CandidateIsRow(rows, p, caller);
    GrantStore.RowNamedIsTheRow(rows, id);
  }

  lemma ProcessedRowLives(k: Kernel, s: Core, p: ActionProposal, chat: Option<ChatSessionId>, simulate: bool, a: Attempt, id: PermissionId, op: Op)
    requires GrantStore.DistinctIds(s.grants) && forall g: PermissionGrant :: !Ends(op, g)
    ensures RowLives(GrantStore.RowNamed(s.grants, id), GrantStore.RowNamed(Process(k, s, p, chat, simulate, a).0.grants, id), op)
  {
    hide Process, GrantStore.Claimed, GrantStore.RowNamed, Ends;
    Payments.ProcessingPays(k, s, p, chat, simulate, a);
    ClaimedRowLives(s.grants, p, CallerFor(p, chat, a.startedAtMs), id, op);
  }

  lemma RestartedRowLives(rows: seq<PermissionGrant>, nowMs: int, id: PermissionId)
    ensures RowLives(GrantStore.RowNamed(rows, id), GrantStore.RowNamed(Sessions.RevokeBound(rows, Sessions.AgentOrDaemon(), nowMs), id), RestartOp(nowMs))
  {
    hide GrantStore.IndexOf, Sessions.RevokeBound;
    var after := Sessions.RevokeBound(rows, Sessions.AgentOrDaemon(), nowMs);
    GrantStore.SameIdsSamePlace(rows, after, id);
    var at := GrantStore.IndexOf(rows, id);
    assert at.Some? ==> after[at.value].id == rows[at.value].id;
  }

  lemma StepKeepsRow(k: Kernel, s: Core, op: Op, id: PermissionId)
    requires GrantStore.DistinctIds(s.grants) && !Stores(k, s, op, id)
    ensures RowLives(GrantStore.RowNamed(s.grants, id), GrantStore.RowNamed(Next(k, s, op).grants, id), op)
  {
    hide Process, ConfirmAction, GrantStore.RowNamed, KeptBy, GrantStore.Upserted, GrantStore.Revoked, GrantStore.Claimed, Sessions.RevokeBound;
    match op {
      case ExecuteOp(p, chat, simulate, a) => ProcessedRowLives(k, s, p, chat, simulate, a, id, op);
      case ChatOp(p, session, a, offered, expiry) => ProcessedRowLives(k, s, p, Some(session), false, a, id, op);
      case ConfirmOp(_, _, _, _, _) =>
        ConfirmingStores(k, s, op);
        if KeptBy(k, s, op).Some? {
          GrantStore.UpsertNames(s.grants, KeptBy(k, s, op).value, id);
        }
      case EvaluateOp(_) =>
      case GrantOp(tableOp) =>
        GrantStore.RowNamedIsTheRow(s.grants, id);
        match tableOp {
          case UpsertOp(g, bytes) => if GrantStore.Storable(g, bytes) { GrantStore.UpsertNames(s.grants, g, id); }
          case RevokeOp(target, nowMs) => GrantStore.RevokeNames(s.grants, target, nowMs, id);
          case ClaimOp(p, caller) => ClaimedRowLives(s.grants, p, caller, id, op);
        }
      case ProfileOp(_) =>
      case RestartOp(nowMs) => RestartedRowLives(s.grants, nowMs, id);
    }
  }

  /** Operations `n` and later of the run do not store grant `id`. */
  ghost predicate NotStoredFrom(k: Kernel, ops: seq<Op>, n: nat, id: PermissionId) {
    forall i | n <= i < |ops| :: !Stores(k, Run(k, ops[..i]), ops[i], id)
  }

  lemma NotStoredFront(k: Kernel, ops: seq<Op>, n: nat, id: PermissionId)
    requires NotStoredFrom(k, ops, n, id) && n < |ops|
    ensures NotStoredFrom(k, ops[..|ops| - 1], n, id) && !Stores(k, Run(k, ops[..|ops| - 1]), ops[|ops| - 1], id)
  {
    var front := ops[..|ops| - 1];
    forall i | n <= i < |front| ensures !Stores(k, Run(k, front[..i]), front[i], id) {
      assert front[..i] == ops[..i];
    }
  }

  /** What any number of such steps may change, and whether one of them ended the grant. */
  predicate LivesUntil(was: Option<PermissionGrant>, now: Option<PermissionGrant>, ended: bool) {
    && (was.None? <==> now.None?)
    && (was.Some? ==>
          && now.value.(useCount := was.value.useCount, revokedAtMs := was.value.revokedAtMs) == was.value
          && (now.value.revokedAtMs.Some? <==> was.value.revokedAtMs.Some? || ended))
  }

  ghost predicate EndedFrom(ops: seq<Op>, n: nat, g: Option<PermissionGrant>) {
    g.Some? && exists i | n <= i < |ops| :: Ends(ops[i], g.value)
  }

  lemma EndedStep(ops: seq<Op>, n: nat, g: Option<PermissionGrant>)
    requires n < |ops|
    ensures EndedFrom(ops, n, g) <==> EndedFrom(ops[..|ops| - 1], n, g) || (g.Some? && Ends(ops[|ops| - 1], g.value))
  {
    var front := ops[..|ops| - 1];
    assert forall i | n <= i < |front| :: front[i] == ops[i];
  }

  lemma LivesStep(was: Option<PermissionGrant>, before: Option<PermissionGrant>, now: Option<PermissionGrant>, op: Op, ended: bool)
    requires LivesUntil(was, before, ended) && RowLives(before, now, op)
    ensures LivesUntil(was, now, ended || (was.Some? && Ends(op, was.value)))
  {
  }

  /** Until it is stored again, a grant's row changes at most in its count, and is revoked from the first operation
      on that ends it. */
  lemma {:induction false} RowLivesUntilEnded(k: Kernel, ops: seq<Op>, n: nat, id: PermissionId)
    requires Admissible(k, ops) && n <= |ops| && NotStoredFrom(k, ops, n, id)
    ensures var was := GrantStore.RowNamed(Run(k, ops[..n]).grants, id);
            LivesUntil(was, GrantStore.RowNamed(Run(k, ops).grants, id), EndedFrom(ops, n, was))
  {
    hide Next, Stores, GrantStore.RowNamed, GrantStore.DistinctIds, LivesUntil, RowLives, EndedFrom, TraceInv, PendingInv, CallsInv, ReceiptsInv;
    var was := GrantStore.RowNamed(Run(k, ops[..n]).grants, id);
    if n == |ops| {
      assert ops[..n] == ops;
      NothingHappened(was, ops);
    } else {
      var front, op := ops[..|ops| - 1], ops[|ops| - 1];
      AdmissibleFront(k, ops);
      NotStoredFront(k, ops, n, id);
      assert front[..n] == ops[..n];
      RowLivesUntilEnded(k, front, n, id);
      RunKeepsInv(k, front);
      StepKeepsRow(k, Run(k, front), op, id);
      EndedStep(ops, n, was);
      LivesStep(was, GrantStore.RowNamed(Run(k, front).grants, id), GrantStore.RowNamed(Run(k, ops).grants, id), op, EndedFrom(front, n, was));
    }
  }

  lemma NothingHappened(was: Option<PermissionGrant>, ops: seq<Op>)
    ensures LivesUntil(was, was, EndedFrom(ops, |ops|, was))
  {
  }

  /** From its revocation on until it is stored again, a grant decides no request and pays for none. */
  lemma RevokedGrantIsSilent(k: Kernel, ops: seq<Op>, j: nat, id: PermissionId)
    requires Admissible(k, ops) && j < |ops| && NotStoredFrom(k, ops, j + 1, id)
    requires ops[j].GrantOp? && ops[j].op.RevokeOp? && ops[j].op.id == id
    ensures forall g | g in Run(k, ops).grants && g.id == id :: g.revokedAtMs.Some?
    ensures forall q: Request :: Decider(Run(k, ops), q) != Some(id) && Payer(Run(k, ops), q) != Some(id)
  {
    hide Next, GrantStore.RowNamed;
    var before, s := Run(k, ops[..j]), Run(k, ops);
    assert ops[..j + 1][..j] == ops[..j] && Run(k, ops[..j + 1]) == Next(k, before, ops[j]);
    RunKeepsInv(k, ops);
    AdmissibleAtPrefix(k, ops, j);
    RunKeepsInv(k, ops[..j]);
    RevokingStep(k, before, ops[j]);
    RowLivesUntilEnded(k, ops, j + 1, id);
    GrantStore.RowNamedIsTheRow(s.grants, id);
  }

  lemma {:induction false} AdmissibleAtPrefix(k: Kernel, ops: seq<Op>, n: nat)
    requires Admissible(k, ops) && n <= |ops|
    ensures Admissible(k, ops[..n])
  {
    if n == |ops| {
      assert ops[..n] == ops;
    } else {
      AdmissibleFront(k, ops);
      assert ops[..|ops| - 1][..n] == ops[..n];
      AdmissibleAtPrefix(k, ops[..|ops| - 1], n);
    }
  }

  lemma RevokingStep(k: Kernel, s: Core, op: Op)
    requires GrantStore.DistinctIds(s.grants) && op.GrantOp? && op.op.RevokeOp?
    ensures var now := GrantStore.RowNamed(Next(k, s, op).grants, op.op.id); now.Some? ==> now.value.revokedAtMs.Some?
  {
    hide GrantStore.RowNamed;
    GrantStore.RevokeNames(s.grants, op.op.id, op.op.nowMs, op.op.id);
  }

  // ---- Answers that last ----

  /** An action that asks when no grant speaks for it. */
  predicate AsksWithoutGrants(k: Kernel, s: Core, p: ActionProposal, caller: Caller) {
    && k.DescriptorFor(p.action).Ok?
    && k.engine.Decide(k.DescriptorFor(p.action).value, p, ContextView({}, [], s.profile, caller)).outcome.Confirm?
  }

  ghost predicate NoDenial(s: Core, p: ActionProposal, caller: Caller) {
    forall g | g in s.grants && g.effect.Deny? :: !GrantStore.SqlActive(g, p, caller)
  }

  lemma ShownRowAnswers(engine: Engine, c: CapabilityDescriptor, p: ActionProposal, ctx: ContextView, row: PermissionGrant)
    requires ctx.grants == [row] && ctx.caller.Applies(row, p, Allow)
    requires engine.Decide(c, p, ctx.(grants := [])).outcome.Confirm?
    ensures var d := engine.Decide(c, p, ctx); d.outcome.Allowed? && d.reason.PersistentExactAllow?
  {
    assert ctx.caller.Matching(ctx.grants, p, Deny) == None && ctx.caller.Matching(ctx.grants, p, Allow).Some?;
    assert ctx.caller.Matching([], p, Deny) == None && ctx.caller.Matching([], p, Allow) == None;
  }

  lemma AllowRowIsShown(s: Core, p: ActionProposal, chat: Option<ChatSessionId>, nowMs: int, g: PermissionGrant)
    requires GrantsInv(s) && g in s.grants
    requires var caller := CallerFor(p, chat, nowMs); GrantStore.SqlActive(g, p, caller) && NoDenial(s, p, caller)
    ensures var ctx := ContextFor(s, p, chat, nowMs); |ctx.grants| == 1 && ctx.caller.Applies(ctx.grants[0], p, Allow)
  {
    hide GrantStore.ActiveGrantForProposal;
    GrantStore.SelectedRowIsDecisive(s.grants, p, CallerFor(p, chat, nowMs));
  }

  /** An active allow grant that no deny grant overrides answers an action that would ask. */
  lemma ActiveGrantAnswers(k: Kernel, s: Core, p: ActionProposal, chat: Option<ChatSessionId>, nowMs: int, g: PermissionGrant)
    requires GrantsInv(s) && g in s.grants
    requires var caller := CallerFor(p, chat, nowMs);
             GrantStore.SqlActive(g, p, caller) && NoDenial(s, p, caller) && AsksWithoutGrants(k, s, p, caller)
    ensures var d := k.engine.Decide(k.DescriptorFor(p.action).value, p, WholeView(s, p, chat, nowMs));
            d.outcome.Allowed? && d.reason.PersistentExactAllow?
  {
    hide GrantStore.ActiveGrantForProposal, GrantStore.SqlActive, NoDenial;
    var c, ctx := k.DescriptorFor(p.action).value, ContextFor(s, p, chat, nowMs);
    AllowRowIsShown(s, p, chat, nowMs, g);
    assert ctx.grants == [ctx.grants[0]];
    ShownRowAnswers(k.engine, c, p, ctx, ctx.grants[0]);
    GrantStore.FastLookupAgrees(k.engine, c, p, ctx, s.grants);
  }

  /** Where a confirmation was answered, executed and kept under a fresh identifier. */
  predicate KeptAt(k: Kernel, ops: seq<Op>, i: nat)
    requires i < |ops|
  {
    var s, op := Run(k, ops[..i]), ops[i];
    && op.ConfirmOp? && !op.persistence.OnlyOnce?
    && Next(k, s, op).calls != s.calls && GrantStore.RowNamed(s.grants, op.a.permissionId).None?
  }

  /** An answer kept at `i` that nothing has stored again, revoked or ended with its session since. */
  ghost predicate StillKept(k: Kernel, ops: seq<Op>, i: nat)
    requires i < |ops|
  {
    && KeptAt(k, ops, i) && ops[i].id in Run(k, ops[..i]).pending
    && NotStoredFrom(k, ops, i + 1, ops[i].a.permissionId)
    && var agent := Run(k, ops[..i]).pending[ops[i].id].proposal.context.agent;
       forall j | i < j < |ops| ::
         && (ops[j].GrantOp? && ops[j].op.RevokeOp? ==> ops[j].op.id != ops[i].a.permissionId)
         && (ops[j].RestartOp? && ops[i].persistence.ForSession? ==> agent.None?)
  }

  lemma KeptRow(k: Kernel, ops: seq<Op>, i: nat)
    requires k.Valid() && Admissible(k, ops) && i < |ops| && KeptAt(k, ops, i)
    ensures var op := ops[i];
            var row := GrantStore.RowNamed(Run(k, ops[..i + 1]).grants, op.a.permissionId);
            && op.id in Run(k, ops[..i]).pending
            && row.Some? && KeepsAnswer(row.value, Run(k, ops[..i]).pending[op.id], op.persistence, op.until, op.a)
  {
    var s, op := Run(k, ops[..i]), ops[i];
    assert ops[..i + 1][..i] == ops[..i];
    ConfirmationKeepsAnswer(k, s, op.id, op.allow, op.persistence, op.until, op.a);
    AdmissibleAtPrefix(k, ops, i + 1);
    RunKeepsInv(k, ops[..i + 1]);
    GrantStore.RowNamedIsTheRow(Run(k, ops[..i + 1]).grants, op.a.permissionId);
  }

  /** An answer that is still kept speaks for its proposal to exactly those it was given for. */
  lemma KeptAnswerSpeaks(k: Kernel, ops: seq<Op>, i: nat) returns (g: PermissionGrant)
    requires k.Valid() && Admissible(k, ops) && i < |ops| && StillKept(k, ops, i)
    ensures g in Run(k, ops).grants && g.id == ops[i].a.permissionId && g.effect.Allow?
    ensures var pend := Run(k, ops[..i]).pending[ops[i].id];
            forall caller :: GrantStore.SqlActive(g, pend.proposal, caller) <==> AnswersFor(pend, ops[i].persistence, ops[i].until, caller)
  {
    hide Next, GrantStore.RowNamed, AnswersFor;
    var id := ops[i].a.permissionId;
    KeptRow(k, ops, i);
    RowLivesUntilEnded(k, ops, i + 1, id);
    RunKeepsInv(k, ops);
    GrantStore.RowNamedIsTheRow(Run(k, ops).grants, id);
    var was := GrantStore.RowNamed(Run(k, ops[..i + 1]).grants, id).value;
    g := GrantStore.RowNamed(Run(k, ops).grants, id).value;
    assert g == was.(useCount := g.useCount);
  }

  lemma ActiveGrantLetsRun(k: Kernel, ops: seq<Op>, p: ActionProposal, chat: Option<ChatSessionId>, simulate: bool, a: Attempt, g: PermissionGrant)
    requires k.Valid() && Admissible(k, ops) && g in Run(k, ops).grants && g.effect.Allow?
    requires var s, caller := Run(k, ops), CallerFor(p, chat, a.decidedAtMs);
             GrantStore.SqlActive(g, p, caller) && NoDenial(s, p, caller) && AsksWithoutGrants(k, s, p, caller)
    ensures var s := Run(k, ops);
            var (after, r) := Process(k, s, p, chat, simulate, a);
            && k.engine.Decide(k.DescriptorFor(p.action).value, p, WholeView(s, p, chat, a.decidedAtMs)).outcome.Allowed?
            && (r.Ok? ==> r.value.decision.outcome.Allowed?)
            && (!a.lookupFails && !a.claimFails && GrantStore.SqlActive(g, p, CallerFor(p, chat, a.startedAtMs)) ==> after.calls != s.calls)
  {
    hide Run, Next, Process, GrantStore.SqlActive, NoDenial;
    RunKeepsInv(k, ops);
    ActiveGrantAnswers(k, Run(k, ops), p, chat, a.decidedAtMs, g);
    DecisionsSeeEveryGrant(k, ops, p, chat, simulate, a);
    ProcessingExecutesExactlyWhen(k, Run(k, ops), p, chat, simulate, a);
  }

  /** So the proposal that was confirmed is not asked for again: wherever that answer speaks, no deny grant stands
      against it and the action would otherwise ask, it is allowed; and it reaches the executor if the answer
      spoke at its start too and the claim commits. */
  lemma KeptAnswerIsNotAskedAgain(k: Kernel, ops: seq<Op>, i: nat, chat: Option<ChatSessionId>, simulate: bool, a: Attempt)
    requires k.Valid() && Admissible(k, ops) && i < |ops| && StillKept(k, ops, i)
    requires var s, pend := Run(k, ops), Run(k, ops[..i]).pending[ops[i].id];
             var caller := CallerFor(pend.proposal, chat, a.decidedAtMs);
             && AnswersFor(pend, ops[i].persistence, ops[i].until, caller)
             && NoDenial(s, pend.proposal, caller) && AsksWithoutGrants(k, s, pend.proposal, caller)
    ensures var s, pend := Run(k, ops), Run(k, ops[..i]).pending[ops[i].id];
            var (after, r) := Process(k, s, pend.proposal, chat, simulate, a);
            && k.engine.Decide(k.DescriptorFor(pend.proposal.action).value, pend.proposal, WholeView(s, pend.proposal, chat, a.decidedAtMs)).outcome.Allowed?
            && (r.Ok? ==> r.value.decision.outcome.Allowed?)
            && (!a.lookupFails && !a.claimFails
                && AnswersFor(pend, ops[i].persistence, ops[i].until, CallerFor(pend.proposal, chat, a.startedAtMs)) ==>
                  after.calls != s.calls)
  {
    hide Run, Process, AnswersFor, NoDenial, AsksWithoutGrants, GrantStore.SqlActive;
    var g := KeptAnswerSpeaks(k, ops, i);
    ActiveGrantLetsRun(k, ops, Run(k, ops[..i]).pending[ops[i].id].proposal, chat, simulate, a, g);
  }

  // ---- Who decides ----

  lemma StoredMatches(k: Kernel, s: Core, op: Op)
    requires StoredBy(k, s, op).Some?
    ensures SessionMatchesLifetime(StoredBy(k, s, op).value)
    ensures Next(k, s, op).grants == GrantStore.Upserted(s.grants, StoredBy(k, s, op).value)
  {
    hide Process, ConfirmAction;
    if op.ConfirmOp? {
      ConfirmingStores(k, s, op);
    }
  }

  lemma StepKeepsMatch(k: Kernel, s: Core, op: Op, g: PermissionGrant)
    requires GrantStore.DistinctIds(s.grants) && GrantStore.DistinctIds(Next(k, s, op).grants)
    requires (forall x | x in s.grants :: SessionMatchesLifetime(x)) && g in Next(k, s, op).grants
    ensures SessionMatchesLifetime(g)
  {
    hide Next, StoredBy, GrantStore.RowNamed, GrantStore.Upserted, GrantStore.DistinctIds;
    GrantStore.RowNamedIsTheRow(s.grants, g.id);
    GrantStore.RowNamedIsTheRow(Next(k, s, op).grants, g.id);
    if Stores(k, s, op, g.id) {
      StoredMatches(k, s, op);
      GrantStore.UpsertNames(s.grants, StoredBy(k, s, op).value, g.id);
    } else {
      StepKeepsRow(k, s, op, g.id);
      assert GrantStore.RowNamed(s.grants, g.id).value in s.grants;
    }
  }

  /** In every reachable state exactly the session grants name a session. */
  lemma {:induction false} SessionsMatchLifetimes(k: Kernel, ops: seq<Op>)
    requires Admissible(k, ops)
    ensures forall g | g in Run(k, ops).grants :: SessionMatchesLifetime(g)
  {
    hide Next, SessionMatchesLifetime;
    if ops != [] {
      var front := ops[..|ops| - 1];
      AdmissibleFront(k, ops);
      SessionsMatchLifetimes(k, front);
      RunKeepsInv(k, front);
      RunKeepsInv(k, ops);
      forall g | g in Run(k, ops).grants ensures SessionMatchesLifetime(g) {
        StepKeepsMatch(k, Run(k, front), ops[|ops| - 1], g);
      }
    }
  }

  lemma AppliesExactlyWhenItSpeaks(g: PermissionGrant, p: ActionProposal, chat: Option<ChatSessionId>, nowMs: int, effect: PermissionEffect)
    requires SessionMatchesLifetime(g)
    ensures CallerFor(p, chat, nowMs).Applies(g, p, effect) <==> g.effect == effect && Speaks(g, p, chat, nowMs)
  {
  }

  ghost predicate SomeoneSpeaks(s: Core, effect: PermissionEffect, p: ActionProposal, chat: Option<ChatSessionId>, nowMs: int) {
    exists g | g in s.grants :: g.effect == effect && Speaks(g, p, chat, nowMs)
  }

  lemma WholeViewSpeaks(s: Core, effect: PermissionEffect, p: ActionProposal, chat: Option<ChatSessionId>, nowMs: int)
    requires forall g | g in s.grants :: SessionMatchesLifetime(g)
    ensures var ctx := WholeView(s, p, chat, nowMs);
            ctx.caller.Matching(ctx.grants, p, effect).Some? <==> SomeoneSpeaks(s, effect, p, chat, nowMs)
  {
    hide Speaks, SessionMatchesLifetime;
    var ctx := WholeView(s, p, chat, nowMs);
    SortSorts(s.grants, GrantStore.NewestFirst);
    forall g | g in s.grants ensures ctx.caller.Applies(g, p, effect) <==> g.effect == effect && Speaks(g, p, chat, nowMs) {
      AppliesExactlyWhenItSpeaks(g, p, chat, nowMs, effect);
    }
  }

  lemma GrantsDecideAskingAction(engine: Engine, c: CapabilityDescriptor, p: ActionProposal, ctx: ContextView)
    requires engine.Decide(c, p, ctx.(grants := [])).outcome.Confirm?
    ensures var d := engine.Decide(c, p, ctx);
            && (d.outcome.Denied? <==> ctx.caller.Matching(ctx.grants, p, Deny).Some?)
            && (d.outcome.Allowed? <==> ctx.caller.Matching(ctx.grants, p, Deny).None? && ctx.caller.Matching(ctx.grants, p, Allow).Some?)
  {
    assert ctx.caller.Matching([], p, Deny) == None && ctx.caller.Matching([], p, Allow) == None;
  }

  /** In every reachable state, an action that asks when no grant speaks is denied exactly when a stored deny grant speaks for
      it, allowed exactly when none does and an allow grant speaks, and asked for otherwise: by the agent who proposes
      it, for exactly its scope, in the agent's own session or that chat. */
  lemma GrantsDecideExactlyWhenTheySpeak(k: Kernel, ops: seq<Op>, p: ActionProposal, chat: Option<ChatSessionId>, nowMs: int)
    requires Admissible(k, ops) && AsksWithoutGrants(k, Run(k, ops), p, CallerFor(p, chat, nowMs))
    ensures var s := Run(k, ops);
            var d := k.engine.Decide(k.DescriptorFor(p.action).value, p, WholeView(s, p, chat, nowMs));
            && (d.outcome.Denied? <==> SomeoneSpeaks(s, Deny, p, chat, nowMs))
            && (d.outcome.Allowed? <==> !SomeoneSpeaks(s, Deny, p, chat, nowMs) && SomeoneSpeaks(s, Allow, p, chat, nowMs))
  {
    hide Run, SomeoneSpeaks;
    var s := Run(k, ops);
    SessionsMatchLifetimes(k, ops);
    WholeViewSpeaks(s, Deny, p, chat, nowMs);
    WholeViewSpeaks(s, Allow, p, chat, nowMs);
    GrantsDecideAskingAction(k.engine, k.DescriptorFor(p.action).value, p, WholeView(s, p, chat, nowMs));
  }
}
