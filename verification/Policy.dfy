/** The policy engine (crates/policy/src/engine.rs). */
module Policy {
  import opened Prelude
  import opened SqlOrder
  import opened Domain

  datatype PolicyOutcome = Allowed | Confirm | Denied
  datatype ConfirmationLevel = Standard | SensitiveLevel | DestructiveLevel
  datatype PolicyReason =
    | ReadOnlyBaseline | LocalSideEffectBaseline | ReversibleLocalWriteBaseline
    | ReversibleLocalWriteRequiresConfirmation | ExternalSideEffectRequiresConfirmation
    | DestructiveRequiresConfirmation | PrivilegedDenied | UnknownRiskDenied
    | CapabilityRequiresConfirmation | MissingScope(scope: ScopeRequirement)
    | InvalidDescriptor | InvalidActionContract | UserConfirmedOnce | InvalidProvenance
    | ImmutableSecretExfiltrationDeny | ImmutableProductionDestructiveDeny | ImmutableSystemCriticalDeny
    | UntrustedAuthorityMutationDenied | SensitiveResourceRequiresConfirmation
    | ProductionResourceRequiresConfirmation | StrictProfileRequiresConfirmation
    | PersistentExactAllow | PersistentExactDeny | AgentSideEffectRequiresConfirmation

  datatype PolicyDecision = PolicyDecision(
    outcome: PolicyOutcome,
    reason: PolicyReason,
    hardDeny: bool,
    confirmationLevel: Option<ConfirmationLevel>,
    expiresAtMs: Option<int>)

  datatype Authorization = Authorization(
    executionId: ExecutionId,
    descriptor: CapabilityDescriptor,
    action: ActionRequest,
    grantedScopes: set<ScopeRequirement>)

  datatype Evaluation = Evaluation(decision: PolicyDecision, authorization: Option<Authorization>)

  /** Who is asking, and when: what a stored grant is compared with. */
  datatype Caller = Caller(nowMs: int, session: Option<PermissionSession>, agentId: Option<AgentId>) {
    predicate Applies(grant: PermissionGrant, p: ActionProposal, effect: PermissionEffect) {
      grant.effect == effect && grant.IsActive(nowMs, session, agentId) && grant.scope.Matches(p)
    }

    /** The first grant of the list that applies. */
    function Matching(grants: seq<PermissionGrant>, p: ActionProposal, effect: PermissionEffect): (r: Option<PermissionGrant>)
      ensures r.None? <==> forall g | g in grants :: !Applies(g, p, effect)
      ensures r.Some? ==> r.value in grants && Applies(r.value, p, effect)
    {
      if grants == [] then None
      else if Applies(grants[0], p, effect) then Some(grants[0])
      else Matching(grants[1..], p, effect)
    }
  }

  /** What a decision reads of the policy context. */
  datatype ContextView = ContextView(
    grantedScopes: set<ScopeRequirement>,
    grants: seq<PermissionGrant>,
    profile: SecurityProfile,
    caller: Caller)

  const EMPTY_VIEW := ContextView({}, [], Balanced, Caller(0, None, None))

  /** The mutable context that the daemon fills in before a decision. */
  class PolicyContext {
    var grantedScopes: set<ScopeRequirement>
    var grants: seq<PermissionGrant>
    var profile: SecurityProfile
    var nowMs: int
    var session: Option<PermissionSession>
    var agentId: Option<AgentId>

    function View(): ContextView
      reads this
    {
      ContextView(grantedScopes, grants, profile, Caller(nowMs, session, agentId))
    }

    constructor ()
      ensures View() == EMPTY_VIEW
    {
      grantedScopes, grants, profile, nowMs, session, agentId := {}, [], Balanced, 0, None, None;
    }

    method SetActionContext(context: ActionContext)
      modifies this
      ensures View() ==
              if context.agent.None? then old(View())
              else old(View()).(caller := Caller(old(nowMs), Some(AgentSession(context.agent.value.sessionId)),
                                                  Some(context.agent.value.agentId)))
    {
      if context.agent.Some? {
        session := Some(AgentSession(context.agent.value.sessionId));
        agentId := Some(context.agent.value.agentId);
      }
    }

    method AddPermissionGrant(grant: PermissionGrant)
      modifies this`grants
      ensures grants == old(grants) + [grant]
    {
      grants := grants + [grant];
    }

    method SetProfile(value: SecurityProfile)
      modifies this`profile
      ensures profile == value
    {
      profile := value;
    }

    method SetNowMs(value: int)
      modifies this`nowMs
      ensures nowMs == value
    {
      nowMs := value;
    }

    /** An agent's session is never replaced by a chat session. */
    method SetSessionId(chat: Option<ChatSessionId>)
      modifies this`session
      ensures session == if agentId.Some? then old(session)
                         else if chat.Some? then Some(ChatSession(chat.value)) else None
    {
      if agentId.None? {
        session := if chat.Some? then Some(ChatSession(chat.value)) else None;
      }
    }
  }

  function DenyWith(reason: PolicyReason, hard: bool): PolicyDecision {
    PolicyDecision(Denied, reason, hard, None, None)
  }

  function ConfirmWith(reason: PolicyReason, level: ConfirmationLevel): PolicyDecision {
    PolicyDecision(Confirm, reason, false, Some(level), None)
  }

  function AllowWith(reason: PolicyReason): PolicyDecision {
    PolicyDecision(Allowed, reason, false, None, None)
  }

  predicate HasResource(p: ActionProposal, class_: ResourceClassification) {
    exists r | r in p.context.resources :: r.classification == class_
  }

  predicate SecretToExternal(p: ActionProposal) {
    && p.context.dataFlow.Some?
    && var flow := p.context.dataFlow.value;
       && (flow.dataClassification.DataSecret? || flow.source.classification.Secret?)
       && (flow.destination.External? || flow.destination.UntrustedExternal?)
  }

  predicate ProductionFlow(p: ActionProposal) {
    p.context.dataFlow.Some? && p.context.dataFlow.value.dataClassification.DataProduction?
  }

  predicate Untrusted(origin: ActionOrigin) {
    origin.AiProposal? || origin.ExternalContent? || origin.Plugin? || origin.Agent?
  }

  /** The text before the first `.`, or all of it. */
  function Namespace(id: CapabilityId): string {
    if id == "" || id[0] == '.' then "" else [id[0]] + Namespace(id[1..])
  }

  predicate AuthorityNamespace(id: CapabilityId) {
    Namespace(id) == "security" || Namespace(id) == "permission" || Namespace(id) == "policy"
  }

  /** `name` itself, or anything below it. */
  predicate Under(id: CapabilityId, name: string) {
    id == name || name + "." <= id
  }

  lemma {:induction false} NamespaceExactlyWhen(id: CapabilityId, name: string)
    requires '.' !in name
    ensures Namespace(id) == name <==> Under(id, name)
  {
    if name != "" && id != "" && id[0] == name[0] {
      assert '.' !in name[1..] && id[0] != '.';
      NamespaceExactlyWhen(id[1..], name[1..]);
      assert name + "." == [name[0]] + (name[1..] + ".");
      assert id == [id[0]] + id[1..] && name == [name[0]] + name[1..];
    }
  }

  /** The first declared scope requirement that the context does not grant. */
  function MissingScopeOf(c: CapabilityDescriptor, granted: set<ScopeRequirement>): Option<ScopeRequirement> {
    Find(c.scopeRequirements, scope => scope !in granted)
  }

  datatype Engine = Engine(allowReversibleLocalWrites: bool) {

    /** The rules that no grant and no profile can override, in the order they are tried. */
    function ImmutableDeny(c: CapabilityDescriptor, p: ActionProposal, granted: set<ScopeRequirement>): Option<PolicyDecision> {
      if !c.Valid() then Some(DenyWith(InvalidDescriptor, true))
      else if !p.context.Valid() then Some(DenyWith(InvalidProvenance, true))
      else if MissingScopeOf(c, granted).Some? then Some(DenyWith(MissingScope(MissingScopeOf(c, granted).value), false))
      else if SecretToExternal(p) then Some(DenyWith(ImmutableSecretExfiltrationDeny, true))
      else if c.risk.Destructive? && (HasResource(p, Production) || ProductionFlow(p)) then
        Some(DenyWith(ImmutableProductionDestructiveDeny, true))
      else if HasResource(p, SystemCritical) && (c.risk.Destructive? || c.risk.Privileged? || c.risk.ExternalSideEffect?) then
        Some(DenyWith(ImmutableSystemCriticalDeny, true))
      else if Untrusted(p.context.origin) && AuthorityNamespace(c.id) then
        Some(DenyWith(UntrustedAuthorityMutationDenied, true))
      else None
    }

    function Baseline(c: CapabilityDescriptor, p: ActionProposal, profile: SecurityProfile): PolicyDecision
      requires !c.risk.Privileged? && !c.risk.UnknownRisk?
    {
      if HasResource(p, Production) then ConfirmWith(ProductionResourceRequiresConfirmation, SensitiveLevel)
      else if HasResource(p, Sensitive) || HasResource(p, Secret) then
        ConfirmWith(SensitiveResourceRequiresConfirmation, SensitiveLevel)
      else if p.context.origin.Agent? && c.sideEffect then ConfirmWith(AgentSideEffectRequiresConfirmation, Standard)
      else if profile.Strict? && c.sideEffect then ConfirmWith(StrictProfileRequiresConfirmation, Standard)
      else if c.confirmation.AlwaysConfirm? then ConfirmWith(CapabilityRequiresConfirmation, Standard)
      else match c.risk
        case ReadOnly => AllowWith(ReadOnlyBaseline)
        case LocalSideEffect => AllowWith(LocalSideEffectBaseline)
        case ReversibleLocalWrite =>
          if allowReversibleLocalWrites then AllowWith(ReversibleLocalWriteBaseline)
          else ConfirmWith(ReversibleLocalWriteRequiresConfirmation, Standard)
        case ExternalSideEffect => ConfirmWith(ExternalSideEffectRequiresConfirmation, SensitiveLevel)
        case Destructive => ConfirmWith(DestructiveRequiresConfirmation, DestructiveLevel)
    }

    /** The decision once the first applicable deny and allow grants are known. */
    function DecideWith(c: CapabilityDescriptor, p: ActionProposal, granted: set<ScopeRequirement>, profile: SecurityProfile,
                        deny: Option<PermissionGrant>, grant: Option<PermissionGrant>): PolicyDecision {
      var immutable := ImmutableDeny(c, p, granted);
      if immutable.Some? then immutable.value
      else if deny.Some? then PolicyDecision(Denied, PersistentExactDeny, false, None, deny.value.expiresAtMs)
      else if c.risk.Privileged? then DenyWith(PrivilegedDenied, false)
      else if c.risk.UnknownRisk? then DenyWith(UnknownRiskDenied, false)
      else
        var baseline := Baseline(c, p, profile);
        if baseline.outcome.Confirm? && grant.Some? then
          PolicyDecision(Allowed, PersistentExactAllow, false, None, grant.value.expiresAtMs)
        else baseline
    }

    function Decide(c: CapabilityDescriptor, p: ActionProposal, ctx: ContextView): PolicyDecision {
      DecideWith(c, p, ctx.grantedScopes, ctx.profile,
                 ctx.caller.Matching(ctx.grants, p, Deny), ctx.caller.Matching(ctx.grants, p, Allow))
    }

    function Authorize(c: CapabilityDescriptor, p: ActionProposal, executionId: ExecutionId, ctx: ContextView): Evaluation {
      if !c.Fits(p.action) then Evaluation(DenyWith(InvalidActionContract, true), None)
      else
        var d := Decide(c, p, ctx);
        Evaluation(d, if d.outcome.Allowed? then Some(Authorization(executionId, c, p.action, ctx.grantedScopes)) else None)
    }

    function AuthorizeConfirmedOnce(c: CapabilityDescriptor, p: ActionProposal, executionId: ExecutionId, ctx: ContextView): Evaluation {
      if !c.Fits(p.action) then Evaluation(DenyWith(InvalidActionContract, true), None)
      else
        var initial := Decide(c, p, ctx);
        if initial.outcome.Denied? then Evaluation(initial, None)
        else
          var d := if initial.outcome.Confirm? then AllowWith(UserConfirmedOnce) else initial;
          Evaluation(d, Some(Authorization(executionId, c, p.action, ctx.grantedScopes)))
    }

    /** What denies an action: an immutable rule, an active matching deny grant, or a risk class that is never
        allowed. */
    ghost predicate Forbidden(c: CapabilityDescriptor, p: ActionProposal, ctx: ContextView) {
      || !c.Valid() || !p.context.Valid()
      || (exists scope | scope in c.scopeRequirements :: scope !in ctx.grantedScopes)
      || SecretToExternal(p)
      || (c.risk.Destructive? && (HasResource(p, Production) || ProductionFlow(p)))
      || (HasResource(p, SystemCritical) && (c.risk.Destructive? || c.risk.Privileged? || c.risk.ExternalSideEffect?))
      || (Untrusted(p.context.origin) && AuthorityNamespace(c.id))
      || (exists g | g in ctx.grants :: ctx.caller.Applies(g, p, Deny))
      || c.risk.Privileged? || c.risk.UnknownRisk?
    }

    /** What lets an action run without asking: an active matching allow grant, or no rule that asks. */
    ghost predicate Unprompted(c: CapabilityDescriptor, p: ActionProposal, ctx: ContextView) {
      || (exists g | g in ctx.grants :: ctx.caller.Applies(g, p, Allow))
      || (&& !HasResource(p, Production) && !HasResource(p, Sensitive) && !HasResource(p, Secret)
          && !(c.sideEffect && (p.context.origin.Agent? || ctx.profile.Strict?))
          && !c.confirmation.AlwaysConfirm?
          && (c.risk.ReadOnly? || c.risk.LocalSideEffect? || (c.risk.ReversibleLocalWrite? && allowReversibleLocalWrites)))
    }

    /** An action is denied exactly when something forbids it, in whatever order the rules are tried. */
    lemma DeniedExactlyWhen(c: CapabilityDescriptor, p: ActionProposal, ctx: ContextView)
      ensures Decide(c, p, ctx).outcome.Denied? <==> Forbidden(c, p, ctx)
    {
      var missing := MissingScopeOf(c, ctx.grantedScopes);
    }

    /** An action runs without asking exactly when nothing forbids it and nothing asks, or a stored grant answers. */
    lemma AllowedExactlyWhen(c: CapabilityDescriptor, p: ActionProposal, ctx: ContextView)
      ensures Decide(c, p, ctx).outcome.Allowed? <==> !Forbidden(c, p, ctx) && Unprompted(c, p, ctx)
    {
      DeniedExactlyWhen(c, p, ctx);
    }

    /** A hard deny is decided by the descriptor, the proposal and the scopes alone. */
    lemma HardDenyIgnoresGrantsAndProfile(c: CapabilityDescriptor, p: ActionProposal, ctx: ContextView, other: ContextView)
      requires ctx.grantedScopes == other.grantedScopes
      requires Decide(c, p, ctx).hardDeny
      ensures Decide(c, p, other) == Decide(c, p, ctx)
    {
    }

    /** A denial is hard exactly when the descriptor or the provenance is invalid, or, all scopes being granted, the action
        would send a secret out, destroy in production, reach into something critical to the system, or let an
        untrusted origin change authority. */
    lemma HardDenyExactlyWhen(c: CapabilityDescriptor, p: ActionProposal, ctx: ContextView)
      ensures Decide(c, p, ctx).hardDeny <==>
              || !c.Valid() || !p.context.Valid()
              || (&& (forall scope | scope in c.scopeRequirements :: scope in ctx.grantedScopes)
                  && (|| (&& p.context.dataFlow.Some?
                          && (p.context.dataFlow.value.dataClassification.DataSecret? || p.context.dataFlow.value.source.classification.Secret?)
                          && (p.context.dataFlow.value.destination.External? || p.context.dataFlow.value.destination.UntrustedExternal?))
                      || (c.risk.Destructive? && p.context.dataFlow.Some? && p.context.dataFlow.value.dataClassification.DataProduction?)
                      || (c.risk.Destructive? && exists r | r in p.context.resources :: r.classification.Production?)
                      || ((c.risk.Destructive? || c.risk.Privileged? || c.risk.ExternalSideEffect?)
                          && exists r | r in p.context.resources :: r.classification.SystemCritical?)
                      || (&& (p.context.origin.AiProposal? || p.context.origin.ExternalContent? || p.context.origin.Plugin? || p.context.origin.Agent?)
                          && (Under(c.id, "security") || Under(c.id, "permission") || Under(c.id, "policy")))))
      ensures Decide(c, p, ctx).hardDeny ==> Decide(c, p, ctx).outcome.Denied?
    {
      var missing := MissingScopeOf(c, ctx.grantedScopes);
      NamespaceExactlyWhen(c.id, "security");
      NamespaceExactlyWhen(c.id, "permission");
      NamespaceExactlyWhen(c.id, "policy");
    }

    /** Whether a rule asks at the standard level, before the risk class is looked at. */
    predicate AskedAnyway(c: CapabilityDescriptor, p: ActionProposal, profile: SecurityProfile) {
      (c.sideEffect && (p.context.origin.Agent? || profile.Strict?)) || c.confirmation.AlwaysConfirm?
    }

    predicate TouchesSensitive(p: ActionProposal) {
      exists r | r in p.context.resources :: r.classification.Production? || r.classification.Sensitive? || r.classification.Secret?
    }

    lemma BaselineLevel(c: CapabilityDescriptor, p: ActionProposal, profile: SecurityProfile)
      requires !c.risk.Privileged? && !c.risk.UnknownRisk?
      ensures var d := Baseline(c, p, profile);
              && !d.outcome.Denied? && (d.confirmationLevel.Some? <==> d.outcome.Confirm?)
              && (d.outcome.Confirm? ==>
                    var byRisk := !TouchesSensitive(p) && !AskedAnyway(c, p, profile);
                    && (d.confirmationLevel == Some(SensitiveLevel) <==> TouchesSensitive(p) || (byRisk && c.risk.ExternalSideEffect?))
                    && (d.confirmationLevel == Some(DestructiveLevel) <==> byRisk && c.risk.Destructive?)
                    && (d.confirmationLevel == Some(Standard) <==>
                        !TouchesSensitive(p) && (AskedAnyway(c, p, profile) || c.risk.ReversibleLocalWrite?)))
    {
    }

    lemma ImmutableDenies(c: CapabilityDescriptor, p: ActionProposal, granted: set<ScopeRequirement>)
      requires ImmutableDeny(c, p, granted).Some?
      ensures ImmutableDeny(c, p, granted).value.outcome.Denied? && ImmutableDeny(c, p, granted).value.confirmationLevel.None?
    {
    }

    /** Exactly confirmations have a level. It is sensitive for sensitive resources; otherwise standard if a rule asks anyway,
        and else the risk's own. */
    lemma ConfirmationLevelExactlyWhen(c: CapabilityDescriptor, p: ActionProposal, ctx: ContextView)
      ensures var d := Decide(c, p, ctx);
              && (d.confirmationLevel.Some? <==> d.outcome.Confirm?)
              && (d.outcome.Confirm? ==>
                    var byRisk := !TouchesSensitive(p) && !AskedAnyway(c, p, ctx.profile);
                    && (d.confirmationLevel == Some(SensitiveLevel) <==> TouchesSensitive(p) || (byRisk && c.risk.ExternalSideEffect?))
                    && (d.confirmationLevel == Some(DestructiveLevel) <==> byRisk && c.risk.Destructive?))
    {
      hide ImmutableDeny, Baseline, TouchesSensitive, AskedAnyway;
      if ImmutableDeny(c, p, ctx.grantedScopes).Some? {
        ImmutableDenies(c, p, ctx.grantedScopes);
      } else if !c.risk.Privileged? && !c.risk.UnknownRisk? {
        BaselineLevel(c, p, ctx.profile);
      }
    }

    /** The strict profile asks at a lower level than the balanced one exactly for the external and destructive actions whose
        level is their risk's own. */
    lemma StrictLowersLevelExactlyWhen(c: CapabilityDescriptor, p: ActionProposal, ctx: ContextView)
      requires Decide(c, p, ctx.(profile := Balanced)).outcome.Confirm?
      ensures var strict, balanced := Decide(c, p, ctx.(profile := Strict)), Decide(c, p, ctx.(profile := Balanced));
              && strict.outcome.Confirm?
              && (strict.confirmationLevel != balanced.confirmationLevel <==>
                  !TouchesSensitive(p) && !AskedAnyway(c, p, Balanced) && (c.risk.ExternalSideEffect? || c.risk.Destructive?))
              && (strict.confirmationLevel != balanced.confirmationLevel ==> strict.confirmationLevel == Some(Standard))
    {
      hide Baseline, TouchesSensitive;
      assert ctx.caller.Matching(ctx.grants, p, Allow).None?;
      assert c.Valid() && p.context.Valid();
      assert !c.risk.Privileged? && !c.risk.UnknownRisk?;
      assert Decide(c, p, ctx.(profile := Strict)) == Baseline(c, p, Strict);
      assert Decide(c, p, ctx.(profile := Balanced)) == Baseline(c, p, Balanced);
      BaselineLevel(c, p, Strict);
      BaselineLevel(c, p, Balanced);
      SideEffectsAskUnderStrict(c, p);
    }

    lemma SideEffectsAskUnderStrict(c: CapabilityDescriptor, p: ActionProposal)
      requires c.Valid() && !c.risk.Privileged? && !c.risk.UnknownRisk? && Baseline(c, p, Balanced).outcome.Confirm?
      ensures Baseline(c, p, Strict).outcome.Confirm?
      ensures c.risk.ExternalSideEffect? || c.risk.Destructive? ==> AskedAnyway(c, p, Strict)
      ensures !TouchesSensitive(p) && !AskedAnyway(c, p, Balanced) ==> !c.risk.ReadOnly? && !c.risk.LocalSideEffect?
    {
    }

    /** What a decision's reason claims. */
    ghost predicate ReasonHolds(c: CapabilityDescriptor, p: ActionProposal, ctx: ContextView, d: PolicyDecision) {
      match d.reason
      case ReadOnlyBaseline => c.risk.ReadOnly?
      case LocalSideEffectBaseline => c.risk.LocalSideEffect?
      case ReversibleLocalWriteBaseline => c.risk.ReversibleLocalWrite? && allowReversibleLocalWrites
      case ReversibleLocalWriteRequiresConfirmation => c.risk.ReversibleLocalWrite? && !allowReversibleLocalWrites
      case ExternalSideEffectRequiresConfirmation => c.risk.ExternalSideEffect?
      case DestructiveRequiresConfirmation => c.risk.Destructive?
      case PrivilegedDenied => c.risk.Privileged?
      case UnknownRiskDenied => c.risk.UnknownRisk?
      case CapabilityRequiresConfirmation => c.confirmation.AlwaysConfirm?
      case MissingScope(scope) => scope in c.scopeRequirements && scope !in ctx.grantedScopes
      case InvalidDescriptor => !c.Valid()
      case InvalidActionContract => !c.Fits(p.action)
      case UserConfirmedOnce => Decide(c, p, ctx).outcome.Confirm?
      case InvalidProvenance => !p.context.Valid()
      case ImmutableSecretExfiltrationDeny => SecretToExternal(p)
      case ImmutableProductionDestructiveDeny => c.risk.Destructive? && (HasResource(p, Production) || ProductionFlow(p))
      case ImmutableSystemCriticalDeny => HasResource(p, SystemCritical) && (c.risk.Destructive? || c.risk.Privileged? || c.risk.ExternalSideEffect?)
      case UntrustedAuthorityMutationDenied => Untrusted(p.context.origin) && AuthorityNamespace(c.id)
      case SensitiveResourceRequiresConfirmation => HasResource(p, Sensitive) || HasResource(p, Secret)
      case ProductionResourceRequiresConfirmation => HasResource(p, Production)
      case StrictProfileRequiresConfirmation => ctx.profile.Strict? && c.sideEffect
      case PersistentExactAllow => exists g | g in ctx.grants :: ctx.caller.Applies(g, p, Allow) && d.expiresAtMs == g.expiresAtMs
      case PersistentExactDeny => exists g | g in ctx.grants :: ctx.caller.Applies(g, p, Deny) && d.expiresAtMs == g.expiresAtMs
      case AgentSideEffectRequiresConfirmation => p.context.origin.Agent? && c.sideEffect
    }

    /** Every decision, on either path, gives a reason that holds, and an expiry only from the grant it names. */
    lemma ReasonsHold(c: CapabilityDescriptor, p: ActionProposal, id: ExecutionId, ctx: ContextView)
      ensures ReasonHolds(c, p, ctx, Authorize(c, p, id, ctx).decision)
      ensures ReasonHolds(c, p, ctx, AuthorizeConfirmedOnce(c, p, id, ctx).decision)
      ensures forall d | d == Authorize(c, p, id, ctx).decision || d == AuthorizeConfirmedOnce(c, p, id, ctx).decision ::
                d.expiresAtMs.Some? ==> d.reason.PersistentExactAllow? || d.reason.PersistentExactDeny?
    {
      DecisionReasonHolds(c, p, ctx);
    }

    /** Whether a decision's own reason holds and names no grant. */
    ghost predicate PlainReasonHolds(c: CapabilityDescriptor, p: ActionProposal, ctx: ContextView, d: PolicyDecision) {
      && ReasonHolds(c, p, ctx, d) && d.expiresAtMs.None?
      && !d.reason.UserConfirmedOnce? && !d.reason.InvalidActionContract?
    }

    lemma ImmutableReasonHolds(c: CapabilityDescriptor, p: ActionProposal, ctx: ContextView)
      requires ImmutableDeny(c, p, ctx.grantedScopes).Some?
      ensures PlainReasonHolds(c, p, ctx, ImmutableDeny(c, p, ctx.grantedScopes).value)
    {
      hide Decide;
      var missing := MissingScopeOf(c, ctx.grantedScopes);
    }

    lemma BaselineReasonHolds(c: CapabilityDescriptor, p: ActionProposal, ctx: ContextView)
      requires !c.risk.Privileged? && !c.risk.UnknownRisk?
      ensures PlainReasonHolds(c, p, ctx, Baseline(c, p, ctx.profile))
    {
      hide Decide;
    }

    lemma DecisionReasonHolds(c: CapabilityDescriptor, p: ActionProposal, ctx: ContextView)
      ensures var d := Decide(c, p, ctx);
              && ReasonHolds(c, p, ctx, d)
              && !d.reason.UserConfirmedOnce? && !d.reason.InvalidActionContract?
              && (d.expiresAtMs.Some? ==> d.reason.PersistentExactAllow? || d.reason.PersistentExactDeny?)
    {
      hide ImmutableDeny, Baseline;
      if ImmutableDeny(c, p, ctx.grantedScopes).Some? {
        ImmutableReasonHolds(c, p, ctx);
      } else if !c.risk.Privileged? && !c.risk.UnknownRisk? {
        BaselineReasonHolds(c, p, ctx);
      }
    }

    /** Adding allow grants, anywhere in the list, can only turn a confirmation into an allowance. */
    lemma AllowGrantsOnlyLiftConfirmations(c: CapabilityDescriptor, p: ActionProposal, ctx: ContextView, more: seq<PermissionGrant>)
      requires Extends(ctx.grants, more, Deny)
      ensures var before, after := Decide(c, p, ctx), Decide(c, p, ctx.(grants := more));
              || after == before
              || (after.reason.PersistentExactAllow? && (before.outcome.Confirm? || before.reason.PersistentExactAllow?))
    {
      ExtendsKeepsMatch(ctx.caller, p, ctx.grants, more, Deny);
    }

    /** Adding deny grants keeps the decision or turns it into a denial. */
    lemma DenyGrantsNeverLoosen(c: CapabilityDescriptor, p: ActionProposal, ctx: ContextView, more: seq<PermissionGrant>)
      requires Extends(ctx.grants, more, Allow)
      ensures var before, after := Decide(c, p, ctx), Decide(c, p, ctx.(grants := more));
              after == before || after.outcome.Denied?
    {
      ExtendsKeepsMatch(ctx.caller, p, ctx.grants, more, Allow);
    }

    /** The strict profile denies what the balanced one denies and allows nothing more. */
    lemma StrictNeverLooserThanBalanced(c: CapabilityDescriptor, p: ActionProposal, ctx: ContextView)
      ensures var strict, balanced := Decide(c, p, ctx.(profile := Strict)), Decide(c, p, ctx.(profile := Balanced));
              && (strict.outcome.Denied? <==> balanced.outcome.Denied?)
              && (strict.outcome.Allowed? ==> balanced.outcome.Allowed?)
    {
    }

    /** The confirmed path authorizes exactly the stored action, exactly when it fits the descriptor and
        is not denied; without confirmation, exactly when it is allowed outright. */
    lemma ConfirmationLiftsExactlyConfirm(c: CapabilityDescriptor, p: ActionProposal, id: ExecutionId, ctx: ContextView)
      ensures var direct, confirmed := Authorize(c, p, id, ctx), AuthorizeConfirmedOnce(c, p, id, ctx);
              && (confirmed.authorization.Some? <==> c.Fits(p.action) && !Decide(c, p, ctx).outcome.Denied?)
              && (direct.authorization.Some? <==> c.Fits(p.action) && Decide(c, p, ctx).outcome.Allowed?)
              && (direct.authorization.Some? ==> confirmed == direct)
              && (confirmed.decision.reason.UserConfirmedOnce? <==> c.Fits(p.action) && Decide(c, p, ctx).outcome.Confirm?)
              && (!c.Fits(p.action) ==> direct == confirmed && direct.decision.hardDeny && direct.decision.reason.InvalidActionContract?)
              && (confirmed.authorization.Some? ==>
                    && confirmed.decision.outcome.Allowed?
                    && confirmed.authorization.value.action == p.action
                    && confirmed.authorization.value.executionId == id)
    {
    }
  }

  function OfEffect(grants: seq<PermissionGrant>, effect: PermissionEffect): seq<PermissionGrant> {
    if grants == [] then []
    else (if grants[0].effect == effect then [grants[0]] else []) + OfEffect(grants[1..], effect)
  }

  /** `more` has every grant of `less`, and its grants of effect `effect` are the same list. */
  ghost predicate Extends(less: seq<PermissionGrant>, more: seq<PermissionGrant>, effect: PermissionEffect) {
    && (forall g | g in less :: g in more)
    && OfEffect(less, effect) == OfEffect(more, effect)
  }

  lemma {:induction false} MatchingAmongEffect(caller: Caller, p: ActionProposal, grants: seq<PermissionGrant>, effect: PermissionEffect)
    ensures caller.Matching(grants, p, effect) == caller.Matching(OfEffect(grants, effect), p, effect)
  {
    if grants != [] {
      MatchingAmongEffect(caller, p, grants[1..], effect);
      if grants[0].effect == effect {
        assert OfEffect(grants, effect) == [grants[0]] + OfEffect(grants[1..], effect);
        assert OfEffect(grants, effect)[1..] == OfEffect(grants[1..], effect);
      } else {
        assert OfEffect(grants, effect) == OfEffect(grants[1..], effect);
        assert !caller.Applies(grants[0], p, effect);
      }
    }
  }

  lemma ExtendsKeepsMatch(caller: Caller, p: ActionProposal, less: seq<PermissionGrant>, more: seq<PermissionGrant>, effect: PermissionEffect)
    requires Extends(less, more, effect)
    ensures caller.Matching(less, p, effect) == caller.Matching(more, p, effect)
    ensures forall e :: caller.Matching(less, p, e).Some? ==> caller.Matching(more, p, e).Some?
  {
    MatchingAmongEffect(caller, p, less, effect);
    MatchingAmongEffect(caller, p, more, effect);
  }

  /** `Matching` is the plain search with the same test. */
  lemma {:induction false} MatchingIsFind(caller: Caller, p: ActionProposal, grants: seq<PermissionGrant>, effect: PermissionEffect, keep: PermissionGrant -> bool)
    requires forall g | g in grants :: keep(g) == caller.Applies(g, p, effect)
    ensures caller.Matching(grants, p, effect) == Find(grants, keep)
  {
    if grants != [] {
      MatchingIsFind(caller, p, grants[1..], effect, keep);
    }
  }
}
