/** Actions, provenance, resources and permission grants (crates/domain/src). */
module Domain {
  import opened Prelude

  type CapabilityId = string
  type EntityId = string
  type AgentId = int
  type AgentInstanceId = int
  type AgentSessionId = int
  type ChatSessionId = int
  type DaemonSessionId = int
  type PermissionId = int
  type ExecutionId = int

  const MAX_PROVENANCE_HOPS: nat := 8
  const MAX_ACTION_RESOURCES: nat := 16

  datatype ActionOrigin =
    | UserExplicit | LocalResolver | AiProposal | ExternalContent | Plugin | StoredProcedure | Agent | System

  datatype AuthorityClass = NoAuthority | UserAuthority | HalquenCore

  datatype TrustClass =
    | TrustUserExplicit | LocalVerified | UserConfirmedResult | UserBehaviour | AiInferred
    | PluginAsserted | TrustExternalContent
  {
    predicate IndependentlyAuthorizesProceduralMemory() {
      TrustUserExplicit? || UserConfirmedResult?
    }
  }

  datatype ProvenanceHop = ProvenanceHop(origin: ActionOrigin, actorId: Option<string>)

  datatype ResourceClassification = Public | Local | Personal | Sensitive | Secret | Production | SystemCritical
  datatype DataClassification = DataPublic | DataPersonal | DataSensitive | DataSecret | DataProduction
  datatype ResourceKind = Application | File | NetworkEndpoint | Database | AgentResource | PluginResource | SystemResource
  datatype DestinationClass = ToLocal | TrustedEndpoint | External | UntrustedExternal

  datatype ResourceDescriptor =
    ResourceDescriptor(kind: ResourceKind, identifier: string, classification: ResourceClassification)

  datatype DataFlow =
    DataFlow(source: ResourceDescriptor, dataClassification: DataClassification, destination: DestinationClass)

  datatype AgentIdentity =
    AgentIdentity(agentId: AgentId, instanceId: AgentInstanceId, sessionId: AgentSessionId)

  /** ASCII letters, digits and `:._-`, neither empty nor longer than `maxLen`. */
  predicate ValidIdentifier(value: string, maxLen: nat) {
    && 0 < |value| <= maxLen
    && forall c | c in value ::
         'a' <= c <= 'z' || 'A' <= c <= 'Z' || '0' <= c <= '9' || c == ':' || c == '.' || c == '_' || c == '-'
  }

  predicate Blank(value: string) {
    forall c | c in value :: c == ' ' || '\t' <= c <= '\r'
  }

  datatype ActionContext = ActionContext(
    origin: ActionOrigin,
    trust: TrustClass,
    authority: AuthorityClass,
    initiatingRequestId: Option<string>,
    hops: seq<ProvenanceHop>,
    resources: seq<ResourceDescriptor>,
    dataFlow: Option<DataFlow>,
    agent: Option<AgentIdentity>)
  {
    predicate Valid() {
      && 0 < |hops| <= MAX_PROVENANCE_HOPS
      && |resources| <= MAX_ACTION_RESOURCES
      && (initiatingRequestId.Some? ==> ValidIdentifier(initiatingRequestId.value, 128))
      && (forall hop | hop in hops :: hop.actorId.Some? ==> ValidIdentifier(hop.actorId.value, 128))
      && (forall r | r in resources :: !Blank(r.identifier) && |r.identifier| <= 1024)
      && hops[|hops| - 1].origin == origin
      && (match origin
          case UserExplicit => trust.TrustUserExplicit? && authority.UserAuthority? && agent.None?
          case LocalResolver => authority.HalquenCore? && hops[0].origin.UserExplicit? && agent.None?
          case AiProposal | ExternalContent | Plugin => authority.NoAuthority? && agent.None?
          case Agent => authority.NoAuthority? && agent.Some?
          case StoredProcedure | System => agent.None?)
    }
  }

  datatype ArgumentKind = KindNone | KindOpenApp
  datatype ActionArguments = NoArguments | OpenApp(app: EntityId)
  {
    function Kind(): ArgumentKind { if NoArguments? then KindNone else KindOpenApp }
  }

  datatype ActionRequest = ActionRequest(capabilityId: CapabilityId, arguments: ActionArguments)
  datatype ActionProposal = ActionProposal(action: ActionRequest, context: ActionContext)
  {
    function Destination(): Option<DestinationClass> {
      if context.dataFlow.Some? then Some(context.dataFlow.value.destination) else None
    }
  }

  datatype RiskClass =
    | ReadOnly | LocalSideEffect | ReversibleLocalWrite | ExternalSideEffect | Destructive | Privileged | UnknownRisk
  datatype ConfirmationPolicy = RiskBased | AlwaysConfirm
  datatype ScopeRequirement = ApplicationScope(entity: EntityId) | PathScope(path: string) | NamedScope(scope: string)

  datatype CapabilityDescriptor = CapabilityDescriptor(
    id: CapabilityId,
    version: nat,
    description: string,
    risk: RiskClass,
    sideEffect: bool,
    reversible: bool,
    scopeRequirements: seq<ScopeRequirement>,
    confirmation: ConfirmationPolicy,
    timeoutMs: nat,
    arguments: ArgumentKind)
  {
    predicate Valid() {
      && version != 0
      && !Blank(description) && |description| <= 512
      && 1 <= timeoutMs <= 300_000
      && (risk.ReadOnly? ==> !sideEffect && !reversible)
      && (risk.LocalSideEffect? ==> sideEffect && !reversible)
      && (risk.ReversibleLocalWrite? ==> sideEffect && reversible)
      && (risk.ExternalSideEffect? || risk.Destructive? ==> sideEffect)
      && (risk.Destructive? ==> !reversible)
      && (reversible ==> sideEffect)
    }

    /** Whether a proposal's action has this capability's identifier and argument shape. */
    predicate Fits(action: ActionRequest) {
      action.capabilityId == id && action.arguments.Kind() == arguments
    }
  }

  datatype SecurityProfile = Strict | Balanced | Developer | Custom
  datatype PermissionEffect = Allow | Deny
  datatype PermissionLifetime = Once | Session | Until | Always
  datatype PermissionSession = ChatSession(chat: ChatSessionId) | AgentSession(agent: AgentSessionId) | DaemonSession(daemon: DaemonSessionId)

  datatype PermissionScope = PermissionScope(
    capabilityId: CapabilityId,
    arguments: ActionArguments,
    resources: seq<ResourceDescriptor>,
    destination: Option<DestinationClass>)
  {
    static function FromProposal(p: ActionProposal): PermissionScope {
      PermissionScope(p.action.capabilityId, p.action.arguments, p.context.resources, p.Destination())
    }

    predicate Matches(p: ActionProposal) {
      && capabilityId == p.action.capabilityId
      && arguments == p.action.arguments
      && resources == p.context.resources
      && destination == p.Destination()
    }
  }

  datatype PermissionGrant = PermissionGrant(
    id: PermissionId,
    effect: PermissionEffect,
    lifetime: PermissionLifetime,
    scope: PermissionScope,
    session: Option<PermissionSession>,
    agentId: Option<AgentId>,
    grantedBy: ActionOrigin,
    grantedAtMs: int,
    expiresAtMs: Option<int>,
    revokedAtMs: Option<int>,
    useLimit: Option<nat>,
    useCount: nat)
  {
    predicate Unexpired(nowMs: int) {
      expiresAtMs.Some? ==> expiresAtMs.value >= nowMs
    }

    predicate HasUsesLeft() {
      useLimit.Some? ==> useCount < useLimit.value
    }

    /** The engine's test of a grant against the caller's session and agent. */
    predicate IsActive(nowMs: int, currentSession: Option<PermissionSession>, currentAgent: Option<AgentId>) {
      && revokedAtMs.None?
      && Unexpired(nowMs)
      && HasUsesLeft()
      && (lifetime.Session? ==> session == currentSession)
      && agentId == currentAgent
    }

    predicate Valid() {
      && (grantedBy.UserExplicit? || grantedBy.System?)
      && |scope.resources| <= MAX_ACTION_RESOURCES
      && (expiresAtMs.Some? ==> expiresAtMs.value >= grantedAtMs)
      && (lifetime.Once? ==> useLimit == Some(1))
      && (lifetime.Session? <==> session.Some?)
      && (session.Some? && session.value.AgentSession? ==> agentId.Some?)
      && (session.Some? && !session.value.AgentSession? ==> agentId.None?)
      && (lifetime.Until? ==> expiresAtMs.Some?)
    }
  }
}
