/** Daemon and agent sessions (crates/storage/src/runtime.rs), and the grants bound to them by the service
    (apps/daemon/src/security_service.rs). */
module Sessions {
  import opened Prelude
  import opened Domain
  import opened GrantStore

  datatype AgentSessionStatus = Running | Completed | Failed | TimedOut | Crashed

  datatype DaemonRow = DaemonRow(startedAtMs: int, endedAtMs: Option<int>) {
    function Ended(atMs: int): DaemonRow {
      this.(endedAtMs := Some(Max(startedAtMs, atMs)))
    }
  }

  datatype AgentRow = AgentRow(
    agentId: AgentId, instanceId: AgentInstanceId, daemonSessionId: DaemonSessionId, status: AgentSessionStatus,
    startedAtMs: int, endedAtMs: Option<int>)
  {
    predicate Open() {
      status.Running? && endedAtMs.None?
    }

    function Ended(exit: AgentSessionStatus, atMs: int): AgentRow {
      this.(status := exit, endedAtMs := Some(Max(startedAtMs, atMs)))
    }
  }

  datatype Tables = Tables(
    daemons: map<DaemonSessionId, DaemonRow>, agents: map<AgentSessionId, AgentRow>, grants: seq<PermissionGrant>)

  datatype StorageFailure = InvalidSession | Constraint

  /** `UPDATE permission_grants SET revoked_at_ms WHERE revoked_at_ms IS NULL AND lifetime = 'session' AND ...`. */
  function RevokeBound(grants: seq<PermissionGrant>, bound: PermissionSession -> bool, atMs: int): (r: seq<PermissionGrant>)
    ensures |r| == |grants|
    ensures forall i | 0 <= i < |grants| :: r[i] ==
              if grants[i].revokedAtMs.None? && grants[i].lifetime.Session? && grants[i].session.Some? && bound(grants[i].session.value)
              then grants[i].(revokedAtMs := Some(atMs)) else grants[i]
  {
    if grants == [] then []
    else
      var g := grants[0];
      [if g.revokedAtMs.None? && g.lifetime.Session? && g.session.Some? && bound(g.session.value)
       then g.(revokedAtMs := Some(atMs)) else g] + RevokeBound(grants[1..], bound, atMs)
  }

  function AgentOrDaemon(): PermissionSession -> bool {
    (s: PermissionSession) => s.AgentSession? || s.DaemonSession?
  }

  function Exactly(session: PermissionSession): PermissionSession -> bool {
    (s: PermissionSession) => s == session
  }

  /** Starting a daemon closes what an earlier one left open. */
  function BeginDaemon(t: Tables, id: DaemonSessionId, startedAtMs: int): Result<Tables, StorageFailure> {
    if id in t.daemons then Err(Constraint)
    else
      var agents := map a | a in t.agents :: if t.agents[a].Open() then t.agents[a].Ended(Crashed, startedAtMs) else t.agents[a];
      var daemons := map d | d in t.daemons :: if t.daemons[d].endedAtMs.None? then t.daemons[d].Ended(startedAtMs) else t.daemons[d];
      Ok(Tables(daemons[id := DaemonRow(startedAtMs, None)], agents, RevokeBound(t.grants, AgentOrDaemon(), startedAtMs)))
  }

  function FinishDaemon(t: Tables, id: DaemonSessionId, endedAtMs: int): Tables {
    var grants := RevokeBound(t.grants, Exactly(DaemonSession(id)), endedAtMs);
    if id in t.daemons && t.daemons[id].endedAtMs.None?
    then t.(daemons := t.daemons[id := t.daemons[id].Ended(endedAtMs)], grants := grants)
    else t.(grants := grants)
  }

  function BeginAgent(t: Tables, id: AgentSessionId, row: AgentRow): Result<Tables, StorageFailure> {
    if !row.Open() then Err(InvalidSession)
    else if id in t.agents || row.daemonSessionId !in t.daemons || exists a :: a in t.agents && t.agents[a].instanceId == row.instanceId
    then Err(Constraint)
    else Ok(t.(agents := t.agents[id := row]))
  }

  function FinishAgent(t: Tables, id: AgentSessionId, status: AgentSessionStatus, endedAtMs: int): Result<Tables, StorageFailure> {
    if status.Running? then Err(InvalidSession)
    else
      var grants := RevokeBound(t.grants, Exactly(AgentSession(id)), endedAtMs);
      if id in t.agents && t.agents[id].Open()
      then Ok(t.(agents := t.agents[id := t.agents[id].Ended(status, endedAtMs)], grants := grants))
      else Ok(t.(grants := grants))
  }

  const MAX_LISTED_SESSIONS: nat := 200

  function Newer(agents: map<AgentSessionId, AgentRow>, id: AgentSessionId): set<AgentSessionId>
    requires id in agents
  {
    set a | a in agents && (agents[a].startedAtMs > agents[id].startedAtMs || (agents[a].startedAtMs == agents[id].startedAtMs && a > id))
  }

  /** Whether a session is among those the service lists, newest first. */
  predicate Listed(agents: map<AgentSessionId, AgentRow>, id: AgentSessionId) {
    id in agents && |Newer(agents, id)| < MAX_LISTED_SESSIONS
  }

  datatype GrantRequest = GrantRequest(
    id: PermissionId, effect: PermissionEffect, lifetime: PermissionLifetime, scope: PermissionScope,
    session: Option<PermissionSession>, agentId: Option<AgentId>, expiresAtMs: Option<int>)

  datatype ServiceError = Validation | Internal

  /** What the service checks of the world beside the session tables. */
  datatype Setting = Setting(scopeFits: bool, agents: set<AgentId>, scopeBytes: nat, nowMs: int)

  predicate SessionAdmissible(t: Tables, current: DaemonSessionId, session: PermissionSession, agentId: Option<AgentId>) {
    match session
    case AgentSession(id) => agentId.Some? && Listed(t.agents, id) && t.agents[id].agentId == agentId.value && t.agents[id].status.Running?
    case DaemonSession(id) => id == current
    case ChatSession(_) => true
  }

  /** The grant the service builds from a request, if it accepts it. */
  function GrantFor(t: Tables, current: DaemonSessionId, q: GrantRequest, w: Setting): Result<PermissionGrant, ServiceError> {
    var grant := PermissionGrant(q.id, q.effect, q.lifetime, q.scope, None, q.agentId, UserExplicit, w.nowMs, None, None, None, 0);
    if !w.scopeFits || |q.scope.resources| > 16 then Err(Validation)
    else if q.agentId.Some? && q.agentId.value !in w.agents then Err(Validation)
    else if q.expiresAtMs.Some? && q.expiresAtMs.value <= w.nowMs then Err(Validation)
    else match q.lifetime
      case Once => Ok(grant.(useLimit := Some(1)))
      case Session =>
        if q.session.None? || !SessionAdmissible(t, current, q.session.value, q.agentId) then Err(Validation)
        else Ok(grant.(session := q.session))
      case Until => if q.expiresAtMs.None? then Err(Validation) else Ok(grant.(expiresAtMs := q.expiresAtMs))
      case Always => Ok(grant)
  }

  function SaveGrant(t: Tables, current: DaemonSessionId, q: GrantRequest, w: Setting): Result<Tables, ServiceError> {
    match GrantFor(t, current, q, w)
    case Err(e) => Err(e)
    case Ok(g) => if Storable(g, w.scopeBytes) then Ok(t.(grants := Upserted(t.grants, g))) else Err(Internal)
  }

  class SessionStore {
    var tables: Tables

    constructor (t: Tables)
      ensures tables == t
    {
      tables := t;
    }

    method BeginDaemonSession(id: DaemonSessionId, startedAtMs: int, endedAtMs: Option<int>) returns (r: Result<(), StorageFailure>)
      modifies this
      ensures r.Ok? <==> endedAtMs.None? && BeginDaemon(old(tables), id, startedAtMs).Ok?
      ensures tables == if r.Ok? then BeginDaemon(old(tables), id, startedAtMs).value else old(tables)
    {
      if endedAtMs.Some? {
        return Err(InvalidSession);
      }
      var t := tables;
      t := t.(agents := map a | a in t.agents :: if t.agents[a].Open() then t.agents[a].Ended(Crashed, startedAtMs) else t.agents[a]);
      t := t.(daemons := map d | d in t.daemons :: if t.daemons[d].endedAtMs.None? then t.daemons[d].Ended(startedAtMs) else t.daemons[d]);
      t := t.(grants := RevokeBound(t.grants, AgentOrDaemon(), startedAtMs));
      if id in t.daemons {
        return Err(Constraint);
      }
      tables := t.(daemons := t.daemons[id := DaemonRow(startedAtMs, None)]);
      return Ok(());
    }

    method FinishDaemonSession(id: DaemonSessionId, endedAtMs: int) returns (updated: bool)
      modifies this
      ensures tables == FinishDaemon(old(tables), id, endedAtMs)
      ensures updated <==> id in old(tables).daemons && old(tables).daemons[id].endedAtMs.None?
    {
      updated := id in tables.daemons && tables.daemons[id].endedAtMs.None?;
      if updated {
        tables := tables.(daemons := tables.daemons[id := tables.daemons[id].Ended(endedAtMs)]);
      }
      tables := tables.(grants := RevokeBound(tables.grants, Exactly(DaemonSession(id)), endedAtMs));
    }

    method BeginAgentSession(id: AgentSessionId, row: AgentRow) returns (r: Result<(), StorageFailure>)
      modifies this
      ensures r.Ok? <==> BeginAgent(old(tables), id, row).Ok?
      ensures tables == if r.Ok? then BeginAgent(old(tables), id, row).value else old(tables)
    {
      if !row.status.Running? || row.endedAtMs.Some? {
        return Err(InvalidSession);
      }
      if id in tables.agents || row.daemonSessionId !in tables.daemons
         || exists a :: a in tables.agents && tables.agents[a].instanceId == row.instanceId {
        return Err(Constraint);
      }
      tables := tables.(agents := tables.agents[id := row]);
      return Ok(());
    }

    method FinishAgentSession(id: AgentSessionId, status: AgentSessionStatus, endedAtMs: int) returns (r: Result<bool, StorageFailure>)
      modifies this
      ensures r.Ok? <==> FinishAgent(old(tables), id, status, endedAtMs).Ok?
      ensures r.Ok? ==> (r.value <==> id in old(tables).agents && old(tables).agents[id].Open())
      ensures tables == if r.Ok? then FinishAgent(old(tables), id, status, endedAtMs).value else old(tables)
    {
      if status.Running? {
        return Err(InvalidSession);
      }
      var updated := id in tables.agents && tables.agents[id].Open();
      if updated {
        tables := tables.(agents := tables.agents[id := tables.agents[id].Ended(status, endedAtMs)]);
      }
      tables := tables.(grants := RevokeBound(tables.grants, Exactly(AgentSession(id)), endedAtMs));
      return Ok(updated);
    }

    method UpsertPermissionGrant(current: DaemonSessionId, q: GrantRequest, w: Setting) returns (r: Result<PermissionGrant, ServiceError>)
      modifies this
      ensures r.Ok? <==> SaveGrant(old(tables), current, q, w).Ok?
      ensures r.Ok? ==> GrantFor(old(tables), current, q, w) == r
      ensures tables == if r.Ok? then SaveGrant(old(tables), current, q, w).value else old(tables)
    {
      if !w.scopeFits || |q.scope.resources| > 16 {
        return Err(Validation);
      }
      if q.agentId.Some? && q.agentId.value !in w.agents {
        return Err(Validation);
      }
      if q.expiresAtMs.Some? && q.expiresAtMs.value <= w.nowMs {
        return Err(Validation);
      }
      var session, expiresAtMs, useLimit := None, None, None;
      match q.lifetime {
        case Once => useLimit := Some(1);
        case Session =>
          if q.session.None? || !SessionAdmissible(tables, current, q.session.value, q.agentId) {
            return Err(Validation);
          }
          session := q.session;
        case Until =>
          if q.expiresAtMs.None? {
            return Err(Validation);
          }
          expiresAtMs := q.expiresAtMs;
        case Always =>
      }
      var grant := PermissionGrant(q.id, q.effect, q.lifetime, q.scope, session, q.agentId, UserExplicit, w.nowMs, expiresAtMs, None, useLimit, 0);
      if !Storable(grant, w.scopeBytes) {
        return Err(Internal);
      }
      tables := tables.(grants := Upserted(tables.grants, grant));
      return Ok(grant);
    }
  }
}
