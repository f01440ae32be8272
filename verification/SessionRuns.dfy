/** Every run of daemon starts, stops and crashes, agent sessions and grant changes over the session tables. */
module SessionRuns {
  import opened Prelude
  import opened Domain
  import opened Policy
  import opened GrantStore
  import opened Sessions

  /** The stored tables and the session that the running daemon holds as its own. */
  datatype World = World(tables: Tables, current: Option<DaemonSessionId>)

  datatype Op =
    | StartDaemon(daemon: DaemonSessionId, nowMs: int)
    | StopDaemon(nowMs: int)
    | CrashDaemon
    | BeginSession(agent: AgentSessionId, owner: AgentId, instance: AgentInstanceId, nowMs: int)
    | FinishSession(agent: AgentSessionId, status: AgentSessionStatus, nowMs: int)
    | RequestGrant(request: GrantRequest, setting: Setting)
    | ConfirmGrant(grant: PermissionGrant)
    | RevokeGrant(id: PermissionId, nowMs: int)
    | ClaimGrant(proposal: ActionProposal, caller: Caller)

  /** Grants that a confirmation stores are bound to a chat or to no session. */
  predicate BoundToNone(g: PermissionGrant) {
    g.session.None? || g.session.value.ChatSession?
  }

  function Next(w: World, op: Op): World {
    match op
    case StartDaemon(d, now) =>
      (match BeginDaemon(w.tables, d, now)
       case Err(_) => w
       case Ok(t) => World(t, if w.current.None? then Some(d) else w.current))
    case StopDaemon(now) => if w.current.None? then w else World(FinishDaemon(w.tables, w.current.value, now), None)
    case CrashDaemon => w.(current := None)
    case BeginSession(a, owner, instance, now) =>
      if w.current.None? then w
      else (match BeginAgent(w.tables, a, AgentRow(owner, instance, w.current.value, Running, now, None))
            case Err(_) => w
            case Ok(t) => w.(tables := t))
    case FinishSession(a, status, now) =>
      (match FinishAgent(w.tables, a, status, now)
       case Err(_) => w
       case Ok(t) => w.(tables := t))
    case RequestGrant(q, setting) =>
      if w.current.None? then w
      else (match SaveGrant(w.tables, w.current.value, q, setting)
            case Err(_) => w
            case Ok(t) => w.(tables := t))
    case ConfirmGrant(g) => if g.Valid() && BoundToNone(g) then w.(tables := w.tables.(grants := Upserted(w.tables.grants, g))) else w
    case RevokeGrant(id, now) => w.(tables := w.tables.(grants := Revoked(w.tables.grants, id, now)))
    case ClaimGrant(p, caller) => w.(tables := w.tables.(grants := Claimed(w.tables.grants, p, caller)))
  }

  function Run(ops: seq<Op>): World {
    if ops == [] then World(Tables(map[], map[], []), None) else Next(Run(ops[..|ops| - 1]), ops[|ops| - 1])
  }

  // ---- What the tables keep ----

  ghost predicate AgentOk(row: AgentRow) {
    (row.status.Running? <==> row.endedAtMs.None?) && (row.endedAtMs.Some? ==> row.endedAtMs.value >= row.startedAtMs)
  }

  ghost predicate DaemonOk(row: DaemonRow) {
    row.endedAtMs.Some? ==> row.endedAtMs.value >= row.startedAtMs
  }

  ghost predicate OpenDaemon(t: Tables, d: DaemonSessionId) {
    d in t.daemons && t.daemons[d].endedAtMs.None?
  }

  /** An unrevoked grant bound to an agent session names a running session of the same agent; one bound to a
      daemon session names an open one. */
  ghost predicate GrantOk(t: Tables, g: PermissionGrant) {
    && SessionConsistent(g)
    && (g.revokedAtMs.None? && g.session.Some? && g.session.value.AgentSession? ==>
          && g.session.value.agent in t.agents
          && t.agents[g.session.value.agent].status.Running?
          && g.agentId == Some(t.agents[g.session.value.agent].agentId))
    && (g.revokedAtMs.None? && g.session.Some? && g.session.value.DaemonSession? ==> OpenDaemon(t, g.session.value.daemon))
  }

  ghost predicate Inv(t: Tables) {
    && (forall a | a in t.agents :: AgentOk(t.agents[a]))
    && (forall d | d in t.daemons :: DaemonOk(t.daemons[d]))
    && (forall d, e | OpenDaemon(t, d) && OpenDaemon(t, e) :: d == e)
    && (forall g | g in t.grants :: GrantOk(t, g))
  }

  ghost predicate CurrentIsOpen(w: World) {
    w.current.Some? ==> OpenDaemon(w.tables, w.current.value)
  }

  lemma RevokedBoundHolds(grants: seq<PermissionGrant>, bound: PermissionSession -> bool, atMs: int, g: PermissionGrant)
    requires g in RevokeBound(grants, bound, atMs)
    ensures || (g in grants && (g.revokedAtMs.None? && g.lifetime.Session? && g.session.Some? ==> !bound(g.session.value)))
            || exists row :: row in grants && g == row.(revokedAtMs := Some(atMs))
  {
    var i :| 0 <= i < |grants| && RevokeBound(grants, bound, atMs)[i] == g;
    assert grants[i] in grants;
  }

  lemma BeginDaemonKeepsInv(t: Tables, id: DaemonSessionId, atMs: int)
    requires Inv(t) && BeginDaemon(t, id, atMs).Ok?
    ensures Inv(BeginDaemon(t, id, atMs).value)
    ensures forall d :: OpenDaemon(BeginDaemon(t, id, atMs).value, d) <==> d == id
  {
    var n := BeginDaemon(t, id, atMs).value;
    forall g | g in n.grants ensures GrantOk(n, g) {
      RevokedBoundHolds(t.grants, AgentOrDaemon(), atMs, g);
    }
    forall a | a in n.agents ensures AgentOk(n.agents[a]) {
      assert AgentOk(t.agents[a]);
    }
    forall d | d in n.daemons ensures DaemonOk(n.daemons[d]) {
      assert d in t.daemons ==> DaemonOk(t.daemons[d]);
    }
  }

  lemma FinishDaemonKeepsInv(t: Tables, id: DaemonSessionId, atMs: int)
    requires Inv(t)
    ensures Inv(FinishDaemon(t, id, atMs))
  {
    var n := FinishDaemon(t, id, atMs);
    forall g | g in n.grants ensures GrantOk(n, g) {
      RevokedBoundHolds(t.grants, Exactly(DaemonSession(id)), atMs, g);
    }
    assert forall d :: OpenDaemon(n, d) ==> OpenDaemon(t, d);
  }

  lemma BeginAgentKeepsInv(t: Tables, id: AgentSessionId, row: AgentRow)
    requires Inv(t) && BeginAgent(t, id, row).Ok?
    ensures Inv(BeginAgent(t, id, row).value)
  {
    var n := BeginAgent(t, id, row).value;
    assert forall d :: OpenDaemon(n, d) <==> OpenDaemon(t, d);
    forall g | g in n.grants ensures GrantOk(n, g) {
      assert GrantOk(t, g);
    }
  }

  lemma FinishAgentKeepsInv(t: Tables, id: AgentSessionId, status: AgentSessionStatus, atMs: int)
    requires Inv(t) && FinishAgent(t, id, status, atMs).Ok?
    ensures Inv(FinishAgent(t, id, status, atMs).value)
  {
    var n := FinishAgent(t, id, status, atMs).value;
    assert forall d :: OpenDaemon(n, d) <==> OpenDaemon(t, d);
    forall g | g in n.grants ensures GrantOk(n, g) {
      RevokedBoundHolds(t.grants, Exactly(AgentSession(id)), atMs, g);
    }
  }

  lemma ReplacingGrantsKeepsInv(t: Tables, grants: seq<PermissionGrant>)
    requires Inv(t) && forall g | g in grants :: GrantOk(t, g)
    ensures Inv(t.(grants := grants))
  {
    var n := t.(grants := grants);
    assert forall d :: OpenDaemon(n, d) <==> OpenDaemon(t, d);
    forall g | g in grants ensures GrantOk(n, g) {
      assert GrantOk(t, g);
    }
  }

  lemma UpsertedHolds(grants: seq<PermissionGrant>, g: PermissionGrant, x: PermissionGrant)
    requires x in Upserted(grants, g)
    ensures x in grants || exists at :: x == g.(grantedAtMs := at)
  {
    assert g == g.(grantedAtMs := g.grantedAtMs);
  }

  lemma UpsertingKeepsInv(t: Tables, g: PermissionGrant)
    requires Inv(t) && GrantOk(t, g)
    ensures Inv(t.(grants := Upserted(t.grants, g)))
  {
    forall x | x in Upserted(t.grants, g) ensures GrantOk(t, x) {
      UpsertedHolds(t.grants, g, x);
    }
    ReplacingGrantsKeepsInv(t, Upserted(t.grants, g));
  }

  lemma UpsertStores(grants: seq<PermissionGrant>, g: PermissionGrant) returns (x: PermissionGrant)
    ensures x in Upserted(grants, g) && x == g.(grantedAtMs := x.grantedAtMs)
  {
    var at := IndexOf(grants, g.id);
    var i := if at.None? then |grants| else at.value;
    x := Upserted(grants, g)[i];
  }

  /** Saving a requested grant keeps the tables sound exactly when the saved grant is not bound to a daemon
      session that the tables already closed. */
  lemma SavingKeepsInvExactlyWhen(t: Tables, current: DaemonSessionId, q: GrantRequest, setting: Setting)
    requires Inv(t) && SaveGrant(t, current, q, setting).Ok?
    ensures Inv(SaveGrant(t, current, q, setting).value) <==>
            !(q.lifetime.Session? && q.session == Some(DaemonSession(current)) && !OpenDaemon(t, current))
  {
    var g := GrantFor(t, current, q, setting).value;
    if GrantOk(t, g) {
      UpsertingKeepsInv(t, g);
    } else {
      var x := UpsertStores(t.grants, g);
      var n := SaveGrant(t, current, q, setting).value;
      assert !GrantOk(n, x);
    }
  }

  lemma RevokingKeepsInv(t: Tables, id: PermissionId, nowMs: int)
    requires Inv(t)
    ensures Inv(t.(grants := Revoked(t.grants, id, nowMs)))
  {
    forall g | g in Revoked(t.grants, id, nowMs) ensures GrantOk(t, g) {
      var i :| 0 <= i < |t.grants| && Revoked(t.grants, id, nowMs)[i] == g;
      assert GrantOk(t, t.grants[i]);
    }
    ReplacingGrantsKeepsInv(t, Revoked(t.grants, id, nowMs));
  }

  lemma ClaimingKeepsInv(t: Tables, p: ActionProposal, caller: Caller)
    requires Inv(t)
    ensures Inv(t.(grants := Claimed(t.grants, p, caller)))
  {
    forall g | g in Claimed(t.grants, p, caller) ensures GrantOk(t, g) {
      var i :| 0 <= i < |t.grants| && Claimed(t.grants, p, caller)[i] == g;
      assert GrantOk(t, t.grants[i]);
    }
    ReplacingGrantsKeepsInv(t, Claimed(t.grants, p, caller));
  }

  /** An accepted request for a grant bound to the daemon's own session, when the tables already closed it. */
  predicate Orphans(w: World, op: Op) {
    && op.RequestGrant? && w.current.Some? && SaveGrant(w.tables, w.current.value, op.request, op.setting).Ok?
    && op.request.lifetime.Session? && op.request.session == Some(DaemonSession(w.current.value))
    && !(w.current.value in w.tables.daemons && w.tables.daemons[w.current.value].endedAtMs.None?)
  }

  /** A step keeps every bound grant on a live session exactly when it does not orphan one. */
  lemma NextKeepsInvExactlyWhen(w: World, op: Op)
    requires Inv(w.tables)
    ensures Inv(Next(w, op).tables) <==> !Orphans(w, op)
  {
    match op {
      case StartDaemon(d, now) =>
        if BeginDaemon(w.tables, d, now).Ok? {
          BeginDaemonKeepsInv(w.tables, d, now);
        }
      case StopDaemon(now) =>
        if w.current.Some? {
          FinishDaemonKeepsInv(w.tables, w.current.value, now);
        }
      case CrashDaemon =>
      case BeginSession(a, owner, instance, now) =>
        if w.current.Some? && BeginAgent(w.tables, a, AgentRow(owner, instance, w.current.value, Running, now, None)).Ok? {
          BeginAgentKeepsInv(w.tables, a, AgentRow(owner, instance, w.current.value, Running, now, None));
        }
      case FinishSession(a, status, now) =>
        if FinishAgent(w.tables, a, status, now).Ok? {
          FinishAgentKeepsInv(w.tables, a, status, now);
        }
      case RequestGrant(q, setting) =>
        if w.current.Some? && SaveGrant(w.tables, w.current.value, q, setting).Ok? {
          SavingKeepsInvExactlyWhen(w.tables, w.current.value, q, setting);
        }
      case ConfirmGrant(g) =>
        if g.Valid() && BoundToNone(g) {
          UpsertingKeepsInv(w.tables, g);
        }
      case RevokeGrant(id, now) =>
        RevokingKeepsInv(w.tables, id, now);
      case ClaimGrant(p, caller) =>
        ClaimingKeepsInv(w.tables, p, caller);
    }
  }

  lemma RunOfPrefix(ops: seq<Op>, i: nat)
    requires i < |ops|
    ensures Run(ops[..i + 1]) == Next(Run(ops[..i]), ops[i])
  {
    assert ops[..i + 1][..i] == ops[..i];
  }

  lemma {:induction false} SoundUpTo(ops: seq<Op>, n: nat)
    requires n <= |ops| && forall i | 0 <= i < n :: !Orphans(Run(ops[..i]), ops[i])
    ensures Inv(Run(ops[..n]).tables)
  {
    if n > 0 {
      SoundUpTo(ops, n - 1);
      RunOfPrefix(ops, n - 1);
      NextKeepsInvExactlyWhen(Run(ops[..n - 1]), ops[n - 1]);
    }
  }

  /** Over every run, with any number of daemons starting beside each other: every unrevoked session-bound grant names
      a live session at every point exactly when no daemon ever saves a grant bound to its own session after the
      tables closed that session. */
  lemma GrantsStayLiveExactlyWhen(ops: seq<Op>)
    ensures (forall n | 0 <= n <= |ops| :: Inv(Run(ops[..n]).tables)) <==>
            (forall i | 0 <= i < |ops| :: !Orphans(Run(ops[..i]), ops[i]))
  {
    if forall i | 0 <= i < |ops| :: !Orphans(Run(ops[..i]), ops[i]) {
      forall n | 0 <= n <= |ops| ensures Inv(Run(ops[..n]).tables) {
        SoundUpTo(ops, n);
      }
    }
    if forall n | 0 <= n <= |ops| :: Inv(Run(ops[..n]).tables) {
      forall i | 0 <= i < |ops| ensures !Orphans(Run(ops[..i]), ops[i]) {
        assert Inv(Run(ops[..i]).tables) && Inv(Run(ops[..i + 1]).tables);
        RunOfPrefix(ops, i);
        NextKeepsInvExactlyWhen(Run(ops[..i]), ops[i]);
      }
    }
  }

  ghost predicate OneDaemonAtATime(ops: seq<Op>) {
    forall i | 0 <= i < |ops| && ops[i].StartDaemon? :: Run(ops[..i]).current.None?
  }

  lemma NextKeepsCurrentOpen(w: World, op: Op)
    requires Inv(w.tables) && CurrentIsOpen(w) && (op.StartDaemon? ==> w.current.None?)
    ensures CurrentIsOpen(Next(w, op))
  {
    if op.StartDaemon? && BeginDaemon(w.tables, op.daemon, op.nowMs).Ok? {
      BeginDaemonKeepsInv(w.tables, op.daemon, op.nowMs);
    }
  }

  /** In particular while only one daemon runs at a time, across any restarts and crashes: an unrevoked session-bound
      grant names a running session of the same agent, or the single open daemon session. */
  lemma {:induction false} BoundGrantsNameLiveSessions(ops: seq<Op>)
    requires OneDaemonAtATime(ops)
    ensures Inv(Run(ops).tables) && CurrentIsOpen(Run(ops))
  {
    if ops != [] {
      var front, op := ops[..|ops| - 1], ops[|ops| - 1];
      assert forall i | 0 <= i < |front| :: front[..i] == ops[..i];
      BoundGrantsNameLiveSessions(front);
      NextKeepsInvExactlyWhen(Run(front), op);
      NextKeepsCurrentOpen(Run(front), op);
    }
  }

  /** Once a session has left `Running` its row never changes again, whatever daemons run: it leaves once. */
  lemma {:induction false} ClosedSessionsStayClosed(ops: seq<Op>, more: seq<Op>, a: AgentSessionId)
    requires a in Run(ops).tables.agents
    ensures var before, after := Run(ops).tables.agents[a], Run(ops + more).tables.agents;
            && a in after
            && after[a].agentId == before.agentId && after[a].startedAtMs == before.startedAtMs
            && (!before.status.Running? ==> after[a] == before)
  {
    if more == [] {
      assert ops + more == ops;
    } else {
      var front := more[..|more| - 1];
      ClosedSessionsStayClosed(ops, front, a);
      assert (ops + more)[..|ops + more| - 1] == ops + front;
      OpenStep(Run(ops + front), (ops + more)[|ops + more| - 1], a);
    }
  }

  lemma OpenStep(w: World, op: Op, a: AgentSessionId)
    requires a in w.tables.agents
    ensures var before, after := w.tables.agents[a], Next(w, op).tables.agents;
            && a in after
            && after[a].agentId == before.agentId && after[a].startedAtMs == before.startedAtMs
            && (!before.status.Running? ==> after[a] == before)
            && (AgentOk(before) ==> AgentOk(after[a]))
  {
  }

  /** In every run, with however many daemons, a session row is `Running` exactly while it has no end, and its
      end is not before its start. */
  lemma {:induction false} SessionsEndAfterTheyStart(ops: seq<Op>, a: AgentSessionId)
    requires a in Run(ops).tables.agents
    ensures AgentOk(Run(ops).tables.agents[a])
  {
    var front, op := ops[..|ops| - 1], ops[|ops| - 1];
    if a in Run(front).tables.agents {
      SessionsEndAfterTheyStart(front, a);
      OpenStep(Run(front), op, a);
    }
  }

  lemma DaemonGrantIsSaved(t: Tables, current: DaemonSessionId, q: GrantRequest, setting: Setting)
    requires q.lifetime.Session? && q.session == Some(DaemonSession(current)) && q.agentId.None? && q.expiresAtMs.None?
    requires setting.scopeFits && |q.scope.resources| <= 16 && setting.scopeBytes <= MAX_SCOPE_BYTES
    ensures SaveGrant(t, current, q, setting).Ok?
  {
  }

  lemma RivalClosesFirst(t: Tables, first: DaemonSessionId, second: DaemonSessionId, nowMs: int)
    requires Inv(t) && OpenDaemon(t, first) && second !in t.daemons
    ensures var w := Next(World(t, Some(first)), StartDaemon(second, nowMs));
            w.current == Some(first) && Inv(w.tables) && !OpenDaemon(w.tables, first)
  {
    BeginDaemonKeepsInv(t, second, nowMs);
  }

  /** A second daemon started beside a running one closes the first one's session, and the first one still
      accepts grants bound to it. */
  lemma RivalStartOrphansGrants(t: Tables, first: DaemonSessionId, second: DaemonSessionId, q: GrantRequest, setting: Setting)
    requires Inv(t) && OpenDaemon(t, first) && second !in t.daemons
    requires q.lifetime.Session? && q.session == Some(DaemonSession(first)) && q.agentId.None? && q.expiresAtMs.None?
    requires setting.scopeFits && |q.scope.resources| <= 16 && setting.scopeBytes <= MAX_SCOPE_BYTES
    ensures var w := Next(World(t, Some(first)), StartDaemon(second, setting.nowMs));
            && Inv(w.tables) && !CurrentIsOpen(w)
            && !Inv(Next(w, RequestGrant(q, setting)).tables)
  {
    var w := Next(World(t, Some(first)), StartDaemon(second, setting.nowMs));
    RivalClosesFirst(t, first, second, setting.nowMs);
    DaemonGrantIsSaved(w.tables, first, q, setting);
    SavingKeepsInvExactlyWhen(w.tables, first, q, setting);
  }

  // ---- How sessions and their grants end ----

  /** Whether a caller's session is bound to the grant and one of those ended. */
  predicate EndedFor(g: PermissionGrant, caller: Caller, bound: PermissionSession -> bool) {
    caller.session.Some? && bound(caller.session.value) && g.session == caller.session
  }

  /** Ending sessions silences exactly the grants bound to them: every other grant speaks for whom it spoke before. */
  lemma EndingSilencesExactly(grants: seq<PermissionGrant>, bound: PermissionSession -> bool, atMs: int)
    ensures var after := RevokeBound(grants, bound, atMs);
            && |after| == |grants|
            && forall i, p, caller | 0 <= i < |grants| ::
                 SqlActive(after[i], p, caller) <==> SqlActive(grants[i], p, caller) && !EndedFor(grants[i], caller, bound)
  {
  }

  /** Which sessions an operation ends the grants of. */
  predicate EndsGrantsOf(w: World, op: Op, session: PermissionSession) {
    match op
    case StartDaemon(d, _) => d !in w.tables.daemons && !session.ChatSession?
    case StopDaemon(_) => w.current.Some? && session == DaemonSession(w.current.value)
    case FinishSession(a, status, _) => !status.Running? && session == AgentSession(a)
    case _ => false
  }

  /** Starting a daemon silences exactly the grants bound to any daemon or agent session, stopping it those bound to its own,
      and finishing an agent session those bound to that. */
  lemma SessionsEndTheirGrants(w: World, op: Op)
    requires op.StartDaemon? || op.StopDaemon? || op.CrashDaemon? || op.BeginSession? || op.FinishSession?
    ensures var before, after := w.tables.grants, Next(w, op).tables.grants;
            && |after| == |before|
            && forall i, p, caller | 0 <= i < |before| ::
                 SqlActive(after[i], p, caller) <==>
                 && SqlActive(before[i], p, caller)
                 && !(caller.session.Some? && EndsGrantsOf(w, op, caller.session.value) && before[i].session == caller.session)
  {
    hide SqlActive, RevokeBound;
    match op
    case StartDaemon(d, now) => EndingSilencesExactly(w.tables.grants, AgentOrDaemon(), now);
    case StopDaemon(now) =>
      if w.current.Some? {
        EndingSilencesExactly(w.tables.grants, Exactly(DaemonSession(w.current.value)), now);
      }
    case CrashDaemon =>
    case BeginSession(_, _, _, _) =>
    case FinishSession(a, status, now) => EndingSilencesExactly(w.tables.grants, Exactly(AgentSession(a)), now);
  }

  function Later(a: int, b: int): int {
    if a < b then b else a
  }

  /** An operation ends agent session `a` with this status and time: its own finishing, or the start of a daemon, which
      finds it crashed. */
  predicate EndsAgent(w: World, op: Op, a: AgentSessionId, row: AgentRow) {
    match op
    case FinishSession(agent, status, now) => agent == a && row.status == status && row.endedAtMs == Some(Later(row.startedAtMs, now))
    case StartDaemon(_, now) => row.status.Crashed? && row.endedAtMs == Some(Later(row.startedAtMs, now))
    case _ => false
  }

  /** A daemon session that is open is ended by its daemon's stopping and by the start of any other, and by nothing else; the
      end is not before the start, and an ended one never changes. */
  lemma DaemonEndsExactlyWhen(w: World, op: Op, d: DaemonSessionId)
    requires d in w.tables.daemons
    ensures var before, after := w.tables.daemons[d], Next(w, op).tables.daemons;
            && d in after
            && if before.endedAtMs.None? && ((op.StopDaemon? && w.current == Some(d)) || (op.StartDaemon? && op.daemon !in w.tables.daemons))
               then after[d] == DaemonRow(before.startedAtMs, Some(Later(before.startedAtMs, op.nowMs)))
               else after[d] == before
  {
  }

  /** A running agent session is ended by its finishing and by the start of a daemon, and by nothing else. */
  lemma AgentEndsExactlyWhen(w: World, op: Op, a: AgentSessionId)
    requires a in w.tables.agents
    ensures var before, after := w.tables.agents[a], Next(w, op).tables.agents;
            && a in after
            && if before.Open() && op.FinishSession? && op.agent == a && !op.status.Running?
               then after[a] == before.(status := op.status, endedAtMs := Some(Later(before.startedAtMs, op.nowMs)))
               else if before.Open() && op.StartDaemon? && op.daemon !in w.tables.daemons
               then after[a] == before.(status := Crashed, endedAtMs := Some(Later(before.startedAtMs, op.nowMs)))
               else after[a] == before
  {
  }

  lemma EndingStep(w: World, op: Op, a: AgentSessionId)
    requires a in Next(w, op).tables.agents && !Next(w, op).tables.agents[a].status.Running?
    requires a in w.tables.agents ==> w.tables.agents[a].status.Running? && w.tables.agents[a].endedAtMs.None?
    ensures a in w.tables.agents && EndsAgent(w, op, a, Next(w, op).tables.agents[a])
  {
  }

  /** Whatever daemons run, a closed session was closed by one operation of the run, which gave it its status and its end. */
  lemma {:induction false} EveryEndWasGiven(ops: seq<Op>, a: AgentSessionId) returns (i: nat)
    requires a in Run(ops).tables.agents && !Run(ops).tables.agents[a].status.Running?
    ensures i < |ops| && a in Run(ops[..i]).tables.agents && Run(ops[..i]).tables.agents[a].status.Running?
    ensures EndsAgent(Run(ops[..i]), ops[i], a, Run(ops).tables.agents[a])
  {
    var front, op := ops[..|ops| - 1], ops[|ops| - 1];
    if a in Run(front).tables.agents && !Run(front).tables.agents[a].status.Running? {
      OpenStep(Run(front), op, a);
      i := EveryEndWasGiven(front, a);
      assert front[..i] == ops[..i];
    } else {
      if a in Run(front).tables.agents {
        SessionsEndAfterTheyStart(front, a);
      }
      i := |ops| - 1;
      EndingStep(Run(front), op, a);
    }
  }

  // ---- What a requested grant is for ----

  /** Who a request asks a grant for, and until when; a grant for one use only while it is unused. */
  predicate AskedFor(q: GrantRequest, uses: nat, caller: Caller) {
    && caller.agentId == q.agentId
    && match q.lifetime
       case Once => uses == 0
       case Session => q.session.Some? && caller.session == q.session
       case Until => q.expiresAtMs.Some? && caller.nowMs <= q.expiresAtMs.value
       case Always => true
  }

  /** A saved request with a fresh identifier adds one grant of the requested effect, which speaks for the requested scope to
      exactly those it was asked for. */
  lemma SavedGrantIsAsAsked(t: Tables, current: DaemonSessionId, q: GrantRequest, w: Setting)
    requires SaveGrant(t, current, q, w).Ok? && forall g | g in t.grants :: g.id != q.id
    ensures var after := SaveGrant(t, current, q, w).value;
            && after.daemons == t.daemons && after.agents == t.agents
            && |after.grants| == |t.grants| + 1 && t.grants < after.grants
            && var g := after.grants[|t.grants|];
               && g.id == q.id && g.effect == q.effect && g.grantedBy.UserExplicit? && g.grantedAtMs == w.nowMs && g.useCount == 0 && g.Valid()
               && forall uses: nat, p: ActionProposal, caller: Caller ::
                    SqlActive(g.(useCount := uses), p, caller) <==> q.scope == PermissionScope.FromProposal(p) && AskedFor(q, uses, caller)
  {
  }

  /** Exactly the requests that are saved: known scope and agent, an expiry that lies ahead, and what the lifetime needs; a
      grant bound to an agent session must be for the agent of a listed running session, one bound to a daemon or chat
      session for no agent. */
  lemma SavesExactlyWhen(t: Tables, current: DaemonSessionId, q: GrantRequest, w: Setting)
    ensures SaveGrant(t, current, q, w).Ok? <==>
            && w.scopeFits && |q.scope.resources| <= 16 && w.scopeBytes <= 32_768
            && (q.agentId.Some? ==> q.agentId.value in w.agents)
            && (q.expiresAtMs.Some? ==> w.nowMs < q.expiresAtMs.value)
            && (q.lifetime.Until? ==> q.expiresAtMs.Some?)
            && (q.lifetime.Session? ==>
                  && q.session.Some?
                  && match q.session.value
                     case AgentSession(id) =>
                       && id in t.agents && t.agents[id].status.Running? && q.agentId == Some(t.agents[id].agentId)
                       && |set a | a in t.agents && (t.agents[a].startedAtMs > t.agents[id].startedAtMs
                                                     || (t.agents[a].startedAtMs == t.agents[id].startedAtMs && a > id))| < 200
                     case DaemonSession(id) => id == current && q.agentId.None?
                     case ChatSession(_) => q.agentId.None?)
  {
  }

  // ---- How sessions begin ----

  /** A session begins exactly if it is running and without end, its identifier and its instance are new, and its daemon session
      is stored; then it is stored as given beside the others. */
  lemma BeginsExactlyWhen(t: Tables, id: AgentSessionId, row: AgentRow)
    ensures BeginAgent(t, id, row).Ok? <==>
            && row.status.Running? && row.endedAtMs.None? && id !in t.agents && row.daemonSessionId in t.daemons
            && forall a | a in t.agents :: t.agents[a].instanceId != row.instanceId
    ensures BeginAgent(t, id, row).Ok? ==>
            var after := BeginAgent(t, id, row).value;
            && after.agents.Keys == t.agents.Keys + {id} && after.agents[id] == row
            && (forall a | a in t.agents :: after.agents[a] == t.agents[a])
            && after.daemons == t.daemons && after.grants == t.grants
  {
  }

  ghost predicate InstancesInv(t: Tables) {
    && (forall a, b | a in t.agents && b in t.agents && t.agents[a].instanceId == t.agents[b].instanceId :: a == b)
    && (forall a | a in t.agents :: t.agents[a].daemonSessionId in t.daemons)
  }

  lemma NextKeepsInstances(w: World, op: Op)
    requires InstancesInv(w.tables)
    ensures InstancesInv(Next(w, op).tables)
  {
    match op {
      case BeginSession(a, owner, instance, now) =>
        if w.current.Some? {
          BeginsExactlyWhen(w.tables, a, AgentRow(owner, instance, w.current.value, Running, now, None));
        }
      case _ =>
        assert forall a | a in Next(w, op).tables.agents ::
            a in w.tables.agents && Next(w, op).tables.agents[a].instanceId == w.tables.agents[a].instanceId
            && Next(w, op).tables.agents[a].daemonSessionId == w.tables.agents[a].daemonSessionId;
    }
  }

  /** In every run, with however many daemons, an agent instance has one session, which belongs to a stored daemon session. */
  lemma {:induction false} InstancesHaveOneSession(ops: seq<Op>)
    ensures InstancesInv(Run(ops).tables)
  {
    if ops != [] {
      InstancesHaveOneSession(ops[..|ops| - 1]);
      NextKeepsInstances(Run(ops[..|ops| - 1]), ops[|ops| - 1]);
    }
  }
}
