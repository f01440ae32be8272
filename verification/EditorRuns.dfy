/** The findings at concrete inputs: the daemon's own capability (crates/capabilities/src/builtins.rs) and its
    default engine, asked to open an editor. */
module EditorRuns {
  import opened Prelude
  import opened SqlOrder
  import opened Domain
  import opened Policy
  import opened GrantStore
  import opened Authority
  import opened Payments
  import AuthorityRuns

  const OPEN_APP := CapabilityDescriptor("system.open_app", 1, "Open an installed application", LocalSideEffect, true, false, [],
                                         RiskBased, 5_000, KindOpenApp)
  const DAEMON := Kernel(Engine(true), map["system.open_app" := OPEN_APP])
  const EDITOR := ActionProposal(
    ActionRequest("system.open_app", OpenApp("app:editor")),
    ActionContext(UserExplicit, TrustUserExplicit, UserAuthority, None, [ProvenanceHop(UserExplicit, None)],
                  [ResourceDescriptor(Application, "app:editor", Local)], None, None))

  function Holding(grants: seq<PermissionGrant>, profile: SecurityProfile): Core {
    Core(grants, profile, [], map[], map[], map[], [])
  }

  /** A launch of execution `id` whose clock reads `startedAtMs` and then `decidedAtMs`. */
  function Launch(id: ExecutionId, startedAtMs: int, decidedAtMs: int): Attempt {
    Attempt(id, startedAtMs, startedAtMs, decidedAtMs, decidedAtMs, Finished(Launched), 9, 0, false, false, false, false, false)
  }

  lemma NotBlank(text: string)
    requires text != [] && 'A' <= text[0]
    ensures !Blank(text)
  {
    assert text[0] in text;
  }

  lemma OpeningTheEditorIsValid()
    ensures OPEN_APP.Valid() && EDITOR.context.Valid()
  {
    NotBlank("Open an installed application");
    NotBlank("app:editor");
  }

  lemma LocalSideEffectsOfTheUser(engine: Engine, c: CapabilityDescriptor, p: ActionProposal, caller: Caller, profile: SecurityProfile)
    requires c.Valid() && c.risk.LocalSideEffect? && c.scopeRequirements == [] && c.confirmation.RiskBased?
    requires p.context.Valid() && p.context.origin.UserExplicit? && p.context.dataFlow.None?
    requires forall r | r in p.context.resources :: r.classification.Local?
    ensures var d := engine.Decide(c, p, ContextView({}, [], profile, caller));
            if profile.Strict? then d.outcome.Confirm? else d == AllowWith(LocalSideEffectBaseline)
  {
    assert caller.Matching([], p, Deny) == None && caller.Matching([], p, Allow) == None;
    assert MissingScopeOf(c, {}) == None;
  }

  /** Under the strict profile, opening an application asks. */
  lemma OpeningTheEditorAsks()
    ensures DAEMON.Valid() && DAEMON.DescriptorFor(EDITOR.action) == Ok(OPEN_APP) && Asks(DAEMON, EDITOR, Strict)
  {
    OpeningTheEditorIsValid();
    LocalSideEffectsOfTheUser(DAEMON.engine, OPEN_APP, EDITOR, Caller(0, None, None), Strict);
  }

  /** With a clock that reads 11 and then 10, opening the editor is allowed by a valid grant and turned away. */
  lemma EditorIsRefused()
    ensures var g := UserGrant(1, Until, EDITOR, 0, Some(10), None);
            && EDITOR.context.Valid() && g.Valid()
            && Process(DAEMON, Holding([g], Strict), EDITOR, None, false, Launch(7, 11, 10)).1 == Err(PrivacyDenied)
  {
    hide Process;
    OpeningTheEditorIsValid();
    OpeningTheEditorAsks();
    ClockStepRefusesAllowedAction(DAEMON, Holding([UserGrant(1, Until, EDITOR, 0, Some(10), None)], Strict), EDITOR, false, Launch(7, 11, 10));
  }

  /** Started at 10 and decided at 11, opening the editor is charged to a grant that expired at 10. */
  lemma EditorIsPaidByExpiredGrant()
    ensures var rows := OnceAndUntil(EDITOR, 10, 0);
            var (after, r) := Process(DAEMON, Holding(rows, Strict), EDITOR, None, false, Launch(7, 10, 11));
            && EDITOR.context.Valid() && rows[0].Valid() && rows[1].Valid()
            && r.Ok? && after.grants == [rows[0], Used(rows[1])]
  {
    hide Process;
    OpeningTheEditorIsValid();
    OpeningTheEditorAsks();
    ExpiredGrantMayPay(DAEMON, Holding(OnceAndUntil(EDITOR, 10, 0), Strict), EDITOR, false, Launch(7, 10, 11), 10);
  }

  /** Started at 11 and decided at 10, opening the editor uses up a one-use grant although a standing one allows it. */
  lemma EditorBurnsOneUse()
    ensures var rows := OnceAndUntil(EDITOR, 10, 0);
            var (after, r) := Process(DAEMON, Holding(rows, Strict), EDITOR, None, false, Launch(7, 11, 10));
            && EDITOR.context.Valid() && rows[0].Valid() && rows[1].Valid()
            && r.Ok? && after.grants == [Used(rows[0]), rows[1]] && !after.grants[0].HasUsesLeft()
  {
    hide Process;
    OpeningTheEditorIsValid();
    OpeningTheEditorAsks();
    ClockStepBurnsOneUse(DAEMON, Holding(OnceAndUntil(EDITOR, 10, 0), Strict), EDITOR, false, Launch(7, 11, 10), 10);
  }

  function Launches(n: nat): (r: seq<Attempt>)
    ensures |r| == n && forall i | 0 <= i < n :: r[i] == Launch(i, 10, 11)
  {
    seq(n, i requires 0 <= i < n => Launch(i, 10, 11))
  }

  lemma LaunchesStraddle(n: nat)
    ensures Straddle(Launches(n), 10)
  {
  }

  /** Opening the editor any number of times, each time started at 10 and decided at 11, leaves the one-use grant that
      allowed every one of them unused. */
  lemma EditorOpensOnOneUse(n: nat)
    ensures var once, until := OnceAndUntil(EDITOR, 10, 0)[0], OnceAndUntil(EDITOR, 10, 0)[1];
            var after := Repeated(DAEMON, Holding([once, until], Strict), EDITOR, false, Launches(n));
            && once.lifetime.Once? && once.useLimit == Some(1) && once.useCount == 0
            && |after.calls| == n && after.grants == [once, until.(useCount := n)]
  {
    hide Process, Repeated, Asks;
    assert OnceAndUntil(EDITOR, 10, 0) == [OnceAndUntil(EDITOR, 10, 0)[0], OnceAndUntil(EDITOR, 10, 0)[1]];
    OpeningTheEditorAsks();
    LaunchesStraddle(n);
    OneUseGrantDecidesAnyNumber(DAEMON, Holding(OnceAndUntil(EDITOR, 10, 0), Strict), EDITOR, false, Launches(n), 10);
  }

  /** A migrated row that names chat 0: the daemon asks before opening the editor, the engine on all grants would
      not. */
  lemma EditorSplitsLookup()
    ensures var s := Holding([UserGrant(1, Always, EDITOR, 0, None, None).(session := Some(ChatSession(0)))], Strict);
            && DAEMON.engine.Decide(OPEN_APP, EDITOR, ContextFor(s, EDITOR, None, 10)).outcome.Confirm?
            && DAEMON.engine.Decide(OPEN_APP, EDITOR, AuthorityRuns.WholeView(s, EDITOR, None, 10)).outcome.Allowed?
  {
    OpeningTheEditorAsks();
    MigratedGrantSplitsLookup(DAEMON, EDITOR, Holding([UserGrant(1, Always, EDITOR, 0, None, None).(session := Some(ChatSession(0)))], Strict), 0, 10);
  }

  lemma EditorIsAllowedOutright(a: Attempt)
    requires !a.lookupFails
    ensures var e := DAEMON.engine.Authorize(OPEN_APP, EDITOR, a.executionId, ContextFor(Holding([], Balanced), EDITOR, None, a.decidedAtMs));
            e.decision == AllowWith(LocalSideEffectBaseline) && e.authorization.Some?
  {
    OpeningTheEditorIsValid();
    OpeningTheEditorAsks();
    LocalSideEffectsOfTheUser(DAEMON.engine, OPEN_APP, EDITOR, CallerFor(EDITOR, None, a.decidedAtMs), Balanced);
  }

  lemma UnrecordedCall(s: Core, p: ActionProposal, a: Attempt, e: Evaluation)
    requires e.authorization.Some? && !e.decision.reason.PersistentExactAllow? && a.recordFails
    ensures var (after, r) := CarriedOut(s, p, None, false, a, e);
            r == Err(Internal) && |after.calls| == |s.calls| + 1 && after.executions == s.executions && after.audit == s.audit
  {
  }

  /** Under the balanced profile the editor is opened, and when the storing transaction fails nothing tells of it. */
  lemma EditorRunsUnrecorded()
    ensures var (after, r) := Process(DAEMON, Holding([], Balanced), EDITOR, None, false, Launch(7, 10, 11).(recordFails := true));
            r == Err(Internal) && |after.calls| == 1 && after.executions == map[] && after.audit == []
  {
    var s, a := Holding([], Balanced), Launch(7, 10, 11).(recordFails := true);
    OpeningTheEditorAsks();
    EditorIsAllowedOutright(a);
    UnrecordedCall(s, EDITOR, a, DAEMON.engine.Authorize(OPEN_APP, EDITOR, a.executionId, ContextFor(s, EDITOR, None, a.decidedAtMs)));
  }
}
