/** Who pays for an action that a stored grant allows (the claim in apps/daemon/src/service.rs): when it is
    refused, when exactly one use is spent, and from which grant. */
module Payments {
  import opened Prelude
  import opened SqlOrder
  import opened Domain
  import opened Policy
  import opened GrantStore
  import opened Authority
  import opened AuthorityRuns

  /** Whether processing gets as far as a decision, and that decision rests on a stored allow grant. */
  predicate RestsOnGrant(k: Kernel, s: Core, p: ActionProposal, chat: Option<ChatSessionId>, a: Attempt) {
    && k.DescriptorFor(p.action).Ok? && !a.lookupFails
    && k.engine.Authorize(k.DescriptorFor(p.action).value, p, a.executionId, ContextFor(s, p, chat, a.decidedAtMs)).decision.reason.PersistentExactAllow?
  }

  /** Every allow grant that is active when the decision is taken has expired at the date of the claim. */
  ghost predicate AllExpiredAtStart(s: Core, p: ActionProposal, chat: Option<ChatSessionId>, a: Attempt) {
    forall g | g in s.grants && g.effect.Allow? && SqlActive(g, p, CallerFor(p, chat, a.decidedAtMs)) :: !g.Unexpired(a.startedAtMs)
  }

  ghost predicate OneCountRaised(before: seq<PermissionGrant>, after: seq<PermissionGrant>) {
    exists i | 0 <= i < |before| :: after == before[i := Used(before[i])]
  }

  lemma AllowanceComesFromShownGrant(engine: Engine, c: CapabilityDescriptor, p: ActionProposal, ctx: ContextView)
    requires engine.Decide(c, p, ctx).reason.PersistentExactAllow?
    ensures engine.Decide(c, p, ctx).outcome.Allowed?
    ensures ctx.grants != []
    ensures |ctx.grants| == 1 ==> ctx.grants[0].effect.Allow?
  {
  }

  /** Nothing can be claimed exactly when every grant the decision could rest on had expired at the start. */
  lemma NothingToClaimExactlyWhen(rows: seq<PermissionGrant>, p: ActionProposal, decided: Caller, startedMs: int)
    requires var row := ActiveGrantForProposal(rows, p, decided); row.Some? && row.value.effect.Allow?
    ensures ClaimCandidate(rows, p, decided.(nowMs := startedMs)).None? <==>
            forall g | g in rows && g.effect.Allow? && SqlActive(g, p, decided) :: !g.Unexpired(startedMs)
  {
    var g := ActiveGrantForProposal(rows, p, decided).value;
    var claimer := decided.(nowMs := startedMs);
    var candidate := ClaimCandidate(rows, p, claimer);
    if candidate.Some? {
      if candidate.value.Unexpired(decided.nowMs) {
        assert SqlActive(candidate.value, p, decided);
      } else {
        assert g.Unexpired(startedMs);
      }
    } else {
      forall x | x in rows && x.effect.Allow? && SqlActive(x, p, decided) ensures !x.Unexpired(startedMs) {
        assert !ActiveRowsOf(Allow, p, claimer)(x);
      }
    }
  }

  lemma RestingOnGrantShowsIt(k: Kernel, s: Core, p: ActionProposal, chat: Option<ChatSessionId>, a: Attempt)
    requires RestsOnGrant(k, s, p, chat, a)
    ensures var row := ActiveGrantForProposal(s.grants, p, CallerFor(p, chat, a.decidedAtMs)); row.Some? && row.value.effect.Allow?
    ensures k.engine.Authorize(k.DescriptorFor(p.action).value, p, a.executionId, ContextFor(s, p, chat, a.decidedAtMs)).authorization.Some?
    ensures ClaimCandidate(s.grants, p, CallerFor(p, chat, a.startedAtMs)).None? <==> AllExpiredAtStart(s, p, chat, a)
  {
    var c, ctx := k.DescriptorFor(p.action).value, ContextFor(s, p, chat, a.decidedAtMs);
    AuthorizationNamesExecution(k.engine, c, p, a.executionId, ctx);
    AllowanceComesFromShownGrant(k.engine, c, p, ctx);
    NothingToClaimExactlyWhen(s.grants, p, ctx.caller, a.startedAtMs);
  }

  lemma CarryingOutPays(s: Core, p: ActionProposal, chat: Option<ChatSessionId>, simulate: bool, a: Attempt, e: Evaluation)
    ensures var (after, r) := CarriedOut(s, p, chat, simulate, a, e);
            var claimer := CallerFor(p, chat, a.startedAtMs);
            if e.authorization.Some? && e.decision.reason.PersistentExactAllow? then
              && (r == Err(PrivacyDenied) <==> !a.claimFails && ClaimCandidate(s.grants, p, claimer).None?)
              && (r == Err(PrivacyDenied) ==> after == s)
              && after.grants == if a.claimFails then s.grants else Claimed(s.grants, p, claimer)
            else r != Err(PrivacyDenied) && after.grants == s.grants
  {
  }

  /** What processing does to the grants, and when it turns an action away. */
  lemma ProcessingPays(k: Kernel, s: Core, p: ActionProposal, chat: Option<ChatSessionId>, simulate: bool, a: Attempt)
    ensures var (after, r) := Process(k, s, p, chat, simulate, a);
            if RestsOnGrant(k, s, p, chat, a) then
              && (r == Err(PrivacyDenied) <==> !a.claimFails && AllExpiredAtStart(s, p, chat, a))
              && (r == Err(PrivacyDenied) ==> after == s)
              && after.grants == if a.claimFails then s.grants else Claimed(s.grants, p, CallerFor(p, chat, a.startedAtMs))
            else r != Err(PrivacyDenied) && after.grants == s.grants
  {
    var found := k.DescriptorFor(p.action);
    if found.Ok? && !a.lookupFails {
      var e := k.engine.Authorize(found.value, p, a.executionId, ContextFor(s, p, chat, a.decidedAtMs));
      CarryingOutPays(s, p, chat, simulate, a, e);
      if RestsOnGrant(k, s, p, chat, a) {
        RestingOnGrantShowsIt(k, s, p, chat, a);
      }
    }
  }

  lemma ExpiryNeedsClockStep(k: Kernel, s: Core, p: ActionProposal, chat: Option<ChatSessionId>, a: Attempt)
    requires RestsOnGrant(k, s, p, chat, a) && AllExpiredAtStart(s, p, chat, a)
    ensures a.decidedAtMs < a.startedAtMs
  {
    RestingOnGrantShowsIt(k, s, p, chat, a);
    var g := ActiveGrantForProposal(s.grants, p, CallerFor(p, chat, a.decidedAtMs)).value;
    assert !g.Unexpired(a.startedAtMs);
  }

  /** An allowed action is turned away for want of a grant exactly when its decision rests on a stored grant and
      every grant it could rest on had already expired at the date of the claim, which needs a clock that went
      back in between. */
  lemma RefusedExactlyWhen(k: Kernel, s: Core, p: ActionProposal, chat: Option<ChatSessionId>, simulate: bool, a: Attempt)
    ensures Process(k, s, p, chat, simulate, a).1 == Err(PrivacyDenied) <==>
            RestsOnGrant(k, s, p, chat, a) && !a.claimFails && AllExpiredAtStart(s, p, chat, a)
    ensures Process(k, s, p, chat, simulate, a).1 == Err(PrivacyDenied) ==> a.decidedAtMs < a.startedAtMs && Process(k, s, p, chat, simulate, a).0 == s
  {
    ProcessingPays(k, s, p, chat, simulate, a);
    if RestsOnGrant(k, s, p, chat, a) && AllExpiredAtStart(s, p, chat, a) {
      ExpiryNeedsClockStep(k, s, p, chat, a);
    }
  }

  lemma ClaimRaisesOne(rows: seq<PermissionGrant>, p: ActionProposal, claimer: Caller)
    ensures if ClaimCandidate(rows, p, claimer).Some? then OneCountRaised(rows, Claimed(rows, p, claimer)) && Claimed(rows, p, claimer) != rows
            else Claimed(rows, p, claimer) == rows
  {
    if ClaimCandidate(rows, p, claimer).Some? {
      var at := IndexOf(rows, ClaimCandidate(rows, p, claimer).value.id).value;
      assert Claimed(rows, p, claimer) == rows[at := Used(rows[at])];
      assert Claimed(rows, p, claimer)[at] != rows[at];
    }
  }

  /** Processing spends exactly one use when its decision rests on a stored grant, the claim's transaction
      commits and some such grant was unexpired at the start, whatever becomes of the execution and its receipt;
      and it changes no grant otherwise. */
  lemma PaidExactlyWhen(k: Kernel, s: Core, p: ActionProposal, chat: Option<ChatSessionId>, simulate: bool, a: Attempt)
    ensures var after := Process(k, s, p, chat, simulate, a).0;
            if RestsOnGrant(k, s, p, chat, a) && !a.claimFails && !AllExpiredAtStart(s, p, chat, a)
            then OneCountRaised(s.grants, after.grants) && after.grants != s.grants
            else after.grants == s.grants
  {
    ProcessingPays(k, s, p, chat, simulate, a);
    if RestsOnGrant(k, s, p, chat, a) {
      RestingOnGrantShowsIt(k, s, p, chat, a);
      ClaimRaisesOne(s.grants, p, CallerFor(p, chat, a.startedAtMs));
    }
  }

  /** When the clock does not go back between starting and deciding, an action that a stored grant allows is
      never turned away, and it is paid for exactly when the claim's transaction commits. */
  lemma StoredAllowanceIsAlwaysPaid(k: Kernel, s: Core, p: ActionProposal, chat: Option<ChatSessionId>, simulate: bool, a: Attempt)
    requires a.startedAtMs <= a.decidedAtMs
    ensures var (after, r) := Process(k, s, p, chat, simulate, a);
            && r != Err(PrivacyDenied)
            && if RestsOnGrant(k, s, p, chat, a) && !a.claimFails then OneCountRaised(s.grants, after.grants) else after.grants == s.grants
  {
    RefusedExactlyWhen(k, s, p, chat, simulate, a);
    PaidExactlyWhen(k, s, p, chat, simulate, a);
    if RestsOnGrant(k, s, p, chat, a) && AllExpiredAtStart(s, p, chat, a) {
      ExpiryNeedsClockStep(k, s, p, chat, a);
      assert false;
    }
  }

  // ---- How a claim can miss the deciding grant ----

  /** An action that no grant covers and that asks for confirmation, proposed for the user outside any chat. */
  predicate Asks(k: Kernel, p: ActionProposal, profile: SecurityProfile) {
    && p.context.agent.None? && k.DescriptorFor(p.action).Ok?
    && k.DescriptorFor(p.action).value.Fits(p.action)
    && k.engine.Decide(k.DescriptorFor(p.action).value, p, ContextView({}, [], profile, Caller(0, None, None))).outcome.Confirm?
  }

  lemma AskingContextIsValid(k: Kernel, p: ActionProposal, profile: SecurityProfile)
    requires Asks(k, p, profile)
    ensures p.context.Valid()
  {
  }

  function UserGrant(id: PermissionId, lifetime: PermissionLifetime, p: ActionProposal, grantedAtMs: int, expiresAtMs: Option<int>, useLimit: Option<nat>):
    PermissionGrant
  {
    PermissionGrant(id, Allow, lifetime, PermissionScope.FromProposal(p), None, None, UserExplicit, grantedAtMs, expiresAtMs, None, useLimit, 0)
  }

  /** A shown grant that covers an asking action decides it, and lends the decision its expiry. */
  lemma ShownGrantDecides(k: Kernel, p: ActionProposal, s: Core, g: PermissionGrant, a: Attempt)
    requires Asks(k, p, s.profile) && !a.lookupFails
    requires ActiveGrantForProposal(s.grants, p, CallerFor(p, None, a.decidedAtMs)) == Some(g) && g.effect.Allow? && SessionConsistent(g)
    ensures RestsOnGrant(k, s, p, None, a)
    ensures k.engine.Authorize(k.DescriptorFor(p.action).value, p, a.executionId, ContextFor(s, p, None, a.decidedAtMs)).decision
            == PolicyDecision(Allowed, PersistentExactAllow, false, None, g.expiresAtMs)
  {
    var ctx := ContextFor(s, p, None, a.decidedAtMs);
    assert ctx.grants == [g] && ctx.caller.Applies(g, p, Allow);
    assert ctx.caller.Matching(ctx.grants, p, Deny) == None && ctx.caller.Matching(ctx.grants, p, Allow) == Some(g);
    assert ctx.caller.Matching([], p, Deny) == None && ctx.caller.Matching([], p, Allow) == None;
  }

  /** Every action that asks for confirmation can be turned away although a grant allows it, whenever the clock
      steps back between the readings: a grant that is valid until the earlier one is enough. */
  lemma ClockStepRefusesAllowedAction(k: Kernel, s: Core, p: ActionProposal, simulate: bool, a: Attempt)
    requires Asks(k, p, s.profile) && !a.lookupFails && !a.claimFails && 0 <= a.decidedAtMs < a.startedAtMs
    requires s.grants == [UserGrant(1, Until, p, 0, Some(a.decidedAtMs), None)]
    ensures s.grants[0].Valid()
    ensures Process(k, s, p, None, simulate, a).1 == Err(PrivacyDenied)
  {
    var g := s.grants[0];
    AskingContextIsValid(k, p, s.profile);
    assert g in s.grants && SqlActive(g, p, CallerFor(p, None, a.decidedAtMs));
    ShownGrantDecides(k, p, s, g, a);
    RefusedExactlyWhen(k, s, p, None, simulate, a);
  }

  /** An unused one-use grant and a newer grant that holds until `expiryMs` and was used `paid` times. */
  function OnceAndUntil(p: ActionProposal, expiryMs: int, paid: nat): seq<PermissionGrant> {
    [UserGrant(1, Once, p, 0, None, Some(1)), UserGrant(2, Until, p, 1, Some(expiryMs), None).(useCount := paid)]
  }

  lemma OnceAndUntilAreValid(p: ActionProposal, expiryMs: int, paid: nat)
    requires p.context.Valid() && expiryMs >= 1
    ensures forall g | g in OnceAndUntil(p, expiryMs, paid) :: g.Valid()
    ensures DistinctIds(OnceAndUntil(p, expiryMs, paid))
  {
  }

  /** After `expiryMs` only the one-use grant is active; until then both are, and the newer one comes first. */
  lemma OnceAndUntilActive(p: ActionProposal, expiryMs: int, paid: nat, atMs: int)
    requires p.context.agent.None?
    ensures var rows, caller := OnceAndUntil(p, expiryMs, paid), CallerFor(p, None, atMs);
            var first := if atMs <= expiryMs then rows[1] else rows[0];
            ActiveGrantForProposal(rows, p, caller) == Some(first) && ClaimCandidate(rows, p, caller) == Some(first)
  {
    var rows, caller := OnceAndUntil(p, expiryMs, paid), CallerFor(p, None, atMs);
    var once, until := rows[0], rows[1];
    assert once in rows && until in rows && forall g | g in rows :: g == once || g == until;
    assert SqlActive(once, p, caller) && (SqlActive(until, p, caller) <==> atMs <= expiryMs);
    assert Before(NewestFirst(until), NewestFirst(once)) && Before(DenyThenNewest(until), DenyThenNewest(once));
  }

  lemma OnceAndUntilClaimed(p: ActionProposal, expiryMs: int, paid: nat, startedMs: int)
    requires p.context.agent.None?
    ensures var rows := OnceAndUntil(p, expiryMs, paid);
            Claimed(rows, p, CallerFor(p, None, startedMs)) ==
            if startedMs <= expiryMs then OnceAndUntil(p, expiryMs, paid + 1) else [Used(rows[0]), rows[1]]
  {
    var rows := OnceAndUntil(p, expiryMs, paid);
    OnceAndUntilActive(p, expiryMs, paid, startedMs);
    assert rows[..1] == [rows[0]];
    assert IndexOf(rows, 2) == Some(1) && IndexOf(rows, 1) == Some(0);
    assert rows[1 := Used(rows[1])] == OnceAndUntil(p, expiryMs, paid + 1);
    assert rows[0 := Used(rows[0])] == [Used(rows[0]), rows[1]];
  }

  lemma ClaimedAndExecuted(s: Core, p: ActionProposal, chat: Option<ChatSessionId>, simulate: bool, a: Attempt, e: Evaluation)
    requires e.authorization.Some? && e.decision.reason.PersistentExactAllow?
    requires ClaimCandidate(s.grants, p, CallerFor(p, chat, a.startedAtMs)).Some?
    requires !a.claimFails && !a.recordFails && a.executionId !in s.executions
    ensures var (after, r) := CarriedOut(s, p, chat, simulate, a, e);
            && r.Ok? && r.value.decision == e.decision
            && |after.calls| == |s.calls| + 1 && after.profile == s.profile
            && after.executions.Keys == s.executions.Keys + {a.executionId}
            && after.grants == Claimed(s.grants, p, CallerFor(p, chat, a.startedAtMs))
  {
  }

  lemma PaidAndExecuted(k: Kernel, s: Core, p: ActionProposal, chat: Option<ChatSessionId>, simulate: bool, a: Attempt, d: PolicyDecision)
    requires RestsOnGrant(k, s, p, chat, a) && !a.claimFails && !a.recordFails && a.executionId !in s.executions
    requires ClaimCandidate(s.grants, p, CallerFor(p, chat, a.startedAtMs)).Some?
    requires d == k.engine.Authorize(k.DescriptorFor(p.action).value, p, a.executionId, ContextFor(s, p, chat, a.decidedAtMs)).decision
    ensures var (after, r) := Process(k, s, p, chat, simulate, a);
            && r.Ok? && r.value.decision == d
            && |after.calls| == |s.calls| + 1 && after.profile == s.profile
            && after.executions.Keys == s.executions.Keys + {a.executionId}
            && after.grants == Claimed(s.grants, p, CallerFor(p, chat, a.startedAtMs))
  {
    RestingOnGrantShowsIt(k, s, p, chat, a);
    ClaimedAndExecuted(s, p, chat, simulate, a,
                       k.engine.Authorize(k.DescriptorFor(p.action).value, p, a.executionId, ContextFor(s, p, chat, a.decidedAtMs)));
  }

  /** On these two grants every asking action is decided by the first active at one reading of the clock and paid
      for by the first active at the other. */
  lemma OnceAndUntilPay(k: Kernel, s: Core, p: ActionProposal, simulate: bool, a: Attempt, expiryMs: int, paid: nat)
    requires Asks(k, p, s.profile) && !a.lookupFails && !a.claimFails && !a.recordFails && a.executionId !in s.executions
    requires s.grants == OnceAndUntil(p, expiryMs, paid)
    ensures RestsOnGrant(k, s, p, None, a)
    ensures var (after, r) := Process(k, s, p, None, simulate, a);
            && r.Ok? && r.value.decision.reason.PersistentExactAllow?
            && r.value.decision.expiresAtMs == (if a.decidedAtMs <= expiryMs then Some(expiryMs) else None)
            && |after.calls| == |s.calls| + 1 && after.profile == s.profile
            && after.executions.Keys == s.executions.Keys + {a.executionId}
            && after.grants == if a.startedAtMs <= expiryMs then OnceAndUntil(p, expiryMs, paid + 1) else [Used(s.grants[0]), s.grants[1]]
  {
    var first := if a.decidedAtMs <= expiryMs then s.grants[1] else s.grants[0];
    OnceAndUntilActive(p, expiryMs, paid, a.decidedAtMs);
    OnceAndUntilActive(p, expiryMs, paid, a.startedAtMs);
    OnceAndUntilClaimed(p, expiryMs, paid, a.startedAtMs);
    ShownGrantDecides(k, p, s, first, a);
    PaidAndExecuted(k, s, p, None, simulate, a, PolicyDecision(Allowed, PersistentExactAllow, false, None, first.expiresAtMs));
  }

  /** Every action that asks for confirmation can be charged to an expired grant: a one-use grant decides, a newer
      grant that has expired since the request started pays, and the one-use grant can be used again. */
  lemma ExpiredGrantMayPay(k: Kernel, s: Core, p: ActionProposal, simulate: bool, a: Attempt, expiryMs: int)
    requires Asks(k, p, s.profile) && !a.lookupFails && !a.claimFails && !a.recordFails && a.executionId !in s.executions
    requires s.grants == OnceAndUntil(p, expiryMs, 0) && 1 <= expiryMs && a.startedAtMs <= expiryMs < a.decidedAtMs
    ensures forall g | g in s.grants :: g.Valid()
    ensures var (after, r) := Process(k, s, p, None, simulate, a);
            && r.Ok? && r.value.decision.reason.PersistentExactAllow? && r.value.decision.expiresAtMs == s.grants[0].expiresAtMs
            && after.grants == [s.grants[0], Used(s.grants[1])]
  {
    hide Process, Asks;
    AskingContextIsValid(k, p, s.profile);
    OnceAndUntilAreValid(p, expiryMs, 0);
    OnceAndUntilPay(k, s, p, simulate, a, expiryMs, 0);
  }

  /** With a clock that steps back the other way round: the standing grant decides, and the one-use grant is used up
      for it. */
  lemma ClockStepBurnsOneUse(k: Kernel, s: Core, p: ActionProposal, simulate: bool, a: Attempt, expiryMs: int)
    requires Asks(k, p, s.profile) && !a.lookupFails && !a.claimFails && !a.recordFails && a.executionId !in s.executions
    requires s.grants == OnceAndUntil(p, expiryMs, 0) && 1 <= expiryMs && a.decidedAtMs <= expiryMs < a.startedAtMs
    ensures forall g | g in s.grants :: g.Valid()
    ensures var (after, r) := Process(k, s, p, None, simulate, a);
            && r.Ok? && r.value.decision.reason.PersistentExactAllow? && r.value.decision.expiresAtMs == s.grants[1].expiresAtMs
            && after.grants == [Used(s.grants[0]), s.grants[1]] && !after.grants[0].HasUsesLeft()
  {
    hide Process, Asks;
    AskingContextIsValid(k, p, s.profile);
    OnceAndUntilAreValid(p, expiryMs, 0);
    OnceAndUntilPay(k, s, p, simulate, a, expiryMs, 0);
  }

  /** One proposal processed over and over. */
  function Repeated(k: Kernel, s: Core, p: ActionProposal, simulate: bool, attempts: seq<Attempt>): Core {
    if attempts == [] then s
    else Process(k, Repeated(k, s, p, simulate, attempts[..|attempts| - 1]), p, None, simulate, attempts[|attempts| - 1]).0
  }

  ghost predicate Straddle(attempts: seq<Attempt>, expiryMs: int) {
    && (forall a | a in attempts :: !a.lookupFails && !a.claimFails && !a.recordFails && a.startedAtMs <= expiryMs < a.decidedAtMs)
    && (forall i, j | 0 <= i < j < |attempts| :: attempts[i].executionId != attempts[j].executionId)
  }

  /** A one-use grant can decide any number of actions: requests that straddle the newer grant's expiry are all
      allowed by it and executed, and it is still unused. */
  lemma {:induction false} OneUseGrantDecidesAnyNumber(k: Kernel, s: Core, p: ActionProposal, simulate: bool, attempts: seq<Attempt>, expiryMs: int)
    requires Asks(k, p, s.profile) && Straddle(attempts, expiryMs) && s.executions == map[]
    requires s.grants == OnceAndUntil(p, expiryMs, 0)
    ensures var after := Repeated(k, s, p, simulate, attempts);
            && |after.calls| == |s.calls| + |attempts| && after.profile == s.profile
            && after.grants == OnceAndUntil(p, expiryMs, |attempts|)
            && forall id | id in after.executions :: exists a | a in attempts :: a.executionId == id
  {
    hide Process, Asks, OnceAndUntil, Straddle, RestsOnGrant;
    if attempts != [] {
      var front, a := attempts[..|attempts| - 1], attempts[|attempts| - 1];
      StraddlingStep(attempts, expiryMs);
      OneUseGrantDecidesAnyNumber(k, s, p, simulate, front, expiryMs);
      var before, after := Repeated(k, s, p, simulate, front), Repeated(k, s, p, simulate, attempts);
      OnceAndUntilPay(k, before, p, simulate, a, expiryMs, |front|);
      forall id | id in after.executions ensures exists b | b in attempts :: b.executionId == id {
        if id in before.executions {
          var b :| b in front && b.executionId == id;
          assert b in attempts;
        } else {
          assert a in attempts;
        }
      }
    }
  }

  lemma StraddlingStep(attempts: seq<Attempt>, expiryMs: int)
    requires Straddle(attempts, expiryMs) && attempts != []
    ensures var front, a := attempts[..|attempts| - 1], attempts[|attempts| - 1];
            && Straddle(front, expiryMs)
            && !a.lookupFails && !a.claimFails && !a.recordFails && a.startedAtMs <= expiryMs < a.decidedAtMs
            && forall b | b in front :: b.executionId != a.executionId
  {
    assert attempts[|attempts| - 1] in attempts;
    assert forall b | b in attempts[..|attempts| - 1] :: b in attempts;
  }

  /** A migrated row that names a session without being a session grant: the engine on all stored grants would allow
      every asking action, and the daemon, which looks the row up, asks. */
  lemma MigratedGrantSplitsLookup(k: Kernel, p: ActionProposal, s: Core, chat: ChatSessionId, nowMs: int)
    requires Asks(k, p, s.profile)
    requires s.grants == [UserGrant(1, Always, p, 0, None, None).(session := Some(ChatSession(chat)))]
    ensures var c := k.DescriptorFor(p.action).value;
            && k.engine.Decide(c, p, ContextFor(s, p, None, nowMs)).outcome.Confirm?
            && k.engine.Decide(c, p, WholeView(s, p, None, nowMs)).outcome.Allowed?
  {
    var g, caller := s.grants[0], CallerFor(p, None, nowMs);
    var shown, whole := ContextFor(s, p, None, nowMs), WholeView(s, p, None, nowMs);
    assert !SqlActive(g, p, caller) && shown.grants == [];
    assert s.grants[..0] == [] && whole.grants == [g] && caller.Applies(g, p, Allow);
    assert caller.Matching([g], p, Deny) == None && caller.Matching([g], p, Allow) == Some(g);
    assert caller.Matching([], p, Deny) == None && caller.Matching([], p, Allow) == None;
  }
}
