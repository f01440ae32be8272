/** The books of a grant over whole runs of the service: what it decided, what it paid for, and what was diverted
    between the two (the decision and the claim in apps/daemon/src/service.rs). */
module Diversions {
  import opened Prelude
  import opened Domain
  import opened Policy
  import opened Authority
  import opened AuthorityRuns
  import opened Payments
  import GrantStore
  import Sessions

  /** A proposal on its way through `process_proposal`. */
  datatype Request = Request(p: ActionProposal, chat: Option<ChatSessionId>, simulate: bool, a: Attempt)

  function RequestOf(op: Op): Option<Request> {
    match op
    case ExecuteOp(p, chat, simulate, a) => Some(Request(p, chat, simulate, a))
    case ChatOp(p, session, a, _, _) => Some(Request(p, Some(session), false, a))
    case ConfirmOp(_, _, _, _, _) => None
    case EvaluateOp(_) => None
    case GrantOp(_) => None
    case ProfileOp(_) => None
    case RestartOp(_) => None
  }

  /** The grant that decides a request. */
  function Decider(s: Core, q: Request): Option<PermissionId> {
    var row := GrantStore.ActiveGrantForProposal(s.grants, q.p, CallerFor(q.p, q.chat, q.a.decidedAtMs));
    if row.Some? then Some(row.value.id) else None
  }

  /** The grant that pays for it. */
  function Payer(s: Core, q: Request): Option<PermissionId> {
    var row := GrantStore.ClaimCandidate(s.grants, q.p, CallerFor(q.p, q.chat, q.a.startedAtMs));
    if row.Some? then Some(row.value.id) else None
  }

  /** Whether a request rests on a stored grant and is paid for. */
  predicate Pays(k: Kernel, s: Core, q: Request) {
    RestsOnGrant(k, s, q.p, q.chat, q.a) && !q.a.claimFails && Payer(s, q).Some?
  }

  /** A request that rests on a stored grant reaches the executor exactly if it is paid for. */
  lemma PaidExactlyIfExecuted(k: Kernel, s: Core, q: Request)
    requires RestsOnGrant(k, s, q.p, q.chat, q.a)
    ensures Process(k, s, q.p, q.chat, q.simulate, q.a).0.calls != s.calls <==> Pays(k, s, q)
    ensures Decider(s, q).Some?
  {
    var c, ctx := k.DescriptorFor(q.p.action).value, ContextFor(s, q.p, q.chat, q.a.decidedAtMs);
    RestingOnGrantShowsIt(k, s, q.p, q.chat, q.a);
    ClaimingCalls(s, q, k.engine.Authorize(c, q.p, q.a.executionId, ctx));
  }

  lemma ClaimingCalls(s: Core, q: Request, e: Evaluation)
    requires e.authorization.Some? && e.decision.reason.PersistentExactAllow?
    ensures CarriedOut(s, q.p, q.chat, q.simulate, q.a, e).0.calls != s.calls <==> !q.a.claimFails && Payer(s, q).Some?
  {
    assert forall c: ExecutorCall :: s.calls + [c] != s.calls;
  }

  /** When another grant pays than the one that decided. */
  lemma DivertedExactlyWhen(k: Kernel, s: Core, q: Request)
    requires GrantStore.DistinctIds(s.grants) && RestsOnGrant(k, s, q.p, q.chat, q.a)
    ensures var decided := CallerFor(q.p, q.chat, q.a.decidedAtMs);
            var g := GrantStore.ActiveGrantForProposal(s.grants, q.p, decided).value;
            Payer(s, q) == Decider(s, q) <==>
            g.Unexpired(q.a.startedAtMs) && !GrantStore.ExpiredBetween(s.grants, q.p, decided, q.a.startedAtMs, g)
    ensures q.a.startedAtMs == q.a.decidedAtMs ==> Payer(s, q) == Decider(s, q)
  {
    hide RestsOnGrant;
    var decided := CallerFor(q.p, q.chat, q.a.decidedAtMs);
    RestingOnGrantShowsIt(k, s, q.p, q.chat, q.a);
    var g := GrantStore.ActiveGrantForProposal(s.grants, q.p, decided).value;
    GrantStore.ClaimTakesDecidingGrantExactlyWhen(s.grants, q.p, decided, q.a.startedAtMs);
    var c := GrantStore.ClaimCandidate(s.grants, q.p, CallerFor(q.p, q.chat, q.a.startedAtMs));
    if c.Some? && c.value.id == g.id {
      SameIdSameGrant(s.grants, c.value, g);
    }
  }

  lemma SameIdSameGrant(rows: seq<PermissionGrant>, x: PermissionGrant, y: PermissionGrant)
    requires GrantStore.DistinctIds(rows) && x in rows && y in rows && x.id == y.id
    ensures x == y
  {
  }

  /** One grant's books since it was last stored. `decided` counts the executed actions it decided, `diverted` those
      of them that another grant paid for, `received` the executed actions it paid for although another grant
      decided them, and `claimedElsewhere` the claims that no decision of this run led to. */
  datatype Books = Books(stored: nat, limit: Option<nat>, decided: nat, diverted: nat, received: nat, claimedElsewhere: nat)

  /** The grant that a confirmation stores. */
  function KeptBy(k: Kernel, s: Core, op: Op): Option<PermissionGrant> {
    if op.ConfirmOp? && op.id in s.pending && Next(k, s, op).calls != s.calls then
      var kept := GrantToKeep(s.pending[op.id], op.persistence, op.until, op.a);
      if kept.Ok? then kept.value else None
    else None
  }

  /** The grant that an operation stores, if it does. */
  function StoredBy(k: Kernel, s: Core, op: Op): Option<PermissionGrant> {
    if op.GrantOp? && op.op.UpsertOp? then
      if GrantStore.Storable(op.op.grant, op.op.scopeBytes) then Some(op.op.grant) else None
    else KeptBy(k, s, op)
  }

  function Entered(b: Books, own: bool, paid: bool): Books {
    Books(b.stored, b.limit, b.decided + (if own then 1 else 0), b.diverted + (if own && !paid then 1 else 0),
          b.received + (if paid && !own then 1 else 0), b.claimedElsewhere)
  }

  function BooksAfter(k: Kernel, s: Core, op: Op, id: PermissionId, b: Books): Books {
    var stored, q := StoredBy(k, s, op), RequestOf(op);
    if stored.Some? && stored.value.id == id then Books(stored.value.useCount, stored.value.useLimit, 0, 0, 0, 0)
    else if q.Some? && Pays(k, s, q.value) then Entered(b, Decider(s, q.value) == Some(id), Payer(s, q.value) == Some(id))
    else if op.GrantOp? && op.op.ClaimOp? then
      var claimed := GrantStore.ClaimCandidate(s.grants, op.op.proposal, op.op.caller);
      if claimed.Some? && claimed.value.id == id then b.(claimedElsewhere := b.claimedElsewhere + 1) else b
    else b
  }

  function BooksOf(k: Kernel, ops: seq<Op>, id: PermissionId): Books {
    if ops == [] then Books(0, None, 0, 0, 0, 0)
    else BooksAfter(k, Run(k, ops[..|ops| - 1]), ops[|ops| - 1], id, BooksOf(k, ops[..|ops| - 1], id))
  }

  /** The books balance: the stored count is what was stored, and every executed action the grant decided, less those
      diverted, plus those received and those claimed elsewhere; and it keeps within its limit. */
  ghost predicate Balances(b: Books, g: PermissionGrant) {
    && g.useLimit == b.limit
    && g.useCount == b.stored + b.decided - b.diverted + b.received + b.claimedElsewhere
    && (b.limit.Some? && b.stored <= b.limit.value ==> g.useCount <= b.limit.value)
  }

  ghost predicate AllBalance(rows: seq<PermissionGrant>, id: PermissionId, b: Books) {
    forall g | g in rows && g.id == id :: Balances(b, g)
  }

  lemma StoringBalances(rows: seq<PermissionGrant>, g: PermissionGrant, id: PermissionId, b: Books)
    requires GrantStore.DistinctIds(rows) && AllBalance(rows, id, b)
    ensures AllBalance(GrantStore.Upserted(rows, g), id, if g.id == id then Books(g.useCount, g.useLimit, 0, 0, 0, 0) else b)
  {
    hide GrantStore.RowNamed, GrantStore.Upserted, GrantStore.DistinctIds;
    GrantStore.UpsertNames(rows, g, id);
    GrantStore.RowNamedIsTheRow(rows, id);
    GrantStore.RowNamedIsTheRow(GrantStore.Upserted(rows, g), id);
  }

  lemma RevokingBalances(rows: seq<PermissionGrant>, target: PermissionId, nowMs: int, id: PermissionId, b: Books)
    requires GrantStore.DistinctIds(rows) && AllBalance(rows, id, b)
    ensures AllBalance(GrantStore.Revoked(rows, target, nowMs), id, b)
  {
    hide GrantStore.RowNamed, GrantStore.Revoked, GrantStore.DistinctIds;
    GrantStore.RevokeNames(rows, target, nowMs, id);
    GrantStore.RowNamedIsTheRow(rows, id);
    GrantStore.RowNamedIsTheRow(GrantStore.Revoked(rows, target, nowMs), id);
  }

  lemma RestartBalances(rows: seq<PermissionGrant>, nowMs: int, id: PermissionId, b: Books)
    requires AllBalance(rows, id, b)
    ensures AllBalance(Sessions.RevokeBound(rows, Sessions.AgentOrDaemon(), nowMs), id, b)
  {
    var after := Sessions.RevokeBound(rows, Sessions.AgentOrDaemon(), nowMs);
    forall g | g in after && g.id == id ensures Balances(b, g) {
      var i :| 0 <= i < |rows| && after[i] == g;
      assert rows[i] in rows;
    }
  }

  /** A claim enters one use with the grant that it takes, under whichever heading. */
  lemma ClaimingBalances(rows: seq<PermissionGrant>, p: ActionProposal, claimer: Caller, id: PermissionId, b: Books, entered: Books)
    requires GrantStore.DistinctIds(rows) && AllBalance(rows, id, b)
    requires entered.stored == b.stored && entered.limit == b.limit
    requires var c := GrantStore.ClaimCandidate(rows, p, claimer);
             entered.decided - entered.diverted + entered.received + entered.claimedElsewhere ==
             b.decided - b.diverted + b.received + b.claimedElsewhere + (if c.Some? && c.value.id == id then 1 else 0)
    ensures AllBalance(GrantStore.Claimed(rows, p, claimer), id, entered)
  {
    hide GrantStore.Claimed, GrantStore.ClaimCandidate, GrantStore.DistinctIds;
    forall x | x in GrantStore.Claimed(rows, p, claimer) && x.id == id ensures Balances(entered, x) {
      var y := GrantStore.BeforeClaim(rows, p, claimer, x);
      assert Balances(b, y);
    }
  }

  lemma ConfirmingStores(k: Kernel, s: Core, op: Op)
    requires op.ConfirmOp?
    ensures Next(k, s, op).grants == if KeptBy(k, s, op).Some? then GrantStore.Upserted(s.grants, KeptBy(k, s, op).value) else s.grants
  {
    if op.id in s.pending {
      var pend, taken := s.pending[op.id], s.(pending := s.pending - {op.id});
      var found := k.DescriptorFor(pend.proposal.action);
      if found.Ok? {
        var ctx := ContextFor(s, pend.proposal, pend.chat, op.a.decidedAtMs);
        ConfirmedStores(taken, op.id, pend, op.persistence, op.until, op.a,
                        k.engine.AuthorizeConfirmedOnce(found.value, pend.proposal, op.a.executionId, ctx));
      }
    }
  }

  lemma ConfirmedStores(s: Core, id: ConfirmationId, pend: Pending, persistence: Persistence, until: Option<int>, a: Attempt, e: Evaluation)
    ensures var after := ConfirmedCarriedOut(s, id, pend, persistence, until, a, e).0;
            var kept := GrantToKeep(pend, persistence, until, a);
            after.grants == if after.calls != s.calls && kept.Ok? && kept.value.Some? then GrantStore.Upserted(s.grants, kept.value.value) else s.grants
  {
    ConfirmedCallsExactlyWhen(s, id, pend, persistence, until, a, e);
  }

  lemma ProcessingBalances(k: Kernel, s: Core, q: Request, id: PermissionId, b: Books)
    requires GrantStore.DistinctIds(s.grants) && AllBalance(s.grants, id, b)
    ensures AllBalance(Process(k, s, q.p, q.chat, q.simulate, q.a).0.grants, id,
                       if Pays(k, s, q) then Entered(b, Decider(s, q) == Some(id), Payer(s, q) == Some(id)) else b)
  {
    hide Process;
    ProcessingPays(k, s, q.p, q.chat, q.simulate, q.a);
    var claimer := CallerFor(q.p, q.chat, q.a.startedAtMs);
    if Pays(k, s, q) {
      ClaimingBalances(s.grants, q.p, claimer, id, b, Entered(b, Decider(s, q) == Some(id), Payer(s, q) == Some(id)));
    } else if RestsOnGrant(k, s, q.p, q.chat, q.a) && !q.a.claimFails {
      ClaimRaisesOne(s.grants, q.p, claimer);
    }
  }

  lemma StepBalances(k: Kernel, s: Core, op: Op, id: PermissionId, b: Books)
    requires GrantStore.DistinctIds(s.grants) && AllBalance(s.grants, id, b)
    ensures AllBalance(Next(k, s, op).grants, id, BooksAfter(k, s, op, id, b))
  {
    hide Process, ConfirmAction;
    match op {
      case ExecuteOp(p, chat, simulate, a) => ProcessingBalances(k, s, Request(p, chat, simulate, a), id, b);
      case ChatOp(p, session, a, offered, expiry) => ProcessingBalances(k, s, Request(p, Some(session), false, a), id, b);
      case ConfirmOp(_, _, _, _, _) =>
        ConfirmingStores(k, s, op);
        if KeptBy(k, s, op).Some? {
          StoringBalances(s.grants, KeptBy(k, s, op).value, id, b);
        }
      case EvaluateOp(_) =>
      case GrantOp(tableOp) =>
        match tableOp {
          case UpsertOp(g, bytes) => StoringBalances(s.grants, g, id, b);
          case RevokeOp(target, nowMs) => RevokingBalances(s.grants, target, nowMs, id, b);
          case ClaimOp(p, caller) => ClaimingBalances(s.grants, p, caller, id, b, BooksAfter(k, s, op, id, b));
        }
      case ProfileOp(_) =>
      case RestartOp(nowMs) => RestartBalances(s.grants, nowMs, id, b);
    }
  }

  /** In every reachable state each stored grant's books balance. */
  lemma {:induction false} EveryGrantBalances(k: Kernel, ops: seq<Op>, id: PermissionId)
    requires Admissible(k, ops)
    ensures AllBalance(Run(k, ops).grants, id, BooksOf(k, ops, id))
  {
    hide Next;
    if ops != [] {
      var front := ops[..|ops| - 1];
      AdmissibleFront(k, ops);
      EveryGrantBalances(k, front, id);
      RunKeepsInv(k, front);
      StepBalances(k, Run(k, front), ops[|ops| - 1], id, BooksOf(k, front, id));
    }
  }

  lemma {:induction false} NoMoreDivertedThanDecided(k: Kernel, ops: seq<Op>, id: PermissionId)
    ensures BooksOf(k, ops, id).diverted <= BooksOf(k, ops, id).decided
  {
    hide Next;
    if ops != [] {
      NoMoreDivertedThanDecided(k, ops[..|ops| - 1], id);
    }
  }

  /** How often a limited grant decides: since it was stored, the executed actions it decided are at most its limit
      plus those another grant paid for. So a one-use grant decides more than one action only by diversion. */
  lemma DecisionsStayWithinLimitButForDiversions(k: Kernel, ops: seq<Op>, g: PermissionGrant)
    requires Admissible(k, ops) && g in Run(k, ops).grants && g.useLimit.Some?
    requires BooksOf(k, ops, g.id).stored <= g.useLimit.value
    ensures var b := BooksOf(k, ops, g.id);
            && b.stored + b.decided + b.received + b.claimedElsewhere <= g.useLimit.value + b.diverted
            && (g.useLimit == Some(1) && b.diverted == 0 ==> b.decided <= 1)
  {
    hide Run;
    EveryGrantBalances(k, ops, g.id);
  }
}
