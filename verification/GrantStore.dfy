/** The permission grant table (crates/storage/src/security.rs). Rows are kept in row order and their
    identifiers are the primary key. */
module GrantStore {
  import opened Prelude
  import opened SqlOrder
  import opened Domain
  import opened Policy

  const MAX_SCOPE_BYTES: nat := 32_768

  datatype StorageError = InvalidInteraction | ConstraintViolation | Unavailable

  ghost predicate DistinctIds(rows: seq<PermissionGrant>) {
    forall i, j | 0 <= i < j < |rows| :: rows[i].id != rows[j].id
  }

  /** The `WHERE` clause of both grant queries. */
  predicate SqlActive(g: PermissionGrant, p: ActionProposal, caller: Caller) {
    && g.scope == PermissionScope.FromProposal(p)
    && g.revokedAtMs.None?
    && g.Unexpired(caller.nowMs)
    && g.HasUsesLeft()
    && ((!g.lifetime.Session? && g.session.None?) || (g.lifetime.Session? && g.session == caller.session))
    && g.agentId == caller.agentId
  }

  function NewestFirst(g: PermissionGrant): Rank {
    Rank(0, -g.grantedAtMs, g.id)
  }

  function DenyThenNewest(g: PermissionGrant): Rank {
    Rank(if g.effect.Deny? then 0 else 1, -g.grantedAtMs, g.id)
  }

  /** The grants in a context built from a single-row query. */
  function Shown(row: Option<PermissionGrant>): seq<PermissionGrant> {
    if row.Some? then [row.value] else []
  }

  function ActiveRows(p: ActionProposal, caller: Caller): PermissionGrant -> bool {
    g => SqlActive(g, p, caller)
  }

  function ActiveRowsOf(effect: PermissionEffect, p: ActionProposal, caller: Caller): PermissionGrant -> bool {
    (g: PermissionGrant) => g.effect == effect && SqlActive(g, p, caller)
  }

  /** The one grant the daemon shows to the policy engine. */
  function ActiveGrantForProposal(rows: seq<PermissionGrant>, p: ActionProposal, caller: Caller): Option<PermissionGrant> {
    First(rows, ActiveRows(p, caller), DenyThenNewest)
  }

  /** The grant that a claim consumes. */
  function ClaimCandidate(rows: seq<PermissionGrant>, p: ActionProposal, caller: Caller): Option<PermissionGrant> {
    First(rows, ActiveRowsOf(Allow, p, caller), NewestFirst)
  }

  /** Only session grants name a session. Every valid grant is like this. */
  predicate SessionConsistent(g: PermissionGrant) {
    g.session.Some? ==> g.lifetime.Session?
  }

  /** Whether some proposal that the daemon can receive falls under the grant's scope. */
  ghost predicate Reachable(g: PermissionGrant) {
    exists p: ActionProposal :: p.context.Valid() && g.scope.Matches(p)
  }

  /** The query and the engine test a stored row alike for every valid proposal and every caller, exactly when the
      row is spent or revoked, or names a session only if it is a session grant, or no valid proposal falls
      under it at all. */
  lemma RowTestsAgreeExactlyWhen(g: PermissionGrant)
    ensures (forall p: ActionProposal, caller: Caller | p.context.Valid() :: SqlActive(g, p, caller) == caller.Applies(g, p, g.effect)) <==>
            g.revokedAtMs.Some? || !g.HasUsesLeft() || SessionConsistent(g) || !Reachable(g)
  {
    if g.revokedAtMs.None? && g.HasUsesLeft() && !SessionConsistent(g) && Reachable(g) {
      var p: ActionProposal :| p.context.Valid() && g.scope.Matches(p);
      var caller := Caller(if g.expiresAtMs.Some? then g.expiresAtMs.value else 0, None, g.agentId);
      assert !SqlActive(g, p, caller) && caller.Applies(g, p, g.effect);
    }
  }

  lemma OnlyRowWithRank(rows: seq<PermissionGrant>)
    requires DistinctIds(rows)
    ensures NoTies(rows, NewestFirst) && NoTies(rows, DenyThenNewest)
  {
  }

  lemma MatchingInSortedTable(rows: seq<PermissionGrant>, p: ActionProposal, caller: Caller, effect: PermissionEffect)
    requires forall g | g in rows :: SessionConsistent(g)
    ensures caller.Matching(Sort(rows, NewestFirst), p, effect) == First(rows, ActiveRowsOf(effect, p, caller), NewestFirst)
  {
    SortSorts(rows, NewestFirst);
    MatchingIsFind(caller, p, Sort(rows, NewestFirst), effect, ActiveRowsOf(effect, p, caller));
    FindInSortedIsFirst(rows, ActiveRowsOf(effect, p, caller), NewestFirst);
  }

  /** Granted later than the other or, when they were granted at once, with the smaller identifier. */
  predicate NewerGrant(g: PermissionGrant, other: PermissionGrant) {
    g.grantedAtMs > other.grantedAtMs || (g.grantedAtMs == other.grantedAtMs && g.id < other.id)
  }

  /** A row is selected exactly when one is active. It is active itself, and every other active row is an allow row
      beside a deny row, or an older row of its effect. */
  lemma SelectedRowIsDecisive(rows: seq<PermissionGrant>, p: ActionProposal, caller: Caller)
    requires DistinctIds(rows)
    ensures var row := ActiveGrantForProposal(rows, p, caller);
            && (row.None? <==> forall g | g in rows :: !SqlActive(g, p, caller))
            && (row.Some? ==>
                  && row.value in rows && SqlActive(row.value, p, caller)
                  && forall g | g in rows && SqlActive(g, p, caller) && g != row.value ::
                       if g.effect == row.value.effect then NewerGrant(row.value, g) else row.value.effect.Deny?)
  {
    OnlyRowWithRank(rows);
    assert forall g | g in rows :: ActiveRows(p, caller)(g) == SqlActive(g, p, caller);
  }

  /** A claim finds a row exactly when an allow row is active, and takes the newest of them. */
  lemma ClaimTakesNewest(rows: seq<PermissionGrant>, p: ActionProposal, caller: Caller)
    requires DistinctIds(rows)
    ensures var row := ClaimCandidate(rows, p, caller);
            && (row.None? <==> forall g | g in rows && g.effect.Allow? :: !SqlActive(g, p, caller))
            && (row.Some? ==>
                  && row.value in rows && row.value.effect.Allow? && SqlActive(row.value, p, caller)
                  && forall g | g in rows && g.effect.Allow? && SqlActive(g, p, caller) && g != row.value :: NewerGrant(row.value, g))
  {
    OnlyRowWithRank(rows);
    assert forall g | g in rows :: ActiveRowsOf(Allow, p, caller)(g) == (g.effect.Allow? && SqlActive(g, p, caller));
  }

  /** The row selected is the newest active row of its effect, and an allow row only when no deny row is active. */
  lemma SelectionIsByEffect(rows: seq<PermissionGrant>, p: ActionProposal, caller: Caller)
    requires DistinctIds(rows)
    ensures var row := ActiveGrantForProposal(rows, p, caller);
            var denied := First(rows, ActiveRowsOf(Deny, p, caller), NewestFirst);
            row == if denied.Some? then denied else First(rows, ActiveRowsOf(Allow, p, caller), NewestFirst)
  {
    OnlyRowWithRank(rows);
    var row := ActiveGrantForProposal(rows, p, caller);
    if row.Some? {
      var best := First(rows, ActiveRowsOf(row.value.effect, p, caller), NewestFirst);
      assert best.Some? && NewestFirst(best.value) == NewestFirst(row.value);
    }
  }

  /** Deciding with the one selected row is deciding with every stored grant, newest first: same outcome,
      same reason, same expiry. */
  lemma FastLookupAgrees(engine: Engine, c: CapabilityDescriptor, p: ActionProposal, ctx: ContextView, rows: seq<PermissionGrant>)
    requires DistinctIds(rows)
    requires forall g | g in rows :: SessionConsistent(g)
    ensures engine.Decide(c, p, ctx.(grants := Shown(ActiveGrantForProposal(rows, p, ctx.caller)))) ==
            engine.Decide(c, p, ctx.(grants := Sort(rows, NewestFirst)))
  {
    var caller := ctx.caller;
    var shown := Shown(ActiveGrantForProposal(rows, p, caller));
    MatchingInSortedTable(rows, p, caller, Deny);
    MatchingInSortedTable(rows, p, caller, Allow);
    SelectionIsByEffect(rows, p, caller);
    assert caller.Matching(shown, p, Deny) == caller.Matching(Sort(rows, NewestFirst), p, Deny);
    assert caller.Matching(shown, p, Deny).None? ==>
             caller.Matching(shown, p, Allow) == caller.Matching(Sort(rows, NewestFirst), p, Allow);
  }

  function IndexOf(rows: seq<PermissionGrant>, id: PermissionId): (r: Option<nat>)
    ensures r.None? <==> forall g | g in rows :: g.id != id
    ensures r.Some? ==> r.value < |rows| && rows[r.value].id == id
  {
    if rows == [] then None
    else if rows[|rows| - 1].id == id then Some(|rows| - 1)
    else IndexOf(rows[..|rows| - 1], id)
  }

  predicate Storable(g: PermissionGrant, scopeBytes: nat) {
    g.Valid() && scopeBytes <= MAX_SCOPE_BYTES && g.useLimit != Some(0)
  }

  /** An upsert replaces every column except the grant's identity and its original grant time. */
  function Upserted(rows: seq<PermissionGrant>, g: PermissionGrant): seq<PermissionGrant> {
    var at := IndexOf(rows, g.id);
    if at.None? then rows + [g]
    else rows[at.value := g.(grantedAtMs := rows[at.value].grantedAtMs)]
  }

  function Revoked(rows: seq<PermissionGrant>, id: PermissionId, nowMs: int): seq<PermissionGrant> {
    var at := IndexOf(rows, id);
    if at.None? || rows[at.value].revokedAtMs.Some? then rows
    else rows[at.value := rows[at.value].(revokedAtMs := Some(nowMs))]
  }

  function Claimed(rows: seq<PermissionGrant>, p: ActionProposal, caller: Caller): seq<PermissionGrant> {
    var candidate := ClaimCandidate(rows, p, caller);
    if candidate.None? then rows
    else
      var at := IndexOf(rows, candidate.value.id);
      if at.None? then rows
      else rows[at.value := rows[at.value].(useCount := rows[at.value].useCount + 1)]
  }

  class GrantTable {
    var rows: seq<PermissionGrant>

    ghost predicate Valid()
      reads this
    {
      && DistinctIds(rows)
      && forall g | g in rows :: SessionConsistent(g)
    }

    constructor ()
      ensures Valid() && rows == []
    {
      rows := [];
    }

    method ActiveFor(p: ActionProposal, caller: Caller) returns (r: Option<PermissionGrant>)
      requires Valid()
      ensures r == ActiveGrantForProposal(rows, p, caller)
    {
      r := ActiveGrantForProposal(rows, p, caller);
    }

    /** `fails`: the database refuses the write. */
    method Upsert(g: PermissionGrant, scopeBytes: nat, fails: bool) returns (r: Result<(), StorageError>)
      requires Valid()
      modifies this
      ensures Valid()
      ensures r.Ok? <==> Storable(g, scopeBytes) && !fails
      ensures rows == if r.Ok? then Upserted(old(rows), g) else old(rows)
    {
      if !g.Valid() || scopeBytes > MAX_SCOPE_BYTES {
        return Err(InvalidInteraction);
      }
      if g.useLimit == Some(0) {
        return Err(ConstraintViolation);
      }
      if fails {
        return Err(Unavailable);
      }
      UpsertKeepsTable(rows, g);
      rows := Upserted(rows, g);
      return Ok(());
    }

    method Revoke(id: PermissionId, nowMs: int) returns (revoked: bool)
      requires Valid()
      modifies this
      ensures Valid()
      ensures rows == Revoked(old(rows), id, nowMs)
      ensures |rows| == |old(rows)|
      ensures forall i | 0 <= i < |rows| ::
                var was := old(rows)[i];
                if was.id == id && was.revokedAtMs.None? then rows[i] == was.(revokedAtMs := Some(nowMs)) else rows[i] == was
      ensures revoked <==> exists g | g in old(rows) :: g.id == id && g.revokedAtMs.None?
    {
      var at := IndexOf(rows, id);
      revoked := at.Some? && rows[at.value].revokedAtMs.None?;
      if at.Some? {
        IdNamesOneRow(rows, at.value);
      }
      RevokeChanges(rows, id, nowMs);
      rows := if revoked then rows[at.value := rows[at.value].(revokedAtMs := Some(nowMs))] else rows;
    }

    /** The guarded update of one row, with the number of rows it changed. */
    static method ConsumeUse(table: seq<PermissionGrant>, id: PermissionId, nowMs: int) returns (updated: seq<PermissionGrant>, consumed: nat)
      requires DistinctIds(table)
      ensures |updated| == |table|
      ensures forall k | 0 <= k < |table| :: updated[k] == if Consumable(table[k], id, nowMs) then Used(table[k]) else table[k]
      ensures consumed == if exists g :: g in table && Consumable(g, id, nowMs) then 1 else 0
    {
      updated, consumed := [], 0;
      for i := 0 to |table|
        invariant |updated| == i
        invariant forall k | 0 <= k < i :: updated[k] == if Consumable(table[k], id, nowMs) then Used(table[k]) else table[k]
        invariant consumed == if exists k :: 0 <= k < i && Consumable(table[k], id, nowMs) then 1 else 0
      {
        if Consumable(table[i], id, nowMs) {
          assert forall k | 0 <= k < i :: !Consumable(table[k], id, nowMs);
          updated, consumed := updated + [Used(table[i])], consumed + 1;
        } else {
          updated := updated + [table[i]];
        }
      }
    }

    /** Selects and consumes inside one immediate transaction; the guarded update always finds its row.
        `fails`: the transaction cannot begin or commit. */
    method Claim(p: ActionProposal, caller: Caller, fails: bool) returns (r: Result<Option<PermissionId>, StorageError>)
      requires Valid()
      modifies this
      ensures Valid()
      ensures r.Ok? <==> !fails
      ensures r.Ok? ==> r.value == var c := ClaimCandidate(old(rows), p, caller); if c.None? then None else Some(c.value.id)
      ensures rows == if fails then old(rows) else Claimed(old(rows), p, caller)
    {
      if fails {
        return Err(Unavailable);
      }
      var candidate := ClaimCandidate(rows, p, caller);
      if candidate.None? {
        return Ok(None);
      }
      var updated, consumed := ConsumeUse(rows, candidate.value.id, caller.nowMs);
      assert Consumable(candidate.value, candidate.value.id, caller.nowMs);
      if consumed != 1 {
        return Err(InvalidInteraction);
      }
      ConsumingIsClaiming(rows, p, caller, updated);
      ClaimKeepsTable(rows, p, caller);
      rows := updated;
      return Ok(Some(candidate.value.id));
    }
  }

  predicate Consumable(g: PermissionGrant, id: PermissionId, nowMs: int) {
    g.id == id && g.revokedAtMs.None? && g.Unexpired(nowMs) && g.HasUsesLeft()
  }

  function Used(g: PermissionGrant): PermissionGrant {
    g.(useCount := g.useCount + 1)
  }

  lemma ConsumingIsClaiming(rows: seq<PermissionGrant>, p: ActionProposal, caller: Caller, updated: seq<PermissionGrant>)
    requires DistinctIds(rows) && ClaimCandidate(rows, p, caller).Some? && |updated| == |rows|
    requires var id := ClaimCandidate(rows, p, caller).value.id;
             forall k | 0 <= k < |rows| :: updated[k] == if Consumable(rows[k], id, caller.nowMs) then Used(rows[k]) else rows[k]
    ensures updated == Claimed(rows, p, caller)
  {
    var candidate := ClaimCandidate(rows, p, caller).value;
    var at := IndexOf(rows, candidate.id).value;
    IdNamesOneRow(rows, at);
    forall k | 0 <= k < |rows| && k != at ensures updated[k] == rows[k] {
      assert rows[k].id != rows[at].id;
    }
  }

  lemma RevokeChanges(rows: seq<PermissionGrant>, id: PermissionId, nowMs: int)
    requires DistinctIds(rows)
    ensures var after := Revoked(rows, id, nowMs);
            && |after| == |rows| && DistinctIds(after)
            && forall i | 0 <= i < |rows| ::
                 after[i] == if rows[i].id == id && rows[i].revokedAtMs.None? then rows[i].(revokedAtMs := Some(nowMs)) else rows[i]
  {
  }

  lemma IdNamesOneRow(rows: seq<PermissionGrant>, at: nat)
    requires DistinctIds(rows) && at < |rows|
    ensures forall g | g in rows && g.id == rows[at].id :: g == rows[at]
  {
  }

  lemma UpsertKeepsTable(rows: seq<PermissionGrant>, g: PermissionGrant)
    requires DistinctIds(rows)
    requires forall x | x in rows :: SessionConsistent(x)
    requires SessionConsistent(g)
    ensures DistinctIds(Upserted(rows, g))
    ensures forall x | x in Upserted(rows, g) :: SessionConsistent(x)
  {
  }

  /** A claim raises the count of exactly the selected row by one and touches nothing else. */
  lemma ClaimRaisesOneCount(rows: seq<PermissionGrant>, p: ActionProposal, caller: Caller)
    requires DistinctIds(rows)
    ensures var after, candidate := Claimed(rows, p, caller), ClaimCandidate(rows, p, caller);
            && DistinctIds(after) && |after| == |rows|
            && (candidate.None? ==> after == rows)
            && (candidate.Some? ==> forall i | 0 <= i < |rows| ::
                  after[i] == if rows[i] == candidate.value then rows[i].(useCount := rows[i].useCount + 1) else rows[i])
  {
    var candidate := ClaimCandidate(rows, p, caller);
    if candidate.Some? {
      var at := IndexOf(rows, candidate.value.id);
      IdNamesOneRow(rows, at.value);
    }
  }

  /** The row that a row was before the claim. */
  lemma BeforeClaim(rows: seq<PermissionGrant>, p: ActionProposal, caller: Caller, x: PermissionGrant) returns (y: PermissionGrant)
    requires DistinctIds(rows) && x in Claimed(rows, p, caller)
    ensures y in rows && y.id == x.id && y.useLimit == x.useLimit
    ensures var c := ClaimCandidate(rows, p, caller);
            if c.Some? && c.value.id == x.id then y.HasUsesLeft() && x.useCount == y.useCount + 1 else x.useCount == y.useCount
  {
    ClaimRaisesOneCount(rows, p, caller);
    var i :| 0 <= i < |rows| && Claimed(rows, p, caller)[i] == x;
    y := rows[i];
    IdNamesOneRow(rows, i);
  }

  lemma ClaimKeepsTable(rows: seq<PermissionGrant>, p: ActionProposal, caller: Caller)
    requires DistinctIds(rows) && forall g | g in rows :: SessionConsistent(g)
    ensures DistinctIds(Claimed(rows, p, caller)) && forall g | g in Claimed(rows, p, caller) :: SessionConsistent(g)
  {
    ClaimRaisesOneCount(rows, p, caller);
    var after := Claimed(rows, p, caller);
    forall i | 0 <= i < |rows| ensures SessionConsistent(after[i]) {
      assert rows[i] in rows;
    }
  }

  /** A decision that rests on an allow grant can always claim a use, when the claim is dated no later than
      the decision. */
  lemma AllowDecisionFindsAGrantToClaim(rows: seq<PermissionGrant>, p: ActionProposal, decided: Caller, startedMs: int)
    requires startedMs <= decided.nowMs
    requires var row := ActiveGrantForProposal(rows, p, decided); row.Some? && row.value.effect.Allow?
    ensures ClaimCandidate(rows, p, decided.(nowMs := startedMs)).Some?
  {
    var g := ActiveGrantForProposal(rows, p, decided).value;
    assert SqlActive(g, p, decided.(nowMs := startedMs));
  }

  /** A newer allow grant that the claim can still use and the decision no longer saw. */
  ghost predicate ExpiredBetween(rows: seq<PermissionGrant>, p: ActionProposal, decided: Caller, startedMs: int, g: PermissionGrant) {
    exists x | x in rows :: && x.effect.Allow? && SqlActive(x, p, decided.(nowMs := startedMs)) && !x.Unexpired(decided.nowMs)
                            && Before(NewestFirst(x), NewestFirst(g))
  }

  lemma DecidingGrantClaimsFirst(rows: seq<PermissionGrant>, p: ActionProposal, decided: Caller, startedMs: int, g: PermissionGrant)
    requires DistinctIds(rows)
    requires ActiveGrantForProposal(rows, p, decided) == Some(g) && g.effect.Allow? && g.Unexpired(startedMs)
    ensures ClaimCandidate(rows, p, decided.(nowMs := startedMs)) == Some(g) <==> !ExpiredBetween(rows, p, decided, startedMs, g)
  {
    OnlyRowWithRank(rows);
    assert SqlActive(g, p, decided.(nowMs := startedMs));
    var c := ClaimCandidate(rows, p, decided.(nowMs := startedMs)).value;
    if c != g {
      assert Before(NewestFirst(c), NewestFirst(g));
      if c.Unexpired(decided.nowMs) {
        assert SqlActive(c, p, decided);
        assert Before(DenyThenNewest(c), DenyThenNewest(g));
      }
    }
  }

  /** Whichever way the clock went between the two readings, the claim consumes the very grant the decision rested
      on exactly when that grant was unexpired at the claim's date too and no newer allow grant expired after
      that date and before the decision. */
  lemma ClaimTakesDecidingGrantExactlyWhen(rows: seq<PermissionGrant>, p: ActionProposal, decided: Caller, startedMs: int)
    requires DistinctIds(rows)
    requires var row := ActiveGrantForProposal(rows, p, decided); row.Some? && row.value.effect.Allow?
    ensures var g := ActiveGrantForProposal(rows, p, decided).value;
            ClaimCandidate(rows, p, decided.(nowMs := startedMs)) == Some(g) <==>
            g.Unexpired(startedMs) && !ExpiredBetween(rows, p, decided, startedMs, g)
  {
    var g := ActiveGrantForProposal(rows, p, decided).value;
    if g.Unexpired(startedMs) {
      DecidingGrantClaimsFirst(rows, p, decided, startedMs, g);
    }
  }

  datatype TableOp =
    | UpsertOp(grant: PermissionGrant, scopeBytes: nat)
    | RevokeOp(id: PermissionId, nowMs: int)
    | ClaimOp(proposal: ActionProposal, caller: Caller)

  function Step(rows: seq<PermissionGrant>, op: TableOp): seq<PermissionGrant> {
    match op
    case UpsertOp(g, bytes) => if Storable(g, bytes) then Upserted(rows, g) else rows
    case RevokeOp(id, nowMs) => Revoked(rows, id, nowMs)
    case ClaimOp(p, caller) => Claimed(rows, p, caller)
  }

  /** The table after any interleaving of committed operations, by any number of connections. */
  function Run(ops: seq<TableOp>): seq<PermissionGrant> {
    if ops == [] then [] else Step(Run(ops[..|ops| - 1]), ops[|ops| - 1])
  }

  function LastUpsert(ops: seq<TableOp>, id: PermissionId): (r: Option<PermissionGrant>)
    ensures r.Some? ==> r.value.id == id
  {
    if ops == [] then None
    else
      match ops[|ops| - 1]
      case UpsertOp(g, bytes) =>
        if g.id == id && Storable(g, bytes) then Some(g) else LastUpsert(ops[..|ops| - 1], id)
      case RevokeOp(_, _) => LastUpsert(ops[..|ops| - 1], id)
      case ClaimOp(_, _) => LastUpsert(ops[..|ops| - 1], id)
  }

  /** How many claims have consumed grant `id` since it was last upserted. */
  function ClaimsSinceUpsert(ops: seq<TableOp>, id: PermissionId): nat {
    if ops == [] then 0
    else
      var front := ops[..|ops| - 1];
      match ops[|ops| - 1]
      case UpsertOp(g, bytes) => if g.id == id && Storable(g, bytes) then 0 else ClaimsSinceUpsert(front, id)
      case RevokeOp(_, _) => ClaimsSinceUpsert(front, id)
      case ClaimOp(p, caller) =>
        var candidate := ClaimCandidate(Run(front), p, caller);
        ClaimsSinceUpsert(front, id) + (if candidate.Some? && candidate.value.id == id then 1 else 0)
  }

  predicate StoresGrant(op: TableOp, id: PermissionId) {
    op.UpsertOp? && op.grant.id == id && Storable(op.grant, op.scopeBytes)
  }

  /** When grant `id` was first stored. */
  function FirstGrantedMs(ops: seq<TableOp>, id: PermissionId): Option<int> {
    if ops == [] then None
    else
      var earlier := FirstGrantedMs(ops[..|ops| - 1], id);
      if earlier.None? && StoresGrant(ops[|ops| - 1], id) then Some(ops[|ops| - 1].grant.grantedAtMs) else earlier
  }

  /** When grant `id` was revoked, as it was stored or by the first revocation since. */
  function RevokedSinceUpsert(ops: seq<TableOp>, id: PermissionId): Option<int> {
    if ops == [] then None
    else
      var earlier, op := RevokedSinceUpsert(ops[..|ops| - 1], id), ops[|ops| - 1];
      if StoresGrant(op, id) then op.grant.revokedAtMs
      else if op.RevokeOp? && op.id == id && earlier.None? && LastUpsert(ops, id).Some? then Some(op.nowMs)
      else earlier
  }

  /** What the run says of grant `id`: the columns last stored, the time of its first grant, the first revocation and
      the claims since. */
  function Told(ops: seq<TableOp>, id: PermissionId): Option<PermissionGrant> {
    match LastUpsert(ops, id)
    case None => None
    case Some(stored) =>
      var first := FirstGrantedMs(ops, id);
      Some(stored.(grantedAtMs := if first.Some? then first.value else stored.grantedAtMs,
                   revokedAtMs := RevokedSinceUpsert(ops, id),
                   useCount := stored.useCount + ClaimsSinceUpsert(ops, id)))
  }

  function RowNamed(rows: seq<PermissionGrant>, id: PermissionId): Option<PermissionGrant> {
    match IndexOf(rows, id)
    case None => None
    case Some(at) => Some(rows[at])
  }

  lemma RowNamedIsTheRow(rows: seq<PermissionGrant>, id: PermissionId)
    requires DistinctIds(rows)
    ensures forall g :: g in rows && g.id == id <==> RowNamed(rows, id) == Some(g)
  {
  }

  lemma UpsertNames(rows: seq<PermissionGrant>, g: PermissionGrant, id: PermissionId)
    requires DistinctIds(rows)
    ensures DistinctIds(Upserted(rows, g))
    ensures var was := RowNamed(rows, id);
            RowNamed(Upserted(rows, g), id) ==
            if g.id != id then was else if was.None? then Some(g) else Some(g.(grantedAtMs := was.value.grantedAtMs))
  {
    RowNamedIsTheRow(rows, id);
    RowNamedIsTheRow(Upserted(rows, g), id);
    var at, after := IndexOf(rows, g.id), Upserted(rows, g);
    if at.Some? {
      assert after[at.value] in after && after[at.value] == g.(grantedAtMs := rows[at.value].grantedAtMs);
      assert forall k | 0 <= k < |rows| && k != at.value :: after[k] == rows[k] && after[k] in after;
    } else {
      assert g in after;
    }
  }

  lemma {:induction false} SameIdsSamePlace(rows: seq<PermissionGrant>, after: seq<PermissionGrant>, id: PermissionId)
    requires |after| == |rows| && forall k | 0 <= k < |rows| :: after[k].id == rows[k].id
    ensures IndexOf(after, id) == IndexOf(rows, id)
  {
    if rows != [] {
      SameIdsSamePlace(rows[..|rows| - 1], after[..|rows| - 1], id);
    }
  }

  lemma RevokeNames(rows: seq<PermissionGrant>, target: PermissionId, nowMs: int, id: PermissionId)
    requires DistinctIds(rows)
    ensures DistinctIds(Revoked(rows, target, nowMs))
    ensures var was := RowNamed(rows, id);
            RowNamed(Revoked(rows, target, nowMs), id) ==
            if target == id && was.Some? && was.value.revokedAtMs.None? then Some(was.value.(revokedAtMs := Some(nowMs))) else was
  {
    hide IndexOf, Revoked;
    RevokeChanges(rows, target, nowMs);
    SameIdsSamePlace(rows, Revoked(rows, target, nowMs), id);
  }

  lemma ClaimNames(rows: seq<PermissionGrant>, p: ActionProposal, caller: Caller, id: PermissionId)
    requires DistinctIds(rows)
    ensures DistinctIds(Claimed(rows, p, caller))
    ensures var was, candidate := RowNamed(rows, id), ClaimCandidate(rows, p, caller);
            RowNamed(Claimed(rows, p, caller), id) ==
            if candidate.Some? && candidate.value.id == id then Some(Used(candidate.value)) else was
  {
    hide IndexOf, Claimed;
    ClaimRaisesOneCount(rows, p, caller);
    SameIdsSamePlace(rows, Claimed(rows, p, caller), id);
    var at := IndexOf(rows, id);
    if at.Some? {
      IdNamesOneRow(rows, at.value);
    }
  }

  /** In every reachable table the row of a grant is exactly what the run tells of it. */
  lemma {:induction false} RowsTellTheirHistory(ops: seq<TableOp>, id: PermissionId)
    ensures DistinctIds(Run(ops))
    ensures RowNamed(Run(ops), id) == Told(ops, id)
    ensures forall g :: g in Run(ops) && g.id == id <==> Told(ops, id) == Some(g)
    ensures LastUpsert(ops, id).Some? <==> FirstGrantedMs(ops, id).Some?
  {
    hide RowNamed, Upserted, Revoked, Claimed, ClaimCandidate;
    if ops != [] {
      var front, op := ops[..|ops| - 1], ops[|ops| - 1];
      RowsTellTheirHistory(front, id);
      match op {
        case UpsertOp(g, bytes) => if Storable(g, bytes) { UpsertNames(Run(front), g, id); }
        case RevokeOp(target, nowMs) => RevokeNames(Run(front), target, nowMs, id);
        case ClaimOp(p, caller) => ClaimTells(ops, id);
      }
    } else {
      EmptyNames(id);
    }
    RowNamedIsTheRow(Run(ops), id);
  }

  lemma EmptyNames(id: PermissionId)
    ensures RowNamed([], id) == None
  {
  }

  lemma ClaimToldOf(ops: seq<TableOp>, id: PermissionId)
    requires ops != [] && ops[|ops| - 1].ClaimOp?
    ensures var front, op := ops[..|ops| - 1], ops[|ops| - 1];
            var was, candidate := Told(front, id), ClaimCandidate(Run(front), op.proposal, op.caller);
            Told(ops, id) == if was.Some? && candidate.Some? && candidate.value.id == id then Some(Used(was.value)) else was
  {
    hide Run, ClaimCandidate;
  }

  lemma ClaimTells(ops: seq<TableOp>, id: PermissionId)
    requires ops != [] && ops[|ops| - 1].ClaimOp? && DistinctIds(Run(ops[..|ops| - 1]))
    requires RowNamed(Run(ops[..|ops| - 1]), id) == Told(ops[..|ops| - 1], id)
    ensures DistinctIds(Run(ops)) && RowNamed(Run(ops), id) == Told(ops, id)
  {
    hide RowNamed, Claimed, ClaimCandidate, Told;
    var front, op := ops[..|ops| - 1], ops[|ops| - 1];
    ClaimNames(Run(front), op.proposal, op.caller, id);
    ClaimToldOf(ops, id);
    RowNamedIsTheRow(Run(front), id);
    CandidateIsRow(Run(front), op.proposal, op.caller);
  }

  lemma CandidateIsRow(rows: seq<PermissionGrant>, p: ActionProposal, caller: Caller)
    ensures var c := ClaimCandidate(rows, p, caller); c.Some? ==> c.value in rows && c.value.HasUsesLeft()
  {
  }

  /** In every reachable table, a row's count is the count it was stored with plus the claims made since,
      and it stays within the limit it was stored with. */
  lemma {:induction false} CountIsClaimsSinceUpsert(ops: seq<TableOp>, id: PermissionId)
    ensures forall g | g in Run(ops) && g.id == id ::
              var stored := LastUpsert(ops, id);
              && stored.Some?
              && g.useLimit == stored.value.useLimit
              && g.useCount == stored.value.useCount + ClaimsSinceUpsert(ops, id)
              && (g.useLimit.Some? && stored.value.useCount <= g.useLimit.value ==> g.useCount <= g.useLimit.value)
  {
    hide RowNamed, Upserted, Revoked, Claimed, ClaimCandidate;
    RowsTellTheirHistory(ops, id);
    if ops != [] {
      var front, op := ops[..|ops| - 1], ops[|ops| - 1];
      CountIsClaimsSinceUpsert(front, id);
      RowsTellTheirHistory(front, id);
      if op.ClaimOp? {
        CandidateIsRow(Run(front), op.proposal, op.caller);
      }
    }
  }

  /** From its revocation until it is stored again, a grant is active for no proposal and no caller, and no claim
      takes it. */
  lemma {:induction false} RevokedStaysInactive(ops: seq<TableOp>, j: nat, id: PermissionId)
    requires j < |ops| && ops[j].RevokeOp? && ops[j].id == id
    requires forall i | j < i < |ops| :: !StoresGrant(ops[i], id)
    ensures forall g | g in Run(ops) && g.id == id :: g.revokedAtMs.Some? && forall p, caller :: !SqlActive(g, p, caller)
    ensures forall p, caller :: var row := ClaimCandidate(Run(ops), p, caller); row.Some? ==> row.value.id != id
    ensures ClaimsSinceUpsert(ops, id) == ClaimsSinceUpsert(ops[..j], id)
  {
    var front := ops[..|ops| - 1];
    RowsTellTheirHistory(ops, id);
    if j < |front| {
      assert front[..j] == ops[..j];
      RevokedStaysInactive(front, j, id);
      RowsTellTheirHistory(front, id);
      assert !StoresGrant(ops[|ops| - 1], id);
      if LastUpsert(front, id).Some? {
        assert Told(front, id).value in Run(front);
      }
    }
  }

  /** However claimants race, a limited grant is claimed at most as often as its limit allows between two
      upserts; a one-use grant stored unused is claimed at most once. */
  lemma ClaimsStayWithinLimit(ops: seq<TableOp>, id: PermissionId)
    requires LastUpsert(ops, id).Some?
    requires var stored := LastUpsert(ops, id).value; stored.useLimit.Some? && stored.useCount <= stored.useLimit.value
    ensures var stored := LastUpsert(ops, id).value;
            && stored.useCount + ClaimsSinceUpsert(ops, id) <= stored.useLimit.value
            && (stored.lifetime.Once? && stored.useCount == 0 ==> ClaimsSinceUpsert(ops, id) <= 1)
  {
    hide Run, Told, ClaimsSinceUpsert, LastUpsert;
    RowsTellTheirHistory(ops, id);
    CountIsClaimsSinceUpsert(ops, id);
    LastUpsertIsStorable(ops, id);
    RowIsTold(ops, id);
  }

  lemma RowIsTold(ops: seq<TableOp>, id: PermissionId)
    ensures Told(ops, id).Some? <==> LastUpsert(ops, id).Some?
    ensures Told(ops, id).Some? ==> Told(ops, id).value.id == id && Told(ops, id).value.useLimit == LastUpsert(ops, id).value.useLimit
  {
  }

  lemma {:induction false} LastUpsertIsStorable(ops: seq<TableOp>, id: PermissionId)
    requires LastUpsert(ops, id).Some?
    ensures LastUpsert(ops, id).value.Valid()
  {
    var op := ops[|ops| - 1];
    if !(op.UpsertOp? && op.grant.id == id && Storable(op.grant, op.scopeBytes)) {
      LastUpsertIsStorable(ops[..|ops| - 1], id);
    }
  }
}
