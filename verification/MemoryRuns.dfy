/** What every run over the memory tables keeps, and how the service's changes refine the ledger. */
module MemoryRuns {
  import opened Prelude
  import opened Domain
  import opened Memory

  const EMPTY := Tables(map[], map[], map[], {}, map[])

  /** The step of a walk at position `i`: on to the revision's predecessor, or the end if it has none. */
  ghost predicate Follows(revisions: map<RevisionId, RevisionRow>, walk: seq<RevisionId>, i: nat)
    requires i < |walk|
  {
    && walk[i] in revisions
    && revisions[walk[i]].previous == if i + 1 < |walk| then Some(walk[i + 1]) else None
  }

  /** `walk` follows `previous` from `head` to a revision without one. */
  ghost predicate IsWalk(revisions: map<RevisionId, RevisionRow>, head: RevisionId, walk: seq<RevisionId>) {
    && walk != [] && walk[0] == head
    && forall i | 0 <= i < |walk| :: Follows(revisions, walk, i)
  }

  lemma WalkSurvives(revisions: map<RevisionId, RevisionRow>, more: map<RevisionId, RevisionRow>, head: RevisionId, walk: seq<RevisionId>)
    requires IsWalk(revisions, head, walk)
    requires forall r | r in revisions :: r in more && more[r] == revisions[r]
    ensures IsWalk(more, head, walk)
  {
    forall i | 0 <= i < |walk| ensures Follows(more, walk, i) {
      assert Follows(revisions, walk, i);
      var r := walk[i];
      assert r in revisions && more[r] == revisions[r];
    }
  }

  lemma WalkGrows(revisions: map<RevisionId, RevisionRow>, head: RevisionId, walk: seq<RevisionId>, r: RevisionId)
    requires IsWalk(revisions, head, walk)
    requires r in revisions && revisions[r].previous == Some(head)
    ensures IsWalk(revisions, r, [r] + walk)
  {
    var longer := [r] + walk;
    forall i | 0 <= i < |longer| ensures Follows(revisions, longer, i) {
      if i > 0 {
        assert Follows(revisions, walk, i - 1);
      }
    }
  }

  /** The walk meets each of the item's revisions once and nothing else. */
  ghost predicate CoversItem(revisions: map<RevisionId, RevisionRow>, m: MemoryId, walk: seq<RevisionId>) {
    && Distinct(walk)
    && (forall r :: r in walk <==> r in revisions && revisions[r].memoryId == m)
  }

  ghost predicate ItemInv(t: Tables, m: MemoryId, walk: seq<RevisionId>) {
    && m in t.items && t.items[m].head.Some?
    && IsWalk(t.revisions, t.items[m].head.value, walk)
    && CoversItem(t.revisions, m, walk)
  }

  ghost predicate HasTrustedLink(t: Tables, r: RevisionId) {
    exists id | (r, id) in t.links && id in t.evidence :: t.evidence[id].trust.IndependentlyAuthorizesProceduralMemory()
  }

  ghost predicate RevisionInv(t: Tables, r: RevisionId)
    requires r in t.revisions
  {
    var row := t.revisions[r];
    && row.memoryId in t.items && t.items[row.memoryId].kind == row.value.Kind()
    && (exists id :: (r, id) in t.links)
    && (row.value.Kind().Procedural? ==> HasTrustedLink(t, r))
  }

  ghost predicate Inv(t: Tables) {
    && (forall m | m in t.items :: exists walk :: ItemInv(t, m, walk))
    && (forall r | r in t.revisions :: RevisionInv(t, r))
    && (forall r, id | (r, id) in t.links :: r in t.revisions && id in t.evidence)
  }

  lemma CommittedEvidence(t: Tables, c: Change)
    requires Accepted(t, c)
    ensures var after := Committed(t, c).evidence;
            && (forall id | id in t.evidence :: id in after && after[id] == t.evidence[id])
            && (forall id | id in c.revision.evidenceIds :: id in after)
            && (forall e | e in c.evidence :: e.id in after && after[e.id] == RowOf(e))
  {
    WithEvidenceAdds(t.evidence, c.evidence);
    var after := WithEvidence(t.evidence, c.evidence);
    forall e | e in c.evidence ensures e.id in after && after[e.id] == RowOf(e) {
      assert Supplied(c.evidence, e.id);
      if e.id !in t.evidence {
        var x :| x in c.evidence && x.id == e.id && after[e.id] == RowOf(x);
        SuppliedOnce(c, x, e);
      }
    }
  }

  lemma SuppliedOnce(c: Change, x: Evidence, y: Evidence)
    requires Consistent(c) && x in c.evidence && y in c.evidence && x.id == y.id
    ensures x == y
  {
    var i :| 0 <= i < |c.evidence| && c.evidence[i] == x;
    var j :| 0 <= j < |c.evidence| && c.evidence[j] == y;
  }

  lemma CommittedTrust(t: Tables, c: Change)
    requires Accepted(t, c) && c.item.kind.Procedural?
    ensures HasTrustedLink(Committed(t, c), c.revision.id)
  {
    CommittedEvidence(t, c);
    var id :| id in c.revision.evidenceIds && TrustedLink(t, c, id);
    assert (c.revision.id, id) in Linked(c.revision.id, c.revision.evidenceIds);
  }

  lemma CommittedTables(t: Tables, c: Change)
    requires Accepted(t, c)
    ensures var after := Committed(t, c);
            && (forall id | id in t.evidence :: id in after.evidence && after.evidence[id] == t.evidence[id])
            && (forall id | id in c.revision.evidenceIds :: id in after.evidence && (c.revision.id, id) in after.links)
            && (forall r, id :: (r, id) in after.links <==> (r, id) in t.links || (r == c.revision.id && id in c.revision.evidenceIds))
            && (c.item.kind.Procedural? ==> HasTrustedLink(after, c.revision.id))
  {
    CommittedEvidence(t, c);
    forall id | id in c.revision.evidenceIds ensures (c.revision.id, id) in Linked(c.revision.id, c.revision.evidenceIds) {
    }
    if c.item.kind.Procedural? {
      CommittedTrust(t, c);
    }
  }

  lemma CommittedItem(t: Tables, c: Change, m: MemoryId)
    requires Inv(t) && Accepted(t, c) && m in Committed(t, c).items
    ensures exists walk :: ItemInv(Committed(t, c), m, walk)
  {
    var after, r := Committed(t, c), c.revision.id;
    if m in t.items {
      var walk :| ItemInv(t, m, walk);
      WalkSurvives(t.revisions, after.revisions, t.items[m].head.value, walk);
      if m == c.item.id {
        WalkGrows(after.revisions, t.items[m].head.value, walk, r);
        assert ItemInv(after, m, [r] + walk);
      } else {
        assert ItemInv(after, m, walk);
      }
    } else {
      forall x | x in t.revisions ensures t.revisions[x].memoryId != m {
        assert RevisionInv(t, x);
      }
      assert Follows(after.revisions, [r], 0);
      assert ItemInv(after, m, [r]);
    }
  }

  /** An accepted change keeps every item one unbroken history and every evidence rule. */
  lemma CommittingKeepsInv(t: Tables, c: Change)
    requires Inv(t) && Accepted(t, c)
    ensures Inv(Committed(t, c))
  {
    var after := Committed(t, c);
    CommittedTables(t, c);
    forall m | m in after.items ensures exists walk :: ItemInv(after, m, walk) {
      CommittedItem(t, c, m);
    }
    forall r | r in after.revisions ensures RevisionInv(after, r) {
      if r != c.revision.id {
        assert RevisionInv(t, r);
        if t.revisions[r].value.Kind().Procedural? {
          var id :| (r, id) in t.links && id in t.evidence && t.evidence[id].trust.IndependentlyAuthorizesProceduralMemory();
          assert (r, id) in after.links;
        }
        var id :| (r, id) in t.links;
        assert (r, id) in after.links;
      } else {
        var id := c.revision.evidenceIds[0];
        assert id in c.revision.evidenceIds;
        assert (r, id) in after.links;
      }
    }
  }

  datatype Op = PersistOp(change: Change) | DisableOp(memory: MemoryId, disabled: bool)

  ghost function Next(t: Tables, op: Op): Tables {
    match op
    case PersistOp(c) => if Accepted(t, c) then Committed(t, c) else t
    case DisableOp(m, disabled) => WithDisabled(t, m, disabled)
  }

  /** The tables after any interleaving of writers, each with whatever view of the head it may hold. */
  ghost function Run(ops: seq<Op>): Tables {
    if ops == [] then EMPTY else Next(Run(ops[..|ops| - 1]), ops[|ops| - 1])
  }

  /** Revisions, evidence and the links of stored revisions are never rewritten. */
  ghost predicate Preserved(t: Tables, later: Tables) {
    && (forall r | r in t.revisions :: r in later.revisions && later.revisions[r] == t.revisions[r])
    && (forall id | id in t.evidence :: id in later.evidence && later.evidence[id] == t.evidence[id])
    && (forall r, id | r in t.revisions :: (r, id) in later.links <==> (r, id) in t.links)
    && (forall m | m in t.items :: m in later.items && later.items[m].kind == t.items[m].kind && later.items[m].createdAtMs == t.items[m].createdAtMs)
  }

  lemma DisablingKeepsInv(t: Tables, m: MemoryId, disabled: bool)
    requires Inv(t)
    ensures Inv(WithDisabled(t, m, disabled))
  {
    var after := WithDisabled(t, m, disabled);
    forall x | x in after.items ensures exists walk :: ItemInv(after, x, walk) {
      var walk :| ItemInv(t, x, walk);
      assert ItemInv(after, x, walk);
    }
    forall r | r in after.revisions ensures RevisionInv(after, r) {
      assert RevisionInv(t, r);
      assert HasTrustedLink(t, r) ==> HasTrustedLink(after, r);
    }
  }

  lemma CommittingPreserves(t: Tables, c: Change)
    requires Inv(t) && Accepted(t, c)
    ensures Preserved(t, Committed(t, c))
  {
    CommittedTables(t, c);
  }

  lemma NextKeeps(t: Tables, op: Op)
    requires Inv(t)
    ensures Inv(Next(t, op)) && Preserved(t, Next(t, op))
  {
    match op
    case PersistOp(c) =>
      if Accepted(t, c) {
        CommittingKeepsInv(t, c);
        CommittingPreserves(t, c);
      }
    case DisableOp(m, disabled) => DisablingKeepsInv(t, m, disabled);
  }

  /** In every reachable store: walking back from an item's head meets each of its revisions exactly once;
      every revision links stored evidence; a procedural one links evidence with the user's own authority. */
  lemma {:induction false} EveryRunKeepsHistories(ops: seq<Op>)
    ensures Inv(Run(ops))
  {
    if ops != [] {
      EveryRunKeepsHistories(ops[..|ops| - 1]);
      NextKeeps(Run(ops[..|ops| - 1]), ops[|ops| - 1]);
    }
  }

  /** Whatever happens later, what a run has stored stays as it is. */
  lemma {:induction false} StoredStaysStored(ops: seq<Op>, k: nat)
    requires k <= |ops|
    ensures Preserved(Run(ops[..k]), Run(ops))
  {
    if k == |ops| {
      assert ops[..k] == ops;
    } else {
      var front := ops[..|ops| - 1];
      StoredStaysStored(front, k);
      assert front[..k] == ops[..k];
      EveryRunKeepsHistories(front);
      NextKeeps(Run(front), ops[|ops| - 1]);
    }
  }

  /** No two revisions follow the same one, and no item has two beginnings. */
  lemma AtMostOneSuccessor(t: Tables, a: RevisionId, b: RevisionId)
    requires Inv(t) && a in t.revisions && b in t.revisions
    requires t.revisions[a].previous == t.revisions[b].previous
    requires t.revisions[a].previous.None? ==> t.revisions[a].memoryId == t.revisions[b].memoryId
    ensures a == b
  {
    assert RevisionInv(t, a) && RevisionInv(t, b);
    var m := t.revisions[a].memoryId;
    var walk :| ItemInv(t, m, walk);
    var i :| 0 <= i < |walk| && walk[i] == a;
    if t.revisions[a].previous.Some? {
      PredecessorSharesItem(t, a);
      PredecessorSharesItem(t, b);
    }
    var j :| 0 <= j < |walk| && walk[j] == b;
    assert Follows(t.revisions, walk, i) && Follows(t.revisions, walk, j);
    if i < |walk| - 1 {
      assert walk[i + 1] == walk[j + 1];
    }
  }

  lemma PredecessorSharesItem(t: Tables, a: RevisionId)
    requires Inv(t) && a in t.revisions && t.revisions[a].previous.Some?
    ensures t.revisions[a].previous.value in t.revisions
    ensures t.revisions[t.revisions[a].previous.value].memoryId == t.revisions[a].memoryId
  {
    assert RevisionInv(t, a);
    var walk :| ItemInv(t, t.revisions[a].memoryId, walk);
    var i :| 0 <= i < |walk| && walk[i] == a;
    assert Follows(t.revisions, walk, i);
    var p := t.revisions[a].previous.value;
    assert p == walk[i + 1] && p in walk;
  }

  /** However many writers race on one head over a whole run, at most one of their changes commits. */
  lemma RacingWritersOneWinner(ops: seq<Op>, i: nat, j: nat)
    requires i < j < |ops| && ops[i].PersistOp? && ops[j].PersistOp?
    requires ops[i].change.revision.previous.Some?
    requires ops[i].change.revision.previous == ops[j].change.revision.previous
    ensures !(Accepted(Run(ops[..i]), ops[i].change) && Accepted(Run(ops[..j]), ops[j].change))
  {
    var a, b := ops[i].change, ops[j].change;
    if Accepted(Run(ops[..i]), a) && Accepted(Run(ops[..j]), b) {
      var upTo := ops[..i + 1];
      assert upTo[..i] == ops[..i] && upTo[i] == ops[i];
      assert ops[..j][..i + 1] == upTo;
      StoredStaysStored(ops[..j], i + 1);
      EveryRunKeepsHistories(ops[..j]);
      CommittingKeepsInv(Run(ops[..j]), b);
      AtMostOneSuccessor(Committed(Run(ops[..j]), b), a.revision.id, b.revision.id);
    }
  }

  /** A committed revision's links are exactly the evidence it named, and stay so. */
  lemma LinksAreTheNamedEvidence(ops: seq<Op>, i: nat)
    requires i < |ops| && ops[i].PersistOp? && Accepted(Run(ops[..i]), ops[i].change)
    ensures var rev := ops[i].change.revision;
            && rev.evidenceIds != [] && Distinct(rev.evidenceIds)
            && forall id :: (rev.id, id) in Run(ops).links <==> id in rev.evidenceIds
  {
    var c, before := ops[i].change, Run(ops[..i]);
    EveryRunKeepsHistories(ops[..i]);
    CommittedTables(before, c);
    var upTo := ops[..i + 1];
    assert upTo[..i] == ops[..i] && upTo[i] == ops[i];
    StoredStaysStored(ops, i + 1);
  }

  /** Operation `j` is the last that set the flag of item `m`, stored at that time. */
  ghost predicate LastSets(ops: seq<Op>, m: MemoryId, j: nat) {
    && j < |ops| && ops[j].DisableOp? && ops[j].memory == m && m in Run(ops[..j]).items
    && forall i | j < i < |ops| :: !(ops[i].DisableOp? && ops[i].memory == m)
  }

  lemma CommittingKeepsFlags(t: Tables, c: Change)
    ensures forall m | m in Committed(t, c).items :: Committed(t, c).items[m].disabled <==> m in t.items && t.items[m].disabled
  {
  }

  /** An item is disabled exactly when it was disabled by the last operation that set its flag since it was created:
      revising or restoring it changes nothing about that. */
  lemma {:induction false} DisabledExactlyWhenLastSet(ops: seq<Op>, m: MemoryId)
    requires m in Run(ops).items
    ensures Run(ops).items[m].disabled <==> exists j: nat :: LastSets(ops, m, j) && ops[j].disabled
  {
    var front, op := ops[..|ops| - 1], ops[|ops| - 1];
    if m in Run(front).items {
      DisabledExactlyWhenLastSet(front, m);
    } else {
      SettersFindTheirItem(front, m);
    }
    LastSetsStep(ops, m);
    if op.DisableOp? && op.memory == m {
      assert LastSets(ops, m, |front|) ==> Run(ops).items[m].disabled == ops[|front|].disabled;
    } else {
      assert forall j: nat | LastSets(front, m, j) :: LastSets(ops, m, j) && ops[j] == front[j];
      if op.PersistOp? {
        CommittingKeepsFlags(Run(front), op.change);
      }
    }
  }

  lemma LastSetsStep(ops: seq<Op>, m: MemoryId)
    requires ops != []
    ensures var front, op := ops[..|ops| - 1], ops[|ops| - 1];
            forall j: nat :: LastSets(ops, m, j) <==>
              if op.DisableOp? && op.memory == m then j == |front| && m in Run(front).items else LastSets(front, m, j)
  {
    var front := ops[..|ops| - 1];
    assert forall j | 0 <= j <= |front| :: front[..j] == ops[..j];
    assert forall j | 0 <= j < |front| :: front[j] == ops[j];
  }

  lemma {:induction false} SettersFindTheirItem(ops: seq<Op>, m: MemoryId)
    requires m !in Run(ops).items
    ensures forall j: nat :: !LastSets(ops, m, j)
  {
    forall j: nat | LastSets(ops, m, j) ensures false {
      StoredItemStays(ops, j, m);
    }
  }

  lemma StoredItemStays(ops: seq<Op>, j: nat, m: MemoryId)
    requires j <= |ops| && m in Run(ops[..j]).items
    ensures m in Run(ops).items
  {
    StoredStaysStored(ops, j);
  }

  /** In every reachable store an item was last updated when its head was created. */
  lemma {:induction false} HeadDatesItem(ops: seq<Op>, m: MemoryId)
    requires m in Run(ops).items
    ensures var t := Run(ops);
            var row := t.items[m];
            && row.head.Some? && row.head.value in t.revisions && t.revisions[row.head.value].memoryId == m
            && row.createdAtMs <= row.updatedAtMs == t.revisions[row.head.value].createdAtMs
  {
    var front, op := ops[..|ops| - 1], ops[|ops| - 1];
    if m in Run(front).items {
      HeadDatesItem(front, m);
    }
    if op.PersistOp? && Accepted(Run(front), op.change) {
      EveryRunKeepsHistories(front);
      CommittingPreserves(Run(front), op.change);
    }
  }

  /** What was committed can be read back at the end of the run: the revision as it was submitted, the evidence as it was
      supplied, and the entry in the audit log. */
  lemma CommittedReadsBack(ops: seq<Op>, i: nat)
    requires i < |ops| && ops[i].PersistOp? && Accepted(Run(ops[..i]), ops[i].change)
    ensures var c, t := ops[i].change, Run(ops);
            && c.item.id in t.items && t.items[c.item.id].kind == c.item.kind && t.items[c.item.id].createdAtMs == c.item.createdAtMs
            && c.item.currentRevisionId == c.revision.id && c.revision.id in t.revisions
            && (var row := t.revisions[c.revision.id];
                && row.memoryId == c.item.id && row.previous == c.revision.previous && row.value == c.revision.value
                && row.createdAtMs == c.revision.createdAtMs
                && row.validFromMs == c.revision.validFromMs && row.validUntilMs == c.revision.validUntilMs)
            && (forall e | e in c.evidence ::
                  && e.id in t.evidence && t.evidence[e.id].trust == e.trust
                  && t.evidence[e.id].source == e.source && t.evidence[e.id].createdAtMs == e.createdAtMs)
            && c.auditId in t.audit && t.audit[c.auditId] == (c.item.id, c.revision.id)
  {
    var c, before := ops[i].change, Run(ops[..i]);
    EveryRunKeepsHistories(ops[..i]);
    CommittedEvidence(before, c);
    var upTo := ops[..i + 1];
    assert upTo[..i] == ops[..i] && upTo[i] == ops[i];
    StoredStaysStored(ops, i + 1);
    AuditStays(ops, i + 1);
  }

  /** In every reachable store every piece of evidence is linked to a revision, and no revision's validity ends before it
      begins. */
  lemma {:induction false} EvidenceIsLinked(ops: seq<Op>)
    ensures forall id | id in Run(ops).evidence :: exists r :: (r, id) in Run(ops).links
    ensures forall r | r in Run(ops).revisions ::
              var row := Run(ops).revisions[r];
              row.validFromMs.Some? && row.validUntilMs.Some? ==> row.validFromMs.value <= row.validUntilMs.value
  {
    if ops != [] {
      var front, op := ops[..|ops| - 1], ops[|ops| - 1];
      EvidenceIsLinked(front);
      if op.PersistOp? && Accepted(Run(front), op.change) {
        CommittingLinksEvidence(Run(front), op.change);
      }
    }
  }

  lemma CommittingLinksEvidence(t: Tables, c: Change)
    requires Accepted(t, c) && forall id | id in t.evidence :: exists r :: (r, id) in t.links
    ensures var after := Committed(t, c); forall id | id in after.evidence :: exists r :: (r, id) in after.links
  {
    CommittedTables(t, c);
    WithEvidenceAdds(t.evidence, c.evidence);
    var after := Committed(t, c);
    forall id | id in after.evidence ensures exists r :: (r, id) in after.links {
      if id in t.evidence {
        var r :| (r, id) in t.links;
        assert (r, id) in after.links;
      } else {
        var e :| e in c.evidence && e.id == id;
        assert (c.revision.id, id) in after.links;
      }
    }
  }

  lemma {:induction false} AuditStays(ops: seq<Op>, k: nat)
    requires k <= |ops|
    ensures forall a | a in Run(ops[..k]).audit :: a in Run(ops).audit && Run(ops).audit[a] == Run(ops[..k]).audit[a]
  {
    if k == |ops| {
      assert ops[..k] == ops;
    } else {
      AuditStays(ops[..|ops| - 1], k);
      assert ops[..|ops| - 1][..k] == ops[..k];
    }
  }

  // ---- The service's changes and the ledger ----

  /** The ledger and the tables hold the same items and revisions; the tables keep evidence as a set. */
  ghost predicate Refines(l: LedgerState, t: Tables) {
    && l.items.Keys == t.items.Keys
    && (forall m | m in t.items :: ItemRefines(l.items[m], m, t.items[m]))
    && l.revisions.Keys == t.revisions.Keys
    && (forall r | r in t.revisions :: RevisionRefines(l.revisions[r], r, t))
  }

  ghost predicate ItemRefines(item: MemoryItem, m: MemoryId, row: ItemRow) {
    row.head.Some? && item == MemoryItem(m, row.kind, row.head.value, row.createdAtMs, row.updatedAtMs)
  }

  ghost predicate RevisionRefines(rev: MemoryRevision, r: RevisionId, t: Tables)
    requires r in t.revisions
  {
    var row := t.revisions[r];
    && rev == MemoryRevision(r, row.memoryId, row.previous, row.value, rev.evidenceIds, row.createdAtMs, row.validFromMs, row.validUntilMs)
    && (forall id :: id in rev.evidenceIds <==> (r, id) in t.links)
  }

  /** Identifiers and the clock reading that one service call draws. */
  datatype Draw = Draw(memory: MemoryId, revision: RevisionId, evidence: EvidenceId, audit: AuditId, nowMs: int)

  predicate FreshIn(d: Draw, t: Tables) {
    d.memory !in t.items && d.revision !in t.revisions && d.evidence !in t.evidence && d.audit !in t.audit
  }

  function UserEvidence(d: Draw, source: string): Evidence {
    Evidence(d.evidence, TrustUserExplicit, Some(source), d.nowMs)
  }

  /** The change that revises item `m` to `value` on the user's word. */
  function RevisingChange(t: Tables, m: MemoryId, value: MemoryValue, source: string, d: Draw): Change
    requires m in t.items && t.items[m].head.Some?
  {
    var row := t.items[m];
    Change(MemoryItem(m, row.kind, d.revision, row.createdAtMs, d.nowMs),
           MemoryRevision(d.revision, m, row.head, value, [d.evidence], d.nowMs, Some(d.nowMs), None),
           [UserEvidence(d, source)], d.audit)
  }

  function CreatingChange(value: MemoryValue, source: string, d: Draw): Change {
    Change(MemoryItem(d.memory, Semantic, d.revision, d.nowMs, d.nowMs),
           MemoryRevision(d.revision, d.memory, None, value, [d.evidence], d.nowMs, Some(d.nowMs), None),
           [UserEvidence(d, source)], d.audit)
  }

  /** Whether `preference_by_key` may select item `m`: enabled, with that key at its head. */
  predicate HoldsPreference(t: Tables, m: MemoryId, key: string) {
    && m in t.items && !t.items[m].disabled && t.items[m].head.Some?
    && t.items[m].head.value in t.revisions
    && var value := t.revisions[t.items[m].head.value].value;
       value.Preference? && value.key == key
  }

  class MemoryService {
    const database: MemoryDatabase

    constructor ()
      ensures fresh(database) && database.tables == EMPTY
    {
      database := new MemoryDatabase();
    }

    /** `existing` is a row that the preference query may select: there is one exactly if some item holds the key. */
    method CommitPreference(key: string, value: string, source: string, d: Draw)
      returns (r: Result<RevisionId, StorageError>, existing: Option<MemoryId>)
      modifies database
      ensures existing.Some? ==> HoldsPreference(old(database.tables), existing.value, key)
      ensures existing.None? ==> forall m :: !HoldsPreference(old(database.tables), m, key)
      ensures var t := old(database.tables);
              var c := if existing.Some? then RevisingChange(t, existing.value, Preference(key, value), source, d)
                       else CreatingChange(Preference(key, value), source, d);
              && (r.Ok? <==> Accepted(t, c))
              && (r.Ok? ==> r.value == d.revision)
              && database.tables == Next(t, PersistOp(c))
    {
      var t := database.tables;
      existing := None;
      if exists m :: m in t.items && HoldsPreference(t, m, key) {
        var m :| m in t.items && HoldsPreference(t, m, key);
        existing := Some(m);
      }
      var change := CreatingChange(Preference(key, value), source, d);
      if existing.Some? {
        change := RevisingChange(t, existing.value, Preference(key, value), source, d);
      }
      var persisted := database.PersistMemoryRevision(change);
      r := if persisted.Ok? then Ok(d.revision) else Err(persisted.error);
    }

    /** `None` when the item or the revision of that item is not stored. */
    method RestoreMemoryRevision(m: MemoryId, source: RevisionId, d: Draw) returns (r: Option<Result<RevisionId, StorageError>>)
      modifies database
      ensures var t := old(database.tables);
              var found := && m in t.items && t.items[m].head.Some? && t.items[m].head.value in t.revisions
                           && source in t.revisions && t.revisions[source].memoryId == m;
              && (r.Some? <==> found)
              && database.tables == (if found then Next(t, PersistOp(RevisingChange(t, m, t.revisions[source].value, "restore", d))) else t)
              && (found ==> (r.value.Ok? <==> Accepted(t, RevisingChange(t, m, t.revisions[source].value, "restore", d))))
    {
      var t := database.tables;
      if m !in t.items || t.items[m].head.None? || t.items[m].head.value !in t.revisions {
        return None;
      }
      if source !in t.revisions || t.revisions[source].memoryId != m {
        return None;
      }
      var persisted := database.PersistMemoryRevision(RevisingChange(t, m, t.revisions[source].value, "restore", d));
      r := Some(if persisted.Ok? then Ok(d.revision) else Err(persisted.error));
    }
  }

  /** With freshly drawn identifiers a revision commits exactly when its value has the item's kind and the
      clock is not before the item's creation. */
  lemma RevisionCommitsExactlyWhen(t: Tables, m: MemoryId, value: MemoryValue, source: string, d: Draw)
    requires Inv(t) && m in t.items && t.items[m].head.Some? && FreshIn(d, t)
    ensures Accepted(t, RevisingChange(t, m, value, source, d)) <==> value.Kind() == t.items[m].kind && d.nowMs >= t.items[m].createdAtMs
  {
    var c, e := RevisingChange(t, m, value, source, d), UserEvidence(d, source);
    var walk :| ItemInv(t, m, walk);
    assert t.items[m].head.value in walk;
    assert e in c.evidence && d.evidence in c.revision.evidenceIds;
    assert TrustedLink(t, c, d.evidence);
  }

  lemma CreationCommitsExactlyWhen(t: Tables, value: MemoryValue, source: string, d: Draw)
    requires FreshIn(d, t)
    ensures Accepted(t, CreatingChange(value, source, d)) <==> value.Kind().Semantic?
  {
    var c := CreatingChange(value, source, d);
    assert UserEvidence(d, source) in c.evidence;
  }

  lemma PreferencesAreSemantic(t: Tables, m: MemoryId, key: string)
    requires Inv(t) && HoldsPreference(t, m, key)
    ensures t.items[m].kind.Semantic?
  {
    var walk :| ItemInv(t, m, walk);
    assert t.items[m].head.value in walk;
    assert RevisionInv(t, t.items[m].head.value);
  }

  /** In every reachable store, committing a preference under freshly drawn identifiers fails exactly when the key is
      already held by an item created later than the clock now reads. */
  lemma PreferenceFailsExactlyWhen(ops: seq<Op>, existing: Option<MemoryId>, key: string, value: string, source: string, d: Draw)
    requires FreshIn(d, Run(ops)) && (existing.Some? ==> HoldsPreference(Run(ops), existing.value, key))
    ensures !Accepted(Run(ops), if existing.Some? then RevisingChange(Run(ops), existing.value, Preference(key, value), source, d)
                                else CreatingChange(Preference(key, value), source, d)) <==>
            existing.Some? && d.nowMs < Run(ops).items[existing.value].createdAtMs
  {
    EveryRunKeepsHistories(ops);
    if existing.Some? {
      PreferencesAreSemantic(Run(ops), existing.value, key);
      RevisionCommitsExactlyWhen(Run(ops), existing.value, Preference(key, value), source, d);
    } else {
      CreationCommitsExactlyWhen(Run(ops), Preference(key, value), source, d);
    }
  }

  lemma FirstPreference()
    ensures Accepted(EMPTY, CreatingChange(Preference("editor", "vim"), "chat", Draw(1, 1, 1, 1, 10)))
  {
    CreationCommitsExactlyWhen(EMPTY, Preference("editor", "vim"), "chat", Draw(1, 1, 1, 1, 10));
  }

  /** Committed at 10, the same key cannot be committed again by a clock that reads 5. */
  lemma EarlierClockRefusesPreference()
    ensures var first := CreatingChange(Preference("editor", "vim"), "chat", Draw(1, 1, 1, 1, 10));
            var stored := Committed(EMPTY, first);
            && Accepted(EMPTY, first) && HoldsPreference(stored, 1, "editor")
            && !Accepted(stored, RevisingChange(stored, 1, Preference("editor", "emacs"), "chat", Draw(2, 2, 2, 2, 5)))
  {
    FirstPreference();
  }

  /** Every committed revision is one `revise` step of the ledger. */
  lemma RevisingRefinesLedger(l: LedgerState, t: Tables, m: MemoryId, value: MemoryValue, source: string, d: Draw)
    requires Inv(t) && Refines(l, t) && m in t.items && t.items[m].head.Some?
    requires Accepted(t, RevisingChange(t, m, value, source, d))
    ensures var (next, r) := l.Revise(m, d.revision, value, [d.evidence], d.nowMs);
            r == Ok(d.revision) && Refines(next, Committed(t, RevisingChange(t, m, value, source, d)))
  {
    var c := RevisingChange(t, m, value, source, d);
    CommittedTables(t, c);
    var next, after := l.Revise(m, d.revision, value, [d.evidence], d.nowMs).0, Committed(t, c);
    forall r | r in after.revisions ensures RevisionRefines(next.revisions[r], r, after) {
      if r != d.revision {
        assert RevisionRefines(l.revisions[r], r, t);
      } else {
        NoLinksYet(t, r);
      }
    }
    forall x | x in after.items ensures ItemRefines(next.items[x], x, after.items[x]) {
      assert x in t.items && ItemRefines(l.items[x], x, t.items[x]);
    }
  }

  lemma NoLinksYet(t: Tables, r: RevisionId)
    requires Inv(t) && r !in t.revisions
    ensures forall id :: (r, id) !in t.links
  {
  }

  /** Every committed first revision is one `create` step of the ledger. */
  lemma CreatingRefinesLedger(l: LedgerState, t: Tables, value: MemoryValue, source: string, d: Draw)
    requires Inv(t) && Refines(l, t) && d.memory !in t.items
    requires Accepted(t, CreatingChange(value, source, d))
    ensures var (next, r) := l.Create(d.memory, d.revision, Semantic, value, [d.evidence], d.nowMs);
            r == Ok(d.memory) && Refines(next, Committed(t, CreatingChange(value, source, d)))
  {
    var c := CreatingChange(value, source, d);
    CommittedTables(t, c);
    var next, after := l.Create(d.memory, d.revision, Semantic, value, [d.evidence], d.nowMs).0, Committed(t, c);
    forall r | r in after.revisions ensures RevisionRefines(next.revisions[r], r, after) {
      if r != d.revision {
        assert RevisionRefines(l.revisions[r], r, t);
      } else {
        NoLinksYet(t, r);
      }
    }
  }

  /** Every committed restoration is one `restore` step of the ledger. */
  lemma RestoringRefinesLedger(l: LedgerState, t: Tables, m: MemoryId, source: RevisionId, d: Draw)
    requires Inv(t) && Refines(l, t) && m in t.items && t.items[m].head.Some?
    requires source in t.revisions && t.revisions[source].memoryId == m
    requires Accepted(t, RevisingChange(t, m, t.revisions[source].value, "restore", d))
    ensures var (next, r) := l.Restore(m, source, d.revision, [d.evidence], d.nowMs);
            r == Ok(d.revision) && Refines(next, Committed(t, RevisingChange(t, m, t.revisions[source].value, "restore", d)))
  {
    assert RevisionRefines(l.revisions[source], source, t);
    RevisingRefinesLedger(l, t, m, t.revisions[source].value, "restore", d);
  }

  /** Restoring never rewinds: the new head has the old value and follows the head it replaced. */
  lemma RestoreAppends(t: Tables, m: MemoryId, source: RevisionId, d: Draw)
    requires Inv(t) && FreshIn(d, t) && m in t.items && t.items[m].head.Some?
    requires source in t.revisions && t.revisions[source].memoryId == m && d.nowMs >= t.items[m].createdAtMs
    ensures var after := Next(t, PersistOp(RevisingChange(t, m, t.revisions[source].value, "restore", d)));
            && after.items[m].head == Some(d.revision) && d.revision in after.revisions
            && after.revisions[d.revision].value == t.revisions[source].value
            && after.revisions[d.revision].previous == t.items[m].head
            && after.revisions.Keys == t.revisions.Keys + {d.revision}
  {
    assert RevisionInv(t, source);
    RevisionCommitsExactlyWhen(t, m, t.revisions[source].value, "restore", d);
  }

  // ---- Whole runs of the service against the ledger ----

  /** The memory calls of the service. */
  datatype ServiceOp =
    | CommitCall(existing: Option<MemoryId>, key: string, value: string, source: string, d: Draw)
    | RestoreCall(m: MemoryId, revision: RevisionId, d: Draw)
    | StateCall(m: MemoryId, disabled: bool)

  /** The one change a call issues, if it issues one. */
  ghost function Issued(t: Tables, op: ServiceOp): Option<Change> {
    match op
    case CommitCall(existing, key, value, source, d) =>
      if existing.None? then Some(CreatingChange(Preference(key, value), source, d))
      else if HoldsPreference(t, existing.value, key) then Some(RevisingChange(t, existing.value, Preference(key, value), source, d))
      else None
    case RestoreCall(m, revision, d) =>
      if m in t.items && t.items[m].head.Some? && t.items[m].head.value in t.revisions
         && revision in t.revisions && t.revisions[revision].memoryId == m
      then Some(RevisingChange(t, m, t.revisions[revision].value, "restore", d))
      else None
    case StateCall(_, _) => None
  }

  ghost function ServiceNext(t: Tables, op: ServiceOp): Tables {
    if op.StateCall? then WithDisabled(t, op.m, op.disabled)
    else if Issued(t, op).Some? then Next(t, PersistOp(Issued(t, op).value))
    else t
  }

  /** What the ledger does meanwhile: one step if the issued change commits, and nothing otherwise. */
  ghost function LedgerNext(l: LedgerState, t: Tables, op: ServiceOp): (LedgerState, bool) {
    var issued := Issued(t, op);
    if issued.None? || !Accepted(t, issued.value) then (l, true)
    else match op
      case CommitCall(None, key, value, _, d) =>
        var (next, r) := l.Create(d.memory, d.revision, Semantic, Preference(key, value), [d.evidence], d.nowMs);
        (next, r == Ok(d.memory))
      case CommitCall(Some(m), key, value, _, d) =>
        var (next, r) := l.Revise(m, d.revision, Preference(key, value), [d.evidence], d.nowMs);
        (next, r == Ok(d.revision))
      case RestoreCall(m, revision, d) =>
        var (next, r) := l.Restore(m, revision, d.revision, [d.evidence], d.nowMs);
        (next, r == Ok(d.revision))
      case StateCall(_, _) => (l, true)
  }

  ghost function ServiceRun(calls: seq<ServiceOp>): Tables {
    if calls == [] then EMPTY else ServiceNext(ServiceRun(calls[..|calls| - 1]), calls[|calls| - 1])
  }

  /** The ledger's state after the same calls, and whether each of its steps succeeded. */
  ghost function LedgerRun(calls: seq<ServiceOp>): (LedgerState, bool) {
    if calls == [] then (LedgerState(map[], map[]), true)
    else
      var (l, fine) := LedgerRun(calls[..|calls| - 1]);
      var (next, stepFine) := LedgerNext(l, ServiceRun(calls[..|calls| - 1]), calls[|calls| - 1]);
      (next, fine && stepFine)
  }

  lemma DisablingRefines(l: LedgerState, t: Tables, m: MemoryId, disabled: bool)
    requires Refines(l, t)
    ensures Refines(l, WithDisabled(t, m, disabled))
  {
    var after := WithDisabled(t, m, disabled);
    forall x | x in after.items ensures ItemRefines(l.items[x], x, after.items[x]) {
      assert ItemRefines(l.items[x], x, t.items[x]);
    }
    forall r | r in after.revisions ensures RevisionRefines(l.revisions[r], r, after) {
      assert RevisionRefines(l.revisions[r], r, t);
    }
  }

  ghost predicate Simulates(l: LedgerState, t: Tables, op: ServiceOp) {
    Inv(ServiceNext(t, op)) && Refines(LedgerNext(l, t, op).0, ServiceNext(t, op)) && LedgerNext(l, t, op).1
  }

  lemma AcceptedCreationIsNew(t: Tables, value: MemoryValue, source: string, d: Draw)
    requires Accepted(t, CreatingChange(value, source, d))
    ensures d.memory !in t.items
  {
  }

  lemma IssuedCommits(t: Tables, op: ServiceOp, c: Change)
    requires Inv(t) && !op.StateCall? && Issued(t, op) == Some(c) && Accepted(t, c)
    ensures ServiceNext(t, op) == Committed(t, c) && Inv(ServiceNext(t, op))
  {
    hide Inv, Accepted;
    CommittingKeepsInv(t, c);
  }

  lemma IdleCallSimulates(l: LedgerState, t: Tables, op: ServiceOp)
    requires Inv(t) && Refines(l, t) && !op.StateCall?
    requires Issued(t, op).Some? ==> !Accepted(t, Issued(t, op).value)
    ensures Simulates(l, t, op)
  {
  }

  lemma StateCallSimulates(l: LedgerState, t: Tables, m: MemoryId, disabled: bool)
    requires Inv(t) && Refines(l, t)
    ensures Simulates(l, t, StateCall(m, disabled))
  {
    DisablingKeepsInv(t, m, disabled);
    DisablingRefines(l, t, m, disabled);
  }

  lemma CreatingCallSimulates(l: LedgerState, t: Tables, key: string, value: string, source: string, d: Draw)
    requires Inv(t) && Refines(l, t) && Accepted(t, CreatingChange(Preference(key, value), source, d))
    ensures Simulates(l, t, CommitCall(None, key, value, source, d))
  {
    hide Inv, Accepted, Committed, Refines, CreatingChange;
    AcceptedCreationIsNew(t, Preference(key, value), source, d);
    IssuedCommits(t, CommitCall(None, key, value, source, d), CreatingChange(Preference(key, value), source, d));
    CreatingRefinesLedger(l, t, Preference(key, value), source, d);
  }

  lemma RevisingCallSimulates(l: LedgerState, t: Tables, m: MemoryId, key: string, value: string, source: string, d: Draw)
    requires Inv(t) && Refines(l, t) && HoldsPreference(t, m, key)
    requires Accepted(t, RevisingChange(t, m, Preference(key, value), source, d))
    ensures Simulates(l, t, CommitCall(Some(m), key, value, source, d))
  {
    hide Inv, Accepted, Committed, Refines, RevisingChange;
    IssuedCommits(t, CommitCall(Some(m), key, value, source, d), RevisingChange(t, m, Preference(key, value), source, d));
    RevisingRefinesLedger(l, t, m, Preference(key, value), source, d);
  }

  lemma RestoringCallSimulates(l: LedgerState, t: Tables, m: MemoryId, revision: RevisionId, d: Draw)
    requires Inv(t) && Refines(l, t) && Issued(t, RestoreCall(m, revision, d)).Some?
    requires Accepted(t, RevisingChange(t, m, t.revisions[revision].value, "restore", d))
    ensures Simulates(l, t, RestoreCall(m, revision, d))
  {
    hide Inv, Accepted, Committed, Refines, RevisingChange;
    IssuedCommits(t, RestoreCall(m, revision, d), RevisingChange(t, m, t.revisions[revision].value, "restore", d));
    RestoringRefinesLedger(l, t, m, revision, d);
  }

  lemma CallRefinesLedger(l: LedgerState, t: Tables, op: ServiceOp)
    requires Inv(t) && Refines(l, t)
    ensures Simulates(l, t, op)
  {
    var issued := Issued(t, op);
    if op.StateCall? {
      StateCallSimulates(l, t, op.m, op.disabled);
    } else if issued.None? || !Accepted(t, issued.value) {
      IdleCallSimulates(l, t, op);
    } else {
      match op {
        case CommitCall(None, key, value, source, d) => CreatingCallSimulates(l, t, key, value, source, d);
        case CommitCall(Some(m), key, value, source, d) => RevisingCallSimulates(l, t, m, key, value, source, d);
        case RestoreCall(m, revision, d) => RestoringCallSimulates(l, t, m, revision, d);
      }
    }
  }

  /** Over every run of the service's memory calls, failing ones included, the tables are at every point the
      ledger's state: each committed call is one successful ledger step and every other call none. */
  lemma {:induction false} ServiceRunsRefineLedger(calls: seq<ServiceOp>)
    ensures Refines(LedgerRun(calls).0, ServiceRun(calls)) && LedgerRun(calls).1
    ensures Inv(ServiceRun(calls))
  {
    if calls != [] {
      ServiceRunsRefineLedger(calls[..|calls| - 1]);
      CallRefinesLedger(LedgerRun(calls[..|calls| - 1]).0, ServiceRun(calls[..|calls| - 1]), calls[|calls| - 1]);
    }
  }
}
