/** Versioned memory (crates/memory/src/semantic.rs and the memory part of crates/storage/src/sqlite.rs). */
module Memory {
  import opened Prelude
  import opened Domain

  type MemoryId = int
  type RevisionId = int
  type EvidenceId = int
  type AuditId = int

  datatype MemoryKind = Semantic | Procedural

  datatype MemoryValue =
    | Fact(subject: EntityId, predicate_: string, object_: string)
    | Relation(source: EntityId, relation: string, target: EntityId)
    | Preference(key: string, value: string)
    | Procedure(name: string, capabilityIds: seq<string>)
  {
    function Kind(): MemoryKind { if Procedure? then Procedural else Semantic }
  }

  datatype Evidence = Evidence(id: EvidenceId, trust: TrustClass, source: Option<string>, createdAtMs: int)

  datatype MemoryItem =
    MemoryItem(id: MemoryId, kind: MemoryKind, currentRevisionId: RevisionId, createdAtMs: int, updatedAtMs: int)

  datatype MemoryRevision = MemoryRevision(
    id: RevisionId,
    memoryId: MemoryId,
    previous: Option<RevisionId>,
    value: MemoryValue,
    evidenceIds: seq<EvidenceId>,
    createdAtMs: int,
    validFromMs: Option<int>,
    validUntilMs: Option<int>)

  // ---- The in-memory ledger: the simple specification ----

  datatype MemoryError = MissingEvidence | ItemNotFound | RevisionNotFound | RevisionMismatch | KindMismatch

  datatype LedgerState = LedgerState(items: map<MemoryId, MemoryItem>, revisions: map<RevisionId, MemoryRevision>)
  {
    function Create(m: MemoryId, r: RevisionId, kind: MemoryKind, value: MemoryValue, evidenceIds: seq<EvidenceId>, nowMs: int):
      (LedgerState, Result<MemoryId, MemoryError>)
    {
      if evidenceIds == [] then (this, Err(MissingEvidence))
      else if value.Kind() != kind then (this, Err(KindMismatch))
      else
        (LedgerState(items[m := MemoryItem(m, kind, r, nowMs, nowMs)],
                     revisions[r := MemoryRevision(r, m, None, value, evidenceIds, nowMs, Some(nowMs), None)]),
         Ok(m))
    }

    function Revise(m: MemoryId, r: RevisionId, value: MemoryValue, evidenceIds: seq<EvidenceId>, nowMs: int):
      (LedgerState, Result<RevisionId, MemoryError>)
    {
      if evidenceIds == [] then (this, Err(MissingEvidence))
      else if m !in items then (this, Err(ItemNotFound))
      else if value.Kind() != items[m].kind then (this, Err(KindMismatch))
      else
        var previous := Some(items[m].currentRevisionId);
        (LedgerState(items[m := items[m].(currentRevisionId := r, updatedAtMs := nowMs)],
                     revisions[r := MemoryRevision(r, m, previous, value, evidenceIds, nowMs, Some(nowMs), None)]),
         Ok(r))
    }

    function Restore(m: MemoryId, source: RevisionId, r: RevisionId, evidenceIds: seq<EvidenceId>, nowMs: int):
      (LedgerState, Result<RevisionId, MemoryError>)
    {
      if source !in revisions then (this, Err(RevisionNotFound))
      else if revisions[source].memoryId != m then (this, Err(RevisionMismatch))
      else Revise(m, r, revisions[source].value, evidenceIds, nowMs)
    }
  }

  class MemoryLedger {
    var items: map<MemoryId, MemoryItem>
    var revisions: map<RevisionId, MemoryRevision>

    function State(): LedgerState
      reads this
    {
      LedgerState(items, revisions)
    }

    constructor ()
      ensures State() == LedgerState(map[], map[])
    {
      items, revisions := map[], map[];
    }

    method Create(m: MemoryId, r: RevisionId, kind: MemoryKind, value: MemoryValue, evidenceIds: seq<EvidenceId>, nowMs: int)
      returns (result: Result<MemoryId, MemoryError>)
      modifies this
      ensures (State(), result) == old(State()).Create(m, r, kind, value, evidenceIds, nowMs)
    {
      if evidenceIds == [] {
        return Err(MissingEvidence);
      }
      if value.Kind() != kind {
        return Err(KindMismatch);
      }
      revisions := revisions[r := MemoryRevision(r, m, None, value, evidenceIds, nowMs, Some(nowMs), None)];
      items := items[m := MemoryItem(m, kind, r, nowMs, nowMs)];
      return Ok(m);
    }

    method Revise(m: MemoryId, r: RevisionId, value: MemoryValue, evidenceIds: seq<EvidenceId>, nowMs: int)
      returns (result: Result<RevisionId, MemoryError>)
      modifies this
      ensures (State(), result) == old(State()).Revise(m, r, value, evidenceIds, nowMs)
    {
      if evidenceIds == [] {
        return Err(MissingEvidence);
      }
      if m !in items {
        return Err(ItemNotFound);
      }
      var item := items[m];
      if value.Kind() != item.kind {
        return Err(KindMismatch);
      }
      revisions := revisions[r := MemoryRevision(r, m, Some(item.currentRevisionId), value, evidenceIds, nowMs, Some(nowMs), None)];
      items := items[m := item.(currentRevisionId := r, updatedAtMs := nowMs)];
      return Ok(r);
    }

    method Restore(m: MemoryId, source: RevisionId, r: RevisionId, evidenceIds: seq<EvidenceId>, nowMs: int)
      returns (result: Result<RevisionId, MemoryError>)
      modifies this
      ensures (State(), result) == old(State()).Restore(m, source, r, evidenceIds, nowMs)
    {
      if source !in revisions {
        return Err(RevisionNotFound);
      }
      if revisions[source].memoryId != m {
        return Err(RevisionMismatch);
      }
      result := Revise(m, r, revisions[source].value, evidenceIds, nowMs);
    }
  }

  // ---- The SQL tables ----

  datatype ItemRow = ItemRow(kind: MemoryKind, head: Option<RevisionId>, createdAtMs: int, updatedAtMs: int, disabled: bool)
  datatype RevisionRow = RevisionRow(
    memoryId: MemoryId, previous: Option<RevisionId>, value: MemoryValue,
    createdAtMs: int, validFromMs: Option<int>, validUntilMs: Option<int>)
  datatype EvidenceRow = EvidenceRow(trust: TrustClass, source: Option<string>, createdAtMs: int)

  datatype Tables = Tables(
    items: map<MemoryId, ItemRow>,
    revisions: map<RevisionId, RevisionRow>,
    evidence: map<EvidenceId, EvidenceRow>,
    links: set<(RevisionId, EvidenceId)>,
    audit: map<AuditId, (MemoryId, RevisionId)>)

  datatype StorageError = InvalidMemoryChange | ConstraintViolation

  /** One attempted change: the item and revision as the caller believes them to be, and new evidence. */
  datatype Change = Change(item: MemoryItem, revision: MemoryRevision, evidence: seq<Evidence>, auditId: AuditId)

  predicate Distinct<T(==)>(s: seq<T>) {
    forall i, j | 0 <= i < j < |s| :: s[i] != s[j]
  }

  function RowOf(e: Evidence): EvidenceRow {
    EvidenceRow(e.trust, e.source, e.createdAtMs)
  }

  ghost predicate Supplied(evidence: seq<Evidence>, id: EvidenceId) {
    exists e | e in evidence :: e.id == id
  }

  ghost predicate TrustedLink(t: Tables, c: Change, id: EvidenceId) {
    || (exists e | e in c.evidence :: e.id == id && e.trust.IndependentlyAuthorizesProceduralMemory())
    || (!Supplied(c.evidence, id) && id in t.evidence && t.evidence[id].trust.IndependentlyAuthorizesProceduralMemory())
  }

  ghost predicate Consistent(c: Change) {
    var item, rev := c.item, c.revision;
    && item.id == rev.memoryId
    && item.currentRevisionId == rev.id
    && item.kind == rev.value.Kind()
    && item.createdAtMs <= item.updatedAtMs == rev.createdAtMs
    && rev.evidenceIds != [] && Distinct(rev.evidenceIds)
    && (forall i, j | 0 <= i < j < |c.evidence| :: c.evidence[i].id != c.evidence[j].id)
    && (forall e | e in c.evidence :: e.id in rev.evidenceIds)
    && (rev.validFromMs.Some? && rev.validUntilMs.Some? ==> rev.validUntilMs.value >= rev.validFromMs.value)
  }

  /** The change names the head that is stored: none for a new item, the current one otherwise. */
  ghost predicate NamesHead(t: Tables, c: Change) {
    if c.item.id !in t.items then c.revision.previous.None?
    else
      var row := t.items[c.item.id];
      && row.kind == c.item.kind && row.createdAtMs == c.item.createdAtMs
      && row.head.Some? && c.revision.previous == row.head
      && row.head.value in t.revisions && t.revisions[row.head.value].memoryId == c.item.id
  }

  ghost predicate EvidenceFits(t: Tables, c: Change) {
    && (forall e | e in c.evidence && e.id in t.evidence :: t.evidence[e.id] == RowOf(e))
    && (forall id | id in c.revision.evidenceIds :: Supplied(c.evidence, id) || id in t.evidence)
    && (c.item.kind.Procedural? ==> exists id | id in c.revision.evidenceIds :: TrustedLink(t, c, id))
  }

  /** Exactly the changes that commit. */
  ghost predicate Accepted(t: Tables, c: Change) {
    Consistent(c) && NamesHead(t, c) && EvidenceFits(t, c) && c.revision.id !in t.revisions && c.auditId !in t.audit
  }

  function Linked(r: RevisionId, ids: seq<EvidenceId>): set<(RevisionId, EvidenceId)> {
    set id | id in ids :: (r, id)
  }

  lemma LinkedStep(r: RevisionId, ids: seq<EvidenceId>, id: EvidenceId)
    ensures Linked(r, ids + [id]) == Linked(r, ids) + {(r, id)}
  {
    forall x: EvidenceId | x in ids ensures x in ids + [id] {
    }
    assert id in ids + [id];
  }

  function WithEvidence(stored: map<EvidenceId, EvidenceRow>, supplied: seq<Evidence>): map<EvidenceId, EvidenceRow> {
    if supplied == [] then stored
    else
      var e, rest := supplied[|supplied| - 1], WithEvidence(stored, supplied[..|supplied| - 1]);
      if e.id in rest then rest else rest[e.id := RowOf(e)]
  }

  function Committed(t: Tables, c: Change): Tables {
    var item, rev := c.item, c.revision;
    var disabled := item.id in t.items && t.items[item.id].disabled;
    Tables(t.items[item.id := ItemRow(item.kind, Some(rev.id), item.createdAtMs, item.updatedAtMs, disabled)],
           t.revisions[rev.id := RevisionRow(rev.memoryId, rev.previous, rev.value, rev.createdAtMs, rev.validFromMs, rev.validUntilMs)],
           WithEvidence(t.evidence, c.evidence),
           t.links + Linked(rev.id, rev.evidenceIds),
           t.audit[c.auditId := (item.id, rev.id)])
  }

  lemma {:induction false} WithEvidenceAdds(stored: map<EvidenceId, EvidenceRow>, supplied: seq<Evidence>)
    ensures var all := WithEvidence(stored, supplied);
            && (forall id | id in stored :: id in all && all[id] == stored[id])
            && (forall id :: id in all <==> id in stored || Supplied(supplied, id))
            && (forall id | id in all && id !in stored :: exists e | e in supplied :: e.id == id && all[id] == RowOf(e))
  {
    if supplied != [] {
      WithEvidenceAdds(stored, supplied[..|supplied| - 1]);
      assert supplied == supplied[..|supplied| - 1] + [supplied[|supplied| - 1]];
    }
  }

  class MemoryDatabase {
    var tables: Tables

    constructor ()
      ensures tables == Tables(map[], map[], map[], {}, map[])
    {
      tables := Tables(map[], map[], map[], {}, map[]);
    }

    /** Fills the map of supplied evidence; `None` if an identifier repeats. */
    static method Supply(evidence: seq<Evidence>) returns (supplied: Option<map<EvidenceId, Evidence>>)
      ensures supplied.Some? <==> forall i, j | 0 <= i < j < |evidence| :: evidence[i].id != evidence[j].id
      ensures supplied.Some? ==> Indexes(supplied.value, evidence)
    {
      var found: map<EvidenceId, Evidence> := map[];
      var i := 0;
      while i < |evidence|
        invariant 0 <= i <= |evidence|
        invariant forall j, k | 0 <= j < k < i :: evidence[j].id != evidence[k].id
        invariant forall j | 0 <= j < i :: evidence[j].id in found && found[evidence[j].id] == evidence[j]
        invariant forall id | id in found :: exists j | 0 <= j < i :: evidence[j].id == id
      {
        if evidence[i].id in found {
          return None;
        }
        found := found[evidence[i].id := evidence[i]];
        i := i + 1;
      }
      return Some(found);
    }

    /** Inserts or verifies each referenced piece of evidence in turn and notes whether any is trusted. */
    static method ResolveEvidence(stored: map<EvidenceId, EvidenceRow>, ids: seq<EvidenceId>, supplied: map<EvidenceId, Evidence>)
      returns (r: Option<(map<EvidenceId, EvidenceRow>, bool)>)
      ensures r.Some? <==> AllResolve(stored, supplied, ids)
      ensures r.Some? ==> r.value.0 == Gathered(stored, supplied, ids)
      ensures r.Some? ==> (r.value.1 <==> AnyTrusted(stored, supplied, ids))
    {
      var rows, trusted, i := stored, false, 0;
      assert ids[..0] == [];
      while i < |ids|
        invariant 0 <= i <= |ids|
        invariant AllResolve(stored, supplied, ids[..i])
        invariant rows == Gathered(stored, supplied, ids[..i])
        invariant trusted <==> AnyTrusted(stored, supplied, ids[..i])
      {
        var id := ids[i];
        ResolveNext(stored, supplied, ids, i);
        if id in supplied {
          if id in rows && rows[id] != RowOf(supplied[id]) {
            return None;
          }
          rows := rows[id := RowOf(supplied[id])];
          trusted := trusted || supplied[id].trust.IndependentlyAuthorizesProceduralMemory();
        } else {
          if id !in rows {
            return None;
          }
          trusted := trusted || rows[id].trust.IndependentlyAuthorizesProceduralMemory();
        }
        i := i + 1;
      }
      assert ids[..|ids|] == ids;
      return Some((rows, trusted));
    }

    static method LinkEvidence(links: set<(RevisionId, EvidenceId)>, r: RevisionId, ids: seq<EvidenceId>) returns (after: set<(RevisionId, EvidenceId)>)
      ensures after == links + Linked(r, ids)
    {
      after := links;
      var i := 0;
      while i < |ids|
        invariant 0 <= i <= |ids|
        invariant after == links + Linked(r, ids[..i])
      {
        after := after + {(r, ids[i])};
        LinkedStep(r, ids[..i], ids[i]);
        assert ids[..i + 1] == ids[..i] + [ids[i]];
        i := i + 1;
      }
      assert ids[..|ids|] == ids;
    }

    /** Compares the change with the stored item and head; gives the item's disabled flag. */
    static method CheckHead(t: Tables, c: Change) returns (r: Option<bool>)
      requires c.item.kind == c.revision.value.Kind()
      ensures r.Some? <==> NamesHead(t, c)
      ensures r.Some? ==> r.value == (c.item.id in t.items && t.items[c.item.id].disabled)
    {
      var item, rev := c.item, c.revision;
      if item.id !in t.items {
        return if rev.previous.Some? then None else Some(false);
      }
      var row := t.items[item.id];
      if row.kind != rev.value.Kind() || item.createdAtMs != row.createdAtMs || row.head.None? || rev.previous != row.head {
        return None;
      }
      if row.head.value !in t.revisions || t.revisions[row.head.value].memoryId != item.id {
        return None;
      }
      return Some(row.disabled);
    }

    /** The guarded compare-and-set of an item's head, in one transaction. */
    method PersistMemoryRevision(c: Change) returns (r: Result<(), StorageError>)
      modifies this
      ensures r.Ok? <==> Accepted(old(tables), c)
      ensures tables == if r.Ok? then Committed(old(tables), c) else old(tables)
      ensures forall m | m in tables.items :: tables.items[m].disabled <==> m in old(tables).items && old(tables).items[m].disabled
    {
      var item, rev, t := c.item, c.revision, tables;
      if item.id != rev.memoryId || item.currentRevisionId != rev.id || item.kind != rev.value.Kind()
         || item.updatedAtMs != rev.createdAtMs || item.updatedAtMs < item.createdAtMs {
        return Err(InvalidMemoryChange);
      }
      if rev.evidenceIds == [] || !Distinct(rev.evidenceIds) {
        return Err(InvalidMemoryChange);
      }
      var supply := Supply(c.evidence);
      if supply.None? {
        return Err(InvalidMemoryChange);
      }
      var supplied := supply.value;
      if exists id | id in supplied :: id !in rev.evidenceIds {
        ghost var id :| id in supplied && id !in rev.evidenceIds;
        assert Supplied(c.evidence, id);
        return Err(InvalidMemoryChange);
      }
      var head := CheckHead(t, c);
      if head.None? {
        return Err(InvalidMemoryChange);
      }
      var disabled := head.value;
      var resolved := ResolveEvidence(t.evidence, rev.evidenceIds, supplied);
      EvidenceFitsWhenResolved(t, c, supplied);
      if resolved.None? {
        return Err(InvalidMemoryChange);
      }
      GatheredIsWithEvidence(t, c, supplied);
      var (evidence, trusted) := resolved.value;
      if rev.value.Kind().Procedural? && !trusted {
        return Err(InvalidMemoryChange);
      }
      if rev.id in t.revisions || (rev.validFromMs.Some? && rev.validUntilMs.Some? && rev.validUntilMs.value < rev.validFromMs.value) {
        return Err(ConstraintViolation);
      }
      var links := LinkEvidence(t.links, rev.id, rev.evidenceIds);
      if c.auditId in t.audit {
        return Err(ConstraintViolation);
      }
      tables := Tables(t.items[item.id := ItemRow(item.kind, Some(rev.id), item.createdAtMs, item.updatedAtMs, disabled)],
                       t.revisions[rev.id := RevisionRow(rev.memoryId, rev.previous, rev.value, rev.createdAtMs, rev.validFromMs, rev.validUntilMs)],
                       evidence, links, t.audit[c.auditId := (item.id, rev.id)]);
      return Ok(());
    }

    /** `UPDATE memory_items SET disabled = ... WHERE id = ...`. */
    method SetDisabled(m: MemoryId, disabled: bool) returns (updated: bool)
      modifies this
      ensures updated <==> m in old(tables).items
      ensures tables == WithDisabled(old(tables), m, disabled)
      ensures tables.items.Keys == old(tables).items.Keys
      ensures forall x | x in tables.items :: tables.items[x] == if x == m then old(tables).items[x].(disabled := disabled) else old(tables).items[x]
    {
      updated := m in tables.items;
      tables := WithDisabled(tables, m, disabled);
    }
  }

  function WithDisabled(t: Tables, m: MemoryId, disabled: bool): Tables {
    if m in t.items then t.(items := t.items[m := t.items[m].(disabled := disabled)]) else t
  }

  predicate Resolves(stored: map<EvidenceId, EvidenceRow>, supplied: map<EvidenceId, Evidence>, id: EvidenceId) {
    if id in supplied then id in stored ==> stored[id] == RowOf(supplied[id]) else id in stored
  }

  predicate Trusted(stored: map<EvidenceId, EvidenceRow>, supplied: map<EvidenceId, Evidence>, id: EvidenceId) {
    if id in supplied then supplied[id].trust.IndependentlyAuthorizesProceduralMemory()
    else id in stored && stored[id].trust.IndependentlyAuthorizesProceduralMemory()
  }

  ghost predicate AnyTrusted(stored: map<EvidenceId, EvidenceRow>, supplied: map<EvidenceId, Evidence>, ids: seq<EvidenceId>) {
    exists id | id in ids :: Trusted(stored, supplied, id)
  }

  ghost predicate AllResolve(stored: map<EvidenceId, EvidenceRow>, supplied: map<EvidenceId, Evidence>, ids: seq<EvidenceId>) {
    forall id | id in ids :: Resolves(stored, supplied, id)
  }

  /** What one more identifier needs of the rows gathered so far, and adds to them. */
  lemma ResolveStep(stored: map<EvidenceId, EvidenceRow>, supplied: map<EvidenceId, Evidence>, ids: seq<EvidenceId>, id: EvidenceId)
    requires AllResolve(stored, supplied, ids)
    ensures var rows := Gathered(stored, supplied, ids);
            && (AllResolve(stored, supplied, ids + [id]) <==> Resolves(stored, supplied, id))
            && (Resolves(stored, supplied, id) <==>
                if id in supplied then id in rows ==> rows[id] == RowOf(supplied[id]) else id in rows)
            && (id !in supplied && id in rows ==> id in stored && rows[id] == stored[id])
    ensures Gathered(stored, supplied, ids + [id]) ==
            if id in supplied then Gathered(stored, supplied, ids)[id := RowOf(supplied[id])] else Gathered(stored, supplied, ids)
    ensures AnyTrusted(stored, supplied, ids + [id]) <==> AnyTrusted(stored, supplied, ids) || Trusted(stored, supplied, id)
  {
    AnyTrustedStep(stored, supplied, ids, id);
    GatheredStep(stored, supplied, ids, id);
    assert id in ids + [id];
    assert forall x: EvidenceId | x in ids + [id] :: x in ids || x == id;
    assert forall x: EvidenceId | x in ids :: x in ids + [id];
  }

  /** The same step, on prefixes. */
  lemma ResolveNext(stored: map<EvidenceId, EvidenceRow>, supplied: map<EvidenceId, Evidence>, ids: seq<EvidenceId>, i: nat)
    requires i < |ids| && AllResolve(stored, supplied, ids[..i])
    ensures var rows, id := Gathered(stored, supplied, ids[..i]), ids[i];
            && (AllResolve(stored, supplied, ids[..i + 1]) <==>
                if id in supplied then id in rows ==> rows[id] == RowOf(supplied[id]) else id in rows)
            && (AllResolve(stored, supplied, ids) ==> AllResolve(stored, supplied, ids[..i + 1]))
            && Gathered(stored, supplied, ids[..i + 1]) == (if id in supplied then rows[id := RowOf(supplied[id])] else rows)
            && (AnyTrusted(stored, supplied, ids[..i + 1]) <==>
                AnyTrusted(stored, supplied, ids[..i]) || Trusted(stored, supplied, id))
            && (id !in supplied && id in rows ==> id in stored && rows[id] == stored[id])
  {
    assert ids[..i + 1] == ids[..i] + [ids[i]];
    ResolveStep(stored, supplied, ids[..i], ids[i]);
  }

  lemma AnyTrustedStep(stored: map<EvidenceId, EvidenceRow>, supplied: map<EvidenceId, Evidence>, ids: seq<EvidenceId>, id: EvidenceId)
    ensures AnyTrusted(stored, supplied, ids + [id]) <==> AnyTrusted(stored, supplied, ids) || Trusted(stored, supplied, id)
  {
    assert id in ids + [id];
    forall x: EvidenceId | x in ids ensures x in ids + [id] {
    }
  }

  function Gathered(stored: map<EvidenceId, EvidenceRow>, supplied: map<EvidenceId, Evidence>, ids: seq<EvidenceId>): map<EvidenceId, EvidenceRow> {
    stored + map id | id in ids && id in supplied :: RowOf(supplied[id])
  }

  lemma GatheredStep(stored: map<EvidenceId, EvidenceRow>, supplied: map<EvidenceId, Evidence>, ids: seq<EvidenceId>, id: EvidenceId)
    ensures Gathered(stored, supplied, ids + [id]) ==
            if id in supplied then Gathered(stored, supplied, ids)[id := RowOf(supplied[id])] else Gathered(stored, supplied, ids)
  {
  }

  /** The index of the supplied evidence. */
  ghost predicate Indexes(supplied: map<EvidenceId, Evidence>, evidence: seq<Evidence>) {
    && (forall id :: id in supplied <==> Supplied(evidence, id))
    && (forall e | e in evidence :: e.id in supplied && supplied[e.id] == e)
  }

  lemma TrustIsTrustedLink(t: Tables, c: Change, supplied: map<EvidenceId, Evidence>, id: EvidenceId)
    requires Indexes(supplied, c.evidence)
    ensures Trusted(t.evidence, supplied, id) == TrustedLink(t, c, id)
  {
    if id in supplied {
      var e :| e in c.evidence && e.id == id;
    }
  }

  lemma EvidenceFitsWhenResolved(t: Tables, c: Change, supplied: map<EvidenceId, Evidence>)
    requires (forall e | e in c.evidence :: e.id in c.revision.evidenceIds) && Indexes(supplied, c.evidence)
    ensures EvidenceFits(t, c) <==>
            && AllResolve(t.evidence, supplied, c.revision.evidenceIds)
            && (c.item.kind.Procedural? ==> AnyTrusted(t.evidence, supplied, c.revision.evidenceIds))
  {
    forall id ensures Trusted(t.evidence, supplied, id) == TrustedLink(t, c, id) {
      TrustIsTrustedLink(t, c, supplied, id);
    }
    forall e | e in c.evidence ensures Supplied(c.evidence, e.id) && supplied[e.id] == e {
    }
  }

  lemma GatheredIsWithEvidence(t: Tables, c: Change, supplied: map<EvidenceId, Evidence>)
    requires (forall e | e in c.evidence :: e.id in c.revision.evidenceIds) && Indexes(supplied, c.evidence)
    requires AllResolve(t.evidence, supplied, c.revision.evidenceIds)
    ensures Gathered(t.evidence, supplied, c.revision.evidenceIds) == WithEvidence(t.evidence, c.evidence)
  {
    WithEvidenceAdds(t.evidence, c.evidence);
    var rows, all := Gathered(t.evidence, supplied, c.revision.evidenceIds), WithEvidence(t.evidence, c.evidence);
    forall id ensures id in rows <==> id in all {
      if id in supplied {
        var e :| e in c.evidence && e.id == id;
      }
    }
    forall id | id in rows ensures rows[id] == all[id] {
      if id in supplied {
        var e :| e in c.evidence && e.id == id;
      }
    }
  }
}
