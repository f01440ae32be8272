/** Preferences by key over the service's memory calls (apps/daemon/src/interaction_service.rs,
    crates/storage/src/interaction.rs): whether one key has one enabled item, and what a commit leaves to be read. */
module PreferenceRuns {
  import opened Prelude
  import opened Domain
  import opened Memory
  import opened MemoryRuns

  /** A commit revises an item that holds its key exactly if there is one, as its query finds. */
  ghost predicate AsQueried(t: Tables, op: ServiceOp) {
    op.CommitCall? ==>
      if op.existing.Some? then HoldsPreference(t, op.existing.value, op.key) else forall m :: !HoldsPreference(t, m, op.key)
  }

  /** No key is held by two items. */
  ghost predicate UniqueKeys(t: Tables) {
    forall m, n, key | HoldsPreference(t, m, key) && HoldsPreference(t, n, key) :: m == n
  }

  ghost predicate SameKey(t: Tables, r: RevisionId, q: RevisionId)
    requires r in t.revisions && t.revisions[r].value.Preference? && q in t.revisions && t.revisions[q].value.Preference?
  {
    t.revisions[r].memoryId == t.revisions[q].memoryId ==> t.revisions[r].value.key == t.revisions[q].value.key
  }

  /** Every stored value is a preference, and all revisions of an item have one key. */
  ghost predicate OneKeyEach(t: Tables) {
    && (forall r | r in t.revisions :: t.revisions[r].value.Preference?)
    && forall r, q | r in t.revisions && q in t.revisions :: SameKey(t, r, q)
  }

  /** Enabling an item whose key another enabled item holds by now. */
  ghost predicate Duplicates(t: Tables, op: ServiceOp) {
    && op.StateCall? && !op.disabled
    && exists n, key :: n != op.m && HoldsPreference(t, n, key) && HoldsPreference(WithDisabled(t, op.m, false), op.m, key)
  }

  lemma HeadIsItsOwn(t: Tables, m: MemoryId)
    requires Inv(t) && m in t.items
    ensures t.items[m].head.Some? && t.items[m].head.value in t.revisions && t.revisions[t.items[m].head.value].memoryId == m
  {
    var walk :| ItemInv(t, m, walk);
    assert t.items[m].head.value in walk;
  }

  /** What a commit that revises or creates leaves: the head has the new value, and no other item's head changes. */
  lemma CommittedHolds(t: Tables, c: Change, m: MemoryId, key: string)
    requires Inv(t) && Accepted(t, c)
    ensures HoldsPreference(Committed(t, c), m, key) <==>
            if m == c.item.id then !(m in t.items && t.items[m].disabled) && c.revision.value.Preference? && c.revision.value.key == key
            else HoldsPreference(t, m, key)
  {
    if m in t.items {
      HeadIsItsOwn(t, m);
    }
  }

  lemma CommittingKeepsKeys(t: Tables, c: Change)
    requires Inv(t) && OneKeyEach(t) && Accepted(t, c) && c.revision.value.Preference?
    requires c.item.id in t.items ==> t.revisions[t.items[c.item.id].head.value].value.key == c.revision.value.key
    ensures OneKeyEach(Committed(t, c))
  {
    var after := Committed(t, c);
    forall r, q | r in after.revisions && q in after.revisions ensures SameKey(after, r, q) {
      if r in t.revisions && q in t.revisions {
        assert SameKey(t, r, q);
      }
      OldKeyIsNewKey(t, c, r);
      OldKeyIsNewKey(t, c, q);
    }
  }

  lemma OldKeyIsNewKey(t: Tables, c: Change, r: RevisionId)
    requires Inv(t) && OneKeyEach(t) && Accepted(t, c) && c.revision.value.Preference?
    requires c.item.id in t.items ==> t.revisions[t.items[c.item.id].head.value].value.key == c.revision.value.key
    ensures r in t.revisions && t.revisions[r].memoryId == c.item.id ==> t.revisions[r].value.key == c.revision.value.key
  {
    if r in t.revisions && t.revisions[r].memoryId == c.item.id {
      assert RevisionInv(t, r);
      HeadIsItsOwn(t, c.item.id);
      assert SameKey(t, r, t.items[c.item.id].head.value);
    }
  }

  /** The change a call issues is to a preference, of the key the item already has. */
  lemma IssuedKeepsKey(t: Tables, op: ServiceOp)
    requires Inv(t) && OneKeyEach(t) && AsQueried(t, op) && Issued(t, op).Some? && Accepted(t, Issued(t, op).value)
    ensures var c := Issued(t, op).value;
            && c.revision.value.Preference?
            && (c.item.id in t.items ==> t.items[c.item.id].head.Some? && t.items[c.item.id].head.value in t.revisions
                                         && t.revisions[t.items[c.item.id].head.value].value.key == c.revision.value.key)
            && (c.item.id !in t.items ==> forall m :: !HoldsPreference(t, m, c.revision.value.key))
            && (c.item.id in t.items && !t.items[c.item.id].disabled ==> HoldsPreference(t, c.item.id, c.revision.value.key))
  {
    hide Accepted;
    match op
    case CommitCall(None, key, value, source, d) => AcceptedCreationIsNew(t, Preference(key, value), source, d);
    case CommitCall(Some(m), key, value, source, d) =>
    case RestoreCall(m, revision, d) =>
      HeadIsItsOwn(t, m);
      assert SameKey(t, t.items[m].head.value, revision);
  }

  lemma CommitStep(t: Tables, op: ServiceOp)
    requires Inv(t) && OneKeyEach(t) && AsQueried(t, op) && Issued(t, op).Some? && Accepted(t, Issued(t, op).value)
    ensures OneKeyEach(Committed(t, Issued(t, op).value))
    ensures UniqueKeys(t) ==> UniqueKeys(Committed(t, Issued(t, op).value))
  {
    hide Accepted, OneKeyEach, Inv, Issued, Committed;
    var c := Issued(t, op).value;
    IssuedKeepsKey(t, op);
    CommittingKeepsKeys(t, c);
    forall m, n, key | UniqueKeys(t) && HoldsPreference(Committed(t, c), m, key) && HoldsPreference(Committed(t, c), n, key) ensures m == n {
      CommittedHolds(t, c, m, key);
      CommittedHolds(t, c, n, key);
    }
  }

  lemma StateStep(t: Tables, m: MemoryId, disabled: bool)
    requires Inv(t) && OneKeyEach(t) && UniqueKeys(t)
    ensures OneKeyEach(WithDisabled(t, m, disabled))
    ensures UniqueKeys(WithDisabled(t, m, disabled)) <==> !Duplicates(t, StateCall(m, disabled))
  {
    var after := WithDisabled(t, m, disabled);
    forall r, q | r in after.revisions && q in after.revisions ensures SameKey(after, r, q) {
      assert SameKey(t, r, q);
    }
    forall n, key | n != m ensures HoldsPreference(after, n, key) <==> HoldsPreference(t, n, key) {
    }
    forall key | disabled ensures !HoldsPreference(after, m, key) {
    }
    if Duplicates(t, StateCall(m, disabled)) {
      var n, key :| n != m && HoldsPreference(t, n, key) && HoldsPreference(after, m, key);
      assert HoldsPreference(after, n, key);
    }
  }

  /** A call keeps every key with one item exactly if it does not enable an item whose key another one has taken. */
  lemma CallKeepsKeysUniqueExactlyWhen(t: Tables, op: ServiceOp)
    requires Inv(t) && OneKeyEach(t) && UniqueKeys(t) && AsQueried(t, op)
    ensures OneKeyEach(ServiceNext(t, op))
    ensures UniqueKeys(ServiceNext(t, op)) <==> !Duplicates(t, op)
  {
    hide Inv, OneKeyEach, UniqueKeys, Accepted, Committed, AsQueried, WithDisabled;
    if op.StateCall? {
      StateStep(t, op.m, op.disabled);
    } else if Issued(t, op).Some? && Accepted(t, Issued(t, op).value) {
      IssuedCommits(t, op, Issued(t, op).value);
      CommitStep(t, op);
    }
  }

  ghost predicate AllAsQueried(calls: seq<ServiceOp>) {
    forall i | 0 <= i < |calls| :: AsQueried(ServiceRun(calls[..i]), calls[i])
  }

  lemma RunOfPrefix(calls: seq<ServiceOp>, i: nat)
    requires i < |calls|
    ensures ServiceRun(calls[..i + 1]) == ServiceNext(ServiceRun(calls[..i]), calls[i])
  {
    assert calls[..i + 1][..i] == calls[..i];
  }

  lemma {:induction false} UniqueUpTo(calls: seq<ServiceOp>, n: nat)
    requires AllAsQueried(calls) && n <= |calls| && forall i | 0 <= i < n :: !Duplicates(ServiceRun(calls[..i]), calls[i])
    ensures OneKeyEach(ServiceRun(calls[..n])) && UniqueKeys(ServiceRun(calls[..n]))
  {
    if n > 0 {
      hide ServiceNext, Duplicates;
      UniqueUpTo(calls, n - 1);
      RunOfPrefix(calls, n - 1);
      ServiceRunsRefineLedger(calls[..n - 1]);
      CallKeepsKeysUniqueExactlyWhen(ServiceRun(calls[..n - 1]), calls[n - 1]);
    }
  }

  /** Over every run of the service's memory calls: every key is held by at most one item at every point exactly if no call
      enables an item whose key another enabled item holds by then. */
  lemma {:induction false} KeysStayUniqueExactlyWhen(calls: seq<ServiceOp>)
    requires AllAsQueried(calls)
    ensures (forall n | 0 <= n <= |calls| :: UniqueKeys(ServiceRun(calls[..n]))) <==>
            (forall i | 0 <= i < |calls| :: !Duplicates(ServiceRun(calls[..i]), calls[i]))
  {
    hide ServiceNext, Duplicates, UniqueKeys, AsQueried;
    if forall i | 0 <= i < |calls| :: !Duplicates(ServiceRun(calls[..i]), calls[i]) {
      forall n | 0 <= n <= |calls| ensures UniqueKeys(ServiceRun(calls[..n])) {
        UniqueUpTo(calls, n);
      }
    }
    if forall n | 0 <= n <= |calls| :: UniqueKeys(ServiceRun(calls[..n])) {
      forall i | 0 <= i < |calls| ensures !Duplicates(ServiceRun(calls[..i]), calls[i]) {
        NoDuplicatesWhileUnique(calls, i);
      }
    }
  }

  lemma {:induction false} NoDuplicatesWhileUnique(calls: seq<ServiceOp>, i: nat)
    requires AllAsQueried(calls) && i < |calls| && forall n | 0 <= n <= |calls| :: UniqueKeys(ServiceRun(calls[..n]))
    ensures OneKeyEach(ServiceRun(calls[..i])) && !Duplicates(ServiceRun(calls[..i]), calls[i])
  {
    hide ServiceNext, Duplicates, UniqueKeys, AsQueried;
    if i > 0 {
      NoDuplicatesWhileUnique(calls, i - 1);
      RunOfPrefix(calls, i - 1);
      ServiceRunsRefineLedger(calls[..i - 1]);
      assert UniqueKeys(ServiceRun(calls[..i - 1]));
      CallKeepsKeysUniqueExactlyWhen(ServiceRun(calls[..i - 1]), calls[i - 1]);
    } else {
      NothingStoredYet(calls);
    }
    RunOfPrefix(calls, i);
    ServiceRunsRefineLedger(calls[..i]);
    assert UniqueKeys(ServiceRun(calls[..i])) && UniqueKeys(ServiceRun(calls[..i + 1]));
    CallKeepsKeysUniqueExactlyWhen(ServiceRun(calls[..i]), calls[i]);
  }

  lemma NothingStoredYet(calls: seq<ServiceOp>)
    ensures OneKeyEach(ServiceRun(calls[..0])) && UniqueKeys(ServiceRun(calls[..0]))
  {
    assert calls[..0] == [];
  }

  /** A preference that was committed is what its key reads afterwards, on the user's own word, and from no other item if
      the key had at most one. */
  lemma CommittedPreferenceReadsBack(t: Tables, existing: Option<MemoryId>, key: string, value: string, source: string, d: Draw)
    requires Inv(t) && OneKeyEach(t) && AsQueried(t, CommitCall(existing, key, value, source, d))
    requires Issued(t, CommitCall(existing, key, value, source, d)).Some?
    requires Accepted(t, Issued(t, CommitCall(existing, key, value, source, d)).value)
    ensures var after := ServiceNext(t, CommitCall(existing, key, value, source, d));
            var m := if existing.Some? then existing.value else d.memory;
            && HoldsPreference(after, m, key)
            && after.revisions[after.items[m].head.value].value == Preference(key, value)
            && (after.items[m].head.value, d.evidence) in after.links && d.evidence in after.evidence
            && after.evidence[d.evidence] == EvidenceRow(TrustUserExplicit, Some(source), d.nowMs)
            && (UniqueKeys(t) ==> forall n | HoldsPreference(after, n, key) :: n == m)
  {
    var op := CommitCall(existing, key, value, source, d);
    var c := Issued(t, op).value;
    IssuedCommits(t, op, c);
    if existing.None? {
      AcceptedCreationIsNew(t, Preference(key, value), source, d);
    }
    CommittedHolds(t, c, c.item.id, key);
    CommittedTables(t, c);
    CommittedEvidence(t, c);
    assert UserEvidence(d, source) in c.evidence;
    if UniqueKeys(t) {
      CommitStep(t, op);
    }
  }

  // ---- How a key comes to have two items ----

  function Duplicating(): seq<ServiceOp> {
    [CommitCall(None, "editor", "vim", "chat", Draw(1, 1, 1, 1, 10)), StateCall(1, true),
     CommitCall(None, "editor", "emacs", "chat", Draw(2, 2, 2, 2, 20)), StateCall(1, false)]
  }

  function Vim(): Change {
    CreatingChange(Preference("editor", "vim"), "chat", Draw(1, 1, 1, 1, 10))
  }

  function Emacs(): Change {
    CreatingChange(Preference("editor", "emacs"), "chat", Draw(2, 2, 2, 2, 20))
  }

  /** The tables after each of the four calls. */
  ghost function Stage(n: nat): Tables {
    if n == 0 then EMPTY
    else if n == 1 then Committed(EMPTY, Vim())
    else if n == 2 then WithDisabled(Stage(1), 1, true)
    else if n == 3 then Committed(Stage(2), Emacs())
    else WithDisabled(Stage(3), 1, false)
  }

  lemma BothAreAccepted()
    ensures Accepted(Stage(0), Vim()) && Accepted(Stage(2), Emacs())
  {
    CreationCommitsExactlyWhen(EMPTY, Preference("editor", "vim"), "chat", Draw(1, 1, 1, 1, 10));
    CreationCommitsExactlyWhen(Stage(2), Preference("editor", "emacs"), "chat", Draw(2, 2, 2, 2, 20));
  }

  lemma StagesFollow(n: nat)
    requires n < 4
    ensures ServiceNext(Stage(n), Duplicating()[n]) == Stage(n + 1)
  {
    hide Accepted;
    BothAreAccepted();
  }

  lemma {:induction false} RunReachesStage(n: nat)
    requires n <= 4
    ensures ServiceRun(Duplicating()[..n]) == Stage(n)
  {
    if n == 0 {
      assert Duplicating()[..0] == [];
    } else {
      hide ServiceNext, Stage;
      RunReachesStage(n - 1);
      RunOfPrefix(Duplicating(), n - 1);
      StagesFollow(n - 1);
    }
  }

  lemma StagesAreQueried(n: nat)
    requires n < 4
    ensures AsQueried(Stage(n), Duplicating()[n])
  {
  }

  /** Set to `vim`, disabled, set to `emacs` and enabled again, the editor is both: either may be read, and either revised. */
  lemma EnablingDuplicatesPreference()
    ensures AllAsQueried(Duplicating())
    ensures var t := ServiceRun(Duplicating());
            && HoldsPreference(t, 1, "editor") && t.revisions[t.items[1].head.value].value == Preference("editor", "vim")
            && HoldsPreference(t, 2, "editor") && t.revisions[t.items[2].head.value].value == Preference("editor", "emacs")
  {
    forall i | 0 <= i < 4 ensures AsQueried(ServiceRun(Duplicating()[..i]), Duplicating()[i]) {
      RunReachesStage(i);
      StagesAreQueried(i);
    }
    RunReachesStage(4);
    assert Duplicating()[..4] == Duplicating();
  }
}
