/** Provider updates over two stores, the system keyring and the provider table, with compensation
    (apps/daemon/src/interaction_service.rs). Which single step fails is input: a failing keyring or database
    step changes nothing by itself. */
module Providers {
  import opened Prelude

  type ProviderId(==, !new)
  type Secret(==, !new)
  type Details(==, !new)

  /** Credential identifiers: `provider:{id}`, or any other text. */
  datatype Reference = OfProvider(provider: ProviderId) | OtherReference(text: string)

  datatype ProviderStatus = Configured | Connected | Unavailable | Unsupported

  datatype Provider = Provider(
    id: ProviderId, details: Details, credentialId: Option<Reference>, configured: bool, status: ProviderStatus,
    createdAtMs: int, updatedAtMs: int)

  datatype Stores = Stores(keyring: map<Reference, Secret>, providers: map<ProviderId, Provider>)

  /** How the endpoint check ends: fit, an adapter that does not exist, or refused. */
  datatype EndpointCheck = Fit | NoAdapter | Refused

  datatype ProviderUpsert = ProviderUpsert(
    id: ProviderId, details: Details, local: bool, keyFits: bool, apiKey: Option<Secret>, clearApiKey: bool,
    check: EndpointCheck, rowFits: bool, nowMs: int)

  /** Whether each fallible step succeeds. `vanishes`: another connection deletes the row just before. */
  datatype Steps = Steps(looksUp: bool, captures: bool, changes: bool, stores: bool, restores: bool, vanishes: bool)

  datatype ServiceError = Validation | SecretStoreUnavailable | Internal | NotFound

  function PreviousCredential(s: Stores, id: ProviderId): Option<Reference> {
    if id in s.providers then s.providers[id].credentialId else None
  }

  function Replacement(s: Stores, id: ProviderId): Reference {
    if PreviousCredential(s, id).Some? then PreviousCredential(s, id).value else OfProvider(id)
  }

  function NewCredential(s: Stores, q: ProviderUpsert): Option<Reference> {
    if q.apiKey.Some? then Some(Replacement(s, q.id))
    else if q.clearApiKey then None
    else PreviousCredential(s, q.id)
  }

  function NewRow(s: Stores, q: ProviderUpsert): Provider {
    var credential := NewCredential(s, q);
    Provider(q.id, q.details, credential, credential.Some? || q.local, if q.check.NoAdapter? then Unsupported else Configured,
             if q.id in s.providers then s.providers[q.id].createdAtMs else q.nowMs, q.nowMs)
  }

  function NewKeyring(s: Stores, q: ProviderUpsert): map<Reference, Secret> {
    if q.apiKey.Some? then s.keyring[Replacement(s, q.id) := q.apiKey.value]
    else if q.clearApiKey && PreviousCredential(s, q.id).Some? then s.keyring - {PreviousCredential(s, q.id).value}
    else s.keyring
  }

  /** Whether the update touches the keyring at all. */
  predicate TouchesKeyring(s: Stores, q: ProviderUpsert) {
    q.apiKey.Some? || (q.clearApiKey && PreviousCredential(s, q.id).Some?)
  }

  predicate ReachesDatabase(s: Stores, q: ProviderUpsert, f: Steps) {
    (q.apiKey.Some? ==> q.keyFits) && f.looksUp && !q.check.Refused? && (TouchesKeyring(s, q) ==> f.captures && f.changes)
  }

  predicate UpsertSucceeds(s: Stores, q: ProviderUpsert, f: Steps) {
    ReachesDatabase(s, q, f) && f.stores && q.rowFits
  }

  /** The two stores after an update: both changed, or neither, or, when the database refuses and the
      compensation fails too, the keyring alone. */
  function AfterUpsert(s: Stores, q: ProviderUpsert, f: Steps): Stores {
    if UpsertSucceeds(s, q, f) then Stores(NewKeyring(s, q), s.providers[q.id := NewRow(s, q)])
    else if ReachesDatabase(s, q, f) && !f.restores then s.(keyring := NewKeyring(s, q))
    else s
  }

  function Removed(s: Stores, id: ProviderId): Stores {
    var credential := PreviousCredential(s, id);
    Stores(if credential.Some? then s.keyring - {credential.value} else s.keyring, s.providers - {id})
  }

  predicate RemoveReachesDatabase(s: Stores, id: ProviderId, f: Steps) {
    f.looksUp && (PreviousCredential(s, id).Some? ==> f.captures && f.changes)
  }

  /** A removal succeeds unless a step fails; putting the secret back is one when the row was already gone. */
  predicate RemoveSucceeds(s: Stores, id: ProviderId, f: Steps) {
    RemoveReachesDatabase(s, id, f) && f.stores && (f.vanishes && PreviousCredential(s, id).Some? ==> f.restores)
  }

  function AfterRemove(s: Stores, id: ProviderId, f: Steps): Stores {
    if !RemoveReachesDatabase(s, id, f) then s
    else if f.stores then Stores(if f.vanishes && f.restores then s.keyring else Removed(s, id).keyring, s.providers - {id})
    else if f.restores then s
    else s.(keyring := Removed(s, id).keyring)
  }

  class ProviderService {
    var stores: Stores

    constructor ()
      ensures stores == Stores(map[], map[])
    {
      stores := Stores(map[], map[]);
    }

    method CaptureSecret(reference: Reference, f: Steps) returns (r: Result<Option<Secret>, ServiceError>)
      ensures r.Ok? <==> f.captures
      ensures r.Ok? ==> r.value == if reference in stores.keyring then Some(stores.keyring[reference]) else None
    {
      if !f.captures {
        return Err(SecretStoreUnavailable);
      }
      return Ok(if reference in stores.keyring then Some(stores.keyring[reference]) else None);
    }

    /** Puts back what was captured: the stores are as before the change of this one entry. */
    method RestoreSecret(reference: Reference, previous: Option<Secret>, f: Steps) returns (r: Result<(), ServiceError>)
      modifies this
      ensures r.Ok? <==> f.restores
      ensures stores == if !f.restores then old(stores)
                        else if previous.Some? then old(stores).(keyring := old(stores).keyring[reference := previous.value])
                        else old(stores).(keyring := old(stores).keyring - {reference})
    {
      if !f.restores {
        return Err(SecretStoreUnavailable);
      }
      match previous {
        case Some(secret) => stores := stores.(keyring := stores.keyring[reference := secret]);
        case None => stores := stores.(keyring := stores.keyring - {reference});
      }
      return Ok(());
    }

    method UpsertProvider(q: ProviderUpsert, f: Steps) returns (r: Result<Provider, ServiceError>)
      modifies this
      ensures stores == AfterUpsert(old(stores), q, f)
      ensures r.Ok? <==> UpsertSucceeds(old(stores), q, f)
      ensures r.Ok? <==>
              var had := q.id in old(stores).providers && old(stores).providers[q.id].credentialId.Some?;
              && (q.apiKey.Some? ==> q.keyFits) && f.looksUp && !q.check.Refused? && q.rowFits && f.stores
              && (q.apiKey.Some? || (q.clearApiKey && had) ==> f.captures && f.changes)
      ensures r.Ok? ==> r.value == NewRow(old(stores), q)
    {
      if q.apiKey.Some? && !q.keyFits {
        return Err(Validation);
      }
      if !f.looksUp {
        return Err(Internal);
      }
      var previous := if q.id in stores.providers then Some(stores.providers[q.id]) else None;
      var createdAtMs := if previous.Some? then previous.value.createdAtMs else q.nowMs;
      var previousCredential := if previous.Some? then previous.value.credentialId else None;
      var replacement := if previousCredential.Some? then previousCredential.value else OfProvider(q.id);
      var credential := if q.apiKey.Some? then Some(replacement) else if q.clearApiKey then None else previousCredential;
      var provider := Provider(q.id, q.details, credential, credential.Some? || q.local, Configured, createdAtMs, q.nowMs);
      match q.check {
        case Fit =>
        case NoAdapter => provider := provider.(status := Unsupported);
        case Refused => return Err(Validation);
      }
      var mutation := if q.apiKey.Some? then Some(replacement) else if q.clearApiKey then previousCredential else None;
      var previousSecret: Option<Secret> := None;
      if mutation.Some? {
        var captured := CaptureSecret(mutation.value, f);
        if captured.Err? {
          return Err(captured.error);
        }
        previousSecret := captured.value;
        if !f.changes {
          return Err(SecretStoreUnavailable);
        }
        if q.apiKey.Some? {
          stores := stores.(keyring := stores.keyring[mutation.value := q.apiKey.value]);
        } else {
          stores := stores.(keyring := stores.keyring - {mutation.value});
        }
      }
      if !f.stores || !q.rowFits {
        if mutation.Some? {
          var restored := RestoreSecret(mutation.value, previousSecret, f);
          if restored.Err? {
            return Err(restored.error);
          }
          assert stores.keyring == old(stores).keyring;
        }
        return Err(Internal);
      }
      stores := stores.(providers := stores.providers[q.id := provider]);
      return Ok(provider);
    }

    method RemoveProvider(id: ProviderId, f: Steps) returns (r: Result<bool, ServiceError>)
      modifies this
      ensures stores == AfterRemove(old(stores), id, f)
      ensures r.Ok? <==> RemoveSucceeds(old(stores), id, f)
      ensures r.Ok? <==>
              var had := id in old(stores).providers && old(stores).providers[id].credentialId.Some?;
              && f.looksUp && f.stores && (had ==> f.captures && f.changes) && (had && f.vanishes ==> f.restores)
      ensures r.Ok? ==> (r.value <==> id in old(stores).providers && !f.vanishes)
      ensures r.Ok? ==> id !in stores.providers && forall x | x != id :: x in stores.providers <==> x in old(stores).providers
      ensures forall x | x in stores.providers :: x in old(stores).providers && stores.providers[x] == old(stores).providers[x]
    {
      if !f.looksUp {
        return Err(Internal);
      }
      var credential := if id in stores.providers then stores.providers[id].credentialId else None;
      var previousSecret: Option<Secret> := None;
      if credential.Some? {
        var captured := CaptureSecret(credential.value, f);
        if captured.Err? {
          return Err(captured.error);
        }
        previousSecret := captured.value;
        if !f.changes {
          return Err(SecretStoreUnavailable);
        }
        stores := stores.(keyring := stores.keyring - {credential.value});
      }
      if !f.stores {
        if credential.Some? {
          var restored := RestoreSecret(credential.value, previousSecret, f);
          if restored.Err? {
            return Err(restored.error);
          }
          assert stores.keyring == old(stores).keyring;
        }
        return Err(Internal);
      }
      if f.vanishes {
        stores := stores.(providers := stores.providers - {id});
      }
      var removed := id in stores.providers;
      stores := stores.(providers := stores.providers - {id});
      if !removed && credential.Some? {
        var restored := RestoreSecret(credential.value, previousSecret, f);
        if restored.Err? {
          return Err(restored.error);
        }
        assert stores.keyring == old(stores).keyring;
      }
      return Ok(removed);
    }

    /** Records the result of a connection test; the credential is untouched. */
    method RecordTest(id: ProviderId, status: ProviderStatus, nowMs: int, f: Steps) returns (r: Result<(), ServiceError>)
      modifies this
      ensures stores == AfterTest(old(stores), id, status, nowMs, f)
      ensures r.Ok? <==>
              && f.looksUp && id in old(stores).providers && f.stores
              && var credential := old(stores).providers[id].credentialId;
                 credential.Some? ==> f.captures && credential.value in old(stores).keyring
      ensures stores.keyring == old(stores).keyring && stores.providers.Keys == old(stores).providers.Keys
      ensures forall x | x in stores.providers ::
                stores.providers[x] == if x == id && r.Ok? then old(stores).providers[x].(status := status, updatedAtMs := nowMs)
                                       else old(stores).providers[x]
    {
      if !f.looksUp {
        return Err(Internal);
      }
      if id !in stores.providers {
        return Err(NotFound);
      }
      var provider := stores.providers[id];
      if provider.credentialId.Some? && (!f.captures || provider.credentialId.value !in stores.keyring) {
        return Err(SecretStoreUnavailable);
      }
      if !f.stores {
        return Err(Internal);
      }
      stores := stores.(providers := stores.providers[id := provider.(status := status, updatedAtMs := nowMs)]);
      return Ok(());
    }
  }

  predicate TestReadsCredential(s: Stores, id: ProviderId, f: Steps)
    requires id in s.providers
  {
    var credential := s.providers[id].credentialId;
    credential.Some? ==> f.captures && credential.value in s.keyring
  }

  function AfterTest(s: Stores, id: ProviderId, status: ProviderStatus, nowMs: int, f: Steps): Stores {
    if f.looksUp && id in s.providers && f.stores && TestReadsCredential(s, id, f)
    then s.(providers := s.providers[id := s.providers[id].(status := status, updatedAtMs := nowMs)])
    else s
  }

  /** Whatever step of an update fails, if the compensation succeeds when it is needed, a failed update leaves
      both stores as they were; with a failing compensation it leaves the table and exactly the one keyring
      change it had made. */
  lemma FailedUpsertChangesNothing(s: Stores, q: ProviderUpsert, f: Steps)
    requires !UpsertSucceeds(s, q, f)
    ensures AfterUpsert(s, q, f) == s <==> !(ReachesDatabase(s, q, f) && !f.restores && NewKeyring(s, q) != s.keyring)
    ensures AfterUpsert(s, q, f).providers == s.providers
  {
  }

  /** Every error exit of a removal: both stores are as they were unless a compensation that was needed failed. If
      the database refused, that leaves the one keyring change it had made; if another connection had already
      deleted the row, the deleted row stays deleted and its secret with it. */
  lemma FailedRemoveChangesNothing(s: Stores, id: ProviderId, f: Steps)
    requires !RemoveSucceeds(s, id, f)
    ensures AfterRemove(s, id, f) == s <==>
            !(RemoveReachesDatabase(s, id, f) && !f.restores && (f.stores || Removed(s, id).keyring != s.keyring))
    ensures AfterRemove(s, id, f).providers == if RemoveReachesDatabase(s, id, f) && f.stores then s.providers - {id} else s.providers
    ensures AfterRemove(s, id, f) == s || AfterRemove(s, id, f).keyring == Removed(s, id).keyring
  {
    if RemoveReachesDatabase(s, id, f) && f.stores {
      assert id in s.providers && id !in AfterRemove(s, id, f).providers;
    }
  }

  // ---- Runs ----

  datatype Op =
    | Upsert(request: ProviderUpsert, steps: Steps)
    | Remove(id: ProviderId, steps: Steps)
    | Test(id: ProviderId, status: ProviderStatus, nowMs: int, steps: Steps)

  function Next(s: Stores, op: Op): Stores {
    match op
    case Upsert(q, f) => AfterUpsert(s, q, f)
    case Remove(id, f) => AfterRemove(s, id, f)
    case Test(id, status, nowMs, f) => AfterTest(s, id, status, nowMs, f)
  }

  function Run(ops: seq<Op>): Stores {
    if ops == [] then Stores(map[], map[]) else Next(Run(ops[..|ops| - 1]), ops[|ops| - 1])
  }

  /** Every row's credential, if any, is the provider's own. */
  ghost predicate OwnCredentials(s: Stores) {
    forall id | id in s.providers :: s.providers[id].id == id && (s.providers[id].credentialId.Some? ==> s.providers[id].credentialId == Some(OfProvider(id)))
  }

  ghost predicate Credential(s: Stores, reference: Reference) {
    exists id :: id in s.providers && s.providers[id].credentialId == Some(reference)
  }

  /** The keyring's keys are exactly the credential identifiers in the provider table. */
  ghost predicate KeysMatch(s: Stores) {
    forall reference :: reference in s.keyring <==> Credential(s, reference)
  }

  ghost predicate Inv(s: Stores) {
    && OwnCredentials(s)
    && forall reference :: reference in s.keyring <==>
         reference.OfProvider? && reference.provider in s.providers && s.providers[reference.provider].credentialId.Some?
  }

  lemma InvSaysKeysMatch(s: Stores)
    requires OwnCredentials(s)
    ensures Inv(s) <==> KeysMatch(s)
  {
    forall reference
      ensures Credential(s, reference) <==>
              reference.OfProvider? && reference.provider in s.providers && s.providers[reference.provider].credentialId.Some?
    {
      if reference.OfProvider? && reference.provider in s.providers && s.providers[reference.provider].credentialId.Some? {
        assert s.providers[reference.provider].credentialId == Some(reference);
      }
    }
  }

  /** From matching stores, an update keeps them matching unless it is refused by the database, cannot be
      compensated, and had added or removed a key. */
  lemma UpsertKeepsMatchExactlyWhen(s: Stores, q: ProviderUpsert, f: Steps)
    requires Inv(s)
    ensures OwnCredentials(AfterUpsert(s, q, f))
    ensures Inv(AfterUpsert(s, q, f)) <==>
            !(ReachesDatabase(s, q, f) && !(f.stores && q.rowFits) && !f.restores
              && NewCredential(s, q).Some? != PreviousCredential(s, q.id).Some?)
  {
    var n := AfterUpsert(s, q, f);
    if NewCredential(s, q).Some? != PreviousCredential(s, q.id).Some? {
      assert OfProvider(q.id) in n.keyring <==> if n.keyring == NewKeyring(s, q) then NewCredential(s, q).Some? else PreviousCredential(s, q.id).Some?;
    }
  }

  /** Likewise for a removal; and if the row was already gone, putting the secret back leaves it without a
      provider. */
  lemma RemoveKeepsMatchExactlyWhen(s: Stores, id: ProviderId, f: Steps)
    requires Inv(s)
    ensures OwnCredentials(AfterRemove(s, id, f))
    ensures Inv(AfterRemove(s, id, f)) <==>
            !(PreviousCredential(s, id).Some? && f.looksUp && f.captures && f.changes
              && if f.stores then f.vanishes && f.restores else !f.restores)
  {
    if PreviousCredential(s, id).Some? {
      assert OfProvider(id) in s.keyring;
    }
  }

  /** Every compensation succeeds, and no other connection deletes a row in the middle of a removal. */
  ghost predicate CompensatedAndUndisturbed(ops: seq<Op>) {
    forall i | 0 <= i < |ops| :: ops[i].steps.restores && !ops[i].steps.vanishes
  }

  /** In every run in which compensations succeed and no row vanishes, whatever other steps fail, the keyring's keys are exactly the
      credential identifiers in the provider table. */
  lemma {:induction false} KeyringMatchesTable(ops: seq<Op>)
    requires CompensatedAndUndisturbed(ops)
    ensures KeysMatch(Run(ops)) && Inv(Run(ops))
  {
    if ops != [] {
      var front, op := ops[..|ops| - 1], ops[|ops| - 1];
      assert op.steps.restores && !op.steps.vanishes;
      KeyringMatchesTable(front);
      match op {
        case Upsert(q, f) => UpsertKeepsMatchExactlyWhen(Run(front), q, f);
        case Remove(id, f) => RemoveKeepsMatchExactlyWhen(Run(front), id, f);
        case Test(_, _, _, _) =>
      }
    }
    InvSaysKeysMatch(Run(ops));
  }

  // ---- What is stored ----

  /** What a successful update leaves: one row, as asked for, that keeps its creation time; and one keyring entry changed at
      most, which holds the key that was given, or nothing if it was to be cleared. */
  lemma UpsertStoresWhatWasAsked(s: Stores, q: ProviderUpsert, f: Steps)
    requires UpsertSucceeds(s, q, f)
    ensures var after := AfterUpsert(s, q, f);
            && after.providers.Keys == s.providers.Keys + {q.id}
            && (forall id | id in s.providers && id != q.id :: after.providers[id] == s.providers[id])
            && (var row := after.providers[q.id];
                && row.id == q.id && row.details == q.details && row.updatedAtMs == q.nowMs
                && row.createdAtMs == (if q.id in s.providers then s.providers[q.id].createdAtMs else q.nowMs)
                && row.status == (if q.check.NoAdapter? then Unsupported else Configured)
                && (row.configured <==> row.credentialId.Some? || q.local)
                && (q.apiKey.Some? ==>
                      && row.credentialId.Some? && row.credentialId.value in after.keyring
                      && after.keyring[row.credentialId.value] == q.apiKey.value
                      && after.keyring - {row.credentialId.value} == s.keyring - {row.credentialId.value}
                      && row.credentialId == if q.id in s.providers && s.providers[q.id].credentialId.Some?
                                             then s.providers[q.id].credentialId else Some(OfProvider(q.id)))
                && (q.apiKey.None? && !q.clearApiKey ==>
                      && row.credentialId == (if q.id in s.providers then s.providers[q.id].credentialId else None)
                      && after.keyring == s.keyring)
                && (q.apiKey.None? && q.clearApiKey ==>
                      && row.credentialId.None?
                      && after.keyring == if q.id in s.providers && s.providers[q.id].credentialId.Some?
                                          then s.keyring - {s.providers[q.id].credentialId.value} else s.keyring))
  {
  }

  /** The key that the run's requests leave with provider `id`: the last one given in an update that succeeded, unless a later
      one cleared it or the provider was removed. */
  function LastKey(ops: seq<Op>, id: ProviderId): Option<Secret> {
    if ops == [] then None
    else
      var front, op := ops[..|ops| - 1], ops[|ops| - 1];
      match op
      case Upsert(q, f) =>
        if q.id == id && UpsertSucceeds(Run(front), q, f) && (q.apiKey.Some? || q.clearApiKey) then q.apiKey else LastKey(front, id)
      case Remove(removed, f) => if removed == id && RemoveReachesDatabase(Run(front), id, f) && f.stores then None else LastKey(front, id)
      case Test(_, _, _, _) => LastKey(front, id)
  }

  ghost predicate HoldsKey(s: Stores, id: ProviderId, key: Option<Secret>) {
    if OfProvider(id) in s.keyring then key == Some(s.keyring[OfProvider(id)]) else key.None?
  }

  lemma UpsertKeepsKeys(s: Stores, q: ProviderUpsert, f: Steps, id: ProviderId, key: Option<Secret>)
    requires Inv(s) && f.restores && HoldsKey(s, id, key)
    ensures HoldsKey(AfterUpsert(s, q, f), id,
                     if q.id == id && UpsertSucceeds(s, q, f) && (q.apiKey.Some? || q.clearApiKey) then q.apiKey else key)
  {
    assert PreviousCredential(s, q.id).Some? ==> PreviousCredential(s, q.id) == Some(OfProvider(q.id));
    assert PreviousCredential(s, q.id).None? ==> OfProvider(q.id) !in s.keyring;
  }

  lemma RemovalKeepsKeys(s: Stores, removed: ProviderId, f: Steps, id: ProviderId, key: Option<Secret>)
    requires Inv(s) && f.restores && !f.vanishes && HoldsKey(s, id, key)
    ensures HoldsKey(AfterRemove(s, removed, f), id,
                     if removed == id && RemoveReachesDatabase(s, id, f) && f.stores then None else key)
  {
    assert PreviousCredential(s, removed).Some? ==> PreviousCredential(s, removed) == Some(OfProvider(removed));
    assert PreviousCredential(s, removed).None? ==> OfProvider(removed) !in s.keyring;
  }

  /** In every such run the keyring holds, under a provider's identifier, the last key it was given, and nothing once that was
      cleared or the provider removed. */
  lemma {:induction false} KeyringHoldsLastKeys(ops: seq<Op>, id: ProviderId)
    requires CompensatedAndUndisturbed(ops)
    ensures OfProvider(id) in Run(ops).keyring <==> LastKey(ops, id).Some?
    ensures LastKey(ops, id).Some? ==> Run(ops).keyring[OfProvider(id)] == LastKey(ops, id).value
  {
    hide AfterUpsert, AfterRemove, AfterTest, UpsertSucceeds, RemoveReachesDatabase, Inv, KeysMatch;
    if ops != [] {
      var front, op := ops[..|ops| - 1], ops[|ops| - 1];
      assert op.steps.restores && !op.steps.vanishes;
      KeyringHoldsLastKeys(front, id);
      KeyringMatchesTable(front);
      assert HoldsKey(Run(front), id, LastKey(front, id));
      match op {
        case Upsert(q, f) => UpsertKeepsKeys(Run(front), q, f, id, LastKey(front, id));
        case Remove(removed, f) => RemovalKeepsKeys(Run(front), removed, f, id, LastKey(front, id));
        case Test(tested, status, nowMs, f) => TestKeepsKeys(Run(front), tested, status, nowMs, f);
      }
      assert HoldsKey(Run(ops), id, LastKey(ops, id));
    }
  }

  lemma TestKeepsKeys(s: Stores, id: ProviderId, status: ProviderStatus, nowMs: int, f: Steps)
    ensures AfterTest(s, id, status, nowMs, f).keyring == s.keyring
  {
  }
}
