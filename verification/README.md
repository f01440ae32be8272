# Halquen daemon: verified model

Halquen is a local assistant daemon. It receives proposals for actions, decides them with a policy engine and
stored permission grants, executes them, keeps an audit trail, remembers versioned facts, caches model answers,
runs external agents in sessions and answers a local socket. This project models the daemon's state in Dafny and
proves what its design relies on, for every input, every run and every interleaving.

`dafny verify dfyconfig.toml` checks everything.

| file | content |
|---|---|
| `Prelude`, `SqlOrder` | shared types; `ORDER BY` and `LIMIT` over rows, stable sorting, the first row of a query |
| `Domain`, `Policy` | action contexts, grants and scopes; the policy engine and what grants, profiles and confirmations can change |
| `GrantStore` | the grant table: the one-row lookup against the engine's full scan, claims under racing claimants |
| `Authority`, `AuthorityRuns`, `Answers` | `process_proposal`, `confirm_action` and the audit log as one state machine; traces, single use, decisions; what each operation answers and offers |
| `Payments`, `Diversions`, `GrantLives` | which grant pays and when an allowed action is refused; each grant's books over whole runs; what a confirmation keeps and how long a grant speaks |
| `CallRecords`, `AgentReports` | what each executor call carries, which calls leave a receipt, and what agents are told about them |
| `EditorRuns` | the findings about authority at concrete inputs of the daemon's own capability |
| `Memory`, `MemoryRuns`, `PreferenceRuns` | the guarded compare-and-set on a memory head, its histories, and the in-memory ledger it refines; preferences by key |
| `IntentUsage`, `Behaviour` | the compacted usage table against the full log; the scorer and what resolves an intent |
| `ResponseCache`, `WorkingMemory` | two bounded stores against their complete histories |
| `ChatCancellation`, `Framing` | interleaved chats and cancellations; newline frames under every chunking |
| `Sessions`, `SessionRuns`, `AgentRuns` | daemon and agent sessions with the grants bound to them; every exit of an agent run |
| `Providers` | keyring and provider table with compensation |
| `ResourceLabels` | character-level label matching against path components and host labels |

## How the model reads the source

- A SQL table is a sequence or map in a class; a transaction is a method that commits or leaves the table alone.
  Primary keys, `UNIQUE` and `CHECK` constraints are those of `migrations/`.
- Identifiers that take part in an `ORDER BY` are integers, of which only the order matters; other identifiers are
  abstract. Text is a sequence of characters; length limits in bytes are limits on that sequence.
- Clock readings, executor results, drawn identifiers and the success of each storage, keyring, agent-host or
  provider step are inputs. Service operations run one at a time, under the service's lock, except the registry
  sections of chat cancellation and the racing claims and memory writers, which interleave freely.
- Serialisation is taken to be injective. The daemon grants no scopes, so the context's granted scopes are empty.
- A shared specification function says what an operation does to its table; the class method is proved equal to it,
  and the properties are proved about the function over whole runs.

## What the proofs found

- **Another grant than the deciding one may pay.** A claim is dated by the start of the request, the decision by a
  later reading. The deciding grant is charged exactly when it was unexpired at the start and no newer allow grant
  expired in between (`GrantStore.ClaimTakesDecidingGrantExactlyWhen`). Otherwise an expired grant can pay, so that a
  one-use grant decides any number of actions (`Payments.ExpiredGrantMayPay`,
  `Payments.OneUseGrantDecidesAnyNumber`); or, with a clock that steps back, a one-use grant is used up for an action
  that a standing grant allows (`Payments.ClockStepBurnsOneUse`). Over whole runs the diverted uses are exactly what
  separates decisions from counts (`Diversions.EveryGrantBalances`).
- **An allowed action may be refused.** It is turned away exactly when every grant it could rest on had already
  expired at the date of the claim, which needs a clock that steps back between the readings
  (`Payments.RefusedExactlyWhen`, `EditorRuns.EditorIsRefused`). Likewise a preference whose item was created later
  than now cannot be revised (`MemoryRuns.PreferenceFailsExactlyWhen`, `MemoryRuns.EarlierClockRefusesPreference`).
- **Migrated grants.** A row that names a session without being a session grant is treated differently by the SQL
  lookup and by the engine; no valid grant is like this (`GrantStore.RowTestsAgreeExactlyWhen`). For every action that
  asks, the engine on all grants would allow it and the daemon asks (`Payments.MigratedGrantSplitsLookup`).
- **Executed but unrecorded.** The executor runs before its receipt is stored, and on the confirmed path the usage
  event is written in between. A call has a receipt at the end of a run exactly when the writes of its own operation
  succeeded (`CallRecords.CallsHaveReceiptsExactlyWhen`, `EditorRuns.EditorRunsUnrecorded`); no receipt exists
  without a call.
- **A report of failure leaves open what happened.** An agent is told `failed` of a proposal that reached the executor
  exactly when the executor rejected it or ran late, or when whatever it did was not recorded
  (`AgentReports.ReportedFailedButCalledExactlyWhen`).
- **A preference can have two values.** Commit a key, disable its item, commit the key again, enable the first item:
  both hold the key, and either may be read and revised (`PreferenceRuns.EnablingDuplicatesPreference`). Over every run
  that is the only way (`PreferenceRuns.KeysStayUniqueExactlyWhen`).
- **The strict profile asks at a lower level.** For external and destructive actions that would ask anyway, its rule comes
  before the risk's own and records the standard level (`Policy.Engine.StrictLowersLevelExactlyWhen`).
- **`requested` is not `cancelled`.** A cancellation answers `requested` whenever the chat's handler has not returned.
  It can still cancel the chat exactly when the chat's answer is not yet being written
  (`ChatCancellation.RequestedCanCancelExactlyWhen`, `ChatCancellation.RequestedIsNotCancelled`).
- **Reused request identifiers.** A client that reuses one can make a second chat uncancellable for good
  (`ChatCancellation.ReusedIdLosesSender`).
- **Two daemons.** A daemon opens its session before it binds the socket, so a second one started beside a running
  one ends the first one's session, and the first still saves grants bound to it
  (`SessionRuns.RivalStartOrphansGrants`). Over every run that is the only way a bound grant outlives its session
  (`SessionRuns.GrantsStayLiveExactlyWhen`).
- **One approval is not always enough.** After one `Wrong`, a fresh answer stands at 50, and a single `AlwaysUse`
  lifts it only to 550, below the 800 it needs (`ResponseCache.ApprovalSufficesExactlyWhen`).
- **The retention bound is sharp.** A query that looks back further than 90 days from the latest recording misses
  rows that the log has (`IntentUsage.LookingFurtherBackMisses`).

## Model

| member | source | states |
|---|---|---|
| Policy.Engine.DeniedExactlyWhen | crates/policy/src/engine.rs:256-398 | An action is denied if and only if an immutable rule, an active matching deny grant or a never-allowed risk class applies |
| Policy.Engine.AllowedExactlyWhen | crates/policy/src/engine.rs:256-473 | An action runs without asking if and only if nothing forbids it and an active matching allow grant covers it or no baseline rule asks for confirmation |
| Policy.Engine.HardDenyIgnoresGrantsAndProfile | crates/policy/src/engine.rs:256-355 | A hard deny is the same decision under every grant list, profile and caller |
| Policy.Engine.HardDenyExactlyWhen | crates/policy/src/engine.rs:256-355 | A denial is hard if and only if descriptor or provenance is invalid, or no scope is missing and one of the four immutable dangers applies |
| Policy.Engine.ConfirmationLevelExactlyWhen | crates/policy/src/engine.rs:400-473 | Exactly confirmations have a level: sensitive for sensitive resources, else standard if a rule asks anyway, else the risk class's own |
| Policy.Engine.StrictLowersLevelExactlyWhen | crates/policy/src/engine.rs:400-473 | Strict asks at another level than Balanced, namely the standard one, if and only if the level would be that of an external or destructive risk |
| Policy.Engine.ReasonsHold | crates/policy/src/engine.rs:167-473 | On both paths the reason a decision gives is true of the action, the profile and the grants, and an expiry is that of the grant it rests on |
| Policy.Engine.AllowGrantsOnlyLiftConfirmations | crates/policy/src/engine.rs:353-398 | Adding allow grants anywhere in the list changes an outcome only from Confirm to Allow |
| Policy.Engine.DenyGrantsNeverLoosen | crates/policy/src/engine.rs:353-398 | Adding deny grants keeps the decision or makes it a denial |
| Policy.Engine.StrictNeverLooserThanBalanced | crates/policy/src/engine.rs:400-473 | Strict denies exactly what Balanced denies and allows nothing more |
| Policy.Engine.ConfirmationLiftsExactlyConfirm | crates/policy/src/engine.rs:167-254 | The confirmed path authorizes, with the proposal's own action, if and only if the action fits the descriptor and is not denied; the direct path if and only if it fits and is allowed |
| Policy.PolicyContext.SetActionContext | crates/policy/src/engine.rs:31-37 | An agent's context sets the caller's session and agent together; any other context sets nothing |
| Policy.PolicyContext.SetSessionId | crates/policy/src/engine.rs:51-55 | A chat session never replaces an agent's session |
| Policy.Caller.Matching | crates/policy/src/engine.rs:75-85 | Finds an applicable grant of the effect if and only if the list has one |
| GrantStore.RowTestsAgreeExactlyWhen | crates/storage/src/security.rs:93-104 | The query's test of a stored row and the engine's agree for every valid proposal and every caller if and only if the row is revoked, spent, names a session only as a session grant, or covers no valid proposal at all |
| GrantStore.SelectedRowIsDecisive | crates/storage/src/security.rs:80-118 | A row is selected if and only if one is active; every other active row is an allow row beside a deny row, or an older row of the same effect, identifiers breaking ties |
| GrantStore.ClaimTakesNewest | crates/storage/src/security.rs:189-228 | A claim finds a row if and only if an allow row is active, and takes the newest of them |
| GrantStore.FastLookupAgrees | crates/storage/src/security.rs:80-118 | Deciding with the one selected row is deciding with all stored grants newest first, including reason and expiry |
| GrantStore.GrantTable.Upsert | crates/storage/src/security.rs:120-166 | Stores exactly the valid, bounded grants when the write succeeds, replaces every column but identity and grant time, and keeps identifiers unique |
| GrantStore.GrantTable.Revoke | crates/storage/src/security.rs:168-178 | The unrevoked row of that identifier, if there is one, gets the revocation date and nothing else changes; the answer says whether there was one |
| GrantStore.GrantTable.ConsumeUse | crates/storage/src/security.rs:229-240 | The guarded update raises the count of exactly the consumable row of that identifier and reports one row, or none |
| GrantStore.GrantTable.Claim | crates/storage/src/security.rs:189-245 | Claims one use of the newest active allow grant and leaves every other row alone, unless the transaction fails and nothing changes; the guard never does |
| GrantStore.ClaimRaisesOneCount | crates/storage/src/security.rs:189-245 | A claim raises exactly the selected row's count by one |
| GrantStore.AllowDecisionFindsAGrantToClaim | apps/daemon/src/service.rs:416-450 | A decision that rests on an allow grant always finds a grant to claim when the claim is dated no later than the decision |
| GrantStore.ClaimTakesDecidingGrantExactlyWhen | apps/daemon/src/service.rs:416-450 | Whichever way the clock went, the claim takes the very grant the decision rests on if and only if that grant was unexpired at the claim's date and no newer allow grant expired between that date and the decision |
| GrantStore.RowsTellTheirHistory | crates/storage/src/security.rs:120-245 | Over every interleaving, a row is exactly the columns last stored, with the first grant time, the first revocation since and the claims since added |
| GrantStore.RevokedStaysInactive | crates/storage/src/security.rs:168-178 | From its revocation until it is stored again a grant is active for no proposal and no caller, and no claim takes it |
| GrantStore.CountIsClaimsSinceUpsert | crates/storage/src/security.rs:189-245 | In every reachable table a row's count is what it was stored with plus the claims on it since its last upsert |
| GrantStore.ClaimsStayWithinLimit | crates/storage/src/security.rs:189-245 | However claimants race, claims between two upserts stay within the limit; a one-use grant is claimed at most once |
| Authority.HalquenService.PolicyContextFor | apps/daemon/src/service.rs:584-618 | The context the daemon builds shows the engine the profile, the caller and only the one decisive grant |
| Authority.HalquenService.RecordExecution | crates/storage/src/sqlite.rs:146-159 | Stores the receipt and its whole trace, or neither |
| Authority.HalquenService.Execute | apps/daemon/src/service.rs:452-560 | One executor call, the receipt and the closing events that its outcome calls for |
| Authority.HalquenService.ProcessProposal | apps/daemon/src/service.rs:364-582 | The whole new service state and answer: look up, decide, claim, execute, record, in that order, with every error exit |
| Authority.HalquenService.Confirm | apps/daemon/src/interaction_service.rs:1353-1623 | The whole new service state and answer of a confirmation: the token goes first, then expiry, refusal, policy, grant, execution, record |
| Authority.HalquenService.OpenFromChat | apps/daemon/src/interaction_service.rs:386-427 | A chat's proposal is processed and, when it needs confirmation, offered once under the given token |
| AuthorityRuns.RunKeepsInv | apps/daemon/src/service.rs:364-582 | Every service operation, and every restart of the daemon, keeps the grant table, the traces, the open confirmations and the call history sound |
| AuthorityRuns.ProcessingExecutesExactlyWhen | apps/daemon/src/service.rs:364-560 | A proposal reaches an executor if and only if the capability fits, policy on all stored grants allows it and, when a grant is what allows it, a claim commits and finds an allow grant active at the start |
| AuthorityRuns.TracesMatchReceipts | crates/storage/src/sqlite.rs:552-608 | In every reachable state the events of each execution spell a word of one automaton, and the stored receipt has that word's decision, status, result and error; no receipt, no events |
| CallRecords.CallLeavesReceiptExactlyWhen | apps/daemon/src/service.rs:452-582 | On the direct path a call leaves its receipt and trace if and only if the storing transaction succeeds; otherwise receipts and log are untouched |
| CallRecords.ConfirmedCallLeavesReceiptExactlyWhen | apps/daemon/src/interaction_service.rs:1572-1607 | On the confirmed path a call leaves its receipt and trace if and only if the usage event, when there is one, and the storing transaction succeed |
| CallRecords.StepLeavesReceiptIff | apps/daemon/src/service.rs:364-582 | Any operation that reaches an executor calls it once, under the identifier it drew, and leaves the receipt if and only if its own later writes succeed |
| CallRecords.CallsHaveReceiptsExactlyWhen | crates/storage/src/sqlite.rs:146-159 | Over every run without repeated execution identifiers, a call has a receipt of an execution at the end if and only if the writes of its own operation succeeded |
| CallRecords.EveryCallWasMade | apps/daemon/src/service.rs:452-560 | Over every run each call was made by one operation and carries what that asked for: its proposal's action, the registered descriptor, the drawn identifier, a dry run if and only if one was asked for, a confirmation if and only if it answers that one |
| CallRecords.EveryReceiptReports | apps/daemon/src/service.rs:452-575 | Over every run each receipt was written by the operation that drew its identifier, and reports whether an executor was called, what it answered, and when |
| AgentReports.AgentIsToldTheTruth | apps/daemon/src/agent_service.rs:139-225 | An agent is told executed or simulated if and only if the executor was called and said so and the receipt was stored, confirmation or denial if and only if policy on all stored grants said so |
| AgentReports.ReportedFailedButCalledExactlyWhen | apps/daemon/src/agent_service.rs:139-225 | A proposal that reached the executor is reported failed if and only if it was rejected, ran late, or was not recorded |
| AuthorityRuns.ConfirmationsAreSingleUse | apps/daemon/src/interaction_service.rs:1353-1405 | Over every run a confirmation leads to at most one executor call, with exactly the stored proposal's action |
| AuthorityRuns.ConfirmationExecutesExactlyWhen | apps/daemon/src/interaction_service.rs:1353-1470 | Answering a confirmation reaches the executor if and only if the token is held and unexpired, the answer is yes, the capability fits, policy now does not deny, and what is to be kept has a later end or a session and its write succeeds |
| AuthorityRuns.AnsweredConfirmationStaysSpent | apps/daemon/src/interaction_service.rs:1360-1366 | Over every run, once an offered confirmation has been answered, however that ended, every later answer finds it expired and changes nothing |
| Answers.ProcessingAnswers | apps/daemon/src/service.rs:364-582 | Every answer to a proposal with its exact condition; the receipt answered is the one stored, and an error stores none |
| Answers.DecliningAnswers | apps/daemon/src/interaction_service.rs:1360-1386 | A missing or expired confirmation answers so and a declined one turns its waiting trace into a declined one; nothing else changes |
| Answers.ConfirmingAnswers | apps/daemon/src/interaction_service.rs:1387-1623 | Every answer to an accepted confirmation with its exact condition |
| Answers.OfferedExactlyWhen | apps/daemon/src/interaction_service.rs:386-427 | A chat's proposal is offered if and only if policy on all stored grants asks and its receipt is stored; what else was offered stays |
| Answers.EveryOfferWasMade | apps/daemon/src/interaction_service.rs:386-427 | Over every run each confirmation was offered by one chat operation, for its own proposal, request, chat and expiry |
| Answers.EveryConfirmedCallWasProposed | apps/daemon/src/interaction_service.rs:1353-1470 | Over every run a confirmed call carries the action that a chat proposed under that token, and is never a dry run |
| Answers.RestartEndsSessions | crates/storage/src/runtime.rs:89-120 | After a restart every confirmation is spent, and exactly the grants bound to a daemon or agent session speak for nobody |
| GrantLives.ActiveExactlyWhenItSpeaks | apps/daemon/src/service.rs:416-450 | For the caller the service derives from a proposal and its chat, a valid row is active if and only if it is unrevoked, unexpired, unspent, of exactly that scope, for exactly that agent or none, and bound to no session but the agent's own or that chat |
| GrantLives.GrantsDecideExactlyWhenTheySpeak | apps/daemon/src/service.rs:584-618 | In every reachable state an action that asks without grants is denied if and only if a stored deny grant speaks for it, and allowed if and only if none does and an allow grant speaks; speaking is written out |
| GrantLives.ConfirmationKeepsAnswer | apps/daemon/src/interaction_service.rs:1407-1456 | A confirmation that executed leaves the grants alone if given once; otherwise it adds one valid allow grant that is active, however often used, for exactly that scope and exactly the callers and times the answer was given for |
| GrantLives.RowLivesUntilEnded | crates/storage/src/security.rs:120-245 | Over every run of the service a stored grant's row changes at most in its count until it is stored again, and is revoked if and only if it was, or an operation since ended it |
| GrantLives.RevokedGrantIsSilent | crates/storage/src/security.rs:168-178 | Over every run of the service, from its revocation until it is stored again a grant decides no request and pays for none |
| GrantLives.KeptAnswerSpeaks | apps/daemon/src/interaction_service.rs:1407-1456 | Over every run the grant kept by a confirmation stays active for exactly those the answer was given for, until it is revoked, stored again, or its session ends |
| GrantLives.KeptAnswerIsNotAskedAgain | apps/daemon/src/interaction_service.rs:1407-1456 | While it is kept, the confirmed proposal is allowed without asking unless a deny grant is active, and reaches the executor when its claim commits |
| AuthorityRuns.ConfirmationSpendsNoGrant | apps/daemon/src/interaction_service.rs:1400-1470 | A confirmed execution leaves every stored grant as it was |
| AuthorityRuns.DecisionsSeeEveryGrant | apps/daemon/src/service.rs:584-618 | In every reachable state the recorded decision on a proposal is the engine's decision on all the grants then stored |
| AuthorityRuns.ConfirmedDecisionsSeeEveryGrant | apps/daemon/src/interaction_service.rs:1388-1406 | So is the decision of a confirmed execution, and it reaches the executor only if the decision on all stored grants is not a denial |
| Payments.RefusedExactlyWhen | apps/daemon/src/service.rs:416-450 | An allowed action is turned away for want of a grant if and only if its decision rests on a stored grant, the claim's transaction commits, and every grant it could rest on had expired at the date of the claim; that needs a clock that went back, and changes nothing |
| Payments.PaidExactlyWhen | apps/daemon/src/service.rs:416-450 | Processing raises exactly one row's count by one if and only if the decision rests on a stored grant, the claim commits and some such grant was unexpired at its date, whatever becomes of execution and receipt; otherwise no row changes |
| Payments.StoredAllowanceIsAlwaysPaid | apps/daemon/src/service.rs:416-450 | With a clock that does not go back, an action a stored grant allows is never turned away and is paid for if and only if the claim commits |
| Payments.ClockStepRefusesAllowedAction | apps/daemon/src/service.rs:416-450 | Every action that asks for confirmation is turned away, although a valid grant allows it, whenever the clock steps back past that grant's expiry |
| Payments.ExpiredGrantMayPay | apps/daemon/src/service.rs:416-450 | Every action that asks for confirmation can be decided by a one-use grant and charged to a newer one that has expired; the one-use grant stays unused |
| Payments.ClockStepBurnsOneUse | apps/daemon/src/service.rs:416-450 | With a clock that steps back, every such action can be decided by a standing grant and use up a one-use grant |
| Payments.OneUseGrantDecidesAnyNumber | apps/daemon/src/service.rs:416-450 | Any number of such actions, straddling another grant's expiry, are all decided by one one-use grant and executed, and it stays unused |
| Payments.MigratedGrantSplitsLookup | apps/daemon/src/service.rs:584-618 | On a migrated row that names a session, the daemon asks for every such action where the engine on all stored grants would allow it |
| Diversions.PaidExactlyIfExecuted | apps/daemon/src/service.rs:416-560 | A request that rests on a stored grant reaches the executor if and only if it is paid for |
| Diversions.DivertedExactlyWhen | apps/daemon/src/service.rs:416-450 | The paying grant is the deciding one if and only if that one was unexpired at the start and no newer allow grant expired in between; always when the two readings agree |
| Diversions.EveryGrantBalances | crates/storage/src/security.rs:189-245 | In every reachable state, restarts included, a grant's count is what it was stored with plus the executed actions it decided, less those another grant paid for, plus those it paid for another and claims made elsewhere, and stays within its limit |
| Diversions.DecisionsStayWithinLimitButForDiversions | crates/storage/src/security.rs:189-245 | The executed actions a limited grant decides since it was stored exceed its limit by at most the diverted ones; an undiverted one-use grant decides one |
| EditorRuns.EditorIsRefused | crates/capabilities/src/builtins.rs:5-19 | Opening an application under the strict profile: allowed by a valid grant and turned away |
| EditorRuns.EditorIsPaidByExpiredGrant | crates/capabilities/src/builtins.rs:5-19 | Opening an application: charged to a grant that expired before the decision |
| EditorRuns.EditorBurnsOneUse | crates/capabilities/src/builtins.rs:5-19 | Opening an application: a one-use grant used up while a standing one allows it |
| EditorRuns.EditorOpensOnOneUse | crates/capabilities/src/builtins.rs:5-19 | Opening an application any number of times on one one-use grant |
| EditorRuns.EditorSplitsLookup | crates/capabilities/src/builtins.rs:5-19 | Opening an application on a migrated row: asked by the daemon, allowed by the engine on all grants |
| EditorRuns.EditorRunsUnrecorded | crates/capabilities/src/builtins.rs:5-19 | Opening an application under the balanced profile with a failing store: executed, no receipt, no trace |
| Memory.MemoryLedger.Create | crates/memory/src/semantic.rs:94-129 | The ledger's new state and result for a first revision, with its evidence and kind errors |
| Memory.MemoryLedger.Revise | crates/memory/src/semantic.rs:131-161 | The ledger's new state and result for a revision on top of the current one |
| Memory.MemoryLedger.Restore | crates/memory/src/semantic.rs:163-178 | Restoring is revising to the value of an earlier revision of the same item |
| Memory.MemoryDatabase.Supply | crates/storage/src/sqlite.rs:189-208 | Supplied evidence is indexed by identifier, and rejected if and only if an identifier repeats |
| Memory.MemoryDatabase.ResolveEvidence | crates/storage/src/sqlite.rs:277-327 | Evidence is inserted, or verified identical, and trust judged on what is stored, if and only if every identifier resolves |
| Memory.MemoryDatabase.CheckHead | crates/storage/src/sqlite.rs:210-275 | A change passes if and only if it names the stored head, or none for a new item, with the stored kind and creation time |
| Memory.MemoryDatabase.PersistMemoryRevision | crates/storage/src/sqlite.rs:161-362 | Commits exactly the accepted changes, with exactly their effect on all five tables and no effect on any item's disabled flag; a failed persist changes nothing |
| MemoryRuns.EveryRunKeepsHistories | crates/storage/src/sqlite.rs:161-362 | In every reachable store walking back from a head visits each revision of that item once and no other, ends at one without predecessor, and every procedural revision links evidence with the user's authority |
| MemoryRuns.StoredStaysStored | crates/storage/src/sqlite.rs:161-449 | No stored revision, evidence row or link set ever changes |
| MemoryRuns.AtMostOneSuccessor | crates/storage/src/sqlite.rs:210-349 | In every reachable store no two revisions follow the same one and no item has two beginnings |
| MemoryRuns.RacingWritersOneWinner | crates/storage/src/sqlite.rs:210-349 | However many writers race on one head over a run, at most one commits |
| MemoryRuns.LinksAreTheNamedEvidence | crates/storage/src/sqlite.rs:189-328 | A committed revision's links are, then and ever after, exactly its non-empty, duplicate-free evidence identifiers |
| MemoryRuns.DisabledExactlyWhenLastSet | crates/storage/src/interaction.rs:911-931 | Over every run an item is disabled if and only if the last operation that set its flag since it was created disabled it |
| MemoryRuns.HeadDatesItem | crates/storage/src/sqlite.rs:328-349 | In every reachable store an item was last updated when its head was created, not before its own creation |
| MemoryRuns.CommittedReadsBack | crates/storage/src/sqlite.rs:277-362 | Over every run a committed revision reads back as it was submitted, with the evidence as it was supplied and its entry in the audit log |
| MemoryRuns.EvidenceIsLinked | crates/storage/src/sqlite.rs:189-328 | In every reachable store each piece of evidence is linked to a revision, and no revision's validity ends before it begins |
| MemoryRuns.MemoryService.CommitPreference | apps/daemon/src/interaction_service.rs:819-883 | Issues exactly one change, a revision of an item that holds the key if there is one and else a first revision, and changes nothing if it is refused |
| MemoryRuns.MemoryService.RestoreMemoryRevision | apps/daemon/src/interaction_service.rs:959-1003 | Issues exactly one change when item and revision are stored and belong together, and none otherwise |
| MemoryRuns.RevisionCommitsExactlyWhen | apps/daemon/src/interaction_service.rs:819-883 | With fresh identifiers a service revision commits if and only if the kind fits and the clock is not before the item's creation |
| MemoryRuns.PreferenceFailsExactlyWhen | apps/daemon/src/interaction_service.rs:819-883 | In every reachable store, committing a preference under fresh identifiers fails if and only if the key is held by an item created later than the clock now reads |
| MemoryRuns.EarlierClockRefusesPreference | apps/daemon/src/interaction_service.rs:819-883 | A preference committed at 10 cannot be changed by a clock that reads 5 |
| MemoryRuns.RevisingRefinesLedger | crates/memory/src/semantic.rs:131-161 | A committed revision is exactly one ledger `revise` step under the projection to items and revisions |
| MemoryRuns.CreatingRefinesLedger | crates/memory/src/semantic.rs:94-129 | A committed first revision is exactly one ledger `create` step |
| MemoryRuns.RestoringRefinesLedger | crates/memory/src/semantic.rs:163-178 | A committed restoration is exactly one ledger `restore` step |
| MemoryRuns.ServiceRunsRefineLedger | apps/daemon/src/interaction_service.rs:819-1003 | Over every run of the service's memory calls, failing ones included, the tables are at every point the ledger's state: each committed call is one successful ledger step and every other call none |
| MemoryRuns.RestoreAppends | apps/daemon/src/interaction_service.rs:959-1003 | Restoring appends: the new head has the old value and follows the head it replaced, and nothing is removed |
| PreferenceRuns.KeysStayUniqueExactlyWhen | crates/storage/src/interaction.rs:864-895 | Over every run of memory calls, each key is held by at most one enabled item at every point if and only if no call enables an item whose key another holds by then |
| PreferenceRuns.CommittedPreferenceReadsBack | apps/daemon/src/interaction_service.rs:819-883 | After a commit its key reads the new value on the user's own word, and from no other item if it had at most one |
| PreferenceRuns.EnablingDuplicatesPreference | crates/storage/src/interaction.rs:864-931 | A run of four calls after which one key is held by two enabled items with different values |
| IntentUsage.IntentUsageTable.Record | crates/storage/src/security.rs:340-385 | Inserts, expires and cuts the lane to the newest 512 in one transaction, or changes nothing |
| IntentUsage.CompactionIsInvisible | crates/storage/src/security.rs:340-407 | After any run of recordings in any order of times, a lane query that looks back at most 90 days from the latest recording returns the same rows in the same order from the compacted table as from the full log |
| IntentUsage.LookingFurtherBackMisses | crates/storage/src/security.rs:353-365 | The look-back bound is sharp: an event before the cutoff of a later recording is in the log's answer and not in the table's |
| IntentUsage.QueryAnswersNewest | crates/storage/src/security.rs:387-407 | A query answers with events of that intent, context and period, newest first with identifiers breaking ties, and leaves out only older ones, and only beyond its limit or 512 |
| IntentUsage.TableStaysBounded | crates/storage/src/security.rs:340-385 | After every run each lane holds at most 512 events and none is older than the retention period before the last recording |
| Behaviour.BehaviourScorer.Score | crates/memory/src/behaviour.rs:32-69 | Ranks every entity with a positive total over the counted events, once, best first, ties by entity, and no other; the total is 1.25 of its decayed successes less 0.75 of its failures, plus 3 of its accepted less 4 of its rejected corrections |
| Behaviour.BehaviourScorer.RawIsTotal | crates/memory/src/behaviour.rs:34-47 | Adding signal times decay event by event gives that total |
| Behaviour.CountedExactlyWhen | crates/memory/src/behaviour.rs:34-38 | An event takes part if and only if it is among the first 512 and no older than the retention period |
| Behaviour.BehaviourScorer.OnlyPraisedAreRanked | crates/memory/src/behaviour.rs:32-69 | With positive decay, an entity with a success or accepted correction and no failure or rejection is ranked, and one with neither of the first two never is |
| Behaviour.BehaviourScorer.Resolve | crates/memory/src/behaviour.rs:71-86 | Resolves to an entity if and only if it leads, answers unknown if and only if no total is positive, and otherwise offers the best five |
| Behaviour.BehaviourScorer.ResolvesExactlyWhen | crates/memory/src/behaviour.rs:71-86 | An entity is resolved if and only if its score is at least 650 and leads zero and every other entity by 120; the intent is unknown if and only if no total is positive |
| Behaviour.BehaviourScorer.CompactionKeepsRanking | apps/daemon/src/interaction_service.rs:181-212 | With the clock at or after the latest recording, scoring and resolving what the service queries gives the answer of the lane's whole history |
| ResponseCache.ResponseCacheTable.StoreResponseCandidate | crates/storage/src/interaction.rs:470-532 | Stores exactly the bounded entries whose identifier is free, replacing whatever the key held |
| ResponseCache.ResponseCacheTable.ApplyResponseFeedback | crates/storage/src/interaction.rs:566-602 | Changes exactly the entry of that identifier, and fails without effect if there is none |
| ResponseCache.ResponseCacheTable.RecordCacheHit | crates/storage/src/interaction.rs:534-564 | Counts a hit in the entry and in the global statistics, or in neither |
| ResponseCache.RowsTellTheirFeedback | crates/storage/src/interaction.rs:470-602 | In every reachable cache an entry's confidence and priority are the clamped folds of the feedback since it was stored, its counters count that feedback and the hits since, and it is reusable if and only if the last feedback about reuse approved it (or it was stored so and none spoke) |
| ResponseCache.FoldsAreSumsWithinBounds | crates/storage/src/interaction.rs:566-602 | While nothing is clamped, confidence counts 50, -500, 500 and 100 and priority 20, -200, 300 and 150 for each useful, wrong, always-use and prefer |
| ResponseCache.CountersTellTheHits | crates/storage/src/interaction.rs:534-564 | Over every run the global counters are the number of recorded hits and the tokens they avoided |
| ResponseCache.AnswersExpireExactlyWhen | apps/daemon/src/interaction_service.rs:694-719 | A model's answer expires 30 days after it was stored |
| ResponseCache.ServedExactlyWhen | crates/storage/src/interaction.rs:447-468 | A model's answer is served if and only if the last word on it is an approval, its folded confidence is at least 800 and it has not expired; the text is the one last stored |
| ResponseCache.ReplacingIsNotServed | apps/daemon/src/interaction_service.rs:694-719 | Storing a new candidate under a key never carries an approval over |
| ResponseCache.ApprovalSufficesExactlyWhen | crates/storage/src/interaction.rs:566-602 | One more approval makes an unexpired answer servable if and only if its confidence stood at 300 or more |
| WorkingMemory.WorkingMemory.Set | crates/memory/src/lib.rs:65-74 | Keeps the deque equal to the last `capacity` entries of the recency list of the whole history |
| WorkingMemory.WorkingMemory.Get | crates/memory/src/lib.rs:76-81 | Returns the last value set for the key if fewer than `capacity` distinct other keys were set since, and otherwise nothing |
| WorkingMemory.WorkingMemory.Len | crates/memory/src/lib.rs:83-85 | The length never exceeds the capacity and keys are distinct |
| WorkingMemory.SettingKeepsSuffix | crates/memory/src/lib.rs:65-74 | Removing, evicting and pushing on the bounded deque is what the unbounded recency list does, cut to its suffix |
| WorkingMemory.StandsBeforeOthers | crates/memory/src/lib.rs:65-74 | In the recency list a key stands in front of exactly the distinct other keys set since |
| WorkingMemory.SuffixRemembers | crates/memory/src/lib.rs:65-81 | The bounded suffix holds a key with a value if and only if that is the last value set and fewer than `capacity` distinct others followed |
| ChatCancellation.Daemon.BeginChat | apps/daemon/src/ipc.rs:174-183 | Registers the chat's sender, and refuses an identifier that is active |
| ChatCancellation.Daemon.CancelChat | apps/daemon/src/ipc.rs:163-171 | Takes the entry whoever holds the service lock; `requested` if and only if the entry's receiver is alive |
| ChatCancellation.Daemon.EndChat | apps/daemon/src/ipc.rs:184-190 | Unregisters whatever entry stands under the chat's identifier |
| ChatCancellation.EntriesBelongToUnfinishedChats | apps/daemon/src/ipc.rs:158-193 | In every interleaving an entry belongs to an unfinished, unsignalled chat of that identifier, and one chat at most is in the handler |
| ChatCancellation.EntersExactlyWhenFree | apps/daemon/src/ipc.rs:158-193 | A waiting chat enters the handler if and only if nobody holds the service lock, and holds it then |
| ChatCancellation.SignalledExactlyWhenReached | apps/daemon/src/interaction_service.rs:643-665 | A chat is signalled if and only if a cancellation naming its identifier took its own sender in time; it ends cancelled only then, never because a sender was dropped |
| ChatCancellation.SenderAliveExactlyWhen | apps/daemon/src/ipc.rs:158-193 | Until it unregisters, a chat's sender is registered if and only if no cancellation took it and no other chat with the same identifier dropped it |
| ChatCancellation.FirstCancelFindsChat | apps/daemon/src/ipc.rs:158-193 | When identifiers are not reused, the first cancellation between registering and unregistering finds its chat without the service lock, and signals it if and only if its handler has not returned |
| ChatCancellation.SignalledNeverCalls | apps/daemon/src/interaction_service.rs:643-665 | A chat signalled before its provider call never starts one |
| ChatCancellation.SignalledEndsCancelledExactlyWhen | apps/daemon/src/interaction_service.rs:643-665 | A signalled chat can still end cancelled if and only if it already has, or is waiting, running before its call, or in its call; otherwise no continuation cancels it |
| ChatCancellation.RequestedCanCancelExactlyWhen | apps/daemon/src/ipc.rs:163-171 | After a cancellation that answers `requested`, some continuation ends the chat cancelled if and only if its answer was not yet being written |
| ChatCancellation.RequestedIsNotCancelled | apps/daemon/src/ipc.rs:163-171 | A run in which a cancellation answers `requested` and the chat ends answered in every continuation |
| ChatCancellation.ReusedIdLosesSender | apps/daemon/src/ipc.rs:174-190 | An interleaving with a reused identifier after which a waiting chat is signalled in no continuation |
| Framing.ReadFrame | apps/daemon/src/ipc.rs:208-232 | For every chunking the loop returns what the byte stream determines: the line through its newline, a missing newline, an oversized line, or bytes noticed after the newline |
| Framing.FrameIsFirstLine | crates/protocol/src/client.rs:85-109 | An accepted frame is exactly the bytes through the first newline, at most 65536; a frame is too large if and only if none of the first 65536 bytes is a newline and more follow |
| Framing.OutcomeExactlyWhen | apps/daemon/src/ipc.rs:208-232 | For every delivery: a missing newline, an accepted line or noticed trailing bytes, each with its exact condition; trailing bytes are noticed if and only if no read ends with the newline |
| Framing.ChunkingHardlyMatters | apps/daemon/src/ipc.rs:208-232 | Two deliveries of one stream differ at most between an accepted frame and trailing bytes, and agree when nothing follows the newline |
| Framing.RoundTripExactlyWhen | crates/protocol/src/lib.rs:77-98 | An encoded payload is received under every chunking if and only if it is not empty and holds no newline or carriage return |
| Framing.ReceivedWasEncoded | crates/protocol/src/lib.rs:77-98 | Encoding what was received gives back the frame that was read |
| Sessions.SessionStore.BeginDaemonSession | crates/storage/src/runtime.rs:89-120 | Closes open sessions as crashed or ended, revokes all session-bound grants and opens one session, or changes nothing |
| Sessions.SessionStore.FinishDaemonSession | crates/storage/src/runtime.rs:122-141 | Ends the session once and revokes the grants bound to it |
| Sessions.SessionStore.BeginAgentSession | crates/storage/src/runtime.rs:143-162 | Stores exactly new running sessions with a free instance and a known daemon session |
| Sessions.SessionStore.FinishAgentSession | crates/storage/src/runtime.rs:164-190 | Ends a running session once, never before its start, and revokes the grants bound to it |
| Sessions.SessionStore.UpsertPermissionGrant | apps/daemon/src/security_service.rs:88-177 | Saves exactly the admissible requests: a listed running session of the same agent, the current daemon session, a future expiry |
| SessionRuns.SavingKeepsInvExactlyWhen | apps/daemon/src/security_service.rs:114-150 | Saving a requested grant keeps every bound grant on a live session if and only if it is not bound to the daemon's own, already closed, session |
| SessionRuns.SavesExactlyWhen | apps/daemon/src/security_service.rs:88-177 | A request is saved if and only if scope, agent, expiry and session are as its lifetime needs; the condition is written out |
| SessionRuns.SavedGrantIsAsAsked | apps/daemon/src/security_service.rs:109-177 | A saved request with a fresh identifier adds one valid grant of the requested effect, active for the requested scope to exactly those it was asked for, a one-use grant only while unused |
| SessionRuns.NextKeepsInvExactlyWhen | crates/storage/src/runtime.rs:89-190 | Any step of any daemon keeps every unrevoked bound grant on a live session if and only if it does not save a grant for the daemon's own session after the tables closed it |
| SessionRuns.GrantsStayLiveExactlyWhen | crates/storage/src/runtime.rs:89-190 | Over every run with any number of daemons, unrevoked bound grants name live sessions at every point if and only if no such grant is ever saved |
| SessionRuns.BoundGrantsNameLiveSessions | crates/storage/src/runtime.rs:89-190 | In particular across starts, stops and crashes of one daemon at a time, an unrevoked agent-session grant names a running session of that agent and an unrevoked daemon-session grant the single open daemon session |
| SessionRuns.ClosedSessionsStayClosed | crates/storage/src/runtime.rs:164-190 | A session leaves `Running` once: its row never changes again, and rows never vanish or change owner |
| SessionRuns.SessionsEndAfterTheyStart | crates/storage/src/runtime.rs:89-190 | In every run a session is running exactly while it has no end, and ends no earlier than it started |
| SessionRuns.AgentEndsExactlyWhen | crates/storage/src/runtime.rs:89-190 | A running agent session is ended, with that status and a time not before its start, by its finishing and, as crashed, by a daemon's start; by nothing else |
| SessionRuns.DaemonEndsExactlyWhen | crates/storage/src/runtime.rs:89-141 | An open daemon session is ended by its own stopping and by the start of another, and by nothing else |
| SessionRuns.EveryEndWasGiven | crates/storage/src/runtime.rs:89-190 | Over every run a closed agent session was closed by one operation, which gave it its status and end |
| SessionRuns.BeginsExactlyWhen | crates/storage/src/runtime.rs:143-162 | An agent session begins if and only if it is running, its identifier and instance are new and its daemon session is stored; it is stored as given beside the others |
| SessionRuns.InstancesHaveOneSession | crates/storage/src/runtime.rs:89-190 | In every run an agent instance has one session, which belongs to a stored daemon session |
| SessionRuns.SessionsEndTheirGrants | crates/storage/src/runtime.rs:89-190 | Each session operation silences exactly the grants bound to the sessions it ends; every other grant speaks for whom it spoke before |
| SessionRuns.RivalStartOrphansGrants | apps/daemon/src/ipc.rs:84-103 | A second daemon beside a running one leaves it saving grants for a session already closed |
| AgentRuns.AgentService.FinishAgentSession | apps/daemon/src/agent_service.rs:266-287 | Closes the stored session and its in-memory copy with an end not before the start, or neither |
| AgentRuns.AgentService.SubmitProposals | apps/daemon/src/agent_service.rs:98-246 | Proposals are submitted in order up to the first that ends the run, each with its index and disposition |
| AgentRuns.AgentService.RunAgent | apps/daemon/src/agent_service.rs:19-264 | The tables, answer and number of submitted proposals of every exit path; one result per proposal, in order, with its disposition |
| AgentRuns.EveryExitClosesItsSession | apps/daemon/src/agent_service.rs:19-287 | Every exit whose closing write succeeds leaves the session closed with that exit's status and no unrevoked grant bound to it; if the write fails it stays running; no other session and no other grant changes |
| AgentRuns.ExitStatusExactlyWhen | apps/daemon/src/agent_service.rs:19-287 | A session is closed completed if and only if every step went well, timed out or crashed if and only if the agent's host first failed that way, and failed otherwise |
| Providers.ProviderService.RestoreSecret | apps/daemon/src/interaction_service.rs:1745-1759 | Puts one captured keyring entry back, present or absent |
| Providers.ProviderService.UpsertProvider | apps/daemon/src/interaction_service.rs:1011-1092 | Both stores after every combination of failing steps, and success if and only if no step failed |
| Providers.ProviderService.RemoveProvider | apps/daemon/src/interaction_service.rs:1094-1127 | Both stores after every combination of failing steps, also when the row is already gone |
| Providers.ProviderService.RecordTest | apps/daemon/src/interaction_service.rs:1129-1162 | A connection test changes status and time of the row and no credential |
| Providers.UpsertStoresWhatWasAsked | apps/daemon/src/interaction_service.rs:1011-1092 | A successful update leaves the row as asked for with its creation time kept, the given key under its credential or none if cleared, and changes nothing else |
| Providers.KeyringHoldsLastKeys | apps/daemon/src/interaction_service.rs:1011-1127 | In every compensated, undisturbed run the keyring holds the last key given to a provider in a successful update, and none once cleared or removed |
| Providers.FailedUpsertChangesNothing | apps/daemon/src/interaction_service.rs:1011-1092 | A failed update leaves both stores as they were unless it needed a compensation that failed and had changed the keyring; the table never changes |
| Providers.FailedRemoveChangesNothing | apps/daemon/src/interaction_service.rs:1094-1127 | On every error exit of a removal both stores are as they were unless a needed compensation failed; then the keyring lacks that one entry, and the row is gone only if another connection had deleted it |
| Providers.UpsertKeepsMatchExactlyWhen | apps/daemon/src/interaction_service.rs:1011-1092 | An update keeps keyring keys and credential identifiers equal if and only if it is not refused by the database, uncompensated, with a key added or removed |
| Providers.RemoveKeepsMatchExactlyWhen | apps/daemon/src/interaction_service.rs:1094-1127 | A removal keeps them equal if and only if it is neither refused and uncompensated nor puts back the secret of a row that was already gone |
| Providers.KeyringMatchesTable | apps/daemon/src/interaction_service.rs:1011-1162 | In every run in which compensations succeed and no other connection deletes a row during a removal, whichever other steps fail, the keyring's keys are exactly the credential identifiers in the provider table |
| ResourceLabels.PathTestExactlyWhen | crates/storage/src/security.rs:304-313 | The character-level path test holds if and only if the pattern's components are a prefix of the identifier's (with a trailing slash: those before it, properly) |
| ResourceLabels.HostTestExactlyWhen | crates/storage/src/security.rs:314-321 | The character-level host test holds if and only if the pattern's labels are a suffix of the identifier's |
| ResourceLabels.JoinSplit | crates/storage/src/security.rs:304-321 | The components hold no separator, and joining them gives the text back |
| ResourceLabels.ChosenLabelCovers | crates/storage/src/security.rs:291-331 | A label is found if and only if one covers the identifier; it is the exact one if any, else none covering is longer, and none as long has a smaller identifier |
| ResourceLabels.ChoiceIgnoresInsertionOrder | crates/storage/src/security.rs:323-325 | The choice is the same for every insertion order |
| ResourceLabels.OnlyPathAndHostTie | crates/storage/src/security.rs:323-325 | Two different matching labels of equal length are a path label and a host label |
| ResourceLabels.LabelTable.Upsert | crates/storage/src/security.rs:259-289 | Stores exactly the valid labels whose target is free and whose times fit: every other row stays, one row has the identifier, and it is the label with the stored creation time if there was one |

## Left out

- Desktop bridge, screens, command line, provider HTTP client, keyring backend, subprocesses, sandbox commands, file ownership and socket checks: only their success or failure enters.
- Behaviour.BehaviourScorer.Score: floating-point `exp`, `powf` and rounding are uninterpreted functions, and sums are over the reals, so rounding of sums is not modelled.
- ChatCancellation: when tasks are scheduled and how long calls take; each await between critical sections is a scheduling point. Only requests that chat are tracked; others appear as holders of the service lock.
- Activity entries, usage statistics and chat messages written around an action are not modelled, nor that a request fails when one of those writes does.
- Authority.HalquenService.Confirm: the usage event of a confirmed action is only a step that may fail; what it stores is in `IntentUsage`.
- AgentRuns.AgentService.RunAgent: what executing a proposal does to grants and log is in `Authority`; here it is an answer.
- SessionRuns.BoundGrantsNameLiveSessions: a request that slips in between a daemon's last write and its exit is not modelled. Confirmed grants are those a chat can leave, bound to a chat or to no session, since chat proposals carry no agent identity.
- ResponseCache.RowsTellTheirFeedback: usage and success counters beyond 64 bits, and the removal of a provider clearing an entry's origin.
- Framing.ReadFrame: a failing read ends the loop with that error and is not modelled.
- Memory: pinned and priority columns, listing and search; the automatic choice among several items with one key is an input.
- Providers: validation of endpoint and metadata are inputs; models that depend on a provider are not modelled. A keyring or database step that fails is taken to have no effect.
- ResourceLabels: text with embedded NUL characters, which SQLite measures only up to the first.
- Blank text is text of ASCII white space only; other Unicode white space is not modelled.
- Enum codecs, row mapping, settings bounds, the normalisation of requests, `consume_permission`, the model router, context builder, prompt composer and natural-language parsing.
