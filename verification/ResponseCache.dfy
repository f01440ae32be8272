/** The response cache with user feedback (crates/storage/src/interaction.rs) and the candidates the chat
    service stores in it (apps/daemon/src/interaction_service.rs). */
module ResponseCache {
  import opened Prelude

  type CacheEntryId(==)

  datatype ResponseFeedback = Useful | Wrong | DoNotRemember | AlwaysUse | Prefer

  datatype CacheKey = CacheKey(request: string, context: string)

  datatype CachedResponse = CachedResponse(
    id: CacheEntryId, request: string, response: string, context: string, confidence: int, priority: int,
    validUntilMs: Option<int>, reusable: bool, createdAtMs: int, lastUsedAtMs: Option<int>,
    usageCount: nat, successCount: nat, correctionCount: nat, tokensAvoided: nat)
  {
    function Key(): CacheKey {
      CacheKey(request, context)
    }

    predicate WithinBounds() {
      && 1 <= |request| <= 4_096
      && 1 <= |response| <= 65_536
      && 1 <= |context| <= 512
      && 0 <= confidence <= 1_000
      && 0 <= priority <= 1_000
      && IsI64(usageCount) && IsI64(successCount) && IsI64(correctionCount) && IsI64(tokensAvoided)
    }

    function With(f: ResponseFeedback): CachedResponse {
      this.(confidence := Clamp(confidence + ConfidenceDelta(f), 0, 1_000),
            priority := Clamp(priority + PriorityDelta(f), 0, 1_000),
            successCount := successCount + (if f.Useful? || f.AlwaysUse? || f.Prefer? then 1 else 0),
            correctionCount := correctionCount + (if f.Wrong? then 1 else 0),
            reusable := match Reusability(f) case Some(b) => b case None => reusable)
    }

    function Hit(nowMs: int, tokens: nat): CachedResponse {
      this.(lastUsedAtMs := Some(nowMs), usageCount := usageCount + 1, tokensAvoided := tokensAvoided + tokens)
    }

    predicate Servable(nowMs: int) {
      reusable && confidence >= 800 && Unexpired(nowMs)
    }

    predicate Unexpired(nowMs: int) {
      validUntilMs.None? || validUntilMs.value >= nowMs
    }
  }

  function ConfidenceDelta(f: ResponseFeedback): int {
    match f
    case Useful => 50
    case Wrong => -500
    case DoNotRemember => 0
    case AlwaysUse => 500
    case Prefer => 100
  }

  function PriorityDelta(f: ResponseFeedback): int {
    match f
    case Useful => 20
    case Wrong => -200
    case DoNotRemember => 0
    case AlwaysUse => 300
    case Prefer => 150
  }

  /** The reusability a feedback sets, if it sets one. */
  function Reusability(f: ResponseFeedback): Option<bool> {
    match f
    case Useful => None
    case Wrong => Some(false)
    case DoNotRemember => Some(false)
    case AlwaysUse => Some(true)
    case Prefer => None
  }

  const RESPONSE_CANDIDATE_TTL_MS: int := 30 * 24 * 60 * 60 * 1_000

  /** What the chat service stores after a model answered. */
  function AiCandidate(id: CacheEntryId, request: string, response: string, nowMs: int): CachedResponse {
    CachedResponse(id, request, response, "global", 550, 500, Some(Clamp(nowMs + RESPONSE_CANDIDATE_TTL_MS, I64_MIN, I64_MAX)),
                   false, nowMs, None, 0, 0, 0, 0)
  }

  /** The table, keyed by its unique pair, and the global counters of `usage_stats` that a hit raises. */
  datatype Cache = Cache(rows: map<CacheKey, CachedResponse>, hits: nat, tokensAvoided: nat)

  datatype StorageError = InvalidInteraction | ConstraintViolation

  ghost predicate Keyed(rows: map<CacheKey, CachedResponse>) {
    && (forall k | k in rows :: rows[k].Key() == k)
    && forall k, m | k in rows && m in rows && rows[k].id == rows[m].id :: k == m
  }

  predicate Holds(rows: map<CacheKey, CachedResponse>, id: CacheEntryId) {
    exists k :: k in rows && rows[k].id == id
  }

  /** A candidate is stored unless it is out of bounds or its identifier belongs to another entry. */
  predicate Accepts(rows: map<CacheKey, CachedResponse>, e: CachedResponse) {
    e.WithinBounds() && forall k | k in rows && rows[k].id == e.id :: k == e.Key()
  }

  function Changed(rows: map<CacheKey, CachedResponse>, id: CacheEntryId, change: CachedResponse -> CachedResponse): map<CacheKey, CachedResponse> {
    map k | k in rows :: if rows[k].id == id then change(rows[k]) else rows[k]
  }

  function Feedback(f: ResponseFeedback): CachedResponse -> CachedResponse {
    (e: CachedResponse) => e.With(f)
  }

  function Hitting(nowMs: int, tokens: nat): CachedResponse -> CachedResponse {
    (e: CachedResponse) => e.Hit(nowMs, tokens)
  }

  class ResponseCacheTable {
    var cache: Cache

    constructor ()
      ensures cache == Cache(map[], 0, 0)
    {
      cache := Cache(map[], 0, 0);
    }

    method StoreResponseCandidate(e: CachedResponse) returns (r: Result<(), StorageError>)
      modifies this
      ensures cache == Next(old(cache), Store(e))
      ensures r.Ok? <==> Accepts(old(cache).rows, e)
      ensures r.Err? ==> cache == old(cache)
    {
      if !e.WithinBounds() {
        return Err(InvalidInteraction);
      }
      if exists k :: k in cache.rows && k != e.Key() && cache.rows[k].id == e.id {
        return Err(ConstraintViolation);
      }
      cache := cache.(rows := cache.rows[e.Key() := e]);
      return Ok(());
    }

    method ApplyResponseFeedback(id: CacheEntryId, f: ResponseFeedback) returns (r: Result<(), StorageError>)
      modifies this
      ensures cache == Next(old(cache), Give(id, f))
      ensures r.Ok? <==> Holds(old(cache).rows, id)
      ensures r.Err? ==> cache == old(cache)
    {
      if !Holds(cache.rows, id) {
        return Err(InvalidInteraction);
      }
      cache := cache.(rows := Changed(cache.rows, id, Feedback(f)));
      return Ok(());
    }

    method RecordCacheHit(id: CacheEntryId, nowMs: int, tokens: nat) returns (r: Result<(), StorageError>)
      modifies this
      ensures cache == Next(old(cache), Use(id, nowMs, tokens))
      ensures r.Ok? <==> IsI64(tokens) && Holds(old(cache).rows, id)
      ensures r.Err? ==> cache == old(cache)
    {
      if !IsI64(tokens) || !Holds(cache.rows, id) {
        return Err(InvalidInteraction);
      }
      cache := Cache(Changed(cache.rows, id, Hitting(nowMs, tokens)), cache.hits + 1, cache.tokensAvoided + tokens);
      return Ok(());
    }

    method Lookup(request: string, context: string, nowMs: int) returns (r: Option<CachedResponse>)
      ensures r == Served(cache.rows, CacheKey(request, context), nowMs)
    {
      var k := CacheKey(request, context);
      if k in cache.rows && cache.rows[k].Servable(nowMs) {
        return Some(cache.rows[k]);
      }
      return None;
    }
  }

  function Served(rows: map<CacheKey, CachedResponse>, k: CacheKey, nowMs: int): Option<CachedResponse> {
    if k in rows && rows[k].Servable(nowMs) then Some(rows[k]) else None
  }

  // ---- Runs ----

  datatype Op =
    | Store(entry: CachedResponse)
    | Give(id: CacheEntryId, feedback: ResponseFeedback)
    | Use(used: CacheEntryId, nowMs: int, tokens: nat)

  function Next(c: Cache, op: Op): Cache {
    match op
    case Store(e) => if Accepts(c.rows, e) then c.(rows := c.rows[e.Key() := e]) else c
    case Give(id, f) => if Holds(c.rows, id) then c.(rows := Changed(c.rows, id, Feedback(f))) else c
    case Use(id, nowMs, tokens) =>
      if IsI64(tokens) && Holds(c.rows, id)
      then Cache(Changed(c.rows, id, Hitting(nowMs, tokens)), c.hits + 1, c.tokensAvoided + tokens)
      else c
  }

  function Run(ops: seq<Op>): Cache {
    if ops == [] then Cache(map[], 0, 0) else Next(Run(ops[..|ops| - 1]), ops[|ops| - 1])
  }

  predicate Replaces(c: Cache, op: Op, k: CacheKey) {
    op.Store? && op.entry.Key() == k && Accepts(c.rows, op.entry)
  }

  /** What was last stored under a key. */
  function LastStored(ops: seq<Op>, k: CacheKey): Option<CachedResponse> {
    if ops == [] then None
    else
      var front, op := ops[..|ops| - 1], ops[|ops| - 1];
      if Replaces(Run(front), op, k) then Some(op.entry) else LastStored(front, k)
  }

  /** The feedback given, since then, to the entry stored then. */
  function FeedbackSince(ops: seq<Op>, k: CacheKey): seq<ResponseFeedback> {
    if ops == [] then []
    else
      var front, op := ops[..|ops| - 1], ops[|ops| - 1];
      if Replaces(Run(front), op, k) then []
      else if op.Give? && LastStored(front, k).Some? && LastStored(front, k).value.id == op.id
      then FeedbackSince(front, k) + [op.feedback]
      else FeedbackSince(front, k)
  }

  /** Confidence as a clamped fold of feedback. */
  function FoldConfidence(start: int, fs: seq<ResponseFeedback>): int {
    if fs == [] then start
    else Clamp(FoldConfidence(start, fs[..|fs| - 1]) + ConfidenceDelta(fs[|fs| - 1]), 0, 1_000)
  }

  function FoldPriority(start: int, fs: seq<ResponseFeedback>): int {
    if fs == [] then start
    else Clamp(FoldPriority(start, fs[..|fs| - 1]) + PriorityDelta(fs[|fs| - 1]), 0, 1_000)
  }

  /** The hits, since then, on the entry stored then. */
  function HitsSince(ops: seq<Op>, k: CacheKey): seq<Op> {
    if ops == [] then []
    else
      var front, op := ops[..|ops| - 1], ops[|ops| - 1];
      if Replaces(Run(front), op, k) then []
      else if op.Use? && IsI64(op.tokens) && LastStored(front, k).Some? && LastStored(front, k).value.id == op.used
      then HitsSince(front, k) + [op]
      else HitsSince(front, k)
  }

  function TokensOf(hits: seq<Op>): nat {
    if hits == [] then 0
    else TokensOf(hits[..|hits| - 1]) + if hits[|hits| - 1].Use? then hits[|hits| - 1].tokens else 0
  }

  /** Feedback that says something about reuse: an approval, or one of the two that withdraw it. */
  predicate Speaks(f: ResponseFeedback) {
    f.AlwaysUse? || f.Wrong? || f.DoNotRemember?
  }

  /** The last feedback that says anything about reuse is an approval. */
  ghost predicate LastWordIsApproval(fs: seq<ResponseFeedback>) {
    exists i :: 0 <= i < |fs| && fs[i] == AlwaysUse && forall j | i < j < |fs| :: !Speaks(fs[j])
  }

  ghost predicate NeverSpoken(fs: seq<ResponseFeedback>) {
    forall f | f in fs :: !Speaks(f)
  }

  ghost predicate Tells(row: CachedResponse, stored: CachedResponse, fs: seq<ResponseFeedback>) {
    && row.id == stored.id && row.Key() == stored.Key() && row.response == stored.response
    && row.validUntilMs == stored.validUntilMs && row.createdAtMs == stored.createdAtMs
    && row.confidence == FoldConfidence(stored.confidence, fs) && row.priority == FoldPriority(stored.priority, fs)
    && 0 <= row.confidence <= 1_000 && 0 <= row.priority <= 1_000
    && row.successCount == stored.successCount + multiset(fs)[Useful] + multiset(fs)[AlwaysUse] + multiset(fs)[Prefer]
    && row.correctionCount == stored.correctionCount + multiset(fs)[Wrong]
    && (row.reusable <==> LastWordIsApproval(fs) || (stored.reusable && NeverSpoken(fs)))
  }

  ghost predicate TellsHits(row: CachedResponse, stored: CachedResponse, hits: seq<Op>) {
    && row.usageCount == stored.usageCount + |hits|
    && row.tokensAvoided == stored.tokensAvoided + TokensOf(hits)
    && (forall hit | hit in hits :: hit.Use?)
    && row.lastUsedAtMs == if hits == [] then stored.lastUsedAtMs else Some(hits[|hits| - 1].nowMs)
  }

  lemma RunKeyed(ops: seq<Op>)
    ensures Keyed(Run(ops).rows)
  {
    if ops != [] {
      RunKeyed(ops[..|ops| - 1]);
    }
  }

  lemma ApprovalAppended(fs: seq<ResponseFeedback>, f: ResponseFeedback)
    ensures LastWordIsApproval(fs + [f]) <==> f == AlwaysUse || (!Speaks(f) && LastWordIsApproval(fs))
    ensures NeverSpoken(fs + [f]) <==> NeverSpoken(fs) && !Speaks(f)
  {
    var all := fs + [f];
    if f == AlwaysUse {
      assert all[|fs|] == AlwaysUse;
    } else if !Speaks(f) && LastWordIsApproval(fs) {
      var i :| 0 <= i < |fs| && fs[i] == AlwaysUse && forall j | i < j < |fs| :: !Speaks(fs[j]);
      assert all[i] == AlwaysUse;
    }
    if LastWordIsApproval(all) {
      var i :| 0 <= i < |all| && all[i] == AlwaysUse && forall j | i < j < |all| :: !Speaks(all[j]);
      assert i < |fs| ==> !Speaks(all[|fs|]);
      assert i < |fs| ==> fs[i] == AlwaysUse && forall j | i < j < |fs| :: fs[j] == all[j];
    }
    assert forall g | g in all :: g in fs || g == f;
    assert f in all && forall g | g in fs :: g in all;
  }

  lemma FeedbackKeepsTelling(row: CachedResponse, stored: CachedResponse, fs: seq<ResponseFeedback>, hits: seq<Op>, f: ResponseFeedback)
    requires Tells(row, stored, fs) && TellsHits(row, stored, hits)
    ensures Tells(row.With(f), stored, fs + [f]) && TellsHits(row.With(f), stored, hits)
  {
    ApprovalAppended(fs, f);
    assert (fs + [f])[..|fs|] == fs && multiset(fs + [f]) == multiset(fs) + multiset{f};
  }

  lemma HitKeepsTelling(row: CachedResponse, stored: CachedResponse, fs: seq<ResponseFeedback>, hits: seq<Op>, hit: Op)
    requires Tells(row, stored, fs) && TellsHits(row, stored, hits) && hit.Use?
    ensures Tells(row.Hit(hit.nowMs, hit.tokens), stored, fs) && TellsHits(row.Hit(hit.nowMs, hit.tokens), stored, hits + [hit])
  {
    assert (hits + [hit])[..|hits|] == hits;
  }

  lemma StoredTells(e: CachedResponse)
    requires e.WithinBounds()
    ensures Tells(e, e, []) && TellsHits(e, e, [])
  {
  }

  lemma StepTells(ops: seq<Op>, k: CacheKey)
    requires ops != []
    requires var front := ops[..|ops| - 1];
             && Keyed(Run(front).rows)
             && (k in Run(front).rows <==> LastStored(front, k).Some?)
             && (k in Run(front).rows ==>
                   && Tells(Run(front).rows[k], LastStored(front, k).value, FeedbackSince(front, k))
                   && TellsHits(Run(front).rows[k], LastStored(front, k).value, HitsSince(front, k)))
    ensures k in Run(ops).rows <==> LastStored(ops, k).Some?
    ensures k in Run(ops).rows ==>
              && Tells(Run(ops).rows[k], LastStored(ops, k).value, FeedbackSince(ops, k))
              && TellsHits(Run(ops).rows[k], LastStored(ops, k).value, HitsSince(ops, k))
  {
    hide Tells, TellsHits;
    var front, op := ops[..|ops| - 1], ops[|ops| - 1];
    if Replaces(Run(front), op, k) {
      StoredTells(op.entry);
    } else if k in Run(front).rows {
      var row, stored := Run(front).rows[k], LastStored(front, k).value;
      TellsOfItself(row, stored, FeedbackSince(front, k));
      if op.Give? && op.id == row.id {
        FeedbackKeepsTelling(row, stored, FeedbackSince(front, k), HitsSince(front, k), op.feedback);
      } else if op.Use? && op.used == row.id && IsI64(op.tokens) {
        HitKeepsTelling(row, stored, FeedbackSince(front, k), HitsSince(front, k), op);
      }
    }
  }

  lemma TellsOfItself(row: CachedResponse, stored: CachedResponse, fs: seq<ResponseFeedback>)
    requires Tells(row, stored, fs)
    ensures row.id == stored.id
  {
  }

  /** In every reachable cache each entry is what was last stored under its key, with exactly the feedback given
      to it since folded in and exactly the hits on it counted; nothing of an earlier entry carries over. */
  lemma {:induction false} RowsTellTheirFeedback(ops: seq<Op>, k: CacheKey)
    ensures k in Run(ops).rows <==> LastStored(ops, k).Some?
    ensures k in Run(ops).rows ==> Tells(Run(ops).rows[k], LastStored(ops, k).value, FeedbackSince(ops, k))
    ensures k in Run(ops).rows ==> TellsHits(Run(ops).rows[k], LastStored(ops, k).value, HitsSince(ops, k))
  {
    if ops != [] {
      RowsTellTheirFeedback(ops[..|ops| - 1], k);
      RunKeyed(ops[..|ops| - 1]);
      StepTells(ops, k);
    }
  }

  /** The confidence that counts of feedback add up to. */
  function SumConfidence(start: int, fs: seq<ResponseFeedback>): int {
    start + 50 * multiset(fs)[Useful] - 500 * multiset(fs)[Wrong] + 500 * multiset(fs)[AlwaysUse] + 100 * multiset(fs)[Prefer]
  }

  function SumPriority(start: int, fs: seq<ResponseFeedback>): int {
    start + 20 * multiset(fs)[Useful] - 200 * multiset(fs)[Wrong] + 300 * multiset(fs)[AlwaysUse] + 150 * multiset(fs)[Prefer]
  }

  predicate SumsWithinBounds(confidence: int, priority: int, fs: seq<ResponseFeedback>) {
    0 <= SumConfidence(confidence, fs) <= 1_000 && 0 <= SumPriority(priority, fs) <= 1_000
  }

  lemma SumsAppend(start: int, fs: seq<ResponseFeedback>, f: ResponseFeedback)
    ensures SumConfidence(start, fs + [f]) == SumConfidence(start, fs) + ConfidenceDelta(f)
    ensures SumPriority(start, fs + [f]) == SumPriority(start, fs) + PriorityDelta(f)
  {
    assert multiset(fs + [f]) == multiset(fs) + multiset{f};
  }

  /** As long as no sum leaves its bounds, the order of feedback is irrelevant: confidence and priority are the sums of what
      each kind counts. */
  lemma {:induction false} FoldsAreSumsWithinBounds(confidence: int, priority: int, fs: seq<ResponseFeedback>)
    requires forall n | 0 <= n <= |fs| :: SumsWithinBounds(confidence, priority, fs[..n])
    ensures FoldConfidence(confidence, fs) == SumConfidence(confidence, fs) && FoldPriority(priority, fs) == SumPriority(priority, fs)
  {
    if fs != [] {
      var front, last := fs[..|fs| - 1], fs[|fs| - 1];
      hide SumConfidence, SumPriority;
      forall n | 0 <= n <= |front| ensures SumsWithinBounds(confidence, priority, front[..n]) {
        assert front[..n] == fs[..n];
      }
      FoldsAreSumsWithinBounds(confidence, priority, front);
      SumsAppend(confidence, front, last);
      SumsAppend(priority, front, last);
      assert fs == front + [last] && fs[..|fs|] == fs;
      assert SumsWithinBounds(confidence, priority, fs[..|fs|]);
    } else {
      NoFeedbackAddsNothing(confidence, priority);
    }
  }

  lemma NoFeedbackAddsNothing(confidence: int, priority: int)
    ensures SumConfidence(confidence, []) == confidence && SumPriority(priority, []) == priority
  {
  }

  /** Every hit that was recorded, in order. */
  function Hits(ops: seq<Op>): seq<Op> {
    if ops == [] then []
    else
      var front, op := ops[..|ops| - 1], ops[|ops| - 1];
      if op.Use? && IsI64(op.tokens) && Holds(Run(front).rows, op.used) then Hits(front) + [op] else Hits(front)
  }

  /** The global counters tell how many hits the run recorded and how many tokens they avoided, on whichever entries. */
  lemma {:induction false} CountersTellTheHits(ops: seq<Op>)
    ensures Run(ops).hits == |Hits(ops)| && Run(ops).tokensAvoided == TokensOf(Hits(ops))
  {
    if ops != [] {
      var front, op := ops[..|ops| - 1], ops[|ops| - 1];
      CountersTellTheHits(front);
      assert (Hits(front) + [op])[..|Hits(front)|] == Hits(front);
    }
  }

  /** Every store in the run is one the chat service makes. */
  ghost predicate StoresAiCandidates(ops: seq<Op>) {
    forall i | 0 <= i < |ops| && ops[i].Store? :: IsAiCandidate(ops[i].entry)
  }

  /** A fresh answer: not reusable, of middling confidence and priority, never used, and valid for 30 days. */
  ghost predicate IsAiCandidate(e: CachedResponse) {
    && e.context == "global" && e.confidence == 550 && e.priority == 500 && !e.reusable
    && e.usageCount == e.successCount == e.correctionCount == e.tokensAvoided == 0 && e.lastUsedAtMs.None?
    && e.validUntilMs == Some(Clamp(e.createdAtMs + 2_592_000_000, I64_MIN, I64_MAX))
  }

  lemma CandidatesAreFresh(id: CacheEntryId, request: string, response: string, nowMs: int)
    ensures var e := AiCandidate(id, request, response, nowMs);
            IsAiCandidate(e) && e.id == id && e.request == request && e.response == response && e.createdAtMs == nowMs
  {
  }

  lemma {:induction false} LastStoredIsAi(ops: seq<Op>, k: CacheKey)
    requires StoresAiCandidates(ops) && LastStored(ops, k).Some?
    ensures IsAiCandidate(LastStored(ops, k).value)
  {
    var front, op := ops[..|ops| - 1], ops[|ops| - 1];
    if !Replaces(Run(front), op, k) {
      LastStoredIsAi(front, k);
    }
  }

  /** A model's answer is served exactly when the last word on it was an approval, its folded confidence
      reached 800 and it has not expired. */
  lemma ServedExactlyWhen(ops: seq<Op>, k: CacheKey, nowMs: int)
    requires StoresAiCandidates(ops)
    ensures Served(Run(ops).rows, k, nowMs).Some? <==>
            && LastStored(ops, k).Some?
            && LastWordIsApproval(FeedbackSince(ops, k))
            && FoldConfidence(550, FeedbackSince(ops, k)) >= 800
            && LastStored(ops, k).value.Unexpired(nowMs)
    ensures Served(Run(ops).rows, k, nowMs).Some? ==>
            Served(Run(ops).rows, k, nowMs).value.response == LastStored(ops, k).value.response
  {
    RowsTellTheirFeedback(ops, k);
    if k in Run(ops).rows {
      LastStoredIsAi(ops, k);
    }
  }

  /** A model's answer expires 30 days after it was stored. */
  lemma AnswersExpireExactlyWhen(e: CachedResponse, nowMs: int)
    requires IsAiCandidate(e) && IsI64(e.createdAtMs) && IsI64(nowMs)
    ensures e.Unexpired(nowMs) <==> nowMs - e.createdAtMs <= 2_592_000_000
  {
  }

  /** Storing again under the same key withdraws an approval. */
  lemma ReplacingIsNotServed(ops: seq<Op>, e: CachedResponse, nowMs: int)
    requires StoresAiCandidates(ops) && IsAiCandidate(e) && Accepts(Run(ops).rows, e)
    ensures Served(Run(ops + [Store(e)]).rows, e.Key(), nowMs) == None
  {
    assert (ops + [Store(e)])[..|ops|] == ops;
  }

  /** Approving an entry makes it servable exactly when its confidence was at least 300: after one `Wrong` a
      fresh candidate stands at 50, and a single approval no longer suffices. */
  lemma ApprovalSufficesExactlyWhen(ops: seq<Op>, k: CacheKey, nowMs: int)
    requires StoresAiCandidates(ops) && LastStored(ops, k).Some? && LastStored(ops, k).value.Unexpired(nowMs)
    ensures Served(Run(ops + [Give(LastStored(ops, k).value.id, AlwaysUse)]).rows, k, nowMs).Some? <==>
            FoldConfidence(550, FeedbackSince(ops, k)) >= 300
    ensures FoldConfidence(550, [Wrong]) == 50
  {
    var op := Give(LastStored(ops, k).value.id, AlwaysUse);
    assert (ops + [op])[..|ops|] == ops;
    RowsTellTheirFeedback(ops, k);
    LastStoredIsAi(ops, k);
    assert [Wrong][..0] == [];
  }
}
