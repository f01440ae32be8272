/** The compacted intent-usage table (crates/storage/src/security.rs) and the behaviour scorer that reads
    it (crates/memory/src/behaviour.rs). */
module IntentUsage {
  import opened Prelude
  import opened SqlOrder
  import opened Domain

  type EventId = int
  type EntityKey = int

  const RETENTION_MS: int := 90 * 24 * 60 * 60 * 1_000
  const MAX_EVENTS: nat := 512

  datatype BehaviourOutcome = Success | Failure | CorrectionAccepted | CorrectionRejected

  datatype UsageEvent = UsageEvent(
    id: EventId, intent: string, entity: EntityKey, outcome: BehaviourOutcome, contextClass: string, createdAtMs: int)

  datatype StorageError = InvalidInteraction | DuplicateKey

  predicate WithinBounds(e: UsageEvent) {
    !Blank(e.intent) && |e.intent| <= 128 && !Blank(e.contextClass) && |e.contextClass| <= 128
  }

  function NewestFirst(e: UsageEvent): Rank {
    Rank(-e.createdAtMs, -e.id, 0)
  }

  function InLane(intent: string, contextClass: string): UsageEvent -> bool {
    (e: UsageEvent) => e.intent == intent && e.contextClass == contextClass
  }

  function NotBefore(ms: int): UsageEvent -> bool {
    (e: UsageEvent) => e.createdAtMs >= ms
  }

  function IdNotIn(ids: set<EventId>): UsageEvent -> bool {
    (e: UsageEvent) => e.id !in ids
  }

  /** One intent's events in one context class, newest first. */
  function Lane(rows: seq<UsageEvent>, intent: string, contextClass: string): seq<UsageEvent> {
    Sort(Filter(rows, InLane(intent, contextClass)), NewestFirst)
  }

  function Take<T>(s: seq<T>, n: nat): seq<T> {
    if n <= |s| then s[..n] else s
  }

  /** `WHERE lane AND created_at_ms >= since ORDER BY newest LIMIT limit`. */
  function RecentIntentUsage(rows: seq<UsageEvent>, intent: string, contextClass: string, sinceMs: int, limit: nat): seq<UsageEvent> {
    Take(Sort(Filter(Filter(rows, InLane(intent, contextClass)), NotBefore(sinceMs)), NewestFirst),
         if limit <= MAX_EVENTS then limit else MAX_EVENTS)
  }

  function Ids(s: seq<UsageEvent>): set<EventId> {
    set e | e in s :: e.id
  }

  function Expire(rows: seq<UsageEvent>, e: UsageEvent): seq<UsageEvent> {
    Filter(rows, NotBefore(SaturatingSub(e.createdAtMs, RETENTION_MS)))
  }

  /** Deletes the lane's rows beyond the newest `MAX_EVENTS`. */
  function Compact(rows: seq<UsageEvent>, e: UsageEvent): seq<UsageEvent> {
    var lane := Lane(rows, e.intent, e.contextClass);
    Filter(rows, IdNotIn(Ids(lane[|Take(lane, MAX_EVENTS)|..])))
  }

  /** The table after storing one event: appended, expired, compacted. */
  function Stored(rows: seq<UsageEvent>, e: UsageEvent): seq<UsageEvent> {
    Compact(Expire(rows + [e], e), e)
  }

  predicate Recordable(rows: seq<UsageEvent>, e: UsageEvent) {
    WithinBounds(e) && forall row | row in rows :: row.id != e.id
  }

  class IntentUsageTable {
    var rows: seq<UsageEvent>

    constructor ()
      ensures rows == []
    {
      rows := [];
    }

    method Record(e: UsageEvent) returns (r: Result<(), StorageError>)
      modifies this
      ensures r.Ok? <==> Recordable(old(rows), e)
      ensures rows == if r.Ok? then Stored(old(rows), e) else old(rows)
    {
      if !WithinBounds(e) {
        return Err(InvalidInteraction);
      }
      if exists row | row in rows :: row.id == e.id {
        return Err(DuplicateKey);
      }
      var t := rows + [e];
      t := Filter(t, NotBefore(SaturatingSub(e.createdAtMs, RETENTION_MS)));
      var lane := Sort(Filter(t, InLane(e.intent, e.contextClass)), NewestFirst);
      if |lane| > MAX_EVENTS {
        t := Filter(t, IdNotIn(Ids(lane[MAX_EVENTS..])));
      } else {
        assert Ids(lane[|lane|..]) == {};
        FilterAll(t, IdNotIn({}));
      }
      rows := t;
      return Ok(());
    }
  }

  /** The table after a run of attempted recordings. */
  function Run(events: seq<UsageEvent>): seq<UsageEvent> {
    if events == [] then []
    else
      var before, e := Run(events[..|events| - 1]), events[|events| - 1];
      if Recordable(before, e) then Stored(before, e) else before
  }

  /** Everything the same run recorded, with nothing deleted. */
  function Log(events: seq<UsageEvent>): seq<UsageEvent> {
    if events == [] then []
    else
      var front, e := events[..|events| - 1], events[|events| - 1];
      if Recordable(Run(front), e) then Log(front) + [e] else Log(front)
  }

  ghost predicate NoneAfter(s: seq<UsageEvent>, ms: int) {
    forall e | e in s :: e.createdAtMs <= ms
  }

  // ---- Filters, prefixes and insertion ----

  lemma {:induction false} FilterAll<T>(s: seq<T>, keep: T -> bool)
    requires forall x | x in s :: keep(x)
    ensures Filter(s, keep) == s
  {
    if s != [] {
      FilterAll(s[1..], keep);
    }
  }

  lemma {:induction false} FilterNone<T>(s: seq<T>, keep: T -> bool)
    requires forall x | x in s :: !keep(x)
    ensures Filter(s, keep) == []
  {
    if s != [] {
      FilterNone(s[1..], keep);
    }
  }

  lemma {:induction false} FilterConcat<T>(a: seq<T>, b: seq<T>, keep: T -> bool)
    ensures Filter(a + b, keep) == Filter(a, keep) + Filter(b, keep)
  {
    if a == [] {
      assert a + b == b;
    } else {
      FilterConcat(a[1..], b, keep);
      assert (a + b)[1..] == a[1..] + b;
    }
  }

  lemma FilterAppend<T>(s: seq<T>, x: T, keep: T -> bool)
    ensures Filter(s + [x], keep) == if keep(x) then Filter(s, keep) + [x] else Filter(s, keep)
  {
    FilterConcat(s, [x], keep);
    assert [x][1..] == [];
  }

  lemma {:induction false} FilterSwap<T>(s: seq<T>, p: T -> bool, q: T -> bool)
    ensures Filter(Filter(s, p), q) == Filter(Filter(s, q), p)
  {
    if s != [] {
      FilterSwap(s[1..], p, q);
      FilterCons(s[0], Filter(s[1..], p), q);
      FilterCons(s[0], Filter(s[1..], q), p);
    }
  }

  lemma SortedHead<T>(s: seq<T>, y: T, rank: T -> Rank)
    requires IsSorted(s, rank) && y in s
    ensures !Before(rank(y), rank(s[0]))
  {
    var i :| 0 <= i < |s| && s[i] == y;
  }

  lemma InsertAtFront<T>(x: T, kept: seq<T>, s: seq<T>, rank: T -> Rank)
    requires s != [] && IsSorted(s, rank) && Before(rank(x), rank(s[0]))
    requires forall y | y in kept :: y in s
    ensures Insert(x, kept, rank) == [x] + kept
  {
    if kept != [] {
      SortedHead(s, kept[0], rank);
    }
  }

  lemma InsertLater<T>(x: T, y: T, s: seq<T>, rank: T -> Rank)
    requires !Before(rank(x), rank(y))
    ensures Insert(x, [y] + s, rank) == [y] + Insert(x, s, rank)
  {
    assert ([y] + s)[1..] == s;
  }

  /** Filtering a sorted list commutes with inserting into it. */
  lemma {:induction false} FilterInsert<T>(x: T, s: seq<T>, keep: T -> bool, rank: T -> Rank)
    requires IsSorted(s, rank)
    ensures Filter(Insert(x, s, rank), keep) == if keep(x) then Insert(x, Filter(s, keep), rank) else Filter(s, keep)
  {
    if s == [] {
      FilterCons(x, [], keep);
      assert [x] + [] == [x];
    } else if Before(rank(x), rank(s[0])) {
      FilterCons(x, s, keep);
      FilterHolds(s, keep);
      InsertAtFront(x, Filter(s, keep), s, rank);
    } else {
      var y, rest := s[0], s[1..];
      FilterInsert(x, rest, keep, rank);
      FilterCons(y, Insert(x, rest, rank), keep);
      InsertLater(x, y, Filter(rest, keep), rank);
    }
  }

  lemma SortOfFilteredAppend(rows: seq<UsageEvent>, x: UsageEvent, keep: UsageEvent -> bool)
    ensures Sort(Filter(rows + [x], keep), NewestFirst) ==
            if keep(x) then Insert(x, Sort(Filter(rows, keep), NewestFirst), NewestFirst) else Sort(Filter(rows, keep), NewestFirst)
  {
    FilterAppend(rows, x, keep);
    SortAppend(Filter(rows, keep), x, NewestFirst);
  }

  lemma FilterOfSortedAppend(rows: seq<UsageEvent>, x: UsageEvent, keep: UsageEvent -> bool)
    ensures Filter(Sort(rows + [x], NewestFirst), keep) ==
            if keep(x) then Insert(x, Filter(Sort(rows, NewestFirst), keep), NewestFirst) else Filter(Sort(rows, NewestFirst), keep)
  {
    SortSorts(rows, NewestFirst);
    SortAppend(rows, x, NewestFirst);
    FilterInsert(x, Sort(rows, NewestFirst), keep, NewestFirst);
  }

  lemma {:induction false} SortFilterAppended(rows: seq<UsageEvent>, x: UsageEvent, keep: UsageEvent -> bool)
    ensures Sort(Filter(rows + [x], keep), NewestFirst) == Filter(Sort(rows + [x], NewestFirst), keep)
    decreases |rows| + 1, 0
  {
    SortFilter(rows, keep);
    SortOfFilteredAppend(rows, x, keep);
    FilterOfSortedAppend(rows, x, keep);
  }

  /** Filtering and sorting commute. */
  lemma {:induction false} SortFilter(rows: seq<UsageEvent>, keep: UsageEvent -> bool)
    ensures Sort(Filter(rows, keep), NewestFirst) == Filter(Sort(rows, NewestFirst), keep)
    decreases |rows|, 1
  {
    if rows != [] {
      assert rows == rows[..|rows| - 1] + [rows[|rows| - 1]];
      SortFilterAppended(rows[..|rows| - 1], rows[|rows| - 1], keep);
    }
  }

  lemma TakeCons<T>(y: T, s: seq<T>, n: nat)
    requires n > 0
    ensures Take([y] + s, n) == [y] + Take(s, n - 1)
  {
  }

  lemma TakeInsertLater(x: UsageEvent, y: UsageEvent, s: seq<UsageEvent>, n: nat)
    requires n > 0 && !Before(NewestFirst(x), NewestFirst(y))
    ensures Take(Insert(x, [y] + s, NewestFirst), n) == [y] + Take(Insert(x, s, NewestFirst), n - 1)
    ensures Take(Insert(x, Take([y] + s, n), NewestFirst), n) == [y] + Take(Insert(x, Take(s, n - 1), NewestFirst), n - 1)
  {
    InsertLater(x, y, s, NewestFirst);
    TakeCons(y, Insert(x, s, NewestFirst), n);
    TakeCons(y, s, n);
    InsertLater(x, y, Take(s, n - 1), NewestFirst);
    TakeCons(y, Insert(x, Take(s, n - 1), NewestFirst), n);
  }

  lemma TakeInsertNow(x: UsageEvent, s: seq<UsageEvent>, n: nat)
    requires s != [] && n > 0 && Before(NewestFirst(x), NewestFirst(s[0]))
    ensures Take(Insert(x, s, NewestFirst), n) == Take(Insert(x, Take(s, n), NewestFirst), n)
  {
    assert Insert(x, s, NewestFirst) == [x] + s && Insert(x, Take(s, n), NewestFirst) == [x] + Take(s, n);
    TakeCons(x, s, n);
    TakeCons(x, Take(s, n), n);
  }

  lemma {:induction false} TakeInsertCons(x: UsageEvent, y: UsageEvent, s: seq<UsageEvent>, n: nat)
    requires n > 0 && !Before(NewestFirst(x), NewestFirst(y))
    ensures Take(Insert(x, [y] + s, NewestFirst), n) == Take(Insert(x, Take([y] + s, n), NewestFirst), n)
    decreases |s| + 1, 0
  {
    TakeInsert(x, s, n - 1);
    TakeInsertLater(x, y, s, n);
  }

  /** Only the first `n` elements decide the first `n` after an insertion. */
  lemma {:induction false} TakeInsert(x: UsageEvent, s: seq<UsageEvent>, n: nat)
    ensures Take(Insert(x, s, NewestFirst), n) == Take(Insert(x, Take(s, n), NewestFirst), n)
    decreases |s|, 1
  {
    if s == [] || n == 0 {
    } else if Before(NewestFirst(x), NewestFirst(s[0])) {
      TakeInsertNow(x, s, n);
    } else {
      assert s == [s[0]] + s[1..];
      TakeInsertCons(x, s[0], s[1..], n);
    }
  }

  lemma TakeFirst<T>(s: seq<T>, n: nat)
    requires s != [] && n > 0
    ensures Take(s, n) == [s[0]] + Take(s[1..], n - 1)
    ensures Take(s, n)[1..] == Take(s[1..], n - 1)
  {
  }

  /** In a newest-first list the events not before a time are a prefix, so cutting and filtering commute. */
  lemma {:induction false} TakeNotBefore(s: seq<UsageEvent>, n: nat, ms: int)
    requires IsSorted(s, NewestFirst)
    ensures Filter(Take(s, n), NotBefore(ms)) == Take(Filter(s, NotBefore(ms)), n)
  {
    if s == [] || n == 0 {
    } else if NotBefore(ms)(s[0]) {
      TakeNotBefore(s[1..], n - 1, ms);
      TakeFirst(s, n);
      TakeFirst(Filter(s, NotBefore(ms)), n);
      FilterCons(s[0], Take(s[1..], n - 1), NotBefore(ms));
    } else {
      forall x | x in s ensures !NotBefore(ms)(x) {
        SortedHead(s, x, NewestFirst);
      }
      FilterNone(s, NotBefore(ms));
      FilterNone(Take(s, n), NotBefore(ms));
    }
  }

  // ---- Unique identifiers ----

  ghost predicate UniqueIds(s: seq<UsageEvent>) {
    forall i, j | 0 <= i < j < |s| :: s[i].id != s[j].id
  }

  lemma {:induction false} FilterUnique(s: seq<UsageEvent>, keep: UsageEvent -> bool)
    requires UniqueIds(s)
    ensures UniqueIds(Filter(s, keep))
  {
    if s != [] {
      FilterUnique(s[1..], keep);
      FilterHolds(s[1..], keep);
      forall e | e in Filter(s[1..], keep) ensures e.id != s[0].id {
        assert e in s[1..];
      }
    }
  }

  lemma InsertHolds(x: UsageEvent, s: seq<UsageEvent>)
    ensures forall e | e in Insert(x, s, NewestFirst) :: e == x || e in s
  {
    forall e | e in Insert(x, s, NewestFirst) ensures e == x || e in s {
      assert e in multiset(Insert(x, s, NewestFirst));
    }
  }

  lemma UniqueCons(x: UsageEvent, s: seq<UsageEvent>)
    requires UniqueIds(s) && forall e | e in s :: e.id != x.id
    ensures UniqueIds([x] + s)
  {
  }

  lemma {:induction false} InsertUnique(x: UsageEvent, s: seq<UsageEvent>)
    requires UniqueIds(s) && forall e | e in s :: e.id != x.id
    ensures UniqueIds(Insert(x, s, NewestFirst))
  {
    if s == [] {
    } else if Before(NewestFirst(x), NewestFirst(s[0])) {
      UniqueCons(x, s);
    } else {
      var rest := Insert(x, s[1..], NewestFirst);
      InsertUnique(x, s[1..]);
      InsertHolds(x, s[1..]);
      UniqueCons(s[0], rest);
    }
  }

  lemma {:induction false} SortUnique(s: seq<UsageEvent>)
    requires UniqueIds(s)
    ensures UniqueIds(Sort(s, NewestFirst))
  {
    if s != [] {
      var front, last := s[..|s| - 1], s[|s| - 1];
      SortUnique(front);
      SortSorts(front, NewestFirst);
      forall e | e in Sort(front, NewestFirst) ensures e.id != last.id {
        assert e in front;
      }
      InsertUnique(last, Sort(front, NewestFirst));
    }
  }

  // ---- Compaction is invisible ----

  /** What a query with the largest limit can see of a lane. */
  function View(lane: seq<UsageEvent>, sinceMs: int): seq<UsageEvent> {
    Take(Filter(lane, NotBefore(sinceMs)), MAX_EVENTS)
  }

  lemma QueryReadsView(rows: seq<UsageEvent>, intent: string, contextClass: string, sinceMs: int, limit: nat)
    ensures RecentIntentUsage(rows, intent, contextClass, sinceMs, limit) == Take(View(Lane(rows, intent, contextClass), sinceMs), limit)
  {
    SortFilter(Filter(rows, InLane(intent, contextClass)), NotBefore(sinceMs));
  }

  lemma LaneOfAppended(rows: seq<UsageEvent>, e: UsageEvent, intent: string, contextClass: string)
    ensures Lane(rows + [e], intent, contextClass) ==
            if InLane(intent, contextClass)(e) then Insert(e, Lane(rows, intent, contextClass), NewestFirst) else Lane(rows, intent, contextClass)
  {
    FilterAppend(rows, e, InLane(intent, contextClass));
    SortAppend(Filter(rows, InLane(intent, contextClass)), e, NewestFirst);
  }

  lemma LaneOfFiltered(rows: seq<UsageEvent>, keep: UsageEvent -> bool, intent: string, contextClass: string)
    ensures Lane(Filter(rows, keep), intent, contextClass) == Filter(Lane(rows, intent, contextClass), keep)
  {
    FilterSwap(rows, keep, InLane(intent, contextClass));
    SortFilter(Filter(rows, InLane(intent, contextClass)), keep);
  }

  lemma LaneHoldsLaneRows(rows: seq<UsageEvent>, intent: string, contextClass: string)
    ensures IsSorted(Lane(rows, intent, contextClass), NewestFirst)
    ensures forall e :: e in Lane(rows, intent, contextClass) <==> e in rows && InLane(intent, contextClass)(e)
  {
    SortSorts(Filter(rows, InLane(intent, contextClass)), NewestFirst);
    FilterHolds(rows, InLane(intent, contextClass));
  }

  lemma ViewOfInsert(a: seq<UsageEvent>, b: seq<UsageEvent>, e: UsageEvent, sinceMs: int)
    requires IsSorted(a, NewestFirst) && IsSorted(b, NewestFirst)
    requires View(a, sinceMs) == View(b, sinceMs)
    ensures View(Insert(e, a, NewestFirst), sinceMs) == View(Insert(e, b, NewestFirst), sinceMs)
  {
    FilterInsert(e, a, NotBefore(sinceMs), NewestFirst);
    FilterInsert(e, b, NotBefore(sinceMs), NewestFirst);
    TakeInsert(e, Filter(a, NotBefore(sinceMs)), MAX_EVENTS);
    TakeInsert(e, Filter(b, NotBefore(sinceMs)), MAX_EVENTS);
  }

  lemma CuttingByIds(lane: seq<UsageEvent>, n: nat)
    requires UniqueIds(lane)
    ensures Filter(lane, IdNotIn(Ids(lane[|Take(lane, n)|..]))) == Take(lane, n)
  {
    var head := Take(lane, n);
    var tail := lane[|head|..];
    var keep := IdNotIn(Ids(tail));
    assert lane == head + tail;
    FilterConcat(head, tail, keep);
    forall x, y | x in head && y in tail ensures x.id != y.id {
      var i :| 0 <= i < |head| && head[i] == x;
      var j :| 0 <= j < |tail| && tail[j] == y;
      assert lane[i] == x && lane[|head| + j] == y;
    }
    FilterAll(head, keep);
    FilterNone(tail, keep);
  }

  lemma SameIdSameRow(rows: seq<UsageEvent>, x: UsageEvent, y: UsageEvent)
    requires UniqueIds(rows) && x in rows && y in rows && x.id == y.id
    ensures x == y
  {
    var i :| 0 <= i < |rows| && rows[i] == x;
    var j :| 0 <= j < |rows| && rows[j] == y;
  }

  lemma OtherLanesKeepIds(rows: seq<UsageEvent>, own: seq<UsageEvent>, lane: seq<UsageEvent>, from: nat)
    requires UniqueIds(rows) && from <= |own|
    requires (forall x | x in own :: x in rows) && (forall x | x in lane :: x in rows && x !in own)
    ensures Filter(lane, IdNotIn(Ids(own[from..]))) == lane
  {
    forall x, y | x in lane && y in own[from..] ensures x.id != y.id {
      assert y in own;
      if x.id == y.id {
        SameIdSameRow(rows, x, y);
        assert false;
      }
    }
    FilterAll(lane, IdNotIn(Ids(own[from..])));
  }

  lemma CompactedLane(rows: seq<UsageEvent>, e: UsageEvent, intent: string, contextClass: string)
    requires UniqueIds(rows)
    ensures Lane(Compact(rows, e), intent, contextClass) ==
            if InLane(intent, contextClass)(e) then Take(Lane(rows, intent, contextClass), MAX_EVENTS) else Lane(rows, intent, contextClass)
  {
    var own, lane := Lane(rows, e.intent, e.contextClass), Lane(rows, intent, contextClass);
    var from := |Take(own, MAX_EVENTS)|;
    LaneOfFiltered(rows, IdNotIn(Ids(own[from..])), intent, contextClass);
    LaneHoldsLaneRows(rows, intent, contextClass);
    LaneHoldsLaneRows(rows, e.intent, e.contextClass);
    if InLane(intent, contextClass)(e) {
      FilterUnique(rows, InLane(e.intent, e.contextClass));
      SortUnique(Filter(rows, InLane(e.intent, e.contextClass)));
      CuttingByIds(own, MAX_EVENTS);
    } else {
      OtherLanesKeepIds(rows, own, lane, from);
    }
  }

  /** Neither deleting what is older than the cutoff nor cutting to the newest rows changes a view that starts
      at or after the cutoff. */
  lemma ViewOfPruned(lane: seq<UsageEvent>, cutoffMs: int, cut: bool, sinceMs: int)
    requires IsSorted(lane, NewestFirst) && cutoffMs <= sinceMs
    ensures var recent := Filter(lane, NotBefore(cutoffMs));
            View(if cut then Take(recent, MAX_EVENTS) else recent, sinceMs) == View(lane, sinceMs)
  {
    var recent := Filter(lane, NotBefore(cutoffMs));
    FilterSwap(lane, NotBefore(cutoffMs), NotBefore(sinceMs));
    FilterHolds(lane, NotBefore(sinceMs));
    FilterAll(Filter(lane, NotBefore(sinceMs)), NotBefore(cutoffMs));
    FilterKeepsSorted(lane, NotBefore(cutoffMs), NewestFirst);
    TakeNotBefore(recent, MAX_EVENTS, sinceMs);
  }

  lemma {:induction false} FilterKeepsSorted<T>(s: seq<T>, keep: T -> bool, rank: T -> Rank)
    requires IsSorted(s, rank)
    ensures IsSorted(Filter(s, keep), rank)
  {
    if s != [] {
      FilterKeepsSorted(s[1..], keep, rank);
      FilterHolds(s[1..], keep);
      forall y | y in Filter(s[1..], keep) ensures !Before(rank(y), rank(s[0])) {
        assert y in s[1..];
        SortedHead(s, y, rank);
      }
    }
  }

  lemma StoredUnique(rows: seq<UsageEvent>, e: UsageEvent)
    requires UniqueIds(rows) && Recordable(rows, e)
    ensures UniqueIds(Expire(rows + [e], e)) && UniqueIds(Stored(rows, e))
  {
    var kept := Expire(rows + [e], e);
    FilterUnique(rows + [e], NotBefore(SaturatingSub(e.createdAtMs, RETENTION_MS)));
    var lane := Lane(kept, e.intent, e.contextClass);
    FilterUnique(kept, IdNotIn(Ids(lane[|Take(lane, MAX_EVENTS)|..])));
  }

  lemma StoringKeepsView(rows: seq<UsageEvent>, e: UsageEvent, intent: string, contextClass: string, sinceMs: int)
    requires UniqueIds(rows) && Recordable(rows, e)
    requires sinceMs >= SaturatingSub(e.createdAtMs, RETENTION_MS)
    ensures View(Lane(Stored(rows, e), intent, contextClass), sinceMs) == View(Lane(rows + [e], intent, contextClass), sinceMs)
  {
    var cutoff := SaturatingSub(e.createdAtMs, RETENTION_MS);
    StoredUnique(rows, e);
    CompactedLane(Expire(rows + [e], e), e, intent, contextClass);
    LaneOfFiltered(rows + [e], NotBefore(cutoff), intent, contextClass);
    LaneHoldsLaneRows(rows + [e], intent, contextClass);
    ViewOfPruned(Lane(rows + [e], intent, contextClass), cutoff, InLane(intent, contextClass)(e), sinceMs);
  }

  lemma AppendingKeepsViews(rows: seq<UsageEvent>, log: seq<UsageEvent>, e: UsageEvent, intent: string, contextClass: string, sinceMs: int)
    requires View(Lane(rows, intent, contextClass), sinceMs) == View(Lane(log, intent, contextClass), sinceMs)
    ensures View(Lane(rows + [e], intent, contextClass), sinceMs) == View(Lane(log + [e], intent, contextClass), sinceMs)
  {
    LaneOfAppended(rows, e, intent, contextClass);
    LaneOfAppended(log, e, intent, contextClass);
    LaneHoldsLaneRows(rows, intent, contextClass);
    LaneHoldsLaneRows(log, intent, contextClass);
    ViewOfInsert(Lane(rows, intent, contextClass), Lane(log, intent, contextClass), e, sinceMs);
  }

  lemma {:induction false} RunUnique(events: seq<UsageEvent>)
    ensures UniqueIds(Run(events))
  {
    if events != [] {
      var front, e := events[..|events| - 1], events[|events| - 1];
      RunUnique(front);
      if Recordable(Run(front), e) {
        StoredUnique(Run(front), e);
      }
    }
  }

  lemma {:induction false} RunKeepsViews(events: seq<UsageEvent>, latestMs: int, intent: string, contextClass: string, sinceMs: int)
    requires NoneAfter(Log(events), latestMs) && sinceMs >= SaturatingSub(latestMs, RETENTION_MS)
    ensures View(Lane(Run(events), intent, contextClass), sinceMs) == View(Lane(Log(events), intent, contextClass), sinceMs)
  {
    if events != [] {
      var front, e := events[..|events| - 1], events[|events| - 1];
      assert Recordable(Run(front), e) ==> Log(events) == Log(front) + [e] && e in Log(events);
      RunKeepsViews(front, latestMs, intent, contextClass, sinceMs);
      if Recordable(Run(front), e) {
        RunUnique(front);
        AppendingKeepsViews(Run(front), Log(front), e, intent, contextClass, sinceMs);
        StoringKeepsView(Run(front), e, intent, contextClass, sinceMs);
      }
    }
  }

  /** After any run of recordings, in any order of timestamps, a query that looks back no further than the
      retention period from the latest event returns the same rows, in the same order, from the compacted
      table as from the complete log. */
  lemma CompactionIsInvisible(events: seq<UsageEvent>, latestMs: int, intent: string, contextClass: string, sinceMs: int, limit: nat)
    requires NoneAfter(Log(events), latestMs) && sinceMs >= SaturatingSub(latestMs, RETENTION_MS)
    ensures RecentIntentUsage(Run(events), intent, contextClass, sinceMs, limit) ==
            RecentIntentUsage(Log(events), intent, contextClass, sinceMs, limit)
  {
    RunKeepsViews(events, latestMs, intent, contextClass, sinceMs);
    QueryReadsView(Run(events), intent, contextClass, sinceMs, limit);
    QueryReadsView(Log(events), intent, contextClass, sinceMs, limit);
  }

  lemma NothingOlderThanLastCutoff(rows: seq<UsageEvent>, e: UsageEvent, x: UsageEvent)
    requires x in Stored(rows, e)
    ensures x.createdAtMs >= SaturatingSub(e.createdAtMs, RETENTION_MS)
  {
    var kept := Expire(rows + [e], e);
    var lane := Lane(kept, e.intent, e.contextClass);
    FilterHolds(kept, IdNotIn(Ids(lane[|Take(lane, MAX_EVENTS)|..])));
    FilterHolds(rows + [e], NotBefore(SaturatingSub(e.createdAtMs, RETENTION_MS)));
  }

  lemma QueryHolds(rows: seq<UsageEvent>, intent: string, contextClass: string, sinceMs: int, limit: nat)
    ensures forall x | x in RecentIntentUsage(rows, intent, contextClass, sinceMs, limit) :: x in rows
    ensures |rows| <= limit <= MAX_EVENTS ==> forall x | x in rows && InLane(intent, contextClass)(x) && NotBefore(sinceMs)(x) ::
      x in RecentIntentUsage(rows, intent, contextClass, sinceMs, limit)
  {
    var lane := Filter(rows, InLane(intent, contextClass));
    FilterHolds(rows, InLane(intent, contextClass));
    FilterHolds(lane, NotBefore(sinceMs));
    FilterShorter(rows, InLane(intent, contextClass));
    FilterShorter(lane, NotBefore(sinceMs));
    SortSorts(Filter(lane, NotBefore(sinceMs)), NewestFirst);
  }

  lemma {:induction false} FilterShorter<T>(s: seq<T>, keep: T -> bool)
    ensures |Filter(s, keep)| <= |s|
  {
    if s != [] {
      FilterShorter(s[1..], keep);
    }
  }

  lemma TwoRecordings(a: UsageEvent, b: UsageEvent)
    requires WithinBounds(a) && WithinBounds(b) && a.id != b.id
    ensures Log([a, b]) == [a, b]
    ensures forall x | x in Run([a, b]) :: NotBefore(SaturatingSub(b.createdAtMs, RETENTION_MS))(x)
  {
    assert [a, b][..1] == [a] && [a][..0] == [];
    assert Run([]) == [] && Recordable([], a);
    assert Run([a]) == Stored([], a) && Log([a]) == [a];
    forall x | x in Stored([], a) ensures x == a {
      StoredHolds([], a, x);
    }
    assert Recordable(Run([a]), b);
    forall x | x in Stored(Run([a]), b) ensures NotBefore(SaturatingSub(b.createdAtMs, RETENTION_MS))(x) {
      NothingOlderThanLastCutoff(Run([a]), b, x);
    }
  }

  /** The bound on how far back a query may look is sharp: an event before the cutoff of a later recording is in
      the log's answer but never in the table's. */
  lemma LookingFurtherBackMisses(a: UsageEvent, b: UsageEvent)
    requires WithinBounds(a) && WithinBounds(b) && a.id != b.id
    requires a.createdAtMs < SaturatingSub(b.createdAtMs, RETENTION_MS)
    ensures a in RecentIntentUsage(Log([a, b]), a.intent, a.contextClass, a.createdAtMs, MAX_EVENTS)
    ensures a !in RecentIntentUsage(Run([a, b]), a.intent, a.contextClass, a.createdAtMs, MAX_EVENTS)
  {
    TwoRecordings(a, b);
    QueryHolds([a, b], a.intent, a.contextClass, a.createdAtMs, MAX_EVENTS);
    QueryHolds(Run([a, b]), a.intent, a.contextClass, a.createdAtMs, MAX_EVENTS);
    assert a in [a, b];
  }

  lemma StoredHolds(rows: seq<UsageEvent>, e: UsageEvent, x: UsageEvent)
    requires x in Stored(rows, e)
    ensures x in rows || x == e
  {
    var kept := Expire(rows + [e], e);
    var lane := Lane(kept, e.intent, e.contextClass);
    FilterHolds(kept, IdNotIn(Ids(lane[|Take(lane, MAX_EVENTS)|..])));
    FilterHolds(rows + [e], NotBefore(SaturatingSub(e.createdAtMs, RETENTION_MS)));
  }

  // ---- What a query answers, and how much is kept ----

  /** Recorded later or, at the same time, with the greater identifier. */
  predicate Newer(x: UsageEvent, y: UsageEvent) {
    x.createdAtMs > y.createdAtMs || (x.createdAtMs == y.createdAtMs && x.id > y.id)
  }

  predicate Asked(e: UsageEvent, intent: string, contextClass: string, sinceMs: int) {
    e.intent == intent && e.contextClass == contextClass && e.createdAtMs >= sinceMs
  }

  lemma UniqueRanks(s: seq<UsageEvent>)
    requires UniqueIds(s)
    ensures forall i, j | 0 <= i < j < |s| :: NewestFirst(s[i]) != NewestFirst(s[j])
  {
  }

  /** A query answers with events of that intent and context that are not older than asked, newest first, as many as the
      limit and 512 allow; what it leaves out is older than all of them. */
  lemma QueryAnswersNewest(rows: seq<UsageEvent>, intent: string, contextClass: string, sinceMs: int, limit: nat)
    requires UniqueIds(rows)
    ensures var r := RecentIntentUsage(rows, intent, contextClass, sinceMs, limit);
            && |r| <= limit && |r| <= 512
            && (forall i, j | 0 <= i < j < |r| :: Newer(r[i], r[j]))
            && (forall e | e in r :: e in rows && Asked(e, intent, contextClass, sinceMs))
            && (forall e | e in rows && e !in r && Asked(e, intent, contextClass, sinceMs) ::
                  (|r| == limit || |r| == 512) && forall x | x in r :: Newer(x, e))
  {
    var all, r := AskedSorted(rows, intent, contextClass, sinceMs), RecentIntentUsage(rows, intent, contextClass, sinceMs, limit);
    SortedIsAsked(rows, intent, contextClass, sinceMs);
    assert r == all[..|r|];
    forall e | e in rows && e !in r && Asked(e, intent, contextClass, sinceMs)
      ensures (|r| == limit || |r| == 512) && forall x | x in r :: Newer(x, e)
    {
      var j :| 0 <= j < |all| && all[j] == e;
      assert forall i | 0 <= i < |r| :: r[i] in r && r[i] == all[i];
      assert j >= |r|;
    }
  }

  /** Everything asked for, newest first. */
  function AskedSorted(rows: seq<UsageEvent>, intent: string, contextClass: string, sinceMs: int): seq<UsageEvent> {
    Sort(Filter(Filter(rows, InLane(intent, contextClass)), NotBefore(sinceMs)), NewestFirst)
  }

  lemma SortedIsAsked(rows: seq<UsageEvent>, intent: string, contextClass: string, sinceMs: int)
    requires UniqueIds(rows)
    ensures var all := AskedSorted(rows, intent, contextClass, sinceMs);
            && (forall i, j | 0 <= i < j < |all| :: Newer(all[i], all[j]))
            && (forall e :: e in all <==> e in rows && Asked(e, intent, contextClass, sinceMs))
  {
    var lane := Filter(rows, InLane(intent, contextClass));
    var asked := Filter(lane, NotBefore(sinceMs));
    FilterHolds(rows, InLane(intent, contextClass));
    FilterHolds(lane, NotBefore(sinceMs));
    FilterUnique(rows, InLane(intent, contextClass));
    FilterUnique(lane, NotBefore(sinceMs));
    UniqueRanks(asked);
    SortSorts(asked, NewestFirst);
    SortStrict(asked, NewestFirst);
  }

  lemma LaneOfAppendedGrows(rows: seq<UsageEvent>, e: UsageEvent, intent: string, contextClass: string)
    ensures |Lane(rows + [e], intent, contextClass)| == |Lane(rows, intent, contextClass)| + if InLane(intent, contextClass)(e) then 1 else 0
  {
    LaneOfAppended(rows, e, intent, contextClass);
  }

  lemma StoringBoundsLane(rows: seq<UsageEvent>, e: UsageEvent, intent: string, contextClass: string)
    requires UniqueIds(rows) && Recordable(rows, e) && |Lane(rows, intent, contextClass)| <= MAX_EVENTS
    ensures |Lane(Stored(rows, e), intent, contextClass)| <= MAX_EVENTS
  {
    var cutoff := SaturatingSub(e.createdAtMs, RETENTION_MS);
    StoredUnique(rows, e);
    CompactedLane(Expire(rows + [e], e), e, intent, contextClass);
    LaneOfFiltered(rows + [e], NotBefore(cutoff), intent, contextClass);
    FilterShorter(Lane(rows + [e], intent, contextClass), NotBefore(cutoff));
    LaneOfAppendedGrows(rows, e, intent, contextClass);
  }

  /** The table stays small: after every run each lane holds at most 512 events, and none is older than the retention period
      counted from the event recorded last. */
  lemma {:induction false} TableStaysBounded(events: seq<UsageEvent>, intent: string, contextClass: string)
    ensures |Lane(Run(events), intent, contextClass)| <= 512
    ensures Log(events) != [] ==> forall x | x in Run(events) :: x.createdAtMs >= SaturatingSub(Log(events)[|Log(events)| - 1].createdAtMs, RETENTION_MS)
  {
    if events != [] {
      var front, e := events[..|events| - 1], events[|events| - 1];
      TableStaysBounded(front, intent, contextClass);
      if Recordable(Run(front), e) {
        RunUnique(front);
        StoringBoundsLane(Run(front), e, intent, contextClass);
        forall x | x in Run(events) ensures x.createdAtMs >= SaturatingSub(e.createdAtMs, RETENTION_MS) {
          NothingOlderThanLastCutoff(Run(front), e, x);
        }
      }
    }
  }
}
