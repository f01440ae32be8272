/** The behaviour scorer (crates/memory/src/behaviour.rs). The floating-point weights are parameters: `decay`
    stands for the half-life factor at an age, `permille` for the rounding of a positive score. */
module Behaviour {
  import opened Prelude
  import opened SqlOrder
  import opened IntentUsage

  const RESOLVE_THRESHOLD: int := 650
  const MINIMUM_GAP: int := 120

  datatype IntentCandidate = IntentCandidate(entity: EntityKey, scorePermille: int)

  datatype IntentResolution = Resolved(candidate: IntentCandidate) | Ambiguous(candidates: seq<IntentCandidate>) | Unknown

  function BestFirst(c: IntentCandidate): Rank {
    Rank(-c.scorePermille, c.entity, 0)
  }

  function Signal(outcome: BehaviourOutcome): real {
    match outcome
    case Success => 1.25
    case Failure => -0.75
    case CorrectionAccepted => 3.0
    case CorrectionRejected => -4.0
  }

  function AgeMs(e: UsageEvent, nowMs: int): int {
    Max(SaturatingSub(nowMs, e.createdAtMs), 0)
  }

  /** Which events take part: the first `MAX_EVENTS`, unless they are past retention. */
  function Counted(events: seq<UsageEvent>, nowMs: int): seq<UsageEvent> {
    Filter(Take(events, MAX_EVENTS), Retained(nowMs))
  }

  /** An event takes part exactly when it is among the first `MAX_EVENTS` and no older than the retention period. */
  lemma CountedExactlyWhen(events: seq<UsageEvent>, nowMs: int)
    ensures forall e :: e in Counted(events, nowMs) <==>
              e in (if |events| <= MAX_EVENTS then events else events[..MAX_EVENTS]) && nowMs - e.createdAtMs <= RETENTION_MS
  {
    FilterHolds(Take(events, MAX_EVENTS), Retained(nowMs));
  }

  function Retained(nowMs: int): UsageEvent -> bool {
    (e: UsageEvent) => AgeMs(e, nowMs) <= RETENTION_MS
  }

  datatype BehaviourScorer = BehaviourScorer(decay: int -> real, permille: real -> nat) {
    function Weight(e: UsageEvent, nowMs: int): real {
      decay(AgeMs(e, nowMs)) * Signal(e.outcome)
    }

    /** An entity's weights over the counted events, added up. */
    function Raw(counted: seq<UsageEvent>, entity: EntityKey, nowMs: int): real {
      if counted == [] then 0.0
      else
        var front, last := counted[..|counted| - 1], counted[|counted| - 1];
        Raw(front, entity, nowMs) + if last.entity == entity then Weight(last, nowMs) else 0.0
    }

    /** The decayed number of an entity's events with one outcome: a past event counts by its age, and one from a later
        clock as if it were new. */
    function Decayed(counted: seq<UsageEvent>, entity: EntityKey, outcome: BehaviourOutcome, nowMs: int): real {
      if counted == [] then 0.0
      else
        var front, last := counted[..|counted| - 1], counted[|counted| - 1];
        Decayed(front, entity, outcome, nowMs) +
        if last.entity == entity && last.outcome == outcome then decay(if last.createdAtMs <= nowMs then nowMs - last.createdAtMs else 0) else 0.0
    }

    /** An entity's total: successes and failures by 1.25 and -0.75, accepted and rejected corrections by 3 and -4. */
    function Total(counted: seq<UsageEvent>, entity: EntityKey, nowMs: int): real {
      1.25 * Decayed(counted, entity, Success, nowMs) - 0.75 * Decayed(counted, entity, Failure, nowMs)
      + 3.0 * Decayed(counted, entity, CorrectionAccepted, nowMs) - 4.0 * Decayed(counted, entity, CorrectionRejected, nowMs)
    }

    /** Adding up weights event by event gives the total. */
    lemma {:induction false} RawIsTotal(counted: seq<UsageEvent>, entity: EntityKey, nowMs: int)
      requires forall e | e in counted :: nowMs - e.createdAtMs <= RETENTION_MS
      ensures Raw(counted, entity, nowMs) == Total(counted, entity, nowMs)
    {
      if counted != [] {
        assert counted[|counted| - 1] in counted;
        RawIsTotal(counted[..|counted| - 1], entity, nowMs);
      }
    }

    /** What a ranking of the counted events is: every entity with a positive total, once, with its rounded
        total, best first and ties by entity. */
    ghost predicate IsRanking(cs: seq<IntentCandidate>, counted: seq<UsageEvent>, nowMs: int) {
      && (forall i, j | 0 <= i < j < |cs| ::
            cs[i].scorePermille > cs[j].scorePermille || (cs[i].scorePermille == cs[j].scorePermille && cs[i].entity < cs[j].entity))
      && (forall c :: c in cs <==>
           Total(counted, c.entity, nowMs) > 0.0 && c.scorePermille == permille(Total(counted, c.entity, nowMs)))
    }

    /** Every age up to the retention period counts for something. */
    ghost predicate EveryAgeCounts() {
      forall age | 0 <= age <= RETENTION_MS :: decay(age) > 0.0
    }

    lemma {:induction false} DecayedIsPositiveExactlyWhen(counted: seq<UsageEvent>, entity: EntityKey, outcome: BehaviourOutcome, nowMs: int)
      requires EveryAgeCounts() && forall e | e in counted :: nowMs - e.createdAtMs <= RETENTION_MS
      ensures Decayed(counted, entity, outcome, nowMs) >= 0.0
      ensures Decayed(counted, entity, outcome, nowMs) > 0.0 <==> exists e | e in counted :: e.entity == entity && e.outcome == outcome
    {
      if counted != [] {
        var front, last := counted[..|counted| - 1], counted[|counted| - 1];
        DecayedIsPositiveExactlyWhen(front, entity, outcome, nowMs);
        assert last in counted;
      }
    }

    /** Whether an entity has a counted event that speaks for it, or against it. */
    ghost predicate SpokenFor(counted: seq<UsageEvent>, entity: EntityKey) {
      exists e | e in counted :: e.entity == entity && (e.outcome.Success? || e.outcome.CorrectionAccepted?)
    }

    ghost predicate SpokenAgainst(counted: seq<UsageEvent>, entity: EntityKey) {
      exists e | e in counted :: e.entity == entity && (e.outcome.Failure? || e.outcome.CorrectionRejected?)
    }

    /** What the events say of an entity that is spoken for only, or not at all: the one is ranked, the other is not. */
    lemma OnlyPraisedAreRanked(cs: seq<IntentCandidate>, events: seq<UsageEvent>, nowMs: int, entity: EntityKey)
      requires EveryAgeCounts() && IsRanking(cs, Counted(events, nowMs), nowMs)
      ensures var counted := Counted(events, nowMs);
              && (SpokenFor(counted, entity) && !SpokenAgainst(counted, entity) ==> exists c | c in cs :: c.entity == entity)
              && (!SpokenFor(counted, entity) ==> forall c | c in cs :: c.entity != entity)
    {
      var counted := Counted(events, nowMs);
      CountedExactlyWhen(events, nowMs);
      DecayedIsPositiveExactlyWhen(counted, entity, Success, nowMs);
      DecayedIsPositiveExactlyWhen(counted, entity, Failure, nowMs);
      DecayedIsPositiveExactlyWhen(counted, entity, CorrectionAccepted, nowMs);
      DecayedIsPositiveExactlyWhen(counted, entity, CorrectionRejected, nowMs);
      if SpokenFor(counted, entity) && !SpokenAgainst(counted, entity) {
        assert IntentCandidate(entity, permille(Total(counted, entity, nowMs))) in cs;
      }
    }

    method Score(events: seq<UsageEvent>, nowMs: int) returns (cs: seq<IntentCandidate>)
      ensures IsRanking(cs, Counted(events, nowMs), nowMs)
    {
      var scores: map<EntityKey, real> := map[];
      var taken := Take(events, MAX_EVENTS);
      ghost var counted: seq<UsageEvent> := [];
      for i := 0 to |taken|
        invariant counted == Counted(taken[..i], nowMs)
        invariant forall k :: Raw(counted, k, nowMs) == if k in scores then scores[k] else 0.0
      {
        var e := taken[i];
        CountedAppend(taken[..i], e, nowMs);
        assert taken[..i + 1] == taken[..i] + [e];
        var ageMs := Max(SaturatingSub(nowMs, e.createdAtMs), 0);
        if ageMs > RETENTION_MS {
          continue;
        }
        var contribution := decay(ageMs) * Signal(e.outcome);
        assert (counted + [e])[..|counted|] == counted;
        counted := counted + [e];
        scores := scores[e.entity := (if e.entity in scores then scores[e.entity] else 0.0) + contribution];
      }
      assert taken[..|taken|] == taken && Take(taken, MAX_EVENTS) == taken;
      cs := Candidates(scores);
      CountedExactlyWhen(events, nowMs);
      forall c ensures c in cs <==>
        Total(counted, c.entity, nowMs) > 0.0 && c.scorePermille == permille(Total(counted, c.entity, nowMs)) {
        RawIsTotal(counted, c.entity, nowMs);
      }
    }

    method Candidates(scores: map<EntityKey, real>) returns (cs: seq<IntentCandidate>)
      ensures IsStrict(cs, BestFirst)
      ensures forall c :: c in cs <==> c.entity in scores && scores[c.entity] > 0.0 && c.scorePermille == permille(scores[c.entity])
    {
      var found: seq<IntentCandidate> := [];
      var left := scores.Keys;
      while exists entity :: entity in left
        invariant left <= scores.Keys
        decreases |left|
        invariant forall i, j | 0 <= i < j < |found| :: found[i].entity != found[j].entity
        invariant forall c :: c in found <==>
          c.entity in scores.Keys - left && scores[c.entity] > 0.0 && c.scorePermille == permille(scores[c.entity])
      {
        var entity :| entity in left;
        if scores[entity] > 0.0 {
          found := found + [IntentCandidate(entity, permille(scores[entity]))];
        }
        left := left - {entity};
      }
      SortedStrictly(found);
      SortSorts(found, BestFirst);
      cs := Sort(found, BestFirst);
    }

    /** The decision on a ranking. */
    function Choose(cs: seq<IntentCandidate>): IntentResolution {
      if cs == [] then Unknown
      else
        var runnerUp := if |cs| > 1 then cs[1].scorePermille else 0;
        if cs[0].scorePermille >= RESOLVE_THRESHOLD && Max(cs[0].scorePermille - runnerUp, 0) >= MINIMUM_GAP then Resolved(cs[0])
        else Ambiguous(Take(cs, 5))
    }

    /** Who must win: a positive total whose score clears the threshold and leads zero and every other
        entity's score by the gap. */
    ghost predicate Leads(counted: seq<UsageEvent>, nowMs: int, c: IntentCandidate) {
      && Total(counted, c.entity, nowMs) > 0.0 && c.scorePermille == permille(Total(counted, c.entity, nowMs))
      && c.scorePermille >= 650
      && forall entity | entity != c.entity && Total(counted, entity, nowMs) > 0.0 ::
           permille(Total(counted, entity, nowMs)) + 120 <= c.scorePermille
    }

    lemma UnknownExactlyWhen(cs: seq<IntentCandidate>, counted: seq<UsageEvent>, nowMs: int)
      requires IsRanking(cs, counted, nowMs)
      ensures Choose(cs) == Unknown <==> forall entity :: Total(counted, entity, nowMs) <= 0.0
    {
      if cs == [] {
        forall entity ensures Total(counted, entity, nowMs) <= 0.0 {
          var c := IntentCandidate(entity, permille(Total(counted, entity, nowMs)));
          assert c !in cs;
        }
      } else {
        assert cs[0] in cs;
        assert Total(counted, cs[0].entity, nowMs) > 0.0;
      }
    }

    lemma ResolvedLeads(cs: seq<IntentCandidate>, counted: seq<UsageEvent>, nowMs: int)
      requires IsRanking(cs, counted, nowMs) && Choose(cs).Resolved?
      ensures Leads(counted, nowMs, Choose(cs).candidate)
    {
      var c := cs[0];
      assert c in cs;
      forall entity | entity != c.entity && Total(counted, entity, nowMs) > 0.0
        ensures permille(Total(counted, entity, nowMs)) + 120 <= c.scorePermille
      {
        var other := IntentCandidate(entity, permille(Total(counted, entity, nowMs)));
        assert other in cs;
        var i :| 0 <= i < |cs| && cs[i] == other;
        assert i > 1 ==> Before(BestFirst(cs[1]), BestFirst(cs[i]));
      }
    }

    lemma LeaderResolves(cs: seq<IntentCandidate>, counted: seq<UsageEvent>, nowMs: int, c: IntentCandidate)
      requires IsRanking(cs, counted, nowMs) && Leads(counted, nowMs, c)
      ensures Choose(cs) == Resolved(c)
    {
      assert c in cs;
      var i :| 0 <= i < |cs| && cs[i] == c;
      assert cs[0] in cs;
      if |cs| > 1 {
        assert cs[1] in cs;
      }
    }

    /** An intent resolves exactly to an entity that leads. */
    lemma ResolvesExactlyWhen(cs: seq<IntentCandidate>, counted: seq<UsageEvent>, nowMs: int, c: IntentCandidate)
      requires IsRanking(cs, counted, nowMs)
      ensures Choose(cs) == Resolved(c) <==> Leads(counted, nowMs, c)
      ensures Choose(cs) == Unknown <==> forall entity :: Total(counted, entity, nowMs) <= 0.0
    {
      UnknownExactlyWhen(cs, counted, nowMs);
      if Choose(cs) == Resolved(c) {
        ResolvedLeads(cs, counted, nowMs);
      }
      if Leads(counted, nowMs, c) {
        LeaderResolves(cs, counted, nowMs, c);
      }
    }

    method Resolve(events: seq<UsageEvent>, nowMs: int) returns (r: IntentResolution)
      ensures exists cs :: && IsRanking(cs, Counted(events, nowMs), nowMs) && r == Choose(cs)
                           && (r.Ambiguous? ==> r.candidates <= cs && |r.candidates| == if |cs| < 5 then |cs| else 5)
      ensures forall c :: r == Resolved(c) <==> Leads(Counted(events, nowMs), nowMs, c)
      ensures r == Unknown <==> forall entity :: Total(Counted(events, nowMs), entity, nowMs) <= 0.0
    {
      var cs := Score(events, nowMs);
      r := Choose(cs);
      forall c ensures r == Resolved(c) <==> Leads(Counted(events, nowMs), nowMs, c) {
        ResolvesExactlyWhen(cs, Counted(events, nowMs), nowMs, c);
      }
      UnknownExactlyWhen(cs, Counted(events, nowMs), nowMs);
    }

    /** With the clock at or after the latest recording, scoring what the service reads from the compacted
        table ranks as scoring the lane's whole history, newest first. */
    lemma CompactionKeepsRanking(events: seq<UsageEvent>, latestMs: int, intent: string, contextClass: string, nowMs: int,
        fromTable: seq<IntentCandidate>, fromHistory: seq<IntentCandidate>)
      requires NoneAfter(Log(events), latestMs) && latestMs <= nowMs && TimesAreI64(Log(events)) && IsI64(nowMs)
      requires IsRanking(fromTable, Counted(Queried(Run(events), intent, contextClass, nowMs), nowMs), nowMs)
      requires IsRanking(fromHistory, Counted(Lane(Log(events), intent, contextClass), nowMs), nowMs)
      ensures fromTable == fromHistory && Choose(fromTable) == Choose(fromHistory)
    {
      CompactionIsInvisible(events, latestMs, intent, contextClass, SaturatingSub(nowMs, RETENTION_MS), MAX_EVENTS);
      QueryingCountsTheSame(Log(events), intent, contextClass, nowMs);
      StrictIsDetermined(fromTable, fromHistory, BestFirst);
    }
  }

  ghost predicate TimesAreI64(events: seq<UsageEvent>) {
    forall e | e in events :: IsI64(e.createdAtMs)
  }

  /** The query the service issues before it resolves. */
  function Queried(rows: seq<UsageEvent>, intent: string, contextClass: string, nowMs: int): seq<UsageEvent> {
    RecentIntentUsage(rows, intent, contextClass, SaturatingSub(nowMs, RETENTION_MS), MAX_EVENTS)
  }

  lemma CountedAppend(events: seq<UsageEvent>, e: UsageEvent, nowMs: int)
    requires |events| < MAX_EVENTS
    ensures Counted(events + [e], nowMs) ==
            if AgeMs(e, nowMs) <= RETENTION_MS then Counted(events, nowMs) + [e] else Counted(events, nowMs)
  {
    assert Take(events + [e], MAX_EVENTS) == events + [e] && Take(events, MAX_EVENTS) == events;
    FilterAppend(events, e, Retained(nowMs));
  }

  lemma {:induction false} FilterAgrees<T>(s: seq<T>, p: T -> bool, q: T -> bool)
    requires forall x | x in s :: p(x) == q(x)
    ensures Filter(s, p) == Filter(s, q)
  {
    if s != [] {
      FilterAgrees(s[1..], p, q);
    }
  }

  lemma RetainedIsNotBefore(events: seq<UsageEvent>, nowMs: int)
    requires TimesAreI64(events) && IsI64(nowMs)
    ensures Filter(events, Retained(nowMs)) == Filter(events, NotBefore(SaturatingSub(nowMs, RETENTION_MS)))
  {
    FilterAgrees(events, Retained(nowMs), NotBefore(SaturatingSub(nowMs, RETENTION_MS)));
  }

  lemma QueryingCountsTheSame(rows: seq<UsageEvent>, intent: string, contextClass: string, nowMs: int)
    requires TimesAreI64(rows) && IsI64(nowMs)
    ensures Counted(Queried(rows, intent, contextClass, nowMs), nowMs) == Counted(Lane(rows, intent, contextClass), nowMs)
  {
    var since, lane := SaturatingSub(nowMs, RETENTION_MS), Lane(rows, intent, contextClass);
    QueryReadsView(rows, intent, contextClass, since, MAX_EVENTS);
    LaneHoldsLaneRows(rows, intent, contextClass);
    TakeNotBefore(lane, MAX_EVENTS, since);
    var seen := View(lane, since);
    assert Take(seen, MAX_EVENTS) == seen;
    assert seen == Filter(Take(lane, MAX_EVENTS), NotBefore(since));
    FilterHolds(Take(lane, MAX_EVENTS), NotBefore(since));
    FilterAll(seen, NotBefore(since));
    RetainedIsNotBefore(seen, nowMs);
    RetainedIsNotBefore(Take(lane, MAX_EVENTS), nowMs);
  }

  lemma SortedStrictly(s: seq<IntentCandidate>)
    requires forall i, j | 0 <= i < j < |s| :: s[i].entity != s[j].entity
    ensures IsStrict(Sort(s, BestFirst), BestFirst)
  {
    SortStrict(s, BestFirst);
  }
}
