/** The bounded working memory (crates/memory/src/lib.rs): a deque whose `set` moves a key to the back and
    evicts the front. Its contract is stated on the complete history of settings. */
module WorkingMemory {
  import opened Prelude

  type EntityId(==, !new)

  type WorkingKey(==, !new)

  datatype WorkingValue = EntityReference(entity: EntityId) | TextLabel(text: string)

  datatype Slot = Slot(key: WorkingKey, value: WorkingValue)

  /** The slots under other keys, in their order. */
  function Without(s: seq<Slot>, key: WorkingKey): seq<Slot> {
    if s == [] then []
    else if s[0].key == key then Without(s[1..], key)
    else [s[0]] + Without(s[1..], key)
  }

  /** The value a key was last set to. */
  function LastSet(history: seq<Slot>, key: WorkingKey): Option<WorkingValue> {
    if history == [] then None
    else if history[|history| - 1].key == key then Some(history[|history| - 1].value)
    else LastSet(history[..|history| - 1], key)
  }

  /** The different other keys set since a key was last set. */
  function OthersSince(history: seq<Slot>, key: WorkingKey): set<WorkingKey> {
    if history == [] || history[|history| - 1].key == key then {}
    else OthersSince(history[..|history| - 1], key) + {history[|history| - 1].key}
  }

  /** What a history leaves under a key when only so many keys are remembered. */
  function Remembered(history: seq<Slot>, capacity: nat, key: WorkingKey): Option<WorkingValue> {
    if |OthersSince(history, key)| < capacity then LastSet(history, key) else None
  }

  /** Every key's last setting, least recently set first: what a memory without bound would hold. */
  function Recent(history: seq<Slot>): seq<Slot> {
    if history == [] then []
    else
      var front, last := history[..|history| - 1], history[|history| - 1];
      Without(Recent(front), last.key) + [last]
  }

  function Suffix<T>(s: seq<T>, n: nat): seq<T> {
    if n <= |s| then s[|s| - n..] else s
  }

  ghost predicate DistinctKeys(s: seq<Slot>) {
    forall i, j | 0 <= i < j < |s| :: s[i].key != s[j].key
  }

  ghost function Keys(s: seq<Slot>): set<WorkingKey> {
    if s == [] then {} else {s[0].key} + Keys(s[1..])
  }

  class WorkingMemory {
    const capacity: nat
    var values: seq<Slot>
    ghost var history: seq<Slot>

    ghost predicate Valid()
      reads this
    {
      capacity >= 1 && values == Suffix(Recent(history), capacity)
    }

    constructor (requested: nat)
      ensures Valid() && history == [] && capacity == Max(requested, 1)
    {
      capacity := Max(requested, 1);
      values := [];
      history := [];
    }

    method Position(key: WorkingKey) returns (p: Option<nat>)
      ensures p.None? ==> forall i | 0 <= i < |values| :: values[i].key != key
      ensures p.Some? ==> p.value < |values| && values[p.value].key == key && forall i | 0 <= i < p.value :: values[i].key != key
    {
      for i := 0 to |values|
        invariant forall j | 0 <= j < i :: values[j].key != key
      {
        if values[i].key == key {
          return Some(i);
        }
      }
      return None;
    }

    method Set(key: WorkingKey, value: WorkingValue)
      requires Valid()
      modifies this
      ensures Valid() && history == old(history) + [Slot(key, value)]
    {
      ghost var slot := Slot(key, value);
      DequeDistinct(history, capacity);
      var p := Position(key);
      if p.Some? {
        RemovingIsWithout(values, p.value);
        values := values[..p.value] + values[p.value + 1..];
      } else {
        WithoutAbsent(values, key);
      }
      if |values| == capacity {
        values := values[1..];
      }
      values := values + [Slot(key, value)];
      assert values == Stepped(old(values), capacity, slot);
      SettingExtendsHistory(history, capacity, slot);
      history := history + [slot];
    }

    /** The last value set for the key, unless `capacity` or more different other keys were set since. */
    method Get(key: WorkingKey) returns (r: Option<WorkingValue>)
      requires Valid()
      ensures r == Remembered(history, capacity, key)
    {
      var p := Position(key);
      if p.None? {
        r := None;
        if Remembered(history, capacity, key).Some? {
          SuffixRemembers(history, capacity, key, Remembered(history, capacity, key).value);
        }
      } else {
        r := Some(values[p.value].value);
        assert Slot(key, values[p.value].value) in values;
        SuffixRemembers(history, capacity, key, values[p.value].value);
      }
    }

    method Len() returns (n: nat)
      requires Valid()
      ensures n == |values| <= capacity && DistinctKeys(values)
    {
      RecentDistinct(history);
      SuffixDistinct(Recent(history), capacity);
      n := |values|;
    }
  }

  /** The deque's step, on values. */
  function Stepped(values: seq<Slot>, capacity: nat, slot: Slot): seq<Slot> {
    var kept := Without(values, slot.key);
    (if |kept| == capacity && kept != [] then kept[1..] else kept) + [slot]
  }

  lemma {:induction false} WithoutHolds(s: seq<Slot>, key: WorkingKey)
    ensures forall slot :: slot in Without(s, key) <==> slot in s && slot.key != key
  {
    if s != [] {
      WithoutHolds(s[1..], key);
      assert s == [s[0]] + s[1..];
    }
  }

  lemma SuffixDistinct(s: seq<Slot>, n: nat)
    requires DistinctKeys(s)
    ensures DistinctKeys(Suffix(s, n))
  {
  }

  lemma {:induction false} WithoutDistinct(s: seq<Slot>, key: WorkingKey)
    requires DistinctKeys(s)
    ensures DistinctKeys(Without(s, key))
  {
    if s != [] {
      WithoutDistinct(s[1..], key);
      WithoutHolds(s[1..], key);
      forall slot | slot in Without(s[1..], key) ensures slot.key != s[0].key {
        assert slot in s[1..];
      }
    }
  }

  lemma {:induction false} RecentDistinct(history: seq<Slot>)
    ensures DistinctKeys(Recent(history))
  {
    if history != [] {
      var front, last := history[..|history| - 1], history[|history| - 1];
      RecentDistinct(front);
      WithoutDistinct(Recent(front), last.key);
      WithoutHolds(Recent(front), last.key);
      var kept := Without(Recent(front), last.key);
      forall i | 0 <= i < |kept| ensures kept[i].key != last.key {
        assert kept[i] in kept;
      }
    }
  }

  lemma {:induction false} WithoutAbsent(s: seq<Slot>, key: WorkingKey)
    requires forall i | 0 <= i < |s| :: s[i].key != key
    ensures Without(s, key) == s
  {
    if s != [] {
      WithoutAbsent(s[1..], key);
    }
  }

  lemma WithoutCons(x: Slot, s: seq<Slot>, key: WorkingKey)
    ensures Without([x] + s, key) == if x.key == key then Without(s, key) else [x] + Without(s, key)
  {
    assert ([x] + s)[1..] == s;
  }

  lemma {:induction false} WithoutSplit(a: seq<Slot>, b: seq<Slot>, key: WorkingKey)
    ensures Without(a + b, key) == Without(a, key) + Without(b, key)
  {
    if a == [] {
      assert a + b == b;
    } else {
      var x, rest := a[0], a[1..];
      WithoutSplit(rest, b, key);
      WithoutCons(x, rest + b, key);
      WithoutCons(x, rest, key);
      assert a == [x] + rest && a + b == [x] + (rest + b);
    }
  }

  lemma WithoutAround(a: seq<Slot>, x: Slot, b: seq<Slot>, key: WorkingKey)
    requires x.key != key
    ensures Without(a + [x] + b, key) == Without(a, key) + [x] + Without(b, key)
  {
    WithoutSplit(a + [x], b, key);
    WithoutSplit(a, [x], key);
    WithoutAbsent([x], key);
  }

  lemma {:induction false} RemovingIsWithout(s: seq<Slot>, p: nat)
    requires DistinctKeys(s) && p < |s|
    ensures Without(s, s[p].key) == s[..p] + s[p + 1..]
  {
    if p == 0 {
      WithoutAbsent(s[1..], s[0].key);
    } else {
      RemovingIsWithout(s[1..], p - 1);
    }
  }

  lemma SuffixOfConcat<T>(a: seq<T>, x: seq<T>, n: nat)
    requires |x| <= n && (a == [] || |x| == n)
    ensures Suffix(a + x, n) == x
  {
  }

  /** Stepping a bounded suffix gives the bounded suffix of the stepped whole. */
  lemma SettingKeepsSuffix(recent: seq<Slot>, capacity: nat, slot: Slot)
    requires DistinctKeys(recent) && capacity >= 1
    ensures Stepped(Suffix(recent, capacity), capacity, slot) == Suffix(Without(recent, slot.key) + [slot], capacity)
  {
    var kept := Suffix(recent, capacity);
    var lost := recent[..|recent| - |kept|];
    assert recent == lost + kept;
    WithoutSplit(lost, kept, slot.key);
    SuffixDistinct(recent, capacity);
    if i :| 0 <= i < |kept| && kept[i].key == slot.key {
      WithoutAbsent(lost, slot.key);
      StepOnHeld(lost, kept, capacity, slot, i);
    } else {
      WithoutAbsent(kept, slot.key);
      StepOnAbsent(lost, kept, capacity, slot);
    }
  }

  lemma DequeDistinct(history: seq<Slot>, capacity: nat)
    ensures DistinctKeys(Suffix(Recent(history), capacity))
  {
    RecentDistinct(history);
    SuffixDistinct(Recent(history), capacity);
  }

  lemma SettingExtendsHistory(history: seq<Slot>, capacity: nat, slot: Slot)
    requires capacity >= 1
    ensures Stepped(Suffix(Recent(history), capacity), capacity, slot) == Suffix(Recent(history + [slot]), capacity)
  {
    RecentDistinct(history);
    SettingKeepsSuffix(Recent(history), capacity, slot);
    assert (history + [slot])[..|history|] == history;
  }

  lemma StepOnHeld(lost: seq<Slot>, kept: seq<Slot>, capacity: nat, slot: Slot, i: nat)
    requires |kept| <= capacity && (lost == [] || |kept| == capacity)
    requires DistinctKeys(kept) && i < |kept| && kept[i].key == slot.key
    ensures Stepped(kept, capacity, slot) == Suffix((lost + Without(kept, slot.key)) + [slot], capacity)
  {
    RemovingIsWithout(kept, i);
    var rest := Without(kept, slot.key);
    assert (lost + rest) + [slot] == lost + (rest + [slot]);
    SuffixOfConcat(lost, rest + [slot], capacity);
  }

  lemma StepOnAbsent(lost: seq<Slot>, kept: seq<Slot>, capacity: nat, slot: Slot)
    requires |kept| <= capacity && (lost == [] || |kept| == capacity) && capacity >= 1
    requires Without(kept, slot.key) == kept
    ensures Stepped(kept, capacity, slot) == Suffix((Without(lost, slot.key) + kept) + [slot], capacity)
  {
    var older := Without(lost, slot.key);
    if |kept| == capacity {
      assert (older + kept) + [slot] == (older + [kept[0]]) + (kept[1..] + [slot]);
      SuffixOfConcat(older + [kept[0]], kept[1..] + [slot], capacity);
    } else {
      assert (older + kept) + [slot] == kept + [slot];
      SuffixOfConcat([], kept + [slot], capacity);
    }
  }

  lemma {:induction false} KeysOfConcat(a: seq<Slot>, b: seq<Slot>)
    ensures Keys(a + b) == Keys(a) + Keys(b)
  {
    if a == [] {
      assert a + b == b;
    } else {
      KeysOfConcat(a[1..], b);
      assert (a + b)[1..] == a[1..] + b;
    }
  }

  lemma {:induction false} KeysOfWithout(s: seq<Slot>, key: WorkingKey)
    ensures Keys(Without(s, key)) == Keys(s) - {key}
  {
    if s != [] {
      KeysOfWithout(s[1..], key);
      assert ([s[0]] + Without(s[1..], key))[1..] == Without(s[1..], key);
    }
  }

  lemma {:induction false} AbsentFromKeys(s: seq<Slot>, key: WorkingKey)
    requires forall i | 0 <= i < |s| :: s[i].key != key
    ensures key !in Keys(s)
  {
    if s != [] {
      AbsentFromKeys(s[1..], key);
    }
  }

  lemma {:induction false} AsManyKeysAsSlots(s: seq<Slot>)
    requires DistinctKeys(s)
    ensures |Keys(s)| == |s|
  {
    if s != [] {
      AsManyKeysAsSlots(s[1..]);
      AbsentFromKeys(s[1..], s[0].key);
    }
  }

  /** A key's last setting stands in front of exactly the other keys set since. */
  lemma {:induction false} StandsBeforeOthers(history: seq<Slot>, key: WorkingKey) returns (before: seq<Slot>, after: seq<Slot>)
    requires LastSet(history, key).Some?
    ensures Recent(history) == before + [Slot(key, LastSet(history, key).value)] + after
    ensures Keys(after) == OthersSince(history, key)
  {
    var front, last := history[..|history| - 1], history[|history| - 1];
    if last.key == key {
      before, after := Without(Recent(front), last.key), [];
    } else {
      var a, b := StandsBeforeOthers(front, key);
      WithoutAround(a, Slot(key, LastSet(history, key).value), b, last.key);
      before, after := Without(a, last.key), Without(b, last.key) + [last];
      KeysAfterSetting(b, last);
    }
  }

  lemma KeysAfterSetting(s: seq<Slot>, slot: Slot)
    ensures Keys(Without(s, slot.key) + [slot]) == Keys(s) + {slot.key}
  {
    KeysOfConcat(Without(s, slot.key), [slot]);
    KeysOfWithout(s, slot.key);
    assert Keys([slot]) == {slot.key};
  }

  lemma {:induction false} NeverSetIsAbsent(history: seq<Slot>, key: WorkingKey)
    requires LastSet(history, key).None?
    ensures forall slot | slot in Recent(history) :: slot.key != key
  {
    if history != [] {
      var front, last := history[..|history| - 1], history[|history| - 1];
      NeverSetIsAbsent(front, key);
      WithoutHolds(Recent(front), last.key);
    }
  }

  lemma SuffixHolds(before: seq<Slot>, slot: Slot, after: seq<Slot>, n: nat)
    requires DistinctKeys(before + [slot] + after)
    ensures forall value :: Slot(slot.key, value) in Suffix(before + [slot] + after, n) <==> value == slot.value && |after| < n
  {
    var all := before + [slot] + after;
    var kept := Suffix(all, n);
    var lost := |all| - |kept|;
    if |after| < n {
      assert kept[|before| - lost] == slot;
    }
    forall value | Slot(slot.key, value) in kept ensures value == slot.value && |after| < n {
      var j :| 0 <= j < |kept| && kept[j] == Slot(slot.key, value);
      assert all[j + lost].key == all[|before|].key;
    }
  }

  /** The suffix of the recent settings holds a key, with its last value, exactly when fewer than `capacity`
      different other keys were set since. */
  lemma SuffixRemembers(history: seq<Slot>, capacity: nat, key: WorkingKey, value: WorkingValue)
    ensures Slot(key, value) in Suffix(Recent(history), capacity) <==> Remembered(history, capacity, key) == Some(value)
  {
    if LastSet(history, key).None? {
      NeverSetIsAbsent(history, key);
    } else {
      RecentDistinct(history);
      var before, after := StandsBeforeOthers(history, key);
      var slot := Slot(key, LastSet(history, key).value);
      SuffixHolds(before, slot, after, capacity);
      assert Recent(history)[|before| + 1..] == after;
      AsManyKeysAsSlots(after);
    }
  }
}
