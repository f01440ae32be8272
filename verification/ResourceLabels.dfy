/** Resource labels (crates/storage/src/security.rs): the character-level matching of the query, what it means
    on path components and host labels, and which label is chosen. */
module ResourceLabels {
  import opened Prelude
  import opened SqlOrder
  import opened Domain

  type Text = seq<char>
  type ResourceLabelId = int

  datatype MatchKind = Exact | PathPrefix | Host

  datatype ResourceLabel = ResourceLabel(
    id: ResourceLabelId, name: Text, resourceKind: ResourceKind, matchKind: MatchKind, pattern: Text,
    classification: ResourceClassification, dataClassification: DataClassification, createdAtMs: int, updatedAtMs: int)
  {
    predicate Valid() {
      && !Blank(name) && |name| <= 128
      && !Blank(pattern) && |pattern| <= 1_024
      && updatedAtMs >= createdAtMs
    }
  }

  /** SQLite's `substr(x, y, z)` for non-negative `z`: positions count from 1, negative ones from the end, and
      what lies before the text is cut off the length. */
  function Substr(x: Text, y: int, z: nat): Text {
    var start := if y < 0 then |x| + y else y - 1;
    var end := start + z;
    var from := Clamp(start, 0, |x|);
    x[from..Clamp(end, from, |x|)]
  }

  /** `substr(x, y)`: through the end. */
  function SubstrFrom(x: Text, y: int): Text {
    var start := if y < 0 then |x| + y else y - 1;
    x[Clamp(start, 0, |x|)..]
  }

  predicate PathTest(pattern: Text, identifier: Text) {
    pattern == identifier
    || (Substr(identifier, 1, |pattern|) == pattern
        && (Substr(pattern, -1, 1) == "/" || Substr(identifier, |pattern| + 1, 1) == "/"))
  }

  predicate HostTest(pattern: Text, identifier: Text) {
    pattern == identifier
    || (|identifier| > |pattern|
        && SubstrFrom(identifier, -|pattern|) == pattern
        && Substr(identifier, |identifier| - |pattern|, 1) == ".")
  }

  function Matching(kind: ResourceKind, identifier: Text): ResourceLabel -> bool {
    (l: ResourceLabel) =>
      l.resourceKind == kind &&
      match l.matchKind
      case Exact => l.pattern == identifier
      case PathPrefix => PathTest(l.pattern, identifier)
      case Host => HostTest(l.pattern, identifier)
  }

  function ExactThenLongest(l: ResourceLabel): Rank {
    Rank(if l.matchKind.Exact? then 0 else 1, -|l.pattern|, l.id)
  }

  function ResourceLabelFor(rows: seq<ResourceLabel>, kind: ResourceKind, identifier: Text): Option<ResourceLabel> {
    First(rows, Matching(kind, identifier), ExactThenLongest)
  }

  // ---- Components ----

  /** The parts of a text with one more character in front. */
  function Prepended(x: char, parts: seq<Text>, c: char): (r: seq<Text>)
    requires parts != []
    ensures r != []
  {
    if x == c then [[]] + parts else [[x] + parts[0]] + parts[1..]
  }

  /** The parts of a text between separators; never empty. */
  function Split(s: Text, c: char): (parts: seq<Text>)
    ensures parts != []
  {
    if s == [] then [[]] else Prepended(s[0], Split(s[1..], c), c)
  }

  function Join(parts: seq<Text>, c: char): Text
    requires parts != []
  {
    if |parts| == 1 then parts[0] else parts[0] + [c] + Join(parts[1..], c)
  }

  /** Splitting and joining are inverse, and no part holds a separator: the parts are the components. */
  lemma {:induction false} JoinSplit(s: Text, c: char)
    ensures Join(Split(s, c), c) == s
    ensures forall part | part in Split(s, c) :: c !in part
  {
    if s != [] {
      var rest := Split(s[1..], c);
      JoinSplit(s[1..], c);
      JoinPrepended(s[0], rest, c);
      assert rest[0] in rest && forall part | part in rest[1..] :: part in rest;
    }
  }

  lemma JoinPrepended(x: char, parts: seq<Text>, c: char)
    requires parts != []
    ensures Join(Prepended(x, parts, c), c) == [x] + Join(parts, c)
  {
    if x == c {
      assert ([[]] + parts)[1..] == parts;
    } else {
      assert ([[x] + parts[0]] + parts[1..])[1..] == parts[1..];
    }
  }

  lemma {:induction false} SplitConcat(a: Text, b: Text, c: char)
    ensures Split(a + [c] + b, c) == Split(a, c) + Split(b, c)
  {
    if a == [] {
      SplitCons(c, b, c);
      assert a + [c] + b == [c] + b;
    } else {
      SplitConcat(a[1..], b, c);
      SplitConcatStep(a[0], a[1..], b, c);
      assert a == [a[0]] + a[1..];
    }
  }

  lemma PrependedConcat(x: char, u: seq<Text>, v: seq<Text>, c: char)
    requires u != []
    ensures Prepended(x, u + v, c) == Prepended(x, u, c) + v
  {
    assert (u + v)[0] == u[0] && (u + v)[1..] == u[1..] + v;
  }

  lemma SplitCons(x: char, s: Text, c: char)
    ensures Split([x] + s, c) == Prepended(x, Split(s, c), c)
  {
    assert ([x] + s)[1..] == s;
  }

  lemma SplitConcatStep(x: char, a: Text, b: Text, c: char)
    requires Split(a + [c] + b, c) == Split(a, c) + Split(b, c)
    ensures Split(([x] + a) + [c] + b, c) == Split([x] + a, c) + Split(b, c)
  {
    assert ([x] + a) + [c] + b == [x] + (a + [c] + b);
    SplitCons(x, a + [c] + b, c);
    SplitCons(x, a, c);
    PrependedConcat(x, Split(a, c), Split(b, c), c);
  }

  lemma {:induction false} JoinConcat(a: seq<Text>, b: seq<Text>, c: char)
    requires a != [] && b != []
    ensures Join(a + b, c) == Join(a, c) + [c] + Join(b, c)
  {
    if |a| == 1 {
      assert (a + b)[1..] == b;
    } else {
      JoinConcat(a[1..], b, c);
      assert (a + b)[1..] == a[1..] + b;
      assert a[0] + [c] + (Join(a[1..], c) + [c] + Join(b, c)) == (a[0] + [c] + Join(a[1..], c)) + [c] + Join(b, c);
    }
  }

  ghost predicate IsSuffix(a: seq<Text>, b: seq<Text>) {
    |a| <= |b| && b[|b| - |a|..] == a
  }

  lemma SplitInjective(p: Text, s: Text, c: char)
    requires Split(p, c) == Split(s, c)
    ensures p == s
  {
    JoinSplit(p, c);
    JoinSplit(s, c);
  }

  lemma StartsWithSeparator(p: Text, s: Text, c: char)
    ensures (exists rest :: s == p + [c] + rest) <==> Split(p, c) < Split(s, c)
  {
    if rest :| s == p + [c] + rest {
      SplitConcat(p, rest, c);
    }
    if Split(p, c) < Split(s, c) {
      var more := Split(s, c)[|Split(p, c)|..];
      assert Split(s, c) == Split(p, c) + more;
      JoinConcat(Split(p, c), more, c);
      JoinSplit(p, c);
      JoinSplit(s, c);
      assert s == p + [c] + Join(more, c);
    }
  }

  lemma EndsWithSeparator(p: Text, s: Text, c: char)
    ensures (exists rest :: s == rest + [c] + p) <==> p != s && IsSuffix(Split(p, c), Split(s, c))
  {
    if rest :| s == rest + [c] + p {
      SplitConcat(rest, p, c);
    }
    if p != s && IsSuffix(Split(p, c), Split(s, c)) {
      if Split(p, c) == Split(s, c) {
        SplitInjective(p, s, c);
        assert false;
      }
      JoinSplit(p, c);
      JoinSplit(s, c);
      var less := Split(s, c)[..|Split(s, c)| - |Split(p, c)|];
      assert Split(s, c) == less + Split(p, c);
      assert less != [];
      JoinConcat(less, Split(p, c), c);
      assert s == Join(less, c) + [c] + p;
    }
  }

  predicate EndsInSlash(pattern: Text) {
    pattern != [] && pattern[|pattern| - 1] == '/'
  }

  lemma SubstrOfPrefix(pattern: Text, identifier: Text)
    ensures Substr(identifier, 1, |pattern|) == pattern <==> pattern <= identifier
    ensures pattern <= identifier ==>
              (Substr(identifier, |pattern| + 1, 1) == "/" <==> |identifier| > |pattern| && identifier[|pattern|] == '/')
    ensures Substr(pattern, -1, 1) == "/" <==> EndsInSlash(pattern)
  {
  }

  lemma PrefixOfConcat(p: Text, c: char, rest: Text)
    ensures p <= p + [c] + rest && |p + [c] + rest| > |p| && (p + [c] + rest)[|p|] == c
  {
  }

  lemma SuffixOfConcat(rest: Text, c: char, p: Text)
    ensures var s := rest + [c] + p; |s| > |p| && s[|s| - |p|..] == p && s[|s| - |p| - 1] == c
  {
  }

  lemma ConcatOfPrefix(p: Text, s: Text, c: char)
    requires p <= s && |p| < |s| && s[|p|] == c
    ensures s == p + [c] + s[|p| + 1..]
  {
  }

  /** The path test in terms of characters. */
  lemma PathTestMeans(pattern: Text, identifier: Text)
    ensures PathTest(pattern, identifier) <==>
            || pattern == identifier
            || (pattern <= identifier && EndsInSlash(pattern))
            || (exists rest :: identifier == pattern + ['/'] + rest)
  {
    SubstrOfPrefix(pattern, identifier);
    hide Substr, EndsInSlash;
    if pattern <= identifier && |pattern| < |identifier| && identifier[|pattern|] == '/' {
      ConcatOfPrefix(pattern, identifier, '/');
    }
    if rest :| identifier == pattern + ['/'] + rest {
      PrefixOfConcat(pattern, '/', rest);
    }
  }

  lemma PathTestWithoutSlash(pattern: Text, identifier: Text)
    requires !EndsInSlash(pattern)
    ensures PathTest(pattern, identifier) <==> Split(pattern, '/') <= Split(identifier, '/')
  {
    PathTestMeans(pattern, identifier);
    StartsWithSeparator(pattern, identifier, '/');
    hide PathTest, Split;
    if Split(pattern, '/') == Split(identifier, '/') {
      SplitInjective(pattern, identifier, '/');
    }
  }

  lemma PathTestWithSlash(stem: Text, identifier: Text)
    ensures PathTest(stem + ['/'], identifier) <==> Split(stem, '/') < Split(identifier, '/')
  {
    var pattern := stem + ['/'];
    PathTestMeans(pattern, identifier);
    StartsWithSeparator(stem, identifier, '/');
    hide PathTest, Split;
    if pattern <= identifier {
      ConcatOfPrefix(stem, identifier, '/');
    }
    if rest :| identifier == stem + ['/'] + rest {
      PrefixOfConcat(stem, '/', rest);
      assert pattern <= identifier;
    }
  }

  /** The path test holds exactly when the pattern's components are a prefix of the identifier's; with a trailing
      slash, exactly when the components before it are a proper prefix. */
  lemma PathTestExactlyWhen(pattern: Text, identifier: Text)
    requires pattern != []
    ensures !EndsInSlash(pattern) ==> (PathTest(pattern, identifier) <==> Split(pattern, '/') <= Split(identifier, '/'))
    ensures EndsInSlash(pattern) ==>
            (PathTest(pattern, identifier) <==> Split(pattern[..|pattern| - 1], '/') < Split(identifier, '/'))
  {
    if EndsInSlash(pattern) {
      PathTestWithSlash(pattern[..|pattern| - 1], identifier);
      assert pattern == pattern[..|pattern| - 1] + ['/'];
    } else {
      PathTestWithoutSlash(pattern, identifier);
    }
  }

  lemma SubstrOfSuffix(pattern: Text, identifier: Text)
    requires pattern != [] && |identifier| > |pattern|
    ensures SubstrFrom(identifier, -|pattern|) == identifier[|identifier| - |pattern|..]
    ensures Substr(identifier, |identifier| - |pattern|, 1) == [identifier[|identifier| - |pattern| - 1]]
  {
  }

  /** The host test in terms of characters. */
  lemma HostTestMeans(pattern: Text, identifier: Text)
    requires pattern != []
    ensures HostTest(pattern, identifier) <==> pattern == identifier || exists rest :: identifier == rest + ['.'] + pattern
  {
    var n, m := |pattern|, |identifier|;
    if m > n {
      SubstrOfSuffix(pattern, identifier);
      if identifier[m - n..] == pattern && identifier[m - n - 1] == '.' {
        assert identifier == identifier[..m - n - 1] + ['.'] + pattern;
      }
    }
    if rest :| identifier == rest + ['.'] + pattern {
      SuffixOfConcat(rest, '.', pattern);
    }
  }

  /** The host test holds exactly when the pattern's labels are a suffix of the identifier's. */
  lemma HostTestExactlyWhen(pattern: Text, identifier: Text)
    requires pattern != []
    ensures HostTest(pattern, identifier) <==> IsSuffix(Split(pattern, '.'), Split(identifier, '.'))
  {
    hide HostTest, Split;
    HostTestMeans(pattern, identifier);
    EndsWithSeparator(pattern, identifier, '.');
  }

  // ---- The chosen label ----

  /** What a label covers, in terms of components. */
  ghost predicate Covers(l: ResourceLabel, kind: ResourceKind, identifier: Text) {
    l.resourceKind == kind &&
    match l.matchKind
    case Exact => l.pattern == identifier
    case PathPrefix =>
      if EndsInSlash(l.pattern) then Split(l.pattern[..|l.pattern| - 1], '/') < Split(identifier, '/')
      else Split(l.pattern, '/') <= Split(identifier, '/')
    case Host => IsSuffix(Split(l.pattern, '.'), Split(identifier, '.'))
  }

  ghost predicate DistinctIds(rows: seq<ResourceLabel>) {
    forall i, j | 0 <= i < j < |rows| :: rows[i].id != rows[j].id
  }

  /** Distinct identifiers, one label for each kind, match and pattern, no empty pattern, and no update before creation. */
  ghost predicate ValidTable(rows: seq<ResourceLabel>) {
    && (forall l | l in rows :: l.pattern != [] && l.createdAtMs <= l.updatedAtMs)
    && DistinctIds(rows)
    && (forall k, l | k in rows && l in rows && SameTarget(k, l) :: k == l)
  }

  predicate SameTarget(k: ResourceLabel, l: ResourceLabel) {
    k.resourceKind == l.resourceKind && k.matchKind == l.matchKind && k.pattern == l.pattern
  }

  lemma MatchingIsCovering(l: ResourceLabel, kind: ResourceKind, identifier: Text)
    requires l.pattern != []
    ensures Matching(kind, identifier)(l) <==> Covers(l, kind, identifier)
  {
    PathTestExactlyWhen(l.pattern, identifier);
    HostTestExactlyWhen(l.pattern, identifier);
  }

  /** A label is found exactly when one covers the identifier; it covers it; it is the exact one if there is
      one, and otherwise no covering label is longer, and none as long has a smaller identifier. */
  lemma ChosenLabelCovers(rows: seq<ResourceLabel>, kind: ResourceKind, identifier: Text)
    requires ValidTable(rows)
    ensures var r := ResourceLabelFor(rows, kind, identifier);
            && (r.None? <==> forall l | l in rows :: !Covers(l, kind, identifier))
            && (r.Some? ==> r.value in rows && Covers(r.value, kind, identifier))
            && (r.Some? ==> forall l | l in rows && Covers(l, kind, identifier) ::
                  if r.value.matchKind.Exact? then l.matchKind.Exact? ==> l == r.value
                  else !l.matchKind.Exact? && (|l.pattern| < |r.value.pattern| || (|l.pattern| == |r.value.pattern| && r.value.id <= l.id)))
  {
    forall l | l in rows ensures Matching(kind, identifier)(l) <==> Covers(l, kind, identifier) {
      MatchingIsCovering(l, kind, identifier);
    }
    var r := ResourceLabelFor(rows, kind, identifier);
    if r.Some? {
      forall l | l in rows && Covers(l, kind, identifier)
        ensures if r.value.matchKind.Exact? then l.matchKind.Exact? ==> l == r.value
                else !l.matchKind.Exact? && (|l.pattern| < |r.value.pattern| || (|l.pattern| == |r.value.pattern| && r.value.id <= l.id))
      {
        assert !Before(ExactThenLongest(l), ExactThenLongest(r.value));
        if r.value.matchKind.Exact? && l.matchKind.Exact? {
          assert SameTarget(l, r.value);
        }
      }
    }
  }

  /** The choice depends on which labels are stored, not on the order they were inserted in. */
  lemma ChoiceIgnoresInsertionOrder(a: seq<ResourceLabel>, b: seq<ResourceLabel>, kind: ResourceKind, identifier: Text)
    requires ValidTable(a) && forall l :: l in a <==> l in b
    ensures ResourceLabelFor(a, kind, identifier) == ResourceLabelFor(b, kind, identifier)
  {
    forall x, y | x in a && y in a && ExactThenLongest(x) == ExactThenLongest(y) ensures x == y {
      var i :| 0 <= i < |a| && a[i] == x;
      var j :| 0 <= j < |a| && a[j] == y;
    }
    FirstIgnoresRowOrder(a, b, Matching(kind, identifier), ExactThenLongest);
  }

  lemma PathTestStarts(pattern: Text, identifier: Text)
    requires PathTest(pattern, identifier)
    ensures pattern <= identifier
  {
  }

  lemma HostTestEnds(pattern: Text, identifier: Text)
    requires HostTest(pattern, identifier) && pattern != []
    ensures |pattern| <= |identifier| && identifier[|identifier| - |pattern|..] == pattern
  {
  }

  /** Only a path label and a host label can tie on length; the label identifier decides between those two. */
  lemma OnlyPathAndHostTie(rows: seq<ResourceLabel>, kind: ResourceKind, identifier: Text, k: ResourceLabel, l: ResourceLabel)
    requires ValidTable(rows) && k in rows && l in rows
    requires Matching(kind, identifier)(k) && Matching(kind, identifier)(l)
    requires k.matchKind == l.matchKind && |k.pattern| == |l.pattern|
    ensures k == l
  {
    if k.matchKind.PathPrefix? {
      PathTestStarts(k.pattern, identifier);
      PathTestStarts(l.pattern, identifier);
    } else if k.matchKind.Host? {
      HostTestEnds(k.pattern, identifier);
      HostTestEnds(l.pattern, identifier);
    }
    assert SameTarget(k, l);
  }

  datatype StorageError = InvalidInteraction | ConstraintViolation

  /** A label is stored unless it is invalid, another label has its target, or the clock stands before the
      creation time that the stored row keeps. */
  predicate Accepts(rows: seq<ResourceLabel>, l: ResourceLabel) {
    && l.Valid()
    && (forall k | k in rows && SameTarget(k, l) :: k.id == l.id)
    && (forall k | k in rows && k.id == l.id :: k.createdAtMs <= l.updatedAtMs)
  }

  function Upserted(rows: seq<ResourceLabel>, l: ResourceLabel): seq<ResourceLabel> {
    if rows == [] then [l]
    else if rows[0].id == l.id then [l.(createdAtMs := rows[0].createdAtMs)] + rows[1..]
    else [rows[0]] + Upserted(rows[1..], l)
  }

  /** After an upsert of `l` every other row is as it was, and one row has the identifier of `l`: it is `l`, with the
      creation time of the row that had it before. */
  ghost predicate Stores(before: seq<ResourceLabel>, after: seq<ResourceLabel>, l: ResourceLabel) {
    && (forall x: ResourceLabel | x.id != l.id :: x in after <==> x in before)
    && (exists x | x in after :: x.id == l.id)
    && (forall x | x in after && x.id == l.id ::
          && (forall k | k in before && k.id == l.id :: x == l.(createdAtMs := k.createdAtMs))
          && ((forall k | k in before :: k.id != l.id) ==> x == l))
  }

  lemma {:induction false} UpsertStores(rows: seq<ResourceLabel>, l: ResourceLabel)
    requires DistinctIds(rows)
    ensures DistinctIds(Upserted(rows, l)) && Stores(rows, Upserted(rows, l), l)
  {
    if rows != [] {
      DistinctTail(rows);
      assert rows == [rows[0]] + rows[1..];
      if rows[0].id == l.id {
        DistinctCons(l.(createdAtMs := rows[0].createdAtMs), rows[1..]);
      } else {
        UpsertStores(rows[1..], l);
        DistinctCons(rows[0], Upserted(rows[1..], l));
      }
    }
  }

  function Without(rows: seq<ResourceLabel>, id: ResourceLabelId): (r: seq<ResourceLabel>)
    ensures forall x :: x in r <==> x in rows && x.id != id
  {
    if rows == [] then []
    else if rows[0].id == id then assert rows == [rows[0]] + rows[1..]; Without(rows[1..], id)
    else assert rows == [rows[0]] + rows[1..]; [rows[0]] + Without(rows[1..], id)
  }

  class LabelTable {
    var rows: seq<ResourceLabel>

    constructor ()
      ensures rows == [] && ValidTable(rows)
    {
      rows := [];
    }

    method Upsert(l: ResourceLabel) returns (r: Result<(), StorageError>)
      requires ValidTable(rows)
      modifies this
      ensures ValidTable(rows)
      ensures r.Ok? <==> Accepts(old(rows), l)
      ensures rows == if r.Ok? then Upserted(old(rows), l) else old(rows)
      ensures r.Ok? ==> Stores(old(rows), rows, l)
    {
      if !l.Valid() {
        return Err(InvalidInteraction);
      }
      if exists k :: k in rows && SameTarget(k, l) && k.id != l.id {
        return Err(ConstraintViolation);
      }
      if exists k :: k in rows && k.id == l.id && k.createdAtMs > l.updatedAtMs {
        return Err(ConstraintViolation);
      }
      UpsertKeepsTable(rows, l);
      UpsertStores(rows, l);
      rows := Upserted(rows, l);
      return Ok(());
    }

    method Remove(id: ResourceLabelId) returns (removed: bool)
      requires ValidTable(rows)
      modifies this
      ensures ValidTable(rows)
      ensures rows == Without(old(rows), id)
      ensures forall x :: x in rows <==> x in old(rows) && x.id != id
      ensures removed <==> exists l :: l in old(rows) && l.id == id
    {
      RemovalKeepsTable(rows, id);
      removed := exists l :: l in rows && l.id == id;
      rows := Without(rows, id);
    }

    method LabelFor(kind: ResourceKind, identifier: Text) returns (r: Option<ResourceLabel>)
      requires ValidTable(rows)
      ensures r == ResourceLabelFor(rows, kind, identifier)
    {
      r := ResourceLabelFor(rows, kind, identifier);
    }
  }

  lemma DistinctCons(x: ResourceLabel, rows: seq<ResourceLabel>)
    requires DistinctIds(rows) && forall y | y in rows :: y.id != x.id
    ensures DistinctIds([x] + rows)
  {
  }

  lemma DistinctTail(rows: seq<ResourceLabel>)
    requires DistinctIds(rows) && rows != []
    ensures DistinctIds(rows[1..]) && forall y | y in rows[1..] :: y.id != rows[0].id
  {
  }

  lemma UpsertKeepsTable(rows: seq<ResourceLabel>, l: ResourceLabel)
    requires ValidTable(rows) && Accepts(rows, l)
    ensures ValidTable(Upserted(rows, l))
  {
    var n := Upserted(rows, l);
    UpsertStores(rows, l);
    forall x, y | x in n && y in n && SameTarget(x, y) ensures x == y {
      var i :| 0 <= i < |n| && n[i] == x;
      var j :| 0 <= j < |n| && n[j] == y;
      assert x.id == y.id;
    }
  }

  lemma {:induction false} WithoutIds(rows: seq<ResourceLabel>, id: ResourceLabelId)
    requires DistinctIds(rows)
    ensures DistinctIds(Without(rows, id))
  {
    if rows != [] {
      WithoutIds(rows[1..], id);
      assert forall x | x in Without(rows[1..], id) :: x in rows[1..];
    }
  }

  lemma RemovalKeepsTable(rows: seq<ResourceLabel>, id: ResourceLabelId)
    requires ValidTable(rows)
    ensures ValidTable(Without(rows, id))
  {
    WithoutIds(rows, id);
  }
}
