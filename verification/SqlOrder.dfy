/** `ORDER BY ... LIMIT` over a table kept in row order. Every ordering the storage layer uses is a
    lexicographic one over at most three integer keys; descending keys enter negated. Text identifiers
    that take part in an ordering are integers here: only their total order is ever observed. */
module SqlOrder {
  import opened Prelude

  datatype Rank = Rank(major: int, middle: int, minor: int)

  predicate Before(a: Rank, b: Rank) {
    || a.major < b.major
    || (a.major == b.major && a.middle < b.middle)
    || (a.major == b.major && a.middle == b.middle && a.minor < b.minor)
  }

  /** `WHERE keep ORDER BY rank LIMIT 1`. */
  function First<T>(rows: seq<T>, keep: T -> bool, rank: T -> Rank): (r: Option<T>)
    ensures r.None? <==> forall x | x in rows :: !keep(x)
    ensures r.Some? ==> r.value in rows && keep(r.value)
    ensures r.Some? ==> forall x | x in rows && keep(x) :: !Before(rank(x), rank(r.value))
  {
    if rows == [] then None
    else
      var rest := First(rows[..|rows| - 1], keep, rank);
      var last := rows[|rows| - 1];
      if !keep(last) || (rest.Some? && !Before(rank(last), rank(rest.value))) then rest
      else Some(last)
  }

  /** Whether two different rows never tie, as when the ranking ends in the primary key. */
  ghost predicate NoTies<T>(rows: seq<T>, rank: T -> Rank) {
    forall x, y | x in rows && y in rows && rank(x) == rank(y) :: x == y
  }

  /** Without ties, the selected row depends on which rows are stored, not on their physical order. */
  lemma FirstIgnoresRowOrder<T>(a: seq<T>, b: seq<T>, keep: T -> bool, rank: T -> Rank)
    requires forall x :: x in a <==> x in b
    requires NoTies(a, rank)
    ensures First(a, keep, rank) == First(b, keep, rank)
  {
    var x, y := First(a, keep, rank), First(b, keep, rank);
    if x.Some? && y.Some? {
      assert rank(x.value) == rank(y.value);
    }
  }

  ghost predicate IsSorted<T>(s: seq<T>, rank: T -> Rank) {
    forall i, j | 0 <= i < j < |s| :: !Before(rank(s[j]), rank(s[i]))
  }

  function Insert<T>(x: T, s: seq<T>, rank: T -> Rank): (r: seq<T>)
    ensures multiset(r) == multiset(s) + multiset{x}
    ensures |r| == |s| + 1
  {
    if s == [] then [x]
    else if Before(rank(x), rank(s[0])) then [x] + s
    else
      assert s == [s[0]] + s[1..];
      [s[0]] + Insert(x, s[1..], rank)
  }

  lemma {:induction false} InsertKeepsSorted<T>(x: T, s: seq<T>, rank: T -> Rank)
    requires IsSorted(s, rank)
    ensures IsSorted(Insert(x, s, rank), rank)
  {
    if s != [] && !Before(rank(x), rank(s[0])) {
      InsertKeepsSorted(x, s[1..], rank);
      var rest := Insert(x, s[1..], rank);
      assert s == [s[0]] + s[1..];
      forall y | y in rest ensures !Before(rank(y), rank(s[0])) {
        assert y in multiset(rest);
      }
    }
  }

  /** `ORDER BY rank`, stable in row order. */
  function Sort<T>(rows: seq<T>, rank: T -> Rank): (r: seq<T>)
    ensures multiset(r) == multiset(rows)
    ensures |r| == |rows|
  {
    if rows == [] then []
    else
      assert rows == rows[..|rows| - 1] + [rows[|rows| - 1]];
      Insert(rows[|rows| - 1], Sort(rows[..|rows| - 1], rank), rank)
  }

  lemma {:induction false} SortSorts<T>(rows: seq<T>, rank: T -> Rank)
    ensures IsSorted(Sort(rows, rank), rank)
    ensures forall x :: x in Sort(rows, rank) <==> x in rows
  {
    if rows != [] {
      SortSorts(rows[..|rows| - 1], rank);
      InsertKeepsSorted(rows[|rows| - 1], Sort(rows[..|rows| - 1], rank), rank);
    }
    forall x ensures x in Sort(rows, rank) <==> x in rows {
      assert x in Sort(rows, rank) <==> x in multiset(Sort(rows, rank));
      assert x in rows <==> x in multiset(rows);
    }
  }

  lemma SortAppend<T>(rows: seq<T>, x: T, rank: T -> Rank)
    ensures Sort(rows + [x], rank) == Insert(x, Sort(rows, rank), rank)
  {
    assert (rows + [x])[..|rows|] == rows;
  }

  ghost predicate IsStrict<T>(s: seq<T>, rank: T -> Rank) {
    forall i, j | 0 <= i < j < |s| :: Before(rank(s[i]), rank(s[j]))
  }

  lemma {:induction false} InsertKeepsStrict<T>(x: T, s: seq<T>, rank: T -> Rank)
    requires IsStrict(s, rank) && forall y | y in s :: rank(y) != rank(x)
    ensures IsStrict(Insert(x, s, rank), rank)
  {
    if s != [] && !Before(rank(x), rank(s[0])) {
      InsertKeepsStrict(x, s[1..], rank);
      var rest := Insert(x, s[1..], rank);
      assert s == [s[0]] + s[1..];
      forall y | y in rest ensures Before(rank(s[0]), rank(y)) {
        assert y in multiset(rest);
      }
    }
  }

  /** Rows with different ranks sort strictly. */
  lemma {:induction false} SortStrict<T>(rows: seq<T>, rank: T -> Rank)
    requires forall i, j | 0 <= i < j < |rows| :: rank(rows[i]) != rank(rows[j])
    ensures IsStrict(Sort(rows, rank), rank)
  {
    if rows != [] {
      var front, last := rows[..|rows| - 1], rows[|rows| - 1];
      SortStrict(front, rank);
      forall y | y in Sort(front, rank) ensures rank(y) != rank(last) {
        assert y in multiset(Sort(front, rank));
        assert y in front;
      }
      InsertKeepsStrict(last, Sort(front, rank), rank);
    }
  }

  /** A strictly sorted list is determined by its elements. */
  lemma {:induction false} StrictIsDetermined<T>(a: seq<T>, b: seq<T>, rank: T -> Rank)
    requires IsStrict(a, rank) && IsStrict(b, rank)
    requires (forall x | x in a :: x in b) && (forall x | x in b :: x in a)
    ensures a == b
  {
    assert a != [] ==> a[0] in b;
    assert b != [] ==> b[0] in a;
    if a != [] && b != [] {
      var i :| 0 <= i < |a| && a[i] == b[0];
      var j :| 0 <= j < |b| && b[j] == a[0];
      assert a[0] == b[0];
      forall x | x in a[1..] ensures x in b[1..] {
        var k :| 1 <= k < |a| && a[k] == x;
        assert Before(rank(a[0]), rank(a[k]));
        assert x in b;
        var m :| 0 <= m < |b| && b[m] == x;
        assert b[1..][m - 1] == x;
      }
      forall x | x in b[1..] ensures x in a[1..] {
        var k :| 1 <= k < |b| && b[k] == x;
        assert Before(rank(b[0]), rank(b[k]));
        assert x in a;
        var m :| 0 <= m < |a| && a[m] == x;
        assert a[1..][m - 1] == x;
      }
      StrictIsDetermined(a[1..], b[1..], rank);
    }
  }

  /** The first element of a list that satisfies `keep`. */
  function Find<T>(s: seq<T>, keep: T -> bool): (r: Option<T>)
    ensures r.None? <==> forall x | x in s :: !keep(x)
    ensures r.Some? ==> r.value in s && keep(r.value)
  {
    if s == [] then None
    else if keep(s[0]) then Some(s[0])
    else Find(s[1..], keep)
  }

  lemma {:induction false} FindInInsert<T>(x: T, s: seq<T>, keep: T -> bool, rank: T -> Rank)
    requires IsSorted(s, rank)
    ensures Find(Insert(x, s, rank), keep) ==
            var y := Find(s, keep);
            if !keep(x) || (y.Some? && !Before(rank(x), rank(y.value))) then y else Some(x)
  {
    if s != [] {
      assert forall y | y in s :: !Before(rank(y), rank(s[0]));
      if Before(rank(x), rank(s[0])) {
        assert ([x] + s)[1..] == s;
      } else {
        FindInInsert(x, s[1..], keep, rank);
        assert Insert(x, s, rank)[1..] == Insert(x, s[1..], rank);
      }
    } else {
      assert Insert(x, s, rank) == [x];
    }
  }

  /** Scanning the whole sorted table for the first match selects the row that the single-row query
      returns. */
  lemma {:induction false} FindInSortedIsFirst<T>(rows: seq<T>, keep: T -> bool, rank: T -> Rank)
    ensures Find(Sort(rows, rank), keep) == First(rows, keep, rank)
  {
    if rows != [] {
      var front, last := rows[..|rows| - 1], rows[|rows| - 1];
      FindInSortedIsFirst(front, keep, rank);
      SortSorts(front, rank);
      FindInInsert(last, Sort(front, rank), keep, rank);
    }
  }
}
