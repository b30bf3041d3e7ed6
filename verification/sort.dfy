/**
 * The table sorting helpers (`src/components/ui/sort.tsx`): the direction toggle, the
 * sort state a column-header click produces, and `applySort`, which sorts a copy of
 * the rows with the column's comparator and reverses it for a descending sort.
 * Sequences are values, so the caller's rows are never changed.
 */
module Sort {
  import opened Base

  datatype SortDir = Asc | Desc

  /** `{ key, dir }` */
  datatype SortSpec = SortSpec(key: string, dir: SortDir)

  /** `SortState`: a sort, or `null` for none. */
  type SortState = Option<SortSpec>

  /** `nextDir(dir?)` */
  function NextDir(dir: Option<SortDir>): SortDir {
    if dir == Some(Asc) then Desc else Asc
  }

  /** `asc` goes to `desc`, `desc` and no direction go to `asc`; toggling twice is a no-op. */
  lemma NextDirToggles(d: SortDir)
    ensures NextDir(Some(Asc)) == Desc && NextDir(Some(Desc)) == Asc && NextDir(None) == Asc
    ensures NextDir(Some(d)) != d
    ensures NextDir(Some(NextDir(Some(d)))) == d
  {
  }

  /** The sort state `SortHeader` sets when the header of column `sortKey` is clicked. */
  function HeaderClick(sortKey: string, sort: SortState): SortState {
    var active := sort.Some? && sort.value.key == sortKey;
    var dir := if active then Some(sort.value.dir) else None;
    if active then Some(SortSpec(sortKey, NextDir(dir))) else Some(SortSpec(sortKey, Asc))
  }

  /**
   * A click always sorts by the clicked column: ascending when it was not the active
   * column, in the other direction when it was. A second click on the same column turns
   * the direction back, so clicks alternate.
   */
  lemma HeaderClickToggles(sortKey: string, sort: SortState)
    ensures var r := HeaderClick(sortKey, sort);
      && r.Some? && r.value.key == sortKey
      && (sort.None? || sort.value.key != sortKey ==> r.value.dir == Asc)
      && (sort.Some? && sort.value.key == sortKey ==> r.value.dir != sort.value.dir)
    ensures HeaderClick(sortKey, HeaderClick(sortKey, HeaderClick(sortKey, sort))) == HeaderClick(sortKey, sort)
  {
  }

  /** "Not after" carries over from `a`, `b` to `b`, `c` to `a`, `c`. */
  ghost predicate Chained<T>(cmp: (T, T) -> int, a: T, b: T, c: T) {
    cmp(a, b) <= 0 && cmp(b, c) <= 0 ==> cmp(a, c) <= 0
  }

  /**
   * A comparator the language's sort can rely on: `a` before `b` exactly when `b` after
   * `a`, and "not after" is transitive.
   */
  ghost predicate Consistent<T(!new)>(cmp: (T, T) -> int) {
    && (forall a, b :: cmp(a, b) < 0 <==> cmp(b, a) > 0)
    && (forall a, b, c :: Chained(cmp, a, b, c))
  }

  /** Every element is not after any later one. */
  ghost predicate SortedBy<T>(s: seq<T>, cmp: (T, T) -> int) {
    forall i, j :: 0 <= i < j < |s| ==> cmp(s[i], s[j]) <= 0
  }

  /** `x` placed into `s` before the first element it is strictly before. */
  function Insert<T>(x: T, s: seq<T>, cmp: (T, T) -> int): (r: seq<T>)
    ensures |r| == |s| + 1
    ensures multiset(r) == multiset(s) + multiset{x}
  {
    if s == [] then [x]
    else if cmp(x, s[0]) < 0 then [x] + s
    else
      assert s == [s[0]] + s[1..];
      [s[0]] + Insert(x, s[1..], cmp)
  }

  /** `array.sort(cmp)`: a stable sort of the elements by `cmp`. */
  function SortBy<T>(s: seq<T>, cmp: (T, T) -> int): (r: seq<T>)
    ensures |r| == |s|
    ensures multiset(r) == multiset(s)
  {
    if s == [] then []
    else
      assert s == s[..|s| - 1] + [s[|s| - 1]];
      Insert(s[|s| - 1], SortBy(s[..|s| - 1], cmp), cmp)
  }

  /** Every element of `Insert(x, s)` is `x` or an element of `s`. */
  lemma InsertFrom<T>(x: T, s: seq<T>, cmp: (T, T) -> int, j: int)
    requires 0 <= j < |s| + 1
    ensures Insert(x, s, cmp)[j] == x || exists k :: 0 <= k < |s| && s[k] == Insert(x, s, cmp)[j]
  {
    var y := Insert(x, s, cmp)[j];
    assert y in multiset(Insert(x, s, cmp));
    if y != x {
      assert y in multiset(s);
    }
  }

  /** When `x` is not before `s[0]`, `s[0]` is not after anything in the rest. */
  lemma HeadBeforeInserted<T(!new)>(x: T, s: seq<T>, cmp: (T, T) -> int)
    requires Consistent(cmp) && SortedBy(s, cmp)
    requires s != [] && cmp(x, s[0]) >= 0
    ensures forall j :: 0 <= j < |s| ==> cmp(s[0], Insert(x, s[1..], cmp)[j]) <= 0
  {
    var rest := Insert(x, s[1..], cmp);
    forall j | 0 <= j < |rest|
      ensures cmp(s[0], rest[j]) <= 0
    {
      InsertFrom(x, s[1..], cmp, j);
      if rest[j] != x {
        var k :| 0 <= k < |s[1..]| && s[1..][k] == rest[j];
        assert s[k + 1] == rest[j];
      }
    }
  }

  /** An element not after anything in a sorted sequence, put in front, keeps it sorted. */
  lemma ConsSorted<T>(y: T, rest: seq<T>, cmp: (T, T) -> int)
    requires SortedBy(rest, cmp)
    requires forall j :: 0 <= j < |rest| ==> cmp(y, rest[j]) <= 0
    ensures SortedBy([y] + rest, cmp)
  {
    var r := [y] + rest;
    forall i, j | 0 <= i < j < |r|
      ensures cmp(r[i], r[j]) <= 0
    {
      assert r[j] == rest[j - 1];
      if i > 0 {
        assert r[i] == rest[i - 1];
      }
    }
  }

  lemma {:induction false} InsertSorted<T(!new)>(x: T, s: seq<T>, cmp: (T, T) -> int)
    requires Consistent(cmp) && SortedBy(s, cmp)
    ensures SortedBy(Insert(x, s, cmp), cmp)
  {
    if s == [] {
    } else if cmp(x, s[0]) < 0 {
      forall j | 0 <= j < |s| ensures cmp(x, s[j]) <= 0 {
        assert Chained(cmp, x, s[0], s[j]);
      }
      ConsSorted(x, s, cmp);
    } else {
      assert SortedBy(s[1..], cmp);
      InsertSorted(x, s[1..], cmp);
      HeadBeforeInserted(x, s, cmp);
      ConsSorted(s[0], Insert(x, s[1..], cmp), cmp);
    }
  }

  /** With a consistent comparator, the sorted copy is in order. */
  lemma {:induction false} SortBySorted<T(!new)>(s: seq<T>, cmp: (T, T) -> int)
    requires Consistent(cmp)
    ensures SortedBy(SortBy(s, cmp), cmp)
  {
    if s != [] {
      SortBySorted(s[..|s| - 1], cmp);
      InsertSorted(s[|s| - 1], SortBy(s[..|s| - 1], cmp), cmp);
    }
  }

  /** In a sequence of distinct elements each value occurs at most once. */
  lemma {:induction false} DistinctOccursOnce<T>(s: seq<T>, x: T)
    requires Distinct(s)
    ensures multiset(s)[x] <= 1
  {
    if s != [] {
      var front := s[..|s| - 1];
      assert s == front + [s[|s| - 1]];
      assert Distinct(front);
      DistinctOccursOnce(front, x);
      if x == s[|s| - 1] {
        assert x !in front;
      }
    }
  }

  /** A permutation of distinct elements has distinct elements. */
  lemma PermutationKeepsDistinct<T>(a: seq<T>, b: seq<T>)
    requires Distinct(a) && multiset(a) == multiset(b)
    ensures Distinct(b)
  {
    forall i, j | 0 <= i < j < |b|
      ensures b[i] != b[j]
    {
      if b[i] == b[j] {
        assert b == b[..j] + [b[j]] + b[j + 1..];
        assert b[..j][i] == b[j];
        DistinctOccursOnce(a, b[j]);
        assert false;
      }
    }
  }

  /** `array.reverse()` */
  function Reverse<T>(s: seq<T>): (r: seq<T>)
    ensures |r| == |s|
    ensures forall i :: 0 <= i < |s| ==> r[i] == s[|s| - 1 - i]
    ensures multiset(r) == multiset(s)
  {
    if s == [] then []
    else
      assert s == s[..|s| - 1] + [s[|s| - 1]];
      [s[|s| - 1]] + Reverse(s[..|s| - 1])
  }

  /** `applySort(rows, sort, comparators)` */
  function ApplySort<T>(rows: seq<T>, sort: SortState, comparators: map<string, (T, T) -> int>): seq<T> {
    if sort.None? then rows
    else if sort.value.key !in comparators then rows
    else
      var sorted := SortBy(rows, comparators[sort.value.key]);
      if sort.value.dir == Asc then sorted else Reverse(sorted)
  }

  /**
   * `applySort` returns a permutation of the rows: the rows themselves when there is no
   * sort or no comparator for its column.
   */
  lemma ApplySortPermutes<T>(rows: seq<T>, sort: SortState, comparators: map<string, (T, T) -> int>)
    ensures multiset(ApplySort(rows, sort, comparators)) == multiset(rows)
    ensures sort.None? || sort.value.key !in comparators ==> ApplySort(rows, sort, comparators) == rows
  {
  }

  /** A sorted sequence reversed is in the opposite order. */
  lemma ReverseDescends<T>(s: seq<T>, cmp: (T, T) -> int)
    requires SortedBy(s, cmp)
    ensures forall i, j :: 0 <= i < j < |s| ==> cmp(Reverse(s)[j], Reverse(s)[i]) <= 0
  {
    var r := Reverse(s);
    forall i, j | 0 <= i < j < |s|
      ensures cmp(r[j], r[i]) <= 0
    {
      assert r[j] == s[|s| - 1 - j] && r[i] == s[|s| - 1 - i];
    }
  }

  /** With a consistent comparator, an ascending sort is in comparator order. */
  lemma ApplySortAscOrdered<T(!new)>(rows: seq<T>, key: string, comparators: map<string, (T, T) -> int>)
    requires key in comparators && Consistent(comparators[key])
    ensures SortedBy(ApplySort(rows, Some(SortSpec(key, Asc)), comparators), comparators[key])
  {
    SortBySorted(rows, comparators[key]);
  }

  /**
   * A descending sort is exactly the ascending result reversed; with a consistent
   * comparator it is therefore in the opposite order.
   */
  lemma ApplySortDescReversesAsc<T(!new)>(rows: seq<T>, key: string, comparators: map<string, (T, T) -> int>)
    requires key in comparators && Consistent(comparators[key])
    ensures var up := ApplySort(rows, Some(SortSpec(key, Asc)), comparators);
      var down := ApplySort(rows, Some(SortSpec(key, Desc)), comparators);
      && down == Reverse(up)
      && forall i, j :: 0 <= i < j < |down| ==> comparators[key](down[j], down[i]) <= 0
  {
    var up := ApplySort(rows, Some(SortSpec(key, Asc)), comparators);
    ApplySortAscOrdered(rows, key, comparators);
    ReverseDescends(up, comparators[key]);
  }
}
