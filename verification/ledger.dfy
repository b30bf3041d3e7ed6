/**
 * Amounts grouped by a key (a day, a month). The profit and loss reports add each
 * amount into the entry of its key in a map, list the map's entries sorted by key,
 * and add the entries up again. The lemmas here show that the listing has one entry
 * per key in strictly ascending order, and that adding the per-key sums over the
 * distinct keys gives the plain total.
 */
module Ledger {
  import opened Base
  import opened Sort

  /** An amount booked under a key. */
  datatype Posting = Posting(key: string, amount: int)

  /** The sum of the amounts booked under `k`. */
  function SumAt(ps: seq<Posting>, k: string): int {
    if ps == [] then 0
    else SumAt(ps[..|ps| - 1], k) + (if ps[|ps| - 1].key == k then ps[|ps| - 1].amount else 0)
  }

  /** The sum of all amounts. */
  function Total(ps: seq<Posting>): int {
    if ps == [] then 0 else Total(ps[..|ps| - 1]) + ps[|ps| - 1].amount
  }

  /** The keys amounts are booked under. */
  function KeysOf(ps: seq<Posting>): set<string> {
    set i | 0 <= i < |ps| :: ps[i].key
  }

  /** The per-key sums of `ps`, added over `keys`. */
  function SumKeys(ps: seq<Posting>, keys: seq<string>): int {
    if keys == [] then 0 else SumKeys(ps, keys[..|keys| - 1]) + SumAt(ps, keys[|keys| - 1])
  }

  /** Extending a prefix by one posting adds that posting to its key and to the keys. */
  lemma PrefixStep(ps: seq<Posting>, i: int)
    requires 0 <= i < |ps|
    ensures KeysOf(ps[..i + 1]) == KeysOf(ps[..i]) + {ps[i].key}
    ensures forall k :: SumAt(ps[..i + 1], k) == SumAt(ps[..i], k) + (if ps[i].key == k then ps[i].amount else 0)
  {
    assert ps[..i + 1][..i] == ps[..i];
    forall k | k in KeysOf(ps[..i + 1]) ensures k in KeysOf(ps[..i]) + {ps[i].key} {
      var j :| 0 <= j < i + 1 && ps[..i + 1][j].key == k;
      if j < i {
        assert ps[..i][j].key == k;
      }
    }
    forall k | k in KeysOf(ps[..i]) ensures k in KeysOf(ps[..i + 1]) {
      var j :| 0 <= j < i && ps[..i][j].key == k;
      assert ps[..i + 1][j].key == k;
    }
    assert ps[i].key == ps[..i + 1][i].key;
  }

  /** Nothing is booked under a key no posting carries. */
  lemma {:induction false} SumAtAbsent(ps: seq<Posting>, k: string)
    requires k !in KeysOf(ps)
    ensures SumAt(ps, k) == 0
  {
    if ps != [] {
      var front := ps[..|ps| - 1];
      assert forall j :: 0 <= j < |front| ==> front[j] == ps[j];
      SumAtAbsent(front, k);
      assert ps[|ps| - 1].key in KeysOf(ps);
    }
  }

  lemma {:induction false} SumKeysOfNothing(keys: seq<string>)
    ensures SumKeys([], keys) == 0
  {
    if keys != [] {
      SumKeysOfNothing(keys[..|keys| - 1]);
    }
  }

  /** With distinct keys, one more posting adds its amount once when its key is listed. */
  lemma {:induction false} SumKeysSnoc(ps: seq<Posting>, p: Posting, keys: seq<string>)
    requires Distinct(keys)
    ensures SumKeys(ps + [p], keys) == SumKeys(ps, keys) + (if p.key in keys then p.amount else 0)
  {
    if keys != [] {
      var front := keys[..|keys| - 1];
      var last := keys[|keys| - 1];
      assert Distinct(front);
      SumKeysSnoc(ps, p, front);
      assert (ps + [p])[..|ps + [p]| - 1] == ps;
      assert p.key in keys <==> p.key in front || p.key == last;
      if p.key == last {
        assert p.key !in front;
      }
    }
  }

  /**
   * Adding the per-key sums over distinct keys that cover every posting gives the total
   * of all postings: grouping neither loses nor doubles an amount.
   */
  lemma {:induction false} SumOverKeys(ps: seq<Posting>, keys: seq<string>)
    requires Distinct(keys)
    requires forall i :: 0 <= i < |ps| ==> ps[i].key in keys
    ensures SumKeys(ps, keys) == Total(ps)
  {
    if ps == [] {
      SumKeysOfNothing(keys);
    } else {
      var front := ps[..|ps| - 1];
      var last := ps[|ps| - 1];
      assert ps == front + [last];
      SumOverKeys(front, keys);
      SumKeysSnoc(front, last, keys);
    }
  }

  /** Every entry of the map carries its own key. */
  ghost predicate KeyedBy<E>(byKey: map<string, E>, key: E -> string) {
    forall k :: k in byKey ==> key(byKey[k]) == k
  }

  /** `Array.from(map.values())` when the map enumerates its keys as `keys`. */
  function Values<E>(byKey: map<string, E>, keys: seq<string>): seq<E>
    requires forall k :: k in keys ==> k in byKey
  {
    seq(|keys|, i requires 0 <= i < |keys| => byKey[keys[i]])
  }

  /** The keys of a listing, in order. */
  function KeySeq<E>(series: seq<E>, key: E -> string): seq<string> {
    seq(|series|, i requires 0 <= i < |series| => key(series[i]))
  }

  /** `series.reduce((s, e) => s + amount(e), 0)` */
  function SumOf<E>(series: seq<E>, amount: E -> int): int {
    if series == [] then 0 else SumOf(series[..|series| - 1], amount) + amount(series[|series| - 1])
  }

  /** `cmp(a, b)` is `key(a).localeCompare(key(b))`. */
  ghost predicate OrdersBy<E(!new)>(cmp: (E, E) -> int, key: E -> string) {
    forall a, b :: cmp(a, b) == Compare(key(a), key(b))
  }

  /** Comparing by a string key is a comparator the sort can rely on. */
  lemma OrderByKeyConsistent<E(!new)>(cmp: (E, E) -> int, key: E -> string)
    requires OrdersBy(cmp, key)
    ensures Consistent(cmp)
  {
    forall a: E, b: E, c: E
      ensures Chained(cmp, a, b, c)
    {
      if cmp(a, b) <= 0 && cmp(b, c) <= 0 && key(a) != key(b) && key(b) != key(c) {
        LessTransitive(key(a), key(b), key(c));
      }
    }
  }

  /** Sorting by a string key puts the entries in key order. */
  lemma SortedByKey<E(!new)>(entries: seq<E>, cmp: (E, E) -> int, key: E -> string)
    requires OrdersBy(cmp, key)
    ensures SortedBy(SortBy(entries, cmp), cmp)
  {
    OrderByKeyConsistent(cmp, key);
    SortBySorted(entries, cmp);
  }

  /** The map's entries, each carrying its own key, are distinct. */
  lemma ValuesDistinct<E>(byKey: map<string, E>, keys: seq<string>, key: E -> string)
    requires KeyedBy(byKey, key)
    requires (forall k :: k in keys ==> k in byKey) && Distinct(keys)
    ensures Distinct(Values(byKey, keys))
  {
    var values := Values(byKey, keys);
    forall i, j | 0 <= i < j < |values| ensures values[i] != values[j] {
      assert key(values[i]) == keys[i] && key(values[j]) == keys[j];
    }
  }

  /** A rearrangement of the map's entries lists exactly the entries of the map. */
  lemma RearrangedEntries<E>(byKey: map<string, E>, keys: seq<string>, series: seq<E>, key: E -> string)
    requires KeyedBy(byKey, key)
    requires forall k :: k in byKey <==> k in keys
    requires multiset(series) == multiset(Values(byKey, keys))
    ensures forall i :: 0 <= i < |series| ==> key(series[i]) in byKey && series[i] == byKey[key(series[i])]
    ensures forall k :: k in byKey <==> k in KeySeq(series, key)
  {
    var values := Values(byKey, keys);
    forall i | 0 <= i < |series|
      ensures key(series[i]) in byKey && series[i] == byKey[key(series[i])]
    {
      assert series[i] in multiset(values);
    }
    forall k | k in byKey
      ensures k in KeySeq(series, key)
    {
      var j :| 0 <= j < |keys| && keys[j] == k;
      assert values[j] in multiset(series);
      var i :| 0 <= i < |series| && series[i] == values[j];
      assert KeySeq(series, key)[i] == k;
    }
  }

  /** Sorted by key, with no two entries alike and each fixed by its key: strictly ascending. */
  lemma StrictlyAscending<E(!new)>(byKey: map<string, E>, series: seq<E>, cmp: (E, E) -> int, key: E -> string)
    requires OrdersBy(cmp, key)
    requires SortedBy(series, cmp) && Distinct(series)
    requires forall i :: 0 <= i < |series| ==> key(series[i]) in byKey && series[i] == byKey[key(series[i])]
    ensures forall i, j :: 0 <= i < j < |series| ==> Less(key(series[i]), key(series[j]))
  {
    forall i, j | 0 <= i < j < |series|
      ensures Less(key(series[i]), key(series[j]))
    {
      assert cmp(series[i], series[j]) <= 0;
    }
  }

  /**
   * The map's entries, listed once each and sorted by key: every listed entry is the
   * map's entry for its key, every key is listed, and the keys strictly ascend.
   */
  lemma SortedGroups<E(!new)>(byKey: map<string, E>, keys: seq<string>, cmp: (E, E) -> int, key: E -> string)
    requires KeyedBy(byKey, key) && OrdersBy(cmp, key)
    requires (forall k :: k in byKey <==> k in keys) && Distinct(keys)
    ensures var series := SortBy(Values(byKey, keys), cmp);
      && (forall i :: 0 <= i < |series| ==> key(series[i]) in byKey && series[i] == byKey[key(series[i])])
      && (forall k :: k in byKey <==> k in KeySeq(series, key))
      && (forall i, j :: 0 <= i < j < |series| ==> Less(key(series[i]), key(series[j])))
  {
    var values := Values(byKey, keys);
    var series := SortBy(values, cmp);
    ValuesDistinct(byKey, keys, key);
    PermutationKeepsDistinct(values, series);
    RearrangedEntries(byKey, keys, series, key);
    SortedByKey(values, cmp, key);
    StrictlyAscending(byKey, series, cmp, key);
  }

  /** When every entry holds the sum booked under its key, the entries add up to the per-key sums. */
  lemma {:induction false} SumOfByKey<E>(series: seq<E>, amount: E -> int, key: E -> string, ps: seq<Posting>)
    requires forall i :: 0 <= i < |series| ==> amount(series[i]) == SumAt(ps, key(series[i]))
    ensures SumOf(series, amount) == SumKeys(ps, KeySeq(series, key))
  {
    if series != [] {
      var front := series[..|series| - 1];
      assert KeySeq(series, key)[..|series| - 1] == KeySeq(front, key);
      SumOfByKey(front, amount, key, ps);
    }
  }

  /**
   * Entries with strictly ascending keys that cover every posting, each holding the sum
   * booked under its key, add up to the total of all postings.
   */
  lemma GroupedTotal<E>(series: seq<E>, amount: E -> int, key: E -> string, ps: seq<Posting>)
    requires forall i :: 0 <= i < |series| ==> amount(series[i]) == SumAt(ps, key(series[i]))
    requires forall i, j :: 0 <= i < j < |series| ==> Less(key(series[i]), key(series[j]))
    requires forall k :: k in KeysOf(ps) ==> k in KeySeq(series, key)
    ensures SumOf(series, amount) == Total(ps)
  {
    var keys := KeySeq(series, key);
    assert Distinct(keys) by {
      forall i, j | 0 <= i < j < |keys| ensures keys[i] != keys[j] {
        LessIrreflexive(keys[i]);
      }
    }
    forall i | 0 <= i < |ps| ensures ps[i].key in keys {
      assert ps[i].key in KeysOf(ps);
    }
    SumOfByKey(series, amount, key, ps);
    SumOverKeys(ps, keys);
  }
}
