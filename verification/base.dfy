/**
 * Shared vocabulary of the model: JavaScript's absent values, the truthiness tests
 * the code applies to optional strings, the order of JavaScript's `<` and `>` on
 * strings (taken character by character by code point), and enumeration of a keyed collection in some order.
 */
module Base {

  /** A field or value that may be absent. `None` stands for both `null` and `undefined`. */
  datatype Option<+T> = None | Some(value: T) {
    /** `x ?? d` */
    function GetOr(default: T): T {
      match this
      case Some(v) => v
      case None => default
    }
  }

  /** `s ? … : …` on an optional string: `undefined`, `null` and `""` are falsy. */
  predicate Truthy(s: Option<string>) {
    s.Some? && s.value != ""
  }

  /** `a || b` on optional strings. */
  function Or(a: Option<string>, b: Option<string>): Option<string> {
    if Truthy(a) then a else b
  }

  /** `m.get(k)` on a keyed collection. */
  function Lookup<K, V>(m: map<K, V>, k: K): Option<V> {
    if k in m then Some(m[k]) else None
  }

  /**
   * `a < b` on JavaScript strings, as the lexicographic order of characters by code
   * point. JavaScript compares UTF-16 code units; the two orders agree on keys and
   * timestamps made of characters below U+D800, which is all the code compares.
   */
  predicate Less(a: string, b: string)
    decreases |a|
  {
    0 < |b| && (|a| == 0 || a[0] < b[0] || (a[0] == b[0] && Less(a[1..], b[1..])))
  }

  lemma {:induction false} LessIrreflexive(a: string)
    ensures !Less(a, a)
    decreases |a|
  {
    if 0 < |a| {
      LessIrreflexive(a[1..]);
    }
  }

  lemma {:induction false} LessTransitive(a: string, b: string, c: string)
    requires Less(a, b) && Less(b, c)
    ensures Less(a, c)
    decreases |a|
  {
    if 0 < |a| && a[0] == b[0] && b[0] == c[0] {
      LessTransitive(a[1..], b[1..], c[1..]);
    }
  }

  /** Any two strings are equal or ordered one way round. */
  lemma {:induction false} LessTotal(a: string, b: string)
    ensures a == b || Less(a, b) || Less(b, a)
    decreases |a|
  {
    if 0 < |a| && 0 < |b| && a[0] == b[0] {
      LessTotal(a[1..], b[1..]);
      if a[1..] == b[1..] {
        assert a == [a[0]] + a[1..] && b == [b[0]] + b[1..];
      }
    }
  }

  lemma LessAsymmetric(a: string, b: string)
    requires Less(a, b)
    ensures !Less(b, a)
  {
    if Less(b, a) {
      LessTransitive(a, b, a);
      LessIrreflexive(a);
    }
  }

  /** `a.localeCompare(b)` on the ISO date strings the code compares: their code-unit order. */
  function Compare(a: string, b: string): (r: int)
    ensures r < 0 <==> Less(a, b)
    ensures r == 0 <==> a == b
    ensures r > 0 <==> Less(b, a)
  {
    LessTotal(a, b);
    if a == b then LessIrreflexive(a); 0
    else if Less(a, b) then LessAsymmetric(a, b); -1
    else 1
  }

  /** Distinct elements. */
  predicate Distinct<T(==)>(s: seq<T>) {
    forall i, j :: 0 <= i < j < |s| ==> s[i] != s[j]
  }

  /**
   * The keys of a keyed collection, each once, in an order the model leaves open
   * (an object store's `getAll`, a `Map`'s `values()`).
   */
  method Enumerate<V>(m: map<string, V>) returns (keys: seq<string>)
    ensures forall k :: k in m <==> k in keys
    ensures Distinct(keys)
  {
    keys := [];
    var rest := m.Keys;
    while rest != {}
      invariant rest <= m.Keys
      invariant forall k :: k in m ==> (k in rest <==> k !in keys)
      invariant forall k :: k in keys ==> k in m
      invariant Distinct(keys)
      decreases rest
    {
      var k :| k in rest;
      keys := keys + [k];
      rest := rest - {k};
    }
  }
}
