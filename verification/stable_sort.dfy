/**
 * Python's `list.sort(key=..., reverse=...)` and `sorted(...)`: a stable sort.
 * `lt(a, b)` says that key `a` must come strictly before key `b` (for
 * `reverse=True` on numbers this is `a > b`). Elements whose keys are not
 * ordered by `lt` keep the order they had in the input, which is what
 * Python documents for both directions.
 */
module StableSort {

  ghost predicate Irreflexive<K(!new)>(lt: (K, K) -> bool) {
    forall a :: !lt(a, a)
  }

  ghost predicate Transitive<K(!new)>(lt: (K, K) -> bool) {
    forall a, b, c :: lt(a, b) && lt(b, c) ==> lt(a, c)
  }

  /** `lt` is irreflexive and transitive. */
  ghost predicate StrictOrder<K(!new)>(lt: (K, K) -> bool) {
    Irreflexive(lt) && Transitive(lt)
  }

  /** `key=lambda x: x[1]` on pairs whose second component is a count or a score. */
  function SecondOf<T>(x: (T, nat)): nat { x.1 }

  /** `reverse=True` on numeric keys: a larger key comes first. */
  predicate Descending(a: nat, b: nat) { a > b }

  /** No element has a key that must come before the key of an earlier element. */
  ghost predicate SortedBy<T, K>(s: seq<T>, key: T -> K, lt: (K, K) -> bool) {
    forall i, j :: 0 <= i < j < |s| ==> !lt(key(s[j]), key(s[i]))
  }

  /** The elements of `s` whose key is `k`, in their order in `s`. */
  function WithKey<T, K(==)>(s: seq<T>, key: T -> K, k: K): (r: seq<T>)
    ensures |r| <= |s|
  {
    if s == [] then []
    else if key(s[0]) == k then [s[0]] + WithKey(s[1..], key, k)
    else WithKey(s[1..], key, k)
  }

  lemma {:induction false} WithKeyAppend<T, K>(a: seq<T>, b: seq<T>, key: T -> K, k: K)
    ensures WithKey(a + b, key, k) == WithKey(a, key, k) + WithKey(b, key, k)
  {
    if a == [] {
      assert a + b == b;
    } else {
      var ab := a + b;
      assert ab[0] == a[0] && ab[1..] == a[1..] + b;
      WithKeyAppend(a[1..], b, key, k);
      if key(a[0]) == k {
        calc {
          WithKey(ab, key, k);
          [a[0]] + WithKey(a[1..] + b, key, k);
          [a[0]] + (WithKey(a[1..], key, k) + WithKey(b, key, k));
          ([a[0]] + WithKey(a[1..], key, k)) + WithKey(b, key, k);
        }
      }
    }
  }

  /** Puts `x` after every element of `s` whose key `x` does not precede. */
  function Insert<T, K>(x: T, s: seq<T>, key: T -> K, lt: (K, K) -> bool): (r: seq<T>)
    ensures multiset(r) == multiset(s) + multiset{x}
  {
    if s == [] then [x]
    else if lt(key(x), key(s[0])) then [x] + s
    else
      assert s == [s[0]] + s[1..];
      [s[0]] + Insert(x, s[1..], key, lt)
  }

  /** The stable sort: each element, in input order, is inserted into the sorted prefix. */
  function SortBy<T, K>(s: seq<T>, key: T -> K, lt: (K, K) -> bool): (r: seq<T>)
    ensures multiset(r) == multiset(s)
  {
    if s == [] then []
    else
      assert s == s[..|s| - 1] + [s[|s| - 1]];
      Insert(s[|s| - 1], SortBy(s[..|s| - 1], key, lt), key, lt)
  }

  lemma {:induction false} InsertSorted<T, K(!new)>(x: T, s: seq<T>, key: T -> K, lt: (K, K) -> bool)
    requires StrictOrder(lt) && SortedBy(s, key, lt)
    ensures SortedBy(Insert(x, s, key, lt), key, lt)
  {
    if s != [] && !lt(key(x), key(s[0])) {
      var rest := Insert(x, s[1..], key, lt);
      InsertSorted(x, s[1..], key, lt);
      forall e | e in rest ensures !lt(key(e), key(s[0])) {
        assert e in multiset(rest);
      }
    }
  }

  /** The result of `SortBy` is ordered by `lt`. */
  lemma {:induction false} SortBySorted<T, K(!new)>(s: seq<T>, key: T -> K, lt: (K, K) -> bool)
    requires StrictOrder(lt)
    ensures SortedBy(SortBy(s, key, lt), key, lt)
  {
    if s != [] {
      SortBySorted(s[..|s| - 1], key, lt);
      InsertSorted(s[|s| - 1], SortBy(s[..|s| - 1], key, lt), key, lt);
    }
  }

  lemma {:induction false} InsertWithKey<T, K(!new)>(x: T, s: seq<T>, key: T -> K, lt: (K, K) -> bool, k: K)
    requires Irreflexive(lt) && SortedBy(s, key, lt)
    ensures WithKey(Insert(x, s, key, lt), key, k)
         == WithKey(s, key, k) + (if key(x) == k then [x] else [])
  {
    if s == [] {
    } else if lt(key(x), key(s[0])) {
      if key(x) == k {
        KeysAfterGreater(x, s, key, lt);
        WithKeyNone(s, key, k);
      }
    } else {
      var s' := s[1..];
      assert SortedBy(s', key, lt);
      InsertWithKey(x, s', key, lt, k);
      var ins := Insert(x, s', key, lt);
      assert Insert(x, s, key, lt) == [s[0]] + ins;
      assert s == [s[0]] + s';
      WithKeyAppend([s[0]], ins, key, k);
      WithKeyAppend([s[0]], s', key, k);
    }
  }

  /** In a sorted sequence headed by an element that `x` precedes, no key equals `x`'s. */
  lemma KeysAfterGreater<T, K(!new)>(x: T, s: seq<T>, key: T -> K, lt: (K, K) -> bool)
    requires Irreflexive(lt) && SortedBy(s, key, lt)
    requires s != [] && lt(key(x), key(s[0]))
    ensures forall i :: 0 <= i < |s| ==> key(s[i]) != key(x)
  {
    forall i | 0 <= i < |s| ensures key(s[i]) != key(x) {
      if i == 0 {
        assert !lt(key(x), key(x));
      } else {
        assert !lt(key(s[i]), key(s[0]));
      }
    }
  }

  lemma {:induction false} WithKeyNone<T, K>(s: seq<T>, key: T -> K, k: K)
    requires forall i :: 0 <= i < |s| ==> key(s[i]) != k
    ensures WithKey(s, key, k) == []
  {
    if s != [] {
      WithKeyNone(s[1..], key, k);
    }
  }

  lemma WithKeySnoc<T, K>(s: seq<T>, key: T -> K, k: K)
    requires s != []
    ensures WithKey(s, key, k)
         == WithKey(s[..|s| - 1], key, k) + (if key(s[|s| - 1]) == k then [s[|s| - 1]] else [])
  {
    var init, last := s[..|s| - 1], s[|s| - 1];
    assert s == init + [last];
    WithKeyAppend(init, [last], key, k);
    assert [last][1..] == [];
  }

  /** Stability: for every key, the elements with that key keep their input order. */
  lemma {:induction false} SortByStable<T, K(!new)>(s: seq<T>, key: T -> K, lt: (K, K) -> bool, k: K)
    requires StrictOrder(lt)
    ensures WithKey(SortBy(s, key, lt), key, k) == WithKey(s, key, k)
  {
    if s != [] {
      var init, last := s[..|s| - 1], s[|s| - 1];
      SortByStable(init, key, lt, k);
      SortBySorted(init, key, lt);
      InsertWithKey(last, SortBy(init, key, lt), key, lt, k);
      WithKeySnoc(s, key, k);
    }
  }
}
