/**
 * Python's `list.sort` is a stable sort.  The renderer sorts two lists with
 * it: the tag insertions of an annotated text (by descending line and column)
 * and the matches of a cross-reference bin (by file name, then line number).
 * Both are modelled by one insertion sort on a key, with its three
 * promises proved once: the result is a permutation of the input, it is
 * ordered by the key, and elements with equal keys keep their input order.
 */
module Sorting {

  /** `less` is a strict total order on keys. */
  ghost predicate StrictTotalOrder<K(!new)>(less: (K, K) -> bool)
  {
    && (forall a :: !less(a, a))
    && (forall a, b, c :: less(a, b) && less(b, c) ==> less(a, c))
    && (forall a, b :: a != b ==> less(a, b) || less(b, a))
  }

  /** No element has a key strictly below the key of an element before it. */
  ghost predicate SortedBy<T, K>(s: seq<T>, key: T -> K, less: (K, K) -> bool)
  {
    forall i, j :: 0 <= i < j < |s| ==> !less(key(s[j]), key(s[i]))
  }

  /** The elements of `s` whose key is `k`, in their order in `s`. */
  function WithKey<T, K(==)>(s: seq<T>, key: T -> K, k: K): (r: seq<T>)
    ensures forall x :: x in r ==> x in s && key(x) == k
    decreases |s|
  {
    if s == [] then []
    else (if key(s[0]) == k then [s[0]] else []) + WithKey(s[1..], key, k)
  }

  /** Puts `x` in front of the first element whose key is not below its own. */
  function Insert<T, K>(x: T, s: seq<T>, key: T -> K, less: (K, K) -> bool): (r: seq<T>)
    ensures |r| == |s| + 1
    ensures multiset(r) == multiset(s) + multiset{x}
    decreases |s|
  {
    if s == [] || !less(key(s[0]), key(x)) then [x] + s
    else
      assert s == [s[0]] + s[1..];
      [s[0]] + Insert(x, s[1..], key, less)
  }

  /** Insertion sort; each element goes in front of the equal keys of later elements. */
  function Sort<T, K>(s: seq<T>, key: T -> K, less: (K, K) -> bool): (r: seq<T>)
    ensures |r| == |s|
    ensures multiset(r) == multiset(s)
    decreases |s|
  {
    if s == [] then []
    else
      assert s == [s[0]] + s[1..];
      Insert(s[0], Sort(s[1..], key, less), key, less)
  }

  /** "Not below" is transitive for a strict total order. */
  lemma {:induction false} NotLessTransitive<K(!new)>(less: (K, K) -> bool, a: K, b: K, c: K)
    requires StrictTotalOrder(less)
    requires !less(b, a) && !less(c, b)
    ensures !less(c, a)
  {
    if a != b && b != c {
      assert less(a, b) && less(b, c);
    }
  }

  lemma {:induction false} InsertSorted<T, K(!new)>(x: T, s: seq<T>, key: T -> K, less: (K, K) -> bool)
    requires StrictTotalOrder(less)
    requires SortedBy(s, key, less)
    ensures SortedBy(Insert(x, s, key, less), key, less)
    decreases |s|
  {
    if s != [] && less(key(s[0]), key(x)) {
      var tail := s[1..];
      assert SortedBy(tail, key, less) by {
        forall i, j | 0 <= i < j < |tail| ensures !less(key(tail[j]), key(tail[i])) {
          assert tail[i] == s[i + 1] && tail[j] == s[j + 1];
        }
      }
      InsertSorted(x, tail, key, less);
      var ins := Insert(x, tail, key, less);
      var r := [s[0]] + ins;
      forall i, j | 0 <= i < j < |r| ensures !less(key(r[j]), key(r[i])) {
        if i == 0 {
          var y := r[j];
          assert y in multiset(ins);
          if y == x {
            assert !less(key(x), key(s[0]));
          } else {
            assert y in multiset(tail);
            var m :| 0 <= m < |tail| && tail[m] == y;
            assert s[m + 1] == y;
          }
        } else {
          assert r[i] == ins[i - 1] && r[j] == ins[j - 1];
        }
      }
    } else {
      var r := [x] + s;
      forall i, j | 0 <= i < j < |r| ensures !less(key(r[j]), key(r[i])) {
        if i == 0 {
          assert r[j] == s[j - 1];
          assert !less(key(s[j - 1]), key(s[0])) by {
            if j - 1 > 0 {
              assert !less(key(s[j - 1]), key(s[0]));
            }
          }
          NotLessTransitive(less, key(x), key(s[0]), key(s[j - 1]));
        } else {
          assert r[i] == s[i - 1] && r[j] == s[j - 1];
        }
      }
    }
  }

  /** The sort orders its result by the key. */
  lemma {:induction false} SortSorted<T, K(!new)>(s: seq<T>, key: T -> K, less: (K, K) -> bool)
    requires StrictTotalOrder(less)
    ensures SortedBy(Sort(s, key, less), key, less)
    decreases |s|
  {
    if s != [] {
      SortSorted(s[1..], key, less);
      InsertSorted(s[0], Sort(s[1..], key, less), key, less);
    }
  }

  lemma {:induction false} InsertWithKey<T, K(!new)>(x: T, s: seq<T>, key: T -> K, less: (K, K) -> bool, k: K)
    requires forall a :: !less(a, a)
    ensures WithKey(Insert(x, s, key, less), key, k)
         == (if key(x) == k then [x] else []) + WithKey(s, key, k)
    decreases |s|
  {
    if s == [] || !less(key(s[0]), key(x)) {
      var r := [x] + s;
      assert r[0] == x && r[1..] == s;
      assert WithKey(r, key, k) == (if key(x) == k then [x] else []) + WithKey(s, key, k);
    } else {
      InsertWithKey(x, s[1..], key, less, k);
      InsertWithKeyStep(x, s, key, less, k);
    }
  }

  /** Inserting past the first element, given the property for the rest. */
  lemma {:induction false} InsertWithKeyStep<T, K(!new)>(x: T, s: seq<T>, key: T -> K, less: (K, K) -> bool, k: K)
    requires forall a :: !less(a, a)
    requires s != [] && less(key(s[0]), key(x))
    requires WithKey(Insert(x, s[1..], key, less), key, k)
          == (if key(x) == k then [x] else []) + WithKey(s[1..], key, k)
    ensures WithKey(Insert(x, s, key, less), key, k)
         == (if key(x) == k then [x] else []) + WithKey(s, key, k)
  {
    var head := if key(x) == k then [x] else [];
    var tail := Insert(x, s[1..], key, less);
    var r := [s[0]] + tail;
    assert Insert(x, s, key, less) == r;
    assert r[0] == s[0] && r[1..] == tail;
    var first := if key(s[0]) == k then [s[0]] else [];
    assert WithKey(r, key, k) == first + WithKey(tail, key, k);
    assert WithKey(s, key, k) == first + WithKey(s[1..], key, k);
    if key(x) == k {
      assert key(s[0]) != k;
      assert first == [];
      assert WithKey(r, key, k) == WithKey(tail, key, k);
      assert WithKey(s, key, k) == WithKey(s[1..], key, k);
    } else {
      assert head == [];
      assert WithKey(tail, key, k) == WithKey(s[1..], key, k);
      assert WithKey(r, key, k) == WithKey(s, key, k);
    }
  }

  /** Stability: the elements with any one key keep their relative order. */
  lemma {:induction false} SortStable<T, K(!new)>(s: seq<T>, key: T -> K, less: (K, K) -> bool, k: K)
    requires forall a :: !less(a, a)
    ensures WithKey(Sort(s, key, less), key, k) == WithKey(s, key, k)
    decreases |s|
  {
    if s != [] {
      SortStable(s[1..], key, less, k);
      InsertWithKey(s[0], Sort(s[1..], key, less), key, less, k);
    }
  }
}
