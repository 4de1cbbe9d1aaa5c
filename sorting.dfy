/**
 * Python's `list.sort` / `sorted`: a stable sort under a key comparison.
 * With `reverse=True` Python sorts as if every comparison were reversed and
 * still keeps equal elements in their original order, so a reversed sort is
 * the same stable sort under the flipped strict order.
 */
module Sorting {
  import opened Common

  /** `less` is a strict weak order: asymmetric, and "not less" is transitive. */
  ghost predicate StrictWeakOrder<T(!new)>(less: (T, T) -> bool) {
    && (forall a, b :: less(a, b) ==> !less(b, a))
    && (forall a, b, c :: !less(a, b) && !less(b, c) ==> !less(a, c))
  }

  /** No later element is strictly less than an earlier one. */
  ghost predicate SortedBy<T>(s: seq<T>, less: (T, T) -> bool) {
    forall i, j :: 0 <= i < j < |s| ==> !less(s[j], s[i])
  }

  /** Inserts `x` in front of the first element that is not strictly less than it. */
  function Insert<T>(x: T, s: seq<T>, less: (T, T) -> bool): seq<T> {
    if s == [] || !less(s[0], x) then [x] + s
    else [s[0]] + Insert(x, s[1..], less)
  }

  lemma {:induction false} InsertPermutes<T>(x: T, s: seq<T>, less: (T, T) -> bool)
    ensures |Insert(x, s, less)| == |s| + 1
    ensures multiset(Insert(x, s, less)) == multiset(s) + multiset{x}
  {
    if s != [] && less(s[0], x) {
      InsertPermutes(x, s[1..], less);
      assert s == [s[0]] + s[1..];
    }
  }

  /** Stable insertion sort. */
  function SortBy<T>(s: seq<T>, less: (T, T) -> bool): seq<T> {
    if s == [] then [] else Insert(s[0], SortBy(s[1..], less), less)
  }

  /** The sorted sequence is a permutation of the input. */
  lemma {:induction false} SortByPermutes<T>(s: seq<T>, less: (T, T) -> bool)
    ensures |SortBy(s, less)| == |s|
    ensures multiset(SortBy(s, less)) == multiset(s)
  {
    if s != [] {
      SortByPermutes(s[1..], less);
      InsertPermutes(s[0], SortBy(s[1..], less), less);
      assert s == [s[0]] + s[1..];
    }
  }

  lemma {:induction false} InsertSorted<T(!new)>(x: T, s: seq<T>, less: (T, T) -> bool)
    requires StrictWeakOrder(less)
    requires SortedBy(s, less)
    ensures SortedBy(Insert(x, s, less), less)
  {
    if s == [] || !less(s[0], x) {
      var r := [x] + s;
      forall i, j | 0 <= i < j < |r| ensures !less(r[j], r[i]) {
        if i == 0 {
          if j > 1 { assert !less(s[j - 1], s[0]); }
        }
      }
    } else {
      var tail := Insert(x, s[1..], less);
      InsertSorted(x, s[1..], less);
      InsertPermutes(x, s[1..], less);
      var r := [s[0]] + tail;
      assert multiset(tail) == multiset(s[1..]) + multiset{x};
      forall j | 0 <= j < |tail| ensures !less(tail[j], s[0]) {
        assert tail[j] in multiset(tail);
        if tail[j] != x {
          assert tail[j] in multiset(s[1..]);
          var k :| 0 <= k < |s[1..]| && s[1..][k] == tail[j];
          assert s[k + 1] == tail[j];
        }
      }
      assert forall j :: 0 < j < |r| ==> r[j] == tail[j - 1];
    }
  }

  lemma {:induction false} SortBySorted<T(!new)>(s: seq<T>, less: (T, T) -> bool)
    requires StrictWeakOrder(less)
    ensures SortedBy(SortBy(s, less), less)
  {
    if s != [] {
      SortBySorted(s[1..], less);
      InsertSorted(s[0], SortBy(s[1..], less), less);
    }
  }

  /** A sequence that is already sorted is left exactly as it is. */
  lemma {:induction false} SortBySortedIsIdentity<T(!new)>(s: seq<T>, less: (T, T) -> bool)
    requires SortedBy(s, less)
    ensures SortBy(s, less) == s
  {
    if s != [] {
      assert SortedBy(s[1..], less);
      SortBySortedIsIdentity(s[1..], less);
      if |s| > 1 { assert !less(s[1], s[0]); }
      assert [s[0]] + s[1..] == s;
    }
  }

  /** The elements that survive a filter keep their order among themselves. */
  function Filter<T(!new)>(s: seq<T>, keep: T -> bool): (r: seq<T>)
    ensures |r| <= |s|
    ensures forall x :: x in r <==> x in s && keep(x)
    ensures multiset(r) <= multiset(s)
  {
    if s == [] then []
    else
      assert s == [s[0]] + s[1..];
      if keep(s[0]) then [s[0]] + Filter(s[1..], keep)
      else Filter(s[1..], keep)
  }

  /** A filter that keeps everything is the identity. */
  lemma {:induction false} FilterKeepsAll<T(!new)>(s: seq<T>, keep: T -> bool)
    requires forall x :: x in s ==> keep(x)
    ensures Filter(s, keep) == s
  {
    if s != [] {
      assert forall x :: x in s[1..] ==> x in s;
      FilterKeepsAll(s[1..], keep);
    }
  }

  /**
   * Inserting `x` never moves it ahead of an element it is not less than:
   * among elements that are pairwise not less than each other, `x` lands
   * in front of all that were already there.
   */
  lemma {:induction false} InsertFilter<T(!new)>(x: T, s: seq<T>, less: (T, T) -> bool, same: T -> bool)
    requires forall a, b :: same(a) && same(b) ==> !less(a, b)
    ensures Filter(Insert(x, s, less), same) == if same(x) then [x] + Filter(s, same) else Filter(s, same)
  {
    if s == [] || !less(s[0], x) {
      var r := [x] + s;
      assert r[0] == x && r[1..] == s;
    } else {
      InsertFilter(x, s[1..], less, same);
      var r := [s[0]] + Insert(x, s[1..], less);
      assert r[0] == s[0] && r[1..] == Insert(x, s[1..], less);
      assert same(s[0]) ==> !same(x);
    }
  }

  /**
   * Stability: the sort keeps elements that are not less than each other
   * (equal keys, say) in their input order.
   */
  lemma {:induction false} SortByStable<T(!new)>(s: seq<T>, less: (T, T) -> bool, same: T -> bool)
    requires forall a, b :: same(a) && same(b) ==> !less(a, b)
    ensures Filter(SortBy(s, less), same) == Filter(s, same)
  {
    if s != [] {
      SortByStable(s[1..], less, same);
      InsertFilter(s[0], SortBy(s[1..], less), less, same);
    }
  }

  /** The sum of `f` over a sequence. */
  function SumBy<T>(s: seq<T>, f: T -> int): int {
    if s == [] then 0 else f(s[0]) + SumBy(s[1..], f)
  }

  lemma {:induction false} SumByAppend<T>(a: seq<T>, b: seq<T>, f: T -> int)
    ensures SumBy(a + b, f) == SumBy(a, f) + SumBy(b, f)
  {
    if a == [] {
      assert a + b == b;
    } else {
      assert (a + b)[1..] == a[1..] + b;
      SumByAppend(a[1..], b, f);
    }
  }

  /** A sum does not depend on the order of the elements. */
  lemma {:induction false} SumByPermutation<T>(a: seq<T>, b: seq<T>, f: T -> int)
    requires multiset(a) == multiset(b)
    ensures SumBy(a, f) == SumBy(b, f)
  {
    if a == [] {
      assert |b| == |multiset(b)| == 0;
    } else {
      var x := a[0];
      assert a == [x] + a[1..];
      assert x in multiset(b);
      var k :| 0 <= k < |b| && b[k] == x;
      var rest := b[..k] + b[k + 1..];
      assert b == b[..k] + [x] + b[k + 1..];
      assert multiset(b) == multiset(b[..k]) + multiset{x} + multiset(b[k + 1..]);
      assert multiset(rest) == multiset(b[..k]) + multiset(b[k + 1..]);
      assert multiset(a) == multiset{x} + multiset(a[1..]);
      assert multiset(a[1..]) == multiset(a) - multiset{x};
      assert multiset(rest) == multiset(b) - multiset{x};
      SumByPermutation(a[1..], rest, f);
      SumByAppend(b[..k] + [x], b[k + 1..], f);
      SumByAppend(b[..k], [x], f);
      SumByAppend(b[..k], b[k + 1..], f);
      assert SumBy([x], f) == f(x);
    }
  }

  /** The order of `sorted(key=key, reverse=reverse)` for an integer key. */
  function ByIntKey<T>(key: T -> int, reverse: bool): (T, T) -> bool {
    if reverse then (a: T, b: T) => key(b) < key(a) else (a: T, b: T) => key(a) < key(b)
  }

  lemma ByIntKeyOrder<T(!new)>(key: T -> int, reverse: bool)
    ensures StrictWeakOrder(ByIntKey(key, reverse))
  {
  }
  /** The order of `sorted(key=key, reverse=reverse)` for a string key, compared as Python compares strings. */
  function ByStringKey<T>(key: T -> string, reverse: bool): (T, T) -> bool {
    if reverse then (a: T, b: T) => LexLess(key(b), key(a)) else (a: T, b: T) => LexLess(key(a), key(b))
  }

  lemma ByStringKeyOrder<T(!new)>(key: T -> string, reverse: bool)
    ensures StrictWeakOrder(ByStringKey(key, reverse))
  {
    forall x: string, y: string | LexLess(x, y) ensures !LexLess(y, x) {
      LexLessAsymmetric(x, y);
    }
    forall x: string, y: string, z: string | !LexLess(x, y) && !LexLess(y, z) ensures !LexLess(x, z) {
      LexLessTotal(x, y);
      LexLessTotal(y, z);
      if x != y && y != z {
        LexLessTransitive(z, y, x);
      }
      if LexLess(x, z) {
        LexLessIrreflexive(x);
        if x != z { LexLessAsymmetric(x, z); }
      }
    }
  }

  /** The largest `f` over a sequence, and 0 for the empty one. */
  function MaxBy<T>(s: seq<T>, f: T -> int): int {
    if s == [] then 0 else Max(f(s[0]), MaxBy(s[1..], f))
  }

  /** The maximum bounds every element and, unless it is 0, is reached by one. */
  lemma {:induction false} MaxByBounds<T>(s: seq<T>, f: T -> int)
    ensures forall x :: x in s ==> f(x) <= MaxBy(s, f)
    ensures 0 <= MaxBy(s, f)
    ensures MaxBy(s, f) == 0 || exists x :: x in s && f(x) == MaxBy(s, f)
  {
    if s != [] {
      MaxByBounds(s[1..], f);
      assert forall x :: x in s ==> x == s[0] || x in s[1..];
    }
  }

  /** Like a sum, a maximum does not depend on the order of the elements. */
  lemma MaxByPermutation<T>(a: seq<T>, b: seq<T>, f: T -> int)
    requires multiset(a) == multiset(b)
    ensures MaxBy(a, f) == MaxBy(b, f)
  {
    MaxByBounds(a, f);
    MaxByBounds(b, f);
    forall x ensures x in a <==> x in b {
      assert x in a <==> x in multiset(a);
      assert x in b <==> x in multiset(b);
    }
  }

  /** Python's `reverse=` flag on a strict order: every comparison reversed. */
  function Directed<T>(less: (T, T) -> bool, reverse: bool): (T, T) -> bool {
    if reverse then (a: T, b: T) => less(b, a) else less
  }

  lemma DirectedOrder<T(!new)>(less: (T, T) -> bool, reverse: bool)
    requires StrictWeakOrder(less)
    ensures StrictWeakOrder(Directed(less, reverse))
  {
    if reverse {
      forall a, b, c | !Directed(less, reverse)(a, b) && !Directed(less, reverse)(b, c)
        ensures !Directed(less, reverse)(a, c)
      {
        assert !less(c, b) && !less(b, a);
      }
    }
  }

  /**
   * The order of a Python key tuple `(flag(x), ...)`: `False` sorts before
   * `True`, and elements with the same flag are compared by `less`.
   */
  function FlagThen<T>(flag: T -> bool, less: (T, T) -> bool): (T, T) -> bool {
    (a: T, b: T) => (!flag(a) && flag(b)) || (flag(a) == flag(b) && less(a, b))
  }

  lemma FlagThenOrder<T(!new)>(flag: T -> bool, less: (T, T) -> bool)
    requires StrictWeakOrder(less)
    ensures StrictWeakOrder(FlagThen(flag, less))
  {
  }

  lemma ByIntKeyApply<T>(key: T -> int, reverse: bool, a: T, b: T)
    ensures ByIntKey(key, reverse)(a, b) <==> if reverse then key(b) < key(a) else key(a) < key(b)
  {
  }

  lemma ByStringKeyApply<T>(key: T -> string, reverse: bool, a: T, b: T)
    ensures ByStringKey(key, reverse)(a, b) <==> if reverse then LexLess(key(b), key(a)) else LexLess(key(a), key(b))
  {
  }

  lemma DirectedApply<T>(less: (T, T) -> bool, reverse: bool, a: T, b: T)
    ensures Directed(less, reverse)(a, b) <==> if reverse then less(b, a) else less(a, b)
  {
  }

  lemma FlagThenApply<T>(flag: T -> bool, less: (T, T) -> bool, a: T, b: T)
    ensures FlagThen(flag, less)(a, b) <==> (!flag(a) && flag(b)) || (flag(a) == flag(b) && less(a, b))
  {
  }
}
