/** `Array.prototype.sort` with a consistent comparator. ECMAScript 2019
    (section 23.1.3.30 of ECMA-262) requires the sort to be stable, so its
    result is determined: it is the stable insertion sort below, where
    `lt(a, b)` means that the comparator puts `a` strictly before `b`. */
module Sorting {
  import opened Seqs
  import opened Text

  /** A comparator that is consistent in the sense of ECMA-262: irreflexive,
      transitive, and with transitive incomparability. */
  ghost predicate StrictWeakOrder<T(!new)>(lt: (T, T) -> bool) {
    && (forall a :: !lt(a, a))
    && (forall a, b, c :: lt(a, b) && lt(b, c) ==> lt(a, c))
    && (forall a, b, c :: !lt(a, b) && !lt(b, c) ==> !lt(a, c))
  }

  /** No element is put strictly before an element to its left. */
  ghost predicate SortedBy<T(!new)>(s: seq<T>, lt: (T, T) -> bool) {
    forall i, j :: 0 <= i < j < |s| ==> !lt(s[j], s[i])
  }

  /** `x` and `y` compare equal. */
  function EquivTo<T(!new)>(lt: (T, T) -> bool, x: T): T -> bool {
    y => !lt(x, y) && !lt(y, x)
  }

  /** Places `x` in front of the first element it need not follow. */
  function Insert<T(!new)>(x: T, t: seq<T>, lt: (T, T) -> bool): (r: seq<T>)
    ensures |r| == |t| + 1
    ensures multiset(r) == multiset(t) + multiset{x}
    decreases |t|
  {
    if t == [] || !lt(t[0], x) then [x] + t
    else
      assert t == [t[0]] + t[1..];
      [t[0]] + Insert(x, t[1..], lt)
  }

  /** The stable sort of `s`. */
  function SortWith<T(!new)>(s: seq<T>, lt: (T, T) -> bool): (r: seq<T>)
    ensures |r| == |s|
    ensures multiset(r) == multiset(s)
    decreases |s|
  {
    if s == [] then []
    else
      assert s == [s[0]] + s[1..];
      Insert(s[0], SortWith(s[1..], lt), lt)
  }

  lemma {:induction false} InsertSorted<T(!new)>(x: T, t: seq<T>, lt: (T, T) -> bool)
    requires StrictWeakOrder(lt) && SortedBy(t, lt)
    ensures SortedBy(Insert(x, t, lt), lt)
    decreases |t|
  {
    if t == [] || !lt(t[0], x) {
      forall j | 0 <= j < |t| ensures !lt(t[j], x) {
        if j > 0 {
          assert !lt(t[j], t[0]);
        }
      }
    } else {
      var t' := t[1..];
      InsertSorted(x, t', lt);
      var r' := Insert(x, t', lt);
      forall j | 0 <= j < |r'| ensures !lt(r'[j], t[0]) {
        assert r'[j] in multiset(r');
        if r'[j] == x {
          assert !lt(x, t[0]);
        } else {
          assert r'[j] in multiset(t');
          var k :| 0 <= k < |t'| && t'[k] == r'[j];
          assert t[k + 1] == r'[j];
        }
      }
    }
  }

  /** The result is ordered by `lt`. */
  lemma {:induction false} SortWithSorted<T(!new)>(s: seq<T>, lt: (T, T) -> bool)
    requires StrictWeakOrder(lt)
    ensures SortedBy(SortWith(s, lt), lt)
    decreases |s|
  {
    if s != [] {
      SortWithSorted(s[1..], lt);
      InsertSorted(s[0], SortWith(s[1..], lt), lt);
    }
  }

  /** An input that is already ordered comes back unchanged. */
  lemma {:induction false} SortWithOfSorted<T(!new)>(s: seq<T>, lt: (T, T) -> bool)
    requires SortedBy(s, lt)
    ensures SortWith(s, lt) == s
    decreases |s|
  {
    if s != [] {
      assert SortedBy(s[1..], lt) by {
        forall i, j | 0 <= i < j < |s[1..]| ensures !lt(s[1..][j], s[1..][i]) {
          assert s[1..][j] == s[j + 1] && s[1..][i] == s[i + 1];
        }
      }
      SortWithOfSorted(s[1..], lt);
      if |s| > 1 {
        assert !lt(s[1], s[0]);
      }
      assert s == [s[0]] + s[1..];
    }
  }

  /** Sorting twice gives the same result as sorting once. */
  lemma SortWithIdempotent<T(!new)>(s: seq<T>, lt: (T, T) -> bool)
    requires StrictWeakOrder(lt)
    ensures SortWith(SortWith(s, lt), lt) == SortWith(s, lt)
  {
    SortWithSorted(s, lt);
    SortWithOfSorted(SortWith(s, lt), lt);
  }

  lemma {:induction false} InsertStable<T(!new)>(x0: T, t: seq<T>, lt: (T, T) -> bool, x: T)
    requires StrictWeakOrder(lt)
    ensures Filter(Insert(x0, t, lt), EquivTo(lt, x)) == Filter([x0] + t, EquivTo(lt, x))
    decreases |t|
  {
    var p := EquivTo(lt, x);
    if t != [] && lt(t[0], x0) {
      var t' := t[1..];
      InsertStable(x0, t', lt, x);
      assert t == [t[0]] + t';
      FilterAppend([t[0]], Insert(x0, t', lt), p);
      FilterAppend([x0], t', p);
      FilterAppend([t[0]], t', p);
      FilterAppend([x0], t, p);
      var a, b, c := Filter([t[0]], p), Filter([x0], p), Filter(t', p);
      assert a == [] || b == [] by {
        assert !(p(t[0]) && p(x0));
      }
      assert a + b == b + a;
      SwapFront(a, b, c);
    }
  }

  lemma SwapFront<T>(a: seq<T>, b: seq<T>, c: seq<T>)
    requires a + b == b + a
    ensures a + (b + c) == b + (a + c)
  {
    assert a + (b + c) == (a + b) + c;
    assert b + (a + c) == (b + a) + c;
  }

  /** Stability: the elements that compare equal to any given `x` keep
      their relative input order. */
  lemma {:induction false} SortWithStable<T(!new)>(s: seq<T>, lt: (T, T) -> bool, x: T)
    requires StrictWeakOrder(lt)
    ensures Filter(SortWith(s, lt), EquivTo(lt, x)) == Filter(s, EquivTo(lt, x))
    decreases |s|
  {
    if s != [] {
      var p := EquivTo(lt, x);
      SortWithStable(s[1..], lt, x);
      InsertStable(s[0], SortWith(s[1..], lt), lt, x);
      FilterAppend([s[0]], SortWith(s[1..], lt), p);
      FilterAppend([s[0]], s[1..], p);
      assert s == [s[0]] + s[1..];
    }
  }

  /** JavaScript's default string order is a consistent comparator. */
  lemma StrLessOrder()
    ensures StrictWeakOrder(StrLess)
  {
    forall a ensures !StrLess(a, a) {
      StrCmpZero(a, a);
    }
    forall a, b, c | StrLess(a, b) && StrLess(b, c) ensures StrLess(a, c) {
      StrCmpTransitive(a, b, c);
    }
    forall a, b, c | !StrLess(a, b) && !StrLess(b, c) ensures !StrLess(a, c) {
      StrCmpAntisymmetric(a, b);
      StrCmpAntisymmetric(b, c);
      StrCmpAntisymmetric(a, c);
      if StrCmp(a, b) > 0 && StrCmp(b, c) > 0 {
        StrCmpTransitive(c, b, a);
      } else if StrCmp(a, b) == 0 {
        StrCmpZero(a, b);
      } else {
        StrCmpZero(b, c);
      }
    }
  }

  /** Sorting the distinct elements of `s` with the default string order:
      the result is ordered, duplicate-free and holds the same strings. */
  lemma SortedNames(s: seq<string>)
    requires Distinct(s)
    ensures var r := SortWith(s, StrLess);
      SortedBy(r, StrLess) && Distinct(r) && forall x :: x in r <==> x in s
  {
    var r := SortWith(s, StrLess);
    StrLessOrder();
    SortWithSorted(s, StrLess);
    DistinctPermutation(s, r);
    forall x ensures x in r <==> x in s {
      assert x in multiset(r) <==> x in multiset(s);
    }
  }

  // ---------------------------------------------------------------------
  // Comparators that return a number, as `compareFn` does

  /** A comparator whose sign orders consistently: swapping the arguments
      negates it, and "not after" is transitive. */
  ghost predicate Consistent<T(!new)>(cmp: (T, T) -> int) {
    && (forall a, b :: cmp(a, b) == -cmp(b, a))
    && (forall a, b, c :: cmp(a, b) <= 0 && cmp(b, c) <= 0 ==> cmp(a, c) <= 0)
  }

  /** `a` sorts strictly before `b` under the comparator. */
  function LessBy<T>(cmp: (T, T) -> int): (T, T) -> bool {
    (a, b) => cmp(a, b) < 0
  }

  /** `cmp1(a, b) || cmp2(a, b)`: the second comparator breaks the ties of
      the first. */
  function Then<T>(cmp1: (T, T) -> int, cmp2: (T, T) -> int): (T, T) -> int {
    (a, b) => if cmp1(a, b) != 0 then cmp1(a, b) else cmp2(a, b)
  }

  /** Comparing by a key. */
  function On<T, K>(cmp: (K, K) -> int, key: T -> K): (T, T) -> int {
    (a, b) => cmp(key(a), key(b))
  }

  /** `dir * cmp(a, b)`. */
  function Scaled<T>(dir: int, cmp: (T, T) -> int): (T, T) -> int {
    (a, b) => dir * cmp(a, b)
  }

  /** A consistent comparator sorts by a strict weak order. */
  lemma ConsistentOrder<T(!new)>(cmp: (T, T) -> int)
    requires Consistent(cmp)
    ensures StrictWeakOrder(LessBy(cmp))
  {
    var lt := LessBy(cmp);
    forall a, b, c | lt(a, b) && lt(b, c) ensures lt(a, c) {
      assert cmp(a, c) <= 0;
      assert cmp(c, a) <= 0 ==> cmp(c, b) <= 0;
    }
    forall a, b, c | !lt(a, b) && !lt(b, c) ensures !lt(a, c) {
      assert cmp(b, a) <= 0 && cmp(c, b) <= 0;
    }
  }

  /** Breaking ties with a consistent comparator keeps a comparator
      consistent. */
  lemma ThenConsistent<T(!new)>(cmp1: (T, T) -> int, cmp2: (T, T) -> int)
    requires Consistent(cmp1) && Consistent(cmp2)
    ensures Consistent(Then(cmp1, cmp2))
  {
    var t := Then(cmp1, cmp2);
    forall a, b, c | t(a, b) <= 0 && t(b, c) <= 0 ensures t(a, c) <= 0 {
      assert cmp1(a, b) <= 0 && cmp1(b, c) <= 0;
      assert cmp1(a, c) <= 0;
      if cmp1(a, c) == 0 {
        assert cmp1(c, a) <= 0;
        assert cmp1(c, b) <= 0 && cmp1(b, a) <= 0;
        assert cmp2(a, b) <= 0 && cmp2(b, c) <= 0;
      }
    }
  }

  /** Comparing by a key with a consistent comparator is consistent. */
  lemma OnConsistent<T(!new), K(!new)>(cmp: (K, K) -> int, key: T -> K)
    requires Consistent(cmp)
    ensures Consistent(On(cmp, key))
  {
    var o := On(cmp, key);
    forall a, b, c | o(a, b) <= 0 && o(b, c) <= 0 ensures o(a, c) <= 0 {
      assert cmp(key(a), key(b)) <= 0 && cmp(key(b), key(c)) <= 0;
    }
  }

  /** Reversing a consistent comparator keeps it consistent. */
  lemma ScaledConsistent<T(!new)>(dir: int, cmp: (T, T) -> int)
    requires Consistent(cmp) && (dir == 1 || dir == -1)
    ensures Consistent(Scaled(dir, cmp))
  {
    var d := Scaled(dir, cmp);
    forall a, b, c | d(a, b) <= 0 && d(b, c) <= 0 ensures d(a, c) <= 0 {
      if dir == -1 {
        assert cmp(c, b) <= 0 && cmp(b, a) <= 0;
        assert cmp(c, a) <= 0;
      } else {
        assert cmp(a, b) <= 0 && cmp(b, c) <= 0;
      }
    }
  }

  /** JavaScript's string order, as a number, is consistent. */
  lemma StrCmpConsistent()
    ensures Consistent(StrCmp)
  {
    forall a, b ensures StrCmp(a, b) == -StrCmp(b, a) {
      StrCmpAntisymmetric(a, b);
    }
    forall a, b, c | StrCmp(a, b) <= 0 && StrCmp(b, c) <= 0 ensures StrCmp(a, c) <= 0 {
      StrCmpZero(a, b);
      StrCmpZero(b, c);
      if StrCmp(a, b) < 0 && StrCmp(b, c) < 0 {
        StrCmpTransitive(a, b, c);
      }
    }
  }
}
