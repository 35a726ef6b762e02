/** `Array.prototype.filter` and the sequence facts the other modules share. */
module Seqs {

  /** `s.filter(p)`: the elements satisfying `p`, in order. */
  function Filter<T(!new)>(s: seq<T>, p: T -> bool): (r: seq<T>)
    ensures |r| <= |s|
    ensures forall i :: 0 <= i < |r| ==> p(r[i])
    decreases |s|
  {
    if s == [] then [] else (if p(s[0]) then [s[0]] else []) + Filter(s[1..], p)
  }

  /** `Filter` keeps every element satisfying `p` as often as it occurs, and
      nothing else. */
  lemma {:induction false} FilterMultiset<T(!new)>(s: seq<T>, p: T -> bool, x: T)
    ensures multiset(Filter(s, p))[x] == if p(x) then multiset(s)[x] else 0
    decreases |s|
  {
    if s != [] {
      FilterMultiset(s[1..], p, x);
      assert s == [s[0]] + s[1..];
    }
  }

  /** The filter callback `x => key(x) !== id`. */
  function KeyIsNot<T>(key: T -> string, id: string): T -> bool {
    (x: T) => key(x) != id
  }

  /** Removing by key, as the stores' remove actions do: every element whose
      key is `id` is gone, and every other element stays as often as it
      occurred. */
  lemma RemoveKeyExactly<T(!new)>(s: seq<T>, key: T -> string, id: string, x: T)
    ensures multiset(Filter(s, KeyIsNot(key, id)))[x] == if key(x) == id then 0 else multiset(s)[x]
  {
    FilterMultiset(s, KeyIsNot(key, id), x);
  }

  lemma {:induction false} FilterAppend<T(!new)>(a: seq<T>, b: seq<T>, p: T -> bool)
    ensures Filter(a + b, p) == Filter(a, p) + Filter(b, p)
    decreases |a|
  {
    if a == [] {
      assert a + b == b;
    } else {
      assert (a + b)[1..] == a[1..] + b;
      FilterAppend(a[1..], b, p);
    }
  }

  /** `f(0), ..., f(n - 1)`, in order. */
  function Tabulate<T>(n: nat, f: nat --> T): (r: seq<T>)
    requires forall k :: 0 <= k < n ==> f.requires(k)
    ensures |r| == n
  {
    if n == 0 then [] else Tabulate(n - 1, f) + [f(n - 1)]
  }

  /** The `k`-th element of `Tabulate(n, f)` is `f(k)`. */
  lemma {:induction false} TabulateAt<T>(n: nat, f: nat --> T, k: nat)
    requires forall j :: 0 <= j < n ==> f.requires(j)
    requires k < n
    ensures Tabulate(n, f)[k] == f(k)
  {
    if k < n - 1 {
      TabulateAt(n - 1, f, k);
    }
  }

  /** Filtering a prefix gives a prefix of the filtered sequence. */
  lemma FilterPrefix<T(!new)>(s: seq<T>, n: nat, p: T -> bool)
    requires n <= |s|
    ensures |Filter(s[..n], p)| <= |Filter(s, p)| && Filter(s[..n], p) == Filter(s, p)[..|Filter(s[..n], p)|]
  {
    assert s == s[..n] + s[n..];
    FilterAppend(s[..n], s[n..], p);
  }

  /** Filtering with a predicate every element satisfies changes nothing. */
  lemma {:induction false} FilterAll<T(!new)>(s: seq<T>, p: T -> bool)
    requires forall i :: 0 <= i < |s| ==> p(s[i])
    ensures Filter(s, p) == s
    decreases |s|
  {
    if s != [] {
      FilterAll(s[1..], p);
    }
  }

  /** Filtering with a predicate no element satisfies leaves nothing. */
  lemma {:induction false} FilterNone<T(!new)>(s: seq<T>, p: T -> bool)
    requires forall i :: 0 <= i < |s| ==> !p(s[i])
    ensures Filter(s, p) == []
    decreases |s|
  {
    if s != [] {
      FilterNone(s[1..], p);
    }
  }

  /** `x` does not occur in `s` at all. */
  predicate Absent<T(==)>(s: seq<T>, x: T) {
    forall i :: 0 <= i < |s| ==> s[i] != x
  }

  /** No element occurs twice. */
  predicate Distinct<T(==)>(s: seq<T>) {
    forall i, j :: 0 <= i < j < |s| ==> s[i] != s[j]
  }

  lemma {:induction false} DistinctCount<T>(s: seq<T>, x: T)
    requires Distinct(s)
    ensures multiset(s)[x] <= 1
    decreases |s|
  {
    if s != [] {
      DistinctCount(s[1..], x);
      assert s == [s[0]] + s[1..];
      if s[0] == x {
        assert x !in s[1..];
      }
    }
  }

  /** A rearrangement of a duplicate-free sequence is duplicate-free. */
  lemma DistinctPermutation<T>(a: seq<T>, b: seq<T>)
    requires multiset(a) == multiset(b) && Distinct(a)
    ensures Distinct(b)
  {
    forall i, j | 0 <= i < j < |b| ensures b[i] != b[j] {
      if b[i] == b[j] {
        assert b == b[..j] + [b[j]] + b[j + 1..];
        assert b[i] in b[..j];
        assert multiset(b)[b[j]] >= 2;
        DistinctCount(a, b[j]);
      }
    }
  }

  /** Appending an element not yet present keeps a sequence duplicate-free. */
  lemma DistinctSnoc<T>(s: seq<T>, x: T)
    requires Distinct(s) && x !in s
    ensures Distinct(s + [x])
  {
  }

  /** `s.findIndex(p)`: the position of the first element satisfying `p`,
      or -1 when there is none. */
  function FirstWhere<T>(s: seq<T>, p: T -> bool): (r: int)
    ensures r == -1 <==> forall i :: 0 <= i < |s| ==> !p(s[i])
    ensures r != -1 ==> 0 <= r < |s| && p(s[r]) && forall j :: 0 <= j < r ==> !p(s[j])
    decreases |s|
  {
    if s == [] then -1
    else if p(s[0]) then 0
    else
      var r := FirstWhere(s[1..], p);
      if r == -1 then -1 else r + 1
  }

  /** `s.map(x => sel(x) ? f(x) : x)`: `f` applied to the selected elements
      only. */
  function MapWhere<T>(s: seq<T>, sel: T -> bool, f: T -> T): (r: seq<T>)
    ensures |r| == |s|
    ensures forall i :: 0 <= i < |s| ==> r[i] == if sel(s[i]) then f(s[i]) else s[i]
    decreases |s|
  {
    if s == [] then [] else [if sel(s[0]) then f(s[0]) else s[0]] + MapWhere(s[1..], sel, f)
  }

  /** When nothing is selected nothing changes. */
  lemma MapWhereNoMatch<T>(s: seq<T>, sel: T -> bool, f: T -> T)
    requires forall i :: 0 <= i < |s| ==> !sel(s[i])
    ensures MapWhere(s, sel, f) == s
  {
  }

  /** Applying the same update twice is applying it once, when `f` is
      idempotent on the elements it leaves selected. */
  lemma MapWhereIdempotent<T(!new)>(s: seq<T>, sel: T -> bool, f: T -> T)
    requires forall x :: sel(x) && sel(f(x)) ==> f(f(x)) == f(x)
    ensures MapWhere(MapWhere(s, sel, f), sel, f) == MapWhere(s, sel, f)
  {
    var once := MapWhere(s, sel, f);
    forall i | 0 <= i < |s| ensures MapWhere(once, sel, f)[i] == once[i] {
      if sel(s[i]) && sel(f(s[i])) {
        assert f(f(s[i])) == f(s[i]);
      }
    }
  }
}
