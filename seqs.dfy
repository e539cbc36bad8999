/**
 * `Array.prototype.filter` and Python's `sorted` on strings, with the facts the
 * rest of the model uses about them.
 */
module Seqs {

  /** `s.filter(p)`: the elements satisfying `p`, each as often as in `s`, in their order in `s`. */
  function Filter<T(!new)>(s: seq<T>, p: T -> bool): (r: seq<T>)
    ensures |r| <= |s|
    ensures forall x :: x in r <==> x in s && p(x)
    ensures forall i :: 0 <= i < |r| ==> p(r[i])
  {
    if s == [] then []
    else if p(s[0]) then [s[0]] + Filter(s[1..], p)
    else Filter(s[1..], p)
  }

  /** Filtering keeps the order: it distributes over concatenation. */
  lemma {:induction false} FilterConcat<T(!new)>(a: seq<T>, b: seq<T>, p: T -> bool)
    ensures Filter(a + b, p) == Filter(a, p) + Filter(b, p)
  {
    if a == [] {
      assert a + b == b;
    } else {
      assert (a + b)[1..] == a[1..] + b;
      FilterConcat(a[1..], b, p);
    }
  }

  /** One more element at the end is kept after the others exactly when it passes. */
  lemma FilterSnoc<T(!new)>(s: seq<T>, x: T, p: T -> bool)
    ensures p(x) ==> Filter(s + [x], p) == Filter(s, p) + [x]
    ensures !p(x) ==> Filter(s + [x], p) == Filter(s, p)
  {
    FilterConcat(s, [x], p);
    assert [x][1..] == [];
    if !p(x) {
      assert Filter(s, p) + [] == Filter(s, p);
    }
  }

  /** An element that fails the test can be inserted anywhere without changing the filter. */
  lemma FilterSkip<T(!new)>(a: seq<T>, x: T, b: seq<T>, p: T -> bool)
    requires !p(x)
    ensures Filter(a + [x] + b, p) == Filter(a + b, p)
  {
    FilterConcat(a + [x], b, p);
    FilterSnoc(a, x, p);
    FilterConcat(a, b, p);
  }

  /** Filtering never duplicates: every kept element occurs exactly as often as in the input. */
  lemma {:induction false} FilterCount<T(!new)>(s: seq<T>, p: T -> bool, x: T)
    ensures multiset(Filter(s, p))[x] == if p(x) then multiset(s)[x] else 0
  {
    if s != [] {
      FilterCount(s[1..], p, x);
      assert multiset(s) == multiset{s[0]} + multiset(s[1..]) by {
        assert s == [s[0]] + s[1..];
      }
      if p(s[0]) {
        var rest := Filter(s[1..], p);
        assert multiset(Filter(s, p)) == multiset{s[0]} + multiset(rest) by {
          assert Filter(s, p) == [s[0]] + rest;
        }
      }
    }
  }

  /** Two successive filters are one filter by the conjunction. */
  lemma {:induction false} FilterFilter<T(!new)>(s: seq<T>, p: T -> bool, q: T -> bool)
    ensures Filter(Filter(s, p), q) == Filter(s, x => p(x) && q(x))
  {
    var pq := x => p(x) && q(x);
    if s != [] {
      var head := if p(s[0]) then [s[0]] else [];
      FilterConcat(head, Filter(s[1..], p), q);
      FilterFilter(s[1..], p, q);
      assert Filter(head, q) == if pq(s[0]) then [s[0]] else [];
    }
  }

  /** A filter and its opposite split the input: together they hold each element as often as it. */
  lemma {:induction false} FilterPartition<T(!new)>(s: seq<T>, p: T -> bool, q: T -> bool)
    requires forall x :: q(x) == !p(x)
    ensures |Filter(s, p)| + |Filter(s, q)| == |s|
    ensures multiset(Filter(s, p)) + multiset(Filter(s, q)) == multiset(s)
  {
    if s != [] {
      FilterPartition(s[1..], p, q);
      assert s == [s[0]] + s[1..];
    }
  }

  /** Filters by pointwise equal tests agree. */
  lemma {:induction false} FilterExt<T(!new)>(s: seq<T>, p: T -> bool, q: T -> bool)
    requires forall x :: p(x) == q(x)
    ensures Filter(s, p) == Filter(s, q)
  {
    if s != [] {
      FilterExt(s[1..], p, q);
    }
  }

  /** A filter that keeps everything changes nothing. */
  lemma {:induction false} FilterAll<T(!new)>(s: seq<T>, p: T -> bool)
    requires forall x :: x in s ==> p(x)
    ensures Filter(s, p) == s
  {
    if s != [] {
      FilterAll(s[1..], p);
      assert s == [s[0]] + s[1..];
    }
  }

  /** `if (on) filtered = filtered.filter(p)`. */
  function FilterIf<T(!new)>(s: seq<T>, on: bool, p: T -> bool): seq<T> {
    if on then Filter(s, p) else s
  }

  /** A filter applied only when `on` is a filter by a test equal to `!on || p`. */
  lemma FilterIfIsFilter<T(!new)>(s: seq<T>, on: bool, p: T -> bool, r: T -> bool)
    requires forall x :: r(x) == (!on || p(x))
    ensures FilterIf(s, on, p) == Filter(s, r)
  {
    if on {
      FilterExt(s, p, r);
    } else {
      FilterAll(s, r);
    }
  }

  /** Two successive filters are one filter by a test equal to their conjunction. */
  lemma FilterFilterAs<T(!new)>(s: seq<T>, p: T -> bool, q: T -> bool, r: T -> bool)
    requires forall x :: r(x) == (p(x) && q(x))
    ensures Filter(Filter(s, p), q) == Filter(s, r)
  {
    FilterFilter(s, p, q);
    FilterExt(s, x => p(x) && q(x), r);
  }

  /** Three optional filters in a row are one filter by the conjunction of what each demands. */
  lemma FilterIf3<T(!new)>(s: seq<T>, on1: bool, p1: T -> bool, on2: bool, p2: T -> bool,
                           on3: bool, p3: T -> bool, r: T -> bool)
    requires forall x :: r(x) == ((!on1 || p1(x)) && (!on2 || p2(x)) && (!on3 || p3(x)))
    ensures FilterIf(FilterIf(FilterIf(s, on1, p1), on2, p2), on3, p3) == Filter(s, r)
  {
    var q1: T -> bool := x => !on1 || p1(x);
    var q2: T -> bool := x => !on2 || p2(x);
    var q3: T -> bool := x => !on3 || p3(x);
    var q12: T -> bool := x => q1(x) && q2(x);
    var a := FilterIf(s, on1, p1);
    assert a == Filter(s, q1) by { FilterIfIsFilter(s, on1, p1, q1); }
    var b := FilterIf(a, on2, p2);
    assert b == Filter(s, q12) by {
      FilterIfIsFilter(a, on2, p2, q2);
      FilterFilterAs(s, q1, q2, q12);
    }
    assert FilterIf(b, on3, p3) == Filter(s, r) by {
      FilterIfIsFilter(b, on3, p3, q3);
      FilterFilterAs(s, q12, q3, r);
    }
  }

  /** `a` is `b` with some elements left out, the rest in their order. */
  ghost predicate Subsequence<T>(a: seq<T>, b: seq<T>) {
    if a == [] then true
    else if b == [] then false
    else if a[0] == b[0] then Subsequence(a[1..], b[1..])
    else Subsequence(a, b[1..])
  }

  /** What a filter keeps is a subsequence of its input. */
  lemma {:induction false} FilterSubsequence<T(!new)>(s: seq<T>, p: T -> bool)
    ensures Subsequence(Filter(s, p), s)
  {
    if s != [] {
      FilterSubsequence(s[1..], p);
      var r := Filter(s, p);
      if p(s[0]) {
        assert r[0] == s[0] && r[1..] == Filter(s[1..], p);
      } else {
        assert r == Filter(s[1..], p);
      }
    }
  }

  /** Dropping the head of a subsequence keeps it a subsequence. */
  lemma {:induction false} SubsequenceTail<T>(a: seq<T>, b: seq<T>)
    requires a != [] && Subsequence(a, b)
    ensures Subsequence(a[1..], b)
    decreases |b|, 1
  {
    if a[0] == b[0] {
      SubsequenceDrop(a[1..], b[1..], b[0]);
    } else {
      SubsequenceTail(a, b[1..]);
      SubsequenceDrop(a[1..], b[1..], b[0]);
    }
  }

  /** A subsequence of `b` is one of `[x] + b`. */
  lemma {:induction false} SubsequenceDrop<T>(a: seq<T>, b: seq<T>, x: T)
    requires Subsequence(a, b)
    ensures Subsequence(a, [x] + b)
    decreases |b| + 1, 0
  {
    assert ([x] + b)[1..] == b;
    if a != [] && a[0] == x {
      SubsequenceTail(a, b);
    }
  }

  /** The texts `f(x)` of the elements `x` of `s`, one after the other. */
  function ConcatMap<T>(s: seq<T>, f: T -> string): string {
    if s == [] then "" else ConcatMap(s[..|s| - 1], f) + f(s[|s| - 1])
  }

  lemma {:induction false} ConcatMapConcat<T>(a: seq<T>, b: seq<T>, f: T -> string)
    ensures ConcatMap(a + b, f) == ConcatMap(a, f) + ConcatMap(b, f)
    decreases |b|
  {
    if b != [] {
      assert (a + b)[..|a + b| - 1] == a + b[..|b| - 1];
      assert (a + b)[|a + b| - 1] == b[|b| - 1];
      ConcatMapConcat(a, b[..|b| - 1], f);
    } else {
      assert a + b == a;
    }
  }

  lemma ConcatMapSnoc<T>(a: seq<T>, x: T, f: T -> string)
    ensures ConcatMap(a + [x], f) == ConcatMap(a, f) + f(x)
  {
    assert (a + [x])[..|a|] == a;
    assert (a + [x])[|a|] == x;
  }

  lemma ConcatMapOne<T>(x: T, f: T -> string)
    ensures ConcatMap([x], f) == f(x)
  {
    assert [x][..0] == [];
  }

  lemma ConcatMapTwo<T>(x: T, y: T, f: T -> string)
    ensures ConcatMap([x, y], f) == f(x) + f(y)
  {
    assert [x, y][..1] == [x];
    ConcatMapOne(x, f);
  }

  /** A slice grown by one element at its end. */
  lemma PrefixSnoc<T>(s: seq<T>, i: nat)
    requires i < |s|
    ensures s[..i + 1] == s[..i] + [s[i]]
  {
  }

  lemma SliceSnoc<T>(s: seq<T>, a: nat, b: nat)
    requires a <= b < |s|
    ensures s[a..b + 1] == s[a..b] + [s[b]]
  {
  }

  /** `f(0), ..., f(n - 1)`: the values of `f` below `n`, in order. */
  function Tabulate<T>(n: nat, f: nat -> T): (r: seq<T>)
    ensures |r| == n
  {
    if n == 0 then [] else Tabulate(n - 1, f) + [f(n - 1)]
  }

  /** Element `j` of a tabulation is `f(j)`. */
  lemma {:induction false} TabulateIndex<T>(n: nat, f: nat -> T)
    ensures forall j :: 0 <= j < n ==> Tabulate(n, f)[j] == f(j)
  {
    if n > 0 {
      TabulateIndex(n - 1, f);
    }
  }

  /** Functions that agree below `n` tabulate to the same sequence. */
  lemma {:induction false} TabulateAgree<T>(n: nat, f: nat -> T, g: nat -> T)
    requires forall j :: 0 <= j < n ==> f(j) == g(j)
    ensures Tabulate(n, f) == Tabulate(n, g)
  {
    if n > 0 {
      TabulateAgree(n - 1, f, g);
    }
  }

  /** Python's string order: lexicographic on code points, a proper prefix first. */
  predicate LexLe(a: string, b: string) {
    if a == [] then true
    else if b == [] then false
    else if a[0] != b[0] then a[0] < b[0]
    else LexLe(a[1..], b[1..])
  }

  lemma {:induction false} LexTotal(a: string, b: string)
    ensures LexLe(a, b) || LexLe(b, a)
  {
    if a != [] && b != [] && a[0] == b[0] {
      LexTotal(a[1..], b[1..]);
    }
  }

  lemma {:induction false} LexTransitive(a: string, b: string, c: string)
    requires LexLe(a, b) && LexLe(b, c)
    ensures LexLe(a, c)
  {
    if a != [] && b != [] && c != [] && a[0] == b[0] && b[0] == c[0] {
      LexTransitive(a[1..], b[1..], c[1..]);
    }
  }

  predicate Sorted(s: seq<string>) {
    forall i :: 0 < i < |s| ==> LexLe(s[i - 1], s[i])
  }

  /** Adjacent order gives the order of every pair. */
  lemma {:induction false} SortedPairs(s: seq<string>, i: int, j: int)
    requires Sorted(s) && 0 <= i <= j < |s|
    ensures LexLe(s[i], s[j])
    decreases j - i
  {
    if i == j {
      LexReflexive(s[i]);
    } else {
      SortedPairs(s, i, j - 1);
      LexTransitive(s[i], s[j - 1], s[j]);
    }
  }

  lemma {:induction false} LexReflexive(a: string)
    ensures LexLe(a, a)
  {
    if a != [] {
      LexReflexive(a[1..]);
    }
  }

  function Insert(x: string, s: seq<string>): (r: seq<string>)
    requires Sorted(s)
    ensures Sorted(r) && multiset(r) == multiset(s) + multiset{x}
    ensures |r| == |s| + 1
    ensures r[0] == x || (s != [] && r[0] == s[0])
  {
    if s == [] || LexLe(x, s[0]) then [x] + s
    else
      LexTotal(x, s[0]);
      var t := Insert(x, s[1..]);
      assert s == [s[0]] + s[1..];
      [s[0]] + t
  }

  /** `sorted(names)`: the same strings in ascending order. */
  function SortStrings(s: seq<string>): (r: seq<string>)
    ensures Sorted(r) && multiset(r) == multiset(s)
  {
    if s == [] then []
    else
      assert s == s[..|s| - 1] + [s[|s| - 1]];
      Insert(s[|s| - 1], SortStrings(s[..|s| - 1]))
  }

  /** `sorted` puts every string at or before each later one, not just before its neighbour. */
  lemma SortStringsOrdered(s: seq<string>)
    ensures var r := SortStrings(s); forall i, j :: 0 <= i <= j < |r| ==> LexLe(r[i], r[j])
  {
    var r := SortStrings(s);
    forall i, j | 0 <= i <= j < |r| ensures LexLe(r[i], r[j]) {
      SortedPairs(r, i, j);
    }
  }
}
