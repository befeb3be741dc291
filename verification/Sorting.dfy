/** The standard library's sort, as far as the model relies on it: a permutation in
    ascending order. */
module Sorting {

  predicate SortedBy<T>(lte: (T, T) -> bool, s: seq<T>) {
    forall i, j :: 0 <= i < j < |s| ==> lte(s[i], s[j])
  }

  ghost predicate TotalOrder<T(!new)>(lte: (T, T) -> bool) {
    && (forall x, y :: lte(x, y) || lte(y, x))
    && (forall x, y, z :: lte(x, y) && lte(y, z) ==> lte(x, z))
  }

  function Insert<T>(lte: (T, T) -> bool, s: seq<T>, x: T): (r: seq<T>)
    ensures multiset(r) == multiset(s) + multiset{x}
  {
    if s == [] || lte(s[|s| - 1], x) then s + [x] else
    assert s == s[..|s| - 1] + [s[|s| - 1]];
    Insert(lte, s[..|s| - 1], x) + [s[|s| - 1]]
  }

  function Sort<T>(lte: (T, T) -> bool, s: seq<T>): (r: seq<T>)
    ensures multiset(r) == multiset(s)
  {
    if s == [] then [] else
    assert s == s[..|s| - 1] + [s[|s| - 1]];
    Insert(lte, Sort(lte, s[..|s| - 1]), s[|s| - 1])
  }

  lemma SameMembers<T>(a: seq<T>, b: seq<T>)
    requires multiset(a) == multiset(b)
    ensures |a| == |b| && forall x :: x in a <==> x in b
  {
    assert |multiset(a)| == |a| && |multiset(b)| == |b|;
    forall x ensures x in a <==> x in b {
      assert x in a <==> x in multiset(a);
      assert x in b <==> x in multiset(b);
    }
  }

  lemma {:induction false} InsertSorted<T(!new)>(lte: (T, T) -> bool, s: seq<T>, x: T)
    requires TotalOrder(lte) && SortedBy(lte, s)
    ensures SortedBy(lte, Insert(lte, s, x))
  {
    if s != [] {
      var n := |s| - 1;
      if lte(s[n], x) {
        assert forall i :: 0 <= i < n ==> lte(s[i], s[n]);
      } else {
        InsertSorted(lte, s[..n], x);
        var r := Insert(lte, s[..n], x);
        assert multiset(r) == multiset(s[..n] + [x]);
        SameMembers(r, s[..n] + [x]);
        forall i | 0 <= i < |r| ensures lte(r[i], s[n]) {
          assert r[i] in s[..n] + [x];
        }
      }
    }
  }

  lemma {:induction false} SortSorted<T(!new)>(lte: (T, T) -> bool, s: seq<T>)
    requires TotalOrder(lte)
    ensures SortedBy(lte, Sort(lte, s))
  {
    if s != [] {
      SortSorted(lte, s[..|s| - 1]);
      InsertSorted(lte, Sort(lte, s[..|s| - 1]), s[|s| - 1]);
    }
  }

  predicate Unique<T(==)>(s: seq<T>) {
    forall i, j :: 0 <= i < j < |s| ==> s[i] != s[j]
  }

  lemma {:induction false} UniqueCount<T>(s: seq<T>, x: T)
    ensures Unique(s) ==> multiset(s)[x] <= 1
  {
    if s != [] {
      UniqueCount(s[..|s| - 1], x);
      assert s == s[..|s| - 1] + [s[|s| - 1]];
    }
  }

  lemma SameUnique<T>(s: seq<T>, r: seq<T>)
    requires multiset(r) == multiset(s) && Unique(s)
    ensures Unique(r)
  {
    forall i, j | 0 <= i < j < |r| ensures r[i] != r[j] {
      UniqueCount(s, r[i]);
      var a, b := r[..j], r[j..];
      assert r == a + b && r[i] == a[i] && b[0] == r[j];
      assert multiset(r)[r[i]] == multiset(a)[r[i]] + multiset(b)[r[i]];
      assert a[i] in multiset(a) && b[0] in multiset(b);
    }
  }

  /** Distinct members, once sorted, are strictly ascending. */
  lemma SortUnique<T(!new)>(lte: (T, T) -> bool, s: seq<T>)
    requires TotalOrder(lte) && Unique(s)
    ensures Unique(Sort(lte, s)) && SortedBy(lte, Sort(lte, s))
  {
    SortSorted(lte, s);
    SameUnique(s, Sort(lte, s));
  }

  /** x stands in the middle of s in ascending order, the upper one of two. */
  ghost predicate Median<T(!new)>(lte: (T, T) -> bool, s: seq<T>, x: T) {
    exists r: seq<T> :: multiset(r) == multiset(s) && SortedBy(lte, r) && r != [] && r[|r| / 2] == x
  }

  lemma SortMedian<T(!new)>(lte: (T, T) -> bool, s: seq<T>)
    requires TotalOrder(lte) && s != []
    ensures |Sort(lte, s)| == |s| && Median(lte, s, Sort(lte, s)[|s| / 2])
  {
    SortSorted(lte, s);
    SameMembers(Sort(lte, s), s);
  }

  // ---------- Ranks ----------

  /** Where p holds. */
  function Where<T>(s: seq<T>, p: T -> bool): set<nat> {
    set k: nat | k < |s| && p(s[k])
  }

  function CountIf<T>(s: seq<T>, p: T -> bool): nat {
    if s == [] then 0 else CountIf(s[..|s| - 1], p) + if p(s[|s| - 1]) then 1 else 0
  }

  lemma {:induction false} CountsWhere<T>(s: seq<T>, p: T -> bool)
    ensures CountIf(s, p) == |Where(s, p)|
  {
    if s == [] {
      assert Where(s, p) == {};
    } else {
      var n := |s| - 1;
      CountsWhere(s[..n], p);
      assert Where(s, p) == Where(s[..n], p) + if p(s[n]) then {n} else {};
    }
  }

  lemma {:induction false} CountAppend<T>(a: seq<T>, b: seq<T>, p: T -> bool)
    ensures CountIf(a + b, p) == CountIf(a, p) + CountIf(b, p)
  {
    if b == [] {
      assert a + b == a;
    } else {
      CountAppend(a, b[..|b| - 1], p);
      assert (a + b)[..|a + b| - 1] == a + b[..|b| - 1];
    }
  }

  lemma CancelOne<T>(a: multiset<T>, b: multiset<T>, x: T)
    requires a + multiset{x} == b + multiset{x}
    ensures a == b
  {
    forall y ensures a[y] == b[y] {
      assert (a + multiset{x})[y] == (b + multiset{x})[y];
    }
  }

  lemma Without<T>(b: seq<T>, j: nat)
    requires j < |b|
    ensures multiset(b) == multiset(b[..j] + b[j + 1..]) + multiset{b[j]}
  {
    assert b == b[..j] + [b[j]] + b[j + 1..];
  }

  lemma {:induction false} CountPermuted<T>(a: seq<T>, b: seq<T>, p: T -> bool)
    requires multiset(a) == multiset(b)
    ensures CountIf(a, p) == CountIf(b, p)
  {
    SameMembers(a, b);
    if a != [] {
      var n := |a| - 1;
      var x := a[n];
      assert a == a[..n] + [x] && x in a;
      var j :| 0 <= j < |b| && b[j] == x;
      assert b == b[..j] + ([x] + b[j + 1..]);
      assert multiset(a) == multiset(a[..n]) + multiset{x};
      Without(b, j);
      CancelOne(multiset(a[..n]), multiset(b[..j] + b[j + 1..]), x);
      CountPermuted(a[..n], b[..j] + b[j + 1..], p);
      CountAppend(b[..j], b[j + 1..], p);
      CountAppend([x], b[j + 1..], p);
      CountAppend(b[..j], [x] + b[j + 1..], p);
      assert [x][..0] == [];
    }
  }

  lemma {:induction false} CountBounds<T>(s: seq<T>, p: T -> bool, m: nat)
    requires m <= |s|
    ensures (forall i :: m <= i < |s| ==> !p(s[i])) ==> CountIf(s, p) <= m
    ensures (forall i :: 0 <= i < m ==> p(s[i])) ==> CountIf(s, p) >= m
  {
    if s != [] {
      var n := |s| - 1;
      CountBounds(s[..n], p, if m == |s| then n else m);
    }
  }

  lemma MedianIn<T(!new)>(lte: (T, T) -> bool, s: seq<T>, x: T)
    requires Median(lte, s, x)
    ensures x in s
  {
    var r: seq<T> :| multiset(r) == multiset(s) && SortedBy(lte, r) && r != [] && r[|r| / 2] == x;
    SameMembers(r, s);
  }

  /** Where s is strictly below x. */
  function Below<T>(lte: (T, T) -> bool, s: seq<T>, x: T): set<nat> {
    set k: nat | k < |s| && !lte(x, s[k])
  }

  /** Where s is not above x. */
  function UpTo<T>(lte: (T, T) -> bool, s: seq<T>, x: T): set<nat> {
    set k: nat | k < |s| && lte(s[k], x)
  }

  lemma BelowSnoc<T>(lte: (T, T) -> bool, s: seq<T>, x: T)
    requires s != []
    ensures |Below(lte, s, x)| == |Below(lte, s[..|s| - 1], x)| + if lte(x, s[|s| - 1]) then 0 else 1
  {
    var n := |s| - 1;
    assert forall k :: 0 <= k < n ==> s[..n][k] == s[k];
    assert Below(lte, s, x) == Below(lte, s[..n], x) + if lte(x, s[n]) then {} else {n};
  }

  lemma UpToSnoc<T>(lte: (T, T) -> bool, s: seq<T>, x: T)
    requires s != []
    ensures |UpTo(lte, s, x)| == |UpTo(lte, s[..|s| - 1], x)| + if lte(s[|s| - 1], x) then 1 else 0
  {
    var n := |s| - 1;
    assert forall k :: 0 <= k < n ==> s[..n][k] == s[k];
    assert UpTo(lte, s, x) == UpTo(lte, s[..n], x) + if lte(s[n], x) then {n} else {};
  }

  lemma CountsBelow<T>(lte: (T, T) -> bool, s: seq<T>, x: T)
    ensures CountIf(s, y => !lte(x, y)) == |Below(lte, s, x)|
    ensures CountIf(s, y => lte(y, x)) == |UpTo(lte, s, x)|
  {
    var below, upTo := (y: T) => !lte(x, y), (y: T) => lte(y, x);
    CountsWhere(s, below);
    CountsWhere(s, upTo);
    assert Where(s, below) == Below(lte, s, x) && Where(s, upTo) == UpTo(lte, s, x);
  }

  /** At most half are below the median, more than half are not above it. */
  lemma MedianRanks<T(!new)>(lte: (T, T) -> bool, s: seq<T>, x: T)
    requires TotalOrder(lte) && Median(lte, s, x)
    ensures 2 * |Below(lte, s, x)| <= |s| < 2 * |UpTo(lte, s, x)|
  {
    hide Below, UpTo, CountIf;
    var r: seq<T> :| multiset(r) == multiset(s) && SortedBy(lte, r) && r != [] && r[|r| / 2] == x;
    var below, upTo := (y: T) => !lte(x, y), (y: T) => lte(y, x);
    SameMembers(r, s);
    assert lte(x, x);
    CountBounds(r, below, |r| / 2);
    CountBounds(r, upTo, |r| / 2 + 1);
    CountPermuted(r, s, below);
    CountPermuted(r, s, upTo);
    CountsBelow(lte, s, x);
  }
}
