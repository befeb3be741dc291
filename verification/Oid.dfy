/** The numeric order on object identifiers that every walk rests on
    (internal/oid/oid.go), on already parsed arcs. */
module Oid {

  const MAX_ARC := 0xFFFF_FFFF

  /** One sub-identifier: a Go uint32. */
  type Arc = x: int | 0 <= x <= MAX_ARC

  /** `p <= o` on these sequences is "o lies at or under p". */
  type Arcs = seq<Arc>

  /** How many leading arcs two OIDs have in common. */
  function Shared(a: Arcs, b: Arcs): (n: nat)
    ensures n <= |a| && n <= |b| && a[..n] == b[..n]
    ensures n == |a| || n == |b| || a[n] != b[n]
  {
    if a == [] || b == [] || a[0] != b[0] then 0 else
    var n := 1 + Shared(a[1..], b[1..]);
    assert a[..n] == [a[0]] + a[1..][..n - 1] && b[..n] == [b[0]] + b[1..][..n - 1];
    n
  }

  /** The order of oid.Compare: by the first differing arc, a proper prefix first. */
  predicate Less(a: Arcs, b: Arcs) {
    var n := Shared(a, b);
    n < |b| && (n == |a| || a[n] < b[n])
  }

  /** What CompareArcs answers. */
  function Order(a: Arcs, b: Arcs): int {
    if Less(a, b) then -1 else if a == b then 0 else 1
  }

  /** The arcs shared are determined by agreeing up to n and not at n. */
  lemma SharedIs(a: Arcs, b: Arcs, n: nat)
    requires n <= |a| && n <= |b| && a[..n] == b[..n]
    requires n == |a| || n == |b| || a[n] != b[n]
    ensures Shared(a, b) == n
  {
    var m := Shared(a, b);
    assert forall k :: 0 <= k < n ==> a[..n][k] == b[..n][k];
    assert forall k :: 0 <= k < m ==> a[..m][k] == b[..m][k];
  }

  /** The loop of CompareArcs decides the order. */
  method CompareArcs(a: Arcs, b: Arcs) returns (c: int)
    ensures c == Order(a, b)
  {
    var i := 0;
    while i < |a| && i < |b|
      invariant 0 <= i <= |a| && i <= |b|
      invariant a[..i] == b[..i]
    {
      if a[i] != b[i] {
        SharedIs(a, b, i);
        return if a[i] < b[i] then -1 else 1;
      }
      i := i + 1;
    }
    SharedIs(a, b, i);
    if |a| < |b| {
      return -1;
    } else if |a| > |b| {
      return 1;
    }
    assert a == a[..i] == b[..i] == b;
    return 0;
  }

  // ---------- Less is a strict total order; subtrees are intervals of it ----------

  lemma LessTransitive(a: Arcs, b: Arcs, c: Arcs)
    requires Less(a, b) && Less(b, c)
    ensures Less(a, c)
  {
    var n := if Shared(a, b) <= Shared(b, c) then Shared(a, b) else Shared(b, c);
    assert a[..n] == b[..Shared(b, c)][..n] == c[..n] by {
      assert a[..n] == a[..Shared(a, b)][..n] == b[..Shared(a, b)][..n] == b[..n];
      assert b[..n] == b[..Shared(b, c)][..n] == c[..Shared(b, c)][..n] == c[..n];
    }
    SharedIs(a, c, n);
  }

  lemma SharedSymmetric(a: Arcs, b: Arcs)
    ensures Shared(a, b) == Shared(b, a)
  {
    SharedIs(b, a, Shared(a, b));
  }

  /** Exactly one of a < b, a == b, b < a. */
  lemma LessTotal(a: Arcs, b: Arcs)
    ensures Less(a, b) || a == b || Less(b, a)
    ensures !(Less(a, b) && Less(b, a)) && (a == b ==> !Less(a, b))
  {
    SharedSymmetric(a, b);
    var n := Shared(a, b);
    if n == |a| == |b| {
      assert a == a[..n] == b[..n] == b;
    }
    if a == b {
      SharedIs(a, b, |a|);
    }
  }

  lemma PrefixNotAbove(p: Arcs, x: Arcs)
    requires p <= x
    ensures !Less(x, p) && (p != x ==> Less(p, x))
  {
    SharedIs(p, x, |p|);
    SharedIs(x, p, |p|);
  }

  /** Everything between two OIDs of one subtree is in that subtree. */
  lemma SubtreeIsInterval(p: Arcs, x: Arcs, y: Arcs, z: Arcs)
    requires p <= x && p <= z && Less(x, y) && Less(y, z)
    ensures p <= y
  {
    var m := Shared(x, y);
    var n := Shared(y, z);
    assert forall k :: 0 <= k < |p| ==> x[k] == p[k] == z[k];
    if m >= |p| {
      assert y[..|p|] == y[..m][..|p|] == x[..m][..|p|] == p;
    }
  }

  // ---------- Where a walk continues after a misordered answer ----------

  /** The increment of a uint32. */
  function Increment(x: Arc): (y: Arc)
    ensures y == if x == MAX_ARC then 0 else x + 1
  {
    (x + 1) % (MAX_ARC + 1)
  }

  /** How many arcs of the request a skip keeps, the last of them incremented. */
  function Kept(request: Arcs, answer: Arcs): (n: nat)
    requires request != []
    ensures 0 < n <= |request|
  {
    if Shared(request, answer) == 0 then 1 else Shared(request, answer)
  }

  /** The next sibling of the deepest shared arc. */
  function SkipTarget(request: Arcs, answer: Arcs): Arcs
    requires request != []
  {
    var n := Kept(request, answer);
    request[..n - 1] + [Increment(request[n - 1])]
  }

  method ComputeSkipTarget(a: Arcs, b: Arcs) returns (arcs: Arcs)
    requires a != []
    ensures arcs == SkipTarget(a, b)
  {
    var n := 0;
    while n < |a| && n < |b| && a[n] == b[n]
      invariant 0 <= n <= |a| && n <= |b|
      invariant a[..n] == b[..n]
    {
      n := n + 1;
    }
    SharedIs(a, b, n);
    if n == 0 {
      n := 1;
    }
    arcs := a[..n];
    arcs := arcs[n - 1 := Increment(arcs[n - 1])];
    assert arcs == a[..n - 1] + [Increment(a[n - 1])];
  }

  /** t is the least OID above the whole subtree of p. */
  ghost predicate LeastAbove(t: Arcs, p: Arcs) {
    && (forall x: Arcs :: p <= x ==> Less(x, t))
    && (forall u: Arcs :: (forall x: Arcs :: p <= x ==> Less(x, u)) ==> t == u || Less(t, u))
  }

  lemma NextSiblingAbove(p: Arcs, t: Arcs, x: Arcs)
    requires p != [] && p[|p| - 1] < MAX_ARC
    requires t == p[..|p| - 1] + [p[|p| - 1] + 1]
    ensures p <= x ==> Less(x, t)
    ensures Less(x, t) ==> p <= x || Less(x, p)
  {
    var k := |p| - 1;
    if p <= x {
      assert x[..k] == x[..|p|][..k] == t[..k];
      SharedIs(x, t, k);
    } else if Less(x, t) {
      var m := Shared(x, t);
      if m < k {
        assert x[..m] == p[..m] by { assert t[..m] == p[..k][..m] == p[..m]; }
        assert m < |x| ==> x[m] != p[m] by { assert t[m] == p[m]; }
        SharedIs(x, p, m);
      } else {
        assert m == k;
        assert x[..k] == t[..k] == p[..k];
        assert k < |x| ==> x[..k + 1] == x[..k] + [x[k]];
        assert p == p[..k] + [p[k]];
        SharedIs(x, p, k);
      }
    }
  }

  lemma NextSiblingIsLeastAbove(p: Arcs, t: Arcs)
    requires p != [] && p[|p| - 1] < MAX_ARC
    requires t == p[..|p| - 1] + [p[|p| - 1] + 1]
    ensures LeastAbove(t, p)
  {
    forall x: Arcs ensures p <= x ==> Less(x, t) {
      NextSiblingAbove(p, t, x);
    }
    forall u: Arcs | forall x: Arcs :: p <= x ==> Less(x, u) ensures t == u || Less(t, u) {
      LessTotal(t, u);
      if Less(u, t) {
        NextSiblingAbove(p, t, u);
        assert p <= p && Less(p, u);
        LessTotal(p, u);
        LessTotal(u, u);
      }
    }
  }

  /** SkipTarget is exact. With p the shared prefix and a last shared arc that can
      still be incremented, the target is the least OID above the subtree of p, and
      between the request and the target lie exactly the remaining OIDs under p. */
  lemma SkipTargetExact(request: Arcs, answer: Arcs, x: Arcs)
    requires !Less(request, answer) && Shared(request, answer) > 0
    requires request[Shared(request, answer) - 1] < MAX_ARC
    ensures var p := request[..Shared(request, answer)];
            var t := SkipTarget(request, answer);
            && LeastAbove(t, p)
            && Less(request, t) && Less(answer, t)
            && (Less(request, x) && Less(x, t) <==> p <= x && Less(request, x))
  {
    hide Less, LeastAbove;
    var n := Shared(request, answer);
    var p := request[..n];
    var t := SkipTarget(request, answer);
    assert t == p[..n - 1] + [p[n - 1] + 1];
    NextSiblingIsLeastAbove(p, t);
    assert p <= request && p <= answer;
    NextSiblingAbove(p, t, request);
    NextSiblingAbove(p, t, answer);
    NextSiblingAbove(p, t, x);
    if Less(request, x) && Less(x, t) {
      if Less(x, p) {
        LessTransitive(request, x, p);
        PrefixNotAbove(p, request);
      }
    }
  }

  /** If nothing is shared, the target is the least OID above everything under the first arc
      of the request. */
  lemma SkipTargetFirst(request: Arcs, answer: Arcs)
    requires request != [] && Shared(request, answer) == 0 && request[0] < MAX_ARC
    ensures LeastAbove(SkipTarget(request, answer), request[..1])
  {
    assert request[..1][..0] == request[..0];
    NextSiblingIsLeastAbove(request[..1], SkipTarget(request, answer));
  }

  /** The walk moves forward exactly when the incremented arc does not wrap: at
      2^32-1 the target falls below the request. */
  lemma SkipTargetAdvancesIff(request: Arcs, answer: Arcs)
    requires request != []
    ensures Less(request, SkipTarget(request, answer)) <==> request[Kept(request, answer) - 1] < MAX_ARC
  {
    var n := Kept(request, answer);
    var t := SkipTarget(request, answer);
    assert t[..n - 1] == request[..n - 1];
    SharedIs(request, t, n - 1);
  }

  // ---------- A rank of bounded OIDs into the naturals ----------

  /** The number of OIDs with at most `len` arcs. */
  ghost function Size(len: nat): nat {
    if len == 0 then 1 else 1 + (MAX_ARC + 1) * Size(len - 1)
  }

  ghost function Rank(o: Arcs, len: nat): nat {
    if len == 0 || o == [] then 0 else 1 + o[0] * Size(len - 1) + Rank(o[1..], len - 1)
  }

  lemma ScaledBelow(x: nat, y: nat, s: nat)
    requires x < y
    ensures x * s + s <= y * s
  {
    assert (x + 1) * s <= y * s;
  }

  lemma {:induction false} RankBelowSize(o: Arcs, len: nat)
    ensures Rank(o, len) < Size(len)
  {
    if len > 0 && o != [] {
      RankBelowSize(o[1..], len - 1);
      ScaledBelow(o[0], MAX_ARC + 1, Size(len - 1));
    }
  }

  /** The order by the first arcs, then by the rest. */
  lemma LessHead(a: Arcs, b: Arcs)
    requires Less(a, b)
    ensures b != [] && (a == [] || a[0] < b[0] || (a[0] == b[0] && Less(a[1..], b[1..])))
  {
    if a != [] && a[0] == b[0] {
      assert Shared(a, b) == 1 + Shared(a[1..], b[1..]);
    }
  }

  /** The rank respects the order, so a walk of bounded OIDs that only moves
      forward is finite. */
  lemma {:induction false} RankMonotone(a: Arcs, b: Arcs, len: nat)
    requires Less(a, b) && |a| <= len && |b| <= len
    ensures Rank(a, len) < Rank(b, len)
  {
    hide Less, Size;
    LessHead(a, b);
    if a != [] {
      if a[0] == b[0] {
        RankMonotone(a[1..], b[1..], len - 1);
      } else {
        RankBelowSize(a[1..], len - 1);
        ScaledBelow(a[0], b[0], Size(len - 1));
      }
    }
  }

  /** How far a cursor is from the end of the space of OIDs with at most len arcs. */
  ghost function Left(cursor: Arcs, len: nat): (n: nat)
    ensures n > 0
  {
    RankBelowSize(cursor, len);
    Size(len) - Rank(cursor, len)
  }
}
