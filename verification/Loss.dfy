/** What a walk loses on an agent that misorders its answers (internal/oid/oid.go:65-80,
    internal/inventory/inventory.go:101-119): nothing but what lies under the prefixes it
    records as skipped, their next siblings, and, if an answer leads backwards out of its
    column, what comes after. */
module Loss {
  import opened Oid
  import opened Agent
  import opened Column
  import opened Reference
  import opened Inventory
  import opened Agreement

  /** The next OID of the same length, where a walk goes on after skipping p. */
  function Sibling(p: Arcs): Arcs
    requires p != []
  {
    p[..|p| - 1] + [Increment(p[|p| - 1])]
  }

  /** The walk ends with an answer that leads backwards out of the column: it looks like
      the end of the column, and nothing is recorded. */
  ghost predicate Derailed(next: Successor, col: Arcs, cursor: Arcs, len: nat)
    requires SaneSuccessor(next, len) && col != [] && col <= cursor && |cursor| <= len
    decreases Left(cursor, len)
  {
    var vb := next(cursor);
    assert SaneVarbind(vb, len);
    if vb.value.EndOfMibView? then false
    else if !(col <= vb.oid) then !Less(cursor, vb.oid)
    else if Less(cursor, vb.oid) then
      RankMonotone(cursor, vb.oid, len);
      Derailed(next, col, vb.oid, len)
    else
      var target := SkipTarget(cursor, vb.oid);
      SkipAdvances(col, cursor, vb.oid, len);
      RankMonotone(cursor, target, len);
      col <= target && Derailed(next, col, target, len)
  }

  /** Under a skipped prefix, or the sibling the walk went on from. */
  ghost predicate Covered(skipped: seq<Arcs>, o: Arcs) {
    exists p :: p in skipped && p != [] && (p <= o || o == Sibling(p))
  }

  lemma CoveredMore(p: Arcs, skipped: seq<Arcs>, o: Arcs)
    requires Covered(skipped, o) || (p != [] && (p <= o || o == Sibling(p)))
    ensures Covered([p] + skipped, o)
  {
    if Covered(skipped, o) {
      var q :| q in skipped && q != [] && (q <= o || o == Sibling(q));
      assert q in [p] + skipped;
    } else {
      assert p in [p] + skipped;
    }
  }

  lemma SharedAtLeast(p: Arcs, a: Arcs, b: Arcs)
    requires p <= a && p <= b
    ensures Shared(a, b) >= |p|
  {
  }

  /** What a skip passes over lies under the prefix it skips, or is where it goes on. */
  lemma PassedOver(col: Arcs, cursor: Arcs, answer: Arcs, o: Arcs, len: nat)
    requires col != [] && col <= cursor && col <= answer && Sane(answer, len) && !Less(cursor, answer)
    requires col <= o && Less(cursor, o)
    ensures var p, target := cursor[..Kept(cursor, answer)], SkipTarget(cursor, answer);
            p != [] && target == Sibling(p) && (p <= o || o == target || (col <= target && Less(target, o)))
  {
    var n := Shared(cursor, answer);
    var p, target := cursor[..n], SkipTarget(cursor, answer);
    SharedAtLeast(col, cursor, answer);
    assert cursor[..n] == answer[..n] && cursor[n - 1] == answer[n - 1];
    assert cursor[..n][..n - 1] == cursor[..n - 1];
    SkipTargetExact(cursor, answer, o);
    LessTotal(target, o);
    if Less(target, o) && !(p <= o) {
      SubtreeIsInterval(col, cursor, target, o);
    }
  }

  /** Every stored OID ahead of a walk is collected, or is covered by what the walk skips,
      unless the walk derails. */
  lemma {:induction false} LossCovered(next: Successor, stored: set<Arcs>, col: Arcs, cursor: Arcs, len: nat, o: Arcs)
    requires SaneSuccessor(next, len) && Misordering(next, stored)
    requires col != [] && col <= cursor && |cursor| <= len
    requires o in stored && col <= o && Less(cursor, o)
    ensures || o in NextWalk(next, col, cursor, len) || Covered(SkippedBy(next, col, cursor, len), o)
            || Derailed(next, col, cursor, len)
    decreases Left(cursor, len)
  {
    var vb := next(cursor);
    assert SaneVarbind(vb, len);
    if vb.value.EndOfMibView? {
    } else if Less(cursor, vb.oid) {
      if o != vb.oid {
        SubtreeIsInterval(col, cursor, vb.oid, o);
        RankMonotone(cursor, vb.oid, len);
        LossCovered(next, stored, col, vb.oid, len, o);
      } else {
        RankMonotone(cursor, vb.oid, len);
      }
    } else if col <= vb.oid {
      var target, p := SkipTarget(cursor, vb.oid), cursor[..Kept(cursor, vb.oid)];
      SkipAdvances(col, cursor, vb.oid, len);
      RankMonotone(cursor, target, len);
      PassedOver(col, cursor, vb.oid, o, len);
      var rest := if col <= target then SkippedBy(next, col, target, len) else [];
      if p <= o || o == target {
        CoveredMore(p, rest, o);
      } else {
        LossCovered(next, stored, col, target, len, o);
        if Covered(rest, o) { CoveredMore(p, rest, o); }
      }
    }
  }

  /** A completed subtree has everything the agent stores strictly under its root, except
      what the recorded skips cover, unless its walk derailed. */
  lemma ReferenceLoses(next: Successor, stored: set<Arcs>, st: Subtree, o: Arcs, len: nat)
    requires SaneSuccessor(next, len) && Misordering(next, stored) && Completed(next, st, len)
    requires o in stored && st.root <= o && o != st.root
    ensures o in st.oids || Covered(st.skipped, o) || Derailed(next, st.root, st.root, len)
  {
    PrefixNotAbove(st.root, o);
    LossCovered(next, stored, st.root, st.root, len, o);
  }

  // ---------- Both exceptions happen ----------

  /** Stores 1.1, 1.2 and 1.3, but answers 1.1 with odd. */
  function Odd(odd: Arcs): Successor {
    c => if c == [1, 1] then Varbind(odd, Data)
         else if Less(c, [1, 1]) then Varbind([1, 1], Data)
         else if Less(c, [1, 2]) then Varbind([1, 2], Data)
         else if Less(c, [1, 3]) then Varbind([1, 3], Data)
         else Varbind(c, EndOfMibView)
  }

  const THREE: set<Arcs> := {[1, 1], [1, 2], [1, 3]}

  lemma ThreeOrder()
    ensures Less([1], [1, 1]) && Less([1, 1], [1, 2]) && Less([1, 2], [1, 3]) && Less([1, 1], [1, 3])
    ensures !Less([1, 1], [1, 1]) && !Less([1, 2], [1, 1]) && !Less([1, 2], [1, 2])
    ensures !Less([1, 3], [1, 1]) && !Less([1, 3], [1, 2]) && !Less([1, 3], [1, 3]) && !Less([1, 1], [0])
  {
    SharedIs([1], [1, 1], 1);
    SharedIs([1, 1], [1, 2], 1);
    SharedIs([1, 2], [1, 3], 1);
    SharedIs([1, 1], [1, 3], 1);
    SharedIs([1, 2], [1, 1], 1);
    SharedIs([1, 3], [1, 1], 1);
    SharedIs([1, 3], [1, 2], 1);
    SharedIs([1, 1], [0], 0);
    SharedIs([1, 1], [1, 1], 2);
    SharedIs([1, 2], [1, 2], 2);
    SharedIs([1, 3], [1, 3], 2);
  }

  lemma OddMisorders(odd: Arcs)
    requires !Less([1, 1], odd) && Sane(odd, 2)
    ensures SaneSuccessor(Odd(odd), 2) && Misordering(Odd(odd), THREE)
  {
    hide Less;
    ThreeOrder();
    forall c: Arcs ensures TrueAnswer(THREE, c, Odd(odd)(c)) || (c in THREE && !Odd(odd)(c).value.EndOfMibView?
                                                                   && !Less(c, Odd(odd)(c).oid)) {
      if Less(c, [1, 1]) { LessTransitive(c, [1, 1], [1, 2]); }
      if Less(c, [1, 2]) { LessTransitive(c, [1, 2], [1, 3]); }
    }
  }

  /** An agent that answers 1.1 with 1.1 again: the walk skips 1.1 and goes on from 1.2, so it
      never collects 1.2, though it is not under the skipped prefix. */
  lemma SiblingLost()
    ensures SaneSuccessor(Odd([1, 1]), 2) && Misordering(Odd([1, 1]), THREE)
    ensures NextWalk(Odd([1, 1]), [1], [1], 2) == [[1, 1], [1, 3]]
    ensures SkippedBy(Odd([1, 1]), [1], [1], 2) == [[1, 1]] && !([1, 1] <= [1, 2])
  {
    hide Less, Shared;
    var next := Odd([1, 1]);
    ThreeOrder();
    OddMisorders([1, 1]);
    SharedIs([1, 1], [1, 1], 2);
    assert SkipTarget([1, 1], [1, 1]) == [1, 2];
    assert NextWalk(next, [1], [1, 3], 2) == [] && SkippedBy(next, [1], [1, 3], 2) == [];
    assert NextWalk(next, [1], [1, 2], 2) == [[1, 3]] && SkippedBy(next, [1], [1, 2], 2) == [];
    assert NextWalk(next, [1], [1, 1], 2) == [[1, 3]];
    assert [1, 1][..2] == [1, 1];
    assert SkippedBy(next, [1], [1, 1], 2) == [[1, 1]];
  }

  /** One that answers 1.1 with 0, outside the column: the walk ends there, with nothing
      recorded as skipped. */
  lemma DerailedLost()
    ensures SaneSuccessor(Odd([0]), 2) && Misordering(Odd([0]), THREE)
    ensures NextWalk(Odd([0]), [1], [1], 2) == [[1, 1]] && SkippedBy(Odd([0]), [1], [1], 2) == []
    ensures Derailed(Odd([0]), [1], [1], 2)
  {
    hide Less, Shared;
    var next := Odd([0]);
    ThreeOrder();
    OddMisorders([0]);
    assert NextWalk(next, [1], [1, 1], 2) == [] && SkippedBy(next, [1], [1, 1], 2) == [];
    assert Derailed(next, [1], [1, 1], 2);
  }
}
