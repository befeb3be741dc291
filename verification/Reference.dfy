/** What a plain GetNext walk collects: in which order, and from which agents. */
module Reference {
  import opened Oid
  import opened Agent
  import opened Column

  // ---------- Agents that answer from a table ----------

  ghost predicate IsNext(stored: set<Arcs>, c: Arcs, o: Arcs) {
    o in stored && Less(c, o) && forall k :: k in stored && Less(c, k) ==> k == o || Less(o, k)
  }

  ghost predicate TrueAnswer(stored: set<Arcs>, c: Arcs, vb: Varbind) {
    if vb.value.EndOfMibView? then forall k :: k in stored ==> !Less(c, k) else IsNext(stored, c, vb.oid)
  }

  ghost predicate Ordered(next: Successor, stored: set<Arcs>) {
    forall c :: TrueAnswer(stored, c, next(c))
  }

  // ---------- The plain walk ----------

  ghost predicate Ascending(s: seq<Arcs>) {
    forall i, j :: 0 <= i < j < |s| ==> Less(s[i], s[j])
  }

  /** Whatever the agent, a walk collects strictly ascending OIDs of its column, all
      above the cursor it starts from. */
  lemma {:induction false} NextWalkAscends(next: Successor, col: Arcs, cursor: Arcs, len: nat)
    requires SaneSuccessor(next, len) && col != [] && col <= cursor && |cursor| <= len
    ensures Ascending(NextWalk(next, col, cursor, len))
    ensures forall o :: o in NextWalk(next, col, cursor, len) ==> col <= o && Less(cursor, o) && Sane(o, len)
    decreases Left(cursor, len)
  {
    var vb := next(cursor);
    assert SaneVarbind(vb, len);
    if vb.value.EndOfMibView? || !(col <= vb.oid) {
    } else if Less(cursor, vb.oid) {
      RankMonotone(cursor, vb.oid, len);
      NextWalkAscends(next, col, vb.oid, len);
      var rest := NextWalk(next, col, vb.oid, len);
      forall o | o in rest ensures Less(cursor, o) {
        LessTransitive(cursor, vb.oid, o);
      }
      assert forall j :: 0 <= j < |rest| ==> rest[j] in rest;
    } else {
      var target := SkipTarget(cursor, vb.oid);
      SkipAdvances(col, cursor, vb.oid, len);
      RankMonotone(cursor, target, len);
      if col <= target {
        NextWalkAscends(next, col, target, len);
        forall o | o in NextWalk(next, col, target, len) ensures Less(cursor, o) {
          LessTransitive(cursor, target, o);
        }
      }
    }
  }

  /** Against an ordered agent it misses none and invents none. */
  lemma {:induction false} NextWalkComplete(next: Successor, stored: set<Arcs>, col: Arcs, cursor: Arcs, len: nat,
                                            o: Arcs)
    requires SaneSuccessor(next, len) && Ordered(next, stored)
    requires col != [] && col <= cursor && |cursor| <= len
    ensures o in NextWalk(next, col, cursor, len) <==> o in stored && col <= o && Less(cursor, o)
    decreases Left(cursor, len)
  {
    var vb := next(cursor);
    assert SaneVarbind(vb, len) && TrueAnswer(stored, cursor, vb);
    if vb.value.EndOfMibView? {
    } else if !(col <= vb.oid) {
      if o in stored && col <= o && Less(cursor, o) {
        SubtreeIsInterval(col, cursor, vb.oid, o);
      }
    } else {
      RankMonotone(cursor, vb.oid, len);
      NextWalkComplete(next, stored, col, vb.oid, len, o);
      if Less(vb.oid, o) {
        LessTransitive(cursor, vb.oid, o);
      }
    }
  }

  /** The OIDs of s at or under p, in their order. */
  function Under(p: Arcs, s: seq<Arcs>): seq<Arcs> {
    if s == [] then [] else Under(p, s[..|s| - 1]) + if p <= s[|s| - 1] then [s[|s| - 1]] else []
  }

  lemma {:induction false} UnderAppend(p: Arcs, a: seq<Arcs>, b: seq<Arcs>)
    ensures Under(p, a + b) == Under(p, a) + Under(p, b)
  {
    if b == [] {
      assert a + b == a;
    } else {
      UnderAppend(p, a, b[..|b| - 1]);
      assert (a + b)[..|a + b| - 1] == a + b[..|b| - 1];
    }
  }

  lemma {:induction false} UnderBag(p: Arcs, s: seq<Arcs>, o: Arcs)
    ensures multiset(Under(p, s))[o] == if p <= o then multiset(s)[o] else 0
  {
    if s != [] {
      var n := |s| - 1;
      UnderBag(p, s[..n], o);
      assert s == s[..n] + [s[n]];
      assert multiset(s) == multiset(s[..n]) + multiset{s[n]};
      assert multiset(Under(p, s)) == multiset(Under(p, s[..n])) + if p <= s[n] then multiset{s[n]} else multiset{};
    }
  }

  lemma Assoc(a: seq<Arcs>, b: seq<Arcs>, c: seq<Arcs>)
    ensures (a + b) + c == a + (b + c)
  {
  }
}
