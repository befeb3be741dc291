/** Trials and the reference walk agree, even on an agent that misorders its answers:
    a trial over the workload inferred from the inventory misses no reference OID. */
module Agreement {
  import opened Oid
  import opened Agent
  import opened Column
  import opened Reference
  import opened Inventory
  import opened Workloads
  import opened Walk
  import opened Run
  import opened Completeness

  /** An agent that answers the true successor, or the end of the MIB behind the last
      stored OID; only at stored instances it may answer with an OID that is not
      greater instead. */
  ghost predicate Misordering(next: Successor, stored: set<Arcs>) {
    forall c :: TrueAnswer(stored, c, next(c)) ||
                (c in stored && !next(c).value.EndOfMibView? && !Less(c, next(c).oid))
  }

  /** Whatever lies above an OID that lies above all of a subtree is not in it. */
  lemma {:induction false} NothingUnder(p: Arcs, s: seq<Arcs>, above: Arcs)
    requires Less(p, above) && !(p <= above)
    requires forall o :: o in s ==> o == above || Less(above, o)
    ensures Under(p, s) == []
  {
    if s != [] {
      var n := |s| - 1;
      NothingUnder(p, s[..n], above);
      assert s[n] in s;
      if p <= s[n] {
        SubtreeIsInterval(p, p, above, s[n]);
      }
    }
  }

  lemma UnderCons(p: Arcs, o: Arcs, s: seq<Arcs>)
    ensures Under(p, [o] + s) == (if p <= o then [o] else []) + Under(p, s)
  {
    UnderAppend(p, [o], s);
    assert [o][..0] == [];
  }

  lemma {:induction false} UnderAll(p: Arcs, s: seq<Arcs>)
    requires forall i :: 0 <= i < |s| ==> p <= s[i]
    ensures Under(p, s) == s
  {
    if s != [] {
      UnderAll(p, s[..|s| - 1]);
      assert s == s[..|s| - 1] + [s[|s| - 1]];
    }
  }

  lemma PrefixOfShared(p: Arcs, a: Arcs, b: Arcs)
    ensures p <= a && |p| <= Shared(a, b) ==> p <= b
  {
    var n := Shared(a, b);
    assert |p| <= n ==> a[..|p|] == a[..n][..|p|] == b[..n][..|p|] == b[..|p|];
  }

  /** A skip away from a request inside col, by an answer outside it, leaves col. */
  lemma SkipLeaves(col: Arcs, request: Arcs, answer: Arcs, len: nat)
    requires col <= request && !(col <= answer) && !Less(request, answer)
    requires Shared(request, answer) > 0 && Sane(answer, len)
    ensures !(col <= SkipTarget(request, answer))
  {
    var n := Shared(request, answer);
    PrefixOfShared(col, request, answer);
    assert request[..n][n - 1] == answer[..n][n - 1];
    assert SkipTarget(request, answer)[n - 1] != request[n - 1] == col[n - 1];
  }

  /** A walk that has left a column forwards never collects anything of it again. */
  lemma BehindColumn(next: Successor, root: Arcs, col: Arcs, cursor: Arcs, beyond: Arcs, len: nat)
    requires SaneSuccessor(next, len) && root != [] && root <= beyond && |beyond| <= len
    requires col <= cursor && Less(cursor, beyond) && !(col <= beyond)
    ensures Under(col, NextWalk(next, root, beyond, len)) == []
  {
    PrefixNotAbove(col, cursor);
    if col != cursor { LessTransitive(col, cursor, beyond); }
    NextWalkAscends(next, root, beyond, len);
    NothingUnder(col, NextWalk(next, root, beyond, len), beyond);
  }

  /** Inside a column the walk of the root and the walk of the column take the same
      path: from there on they collect the same of it. */
  lemma {:induction false} SameInside(next: Successor, root: Arcs, col: Arcs, cursor: Arcs, len: nat)
    requires SaneSuccessor(next, len) && root != [] && root <= col && col <= cursor && |cursor| <= len
    ensures Under(col, NextWalk(next, root, cursor, len)) == NextWalk(next, col, cursor, len)
    decreases Left(cursor, len)
  {
    var vb := next(cursor);
    assert SaneVarbind(vb, len);
    if vb.value.EndOfMibView? || !(root <= vb.oid) {
    } else if Less(cursor, vb.oid) {
      RankMonotone(cursor, vb.oid, len);
      UnderCons(col, vb.oid, NextWalk(next, root, vb.oid, len));
      if col <= vb.oid {
        SameInside(next, root, col, vb.oid, len);
      } else {
        BehindColumn(next, root, col, cursor, vb.oid, len);
      }
    } else {
      var target := SkipTarget(cursor, vb.oid);
      SkipAdvances(root, cursor, vb.oid, len);
      RankMonotone(cursor, target, len);
      if !(col <= vb.oid) {
        SkipLeaves(col, cursor, vb.oid, len);
      }
      if col <= target {
        SameInside(next, root, col, target, len);
      } else if root <= target {
        BehindColumn(next, root, col, cursor, target, len);
      }
    }
  }

  lemma PrefixBelow(p: Arcs, x: Arcs)
    requires Less(x, p)
    ensures !(p <= x)
  {
    if p <= x { PrefixNotAbove(p, x); }
  }

  /** If a step jumps over col into its subtree, the walk of col starts with the same
      OID, since col itself is then no stored instance. */
  lemma EnterByStep(next: Successor, stored: set<Arcs>, col: Arcs, cursor: Arcs)
    requires Misordering(next, stored)
    requires var vb := next(cursor);
             !vb.value.EndOfMibView? && Less(cursor, col) && Less(col, vb.oid) && Less(cursor, vb.oid)
    ensures !next(col).value.EndOfMibView? && next(col).oid == next(cursor).oid
  {
    var o := next(cursor).oid;
    assert IsNext(stored, cursor, o);
    LessTotal(col, o);
    assert col !in stored;
    assert TrueAnswer(stored, col, next(col));
    var o' := next(col).oid;
    LessTransitive(cursor, col, o');
    LessTotal(o, o');
  }

  /** A skip from outside a subtree never lands strictly inside it. */
  lemma SkipNotInto(col: Arcs, request: Arcs, answer: Arcs)
    requires request != [] && !(col <= request) && col != SkipTarget(request, answer)
    ensures !(col <= SkipTarget(request, answer))
  {
    var n := Kept(request, answer);
    var target := SkipTarget(request, answer);
    assert |col| < n ==> target[..|col|] == request[..n - 1][..|col|] == request[..|col|];
    assert |col| == n && col <= target ==> col == target;
  }

  /** The walk of the root enters a column, if at all, where the walk of the column
      starts: at its first stored OID, or by a skip to the column itself. */
  lemma {:induction false} SameFromBefore(next: Successor, stored: set<Arcs>, root: Arcs, col: Arcs, cursor: Arcs,
                                          len: nat)
    requires SaneSuccessor(next, len) && Misordering(next, stored)
    requires root != [] && root <= col && root <= cursor && |cursor| <= len && |col| <= len
    requires Less(cursor, col)
    requires col !in NextWalk(next, root, cursor, len)
    ensures var got := Under(col, NextWalk(next, root, cursor, len));
            got == [] || got == NextWalk(next, col, col, len)
    decreases Left(cursor, len)
  {
    var vb := next(cursor);
    assert SaneVarbind(vb, len);
    if vb.value.EndOfMibView? || !(root <= vb.oid) {
    } else if Less(cursor, vb.oid) {
      var rest := NextWalk(next, root, vb.oid, len);
      RankMonotone(cursor, vb.oid, len);
      NextWalkAscends(next, root, vb.oid, len);
      UnderCons(col, vb.oid, rest);
      LessTotal(vb.oid, col);
      assert NextWalk(next, root, cursor, len)[0] == vb.oid;
      if Less(vb.oid, col) {
        PrefixBelow(col, vb.oid);
        SameFromBefore(next, stored, root, col, vb.oid, len);
      } else if col <= vb.oid {
        EnterByStep(next, stored, col, cursor);
        SameInside(next, root, col, vb.oid, len);
      } else {
        NothingUnder(col, rest, vb.oid);
      }
    } else {
      var target := SkipTarget(cursor, vb.oid);
      SkipAdvances(root, cursor, vb.oid, len);
      RankMonotone(cursor, target, len);
      if root <= target {
        LessTotal(target, col);
        if target == col {
          SameInside(next, root, col, col, len);
        } else if Less(target, col) {
          SameFromBefore(next, stored, root, col, target, len);
        } else {
          SkipNotInto(col, cursor, vb.oid);
          NextWalkAscends(next, root, target, len);
          NothingUnder(col, NextWalk(next, root, target, len), target);
        }
      }
    }
  }

  // ---------- Subtrees, inventories, trials ----------

  /** A subtree the reference walk completed. */
  ghost predicate Completed(next: Successor, st: Subtree, len: nat)
    requires SaneSuccessor(next, len)
  {
    !st.partial && Sane(st.root, len) && PlainlyWalked(next, st, len) && Columns(st.root, st.oids, st.columns)
  }

  lemma ColumnPrefix(root: Arcs, o: Arcs)
    requires root <= o && |o| >= |root| + 2
    ensures root + [o[|root|], o[|root| + 1]] <= o
  {
    assert o[..|root| + 2] == o[..|root|] + [o[|root|], o[|root| + 1]];
  }

  lemma UnderHas(p: Arcs, s: seq<Arcs>, o: Arcs)
    ensures o in Under(p, s) <==> o in s && p <= o
  {
    UnderBag(p, s, o);
    assert o in s <==> o in multiset(s);
    assert o in Under(p, s) <==> o in multiset(Under(p, s));
  }

  lemma InBag(s: seq<Arcs>, o: Arcs)
    ensures o in multiset(s) <==> o in s
  {
  }

  lemma PrefixSane(p: Arcs, o: Arcs, len: nat)
    requires p <= o && Sane(o, len)
    ensures Sane(p, len)
  {
    assert forall k :: 0 <= k < |p| ==> p[k] == o[k];
  }

  lemma InferredColumn(next: Successor, stored: set<Arcs>, st: Subtree, k: nat, len: nat)
    requires SaneSuccessor(next, len) && Misordering(next, stored) && Completed(next, st, len)
    requires st.IsTable() && k < |st.oids|
    ensures TableShaped(st.root, st.oids)
    ensures var c := st.root + [1, st.oids[k][|st.root| + 1]];
            c <= st.oids[k] && Sane(c, len) && Under(c, st.oids) == NextWalk(next, c, c, len)
  {
    var o := st.oids[k];
    var c := st.root + [1, o[|st.root| + 1]];
    NextWalkAscends(next, st.root, st.root, len);
    assert o in st.oids;
    ColumnPrefix(st.root, o);
    PrefixSane(c, o, len);
    PrefixNotAbove(st.root, c);
    assert c !in st.oids;
    SameFromBefore(next, stored, st.root, c, st.root, len);
    UnderHas(c, st.oids, o);
  }

  lemma TableAgrees(next: Successor, stored: set<Arcs>, st: Subtree, i: nat, len: nat)
    requires SaneSuccessor(next, len) && Misordering(next, stored) && Completed(next, st, len)
    requires st.IsTable() && i < |st.columns|
    ensures var c := TableOf(st).columns[i];
            c != [] && Sane(c, len) && Under(c, st.oids) == NextWalk(next, c, c, len)
  {
    assert st.columns[i] in st.columns;
    var k :| 0 <= k < |st.oids| && st.oids[k][|st.root| + 1] == st.columns[i];
    InferredColumn(next, stored, st, k, len);
  }

  lemma TableCovers(next: Successor, stored: set<Arcs>, st: Subtree, o: Arcs, len: nat)
    requires SaneSuccessor(next, len) && Misordering(next, stored) && Completed(next, st, len)
    requires st.IsTable() && o in st.oids
    ensures exists c :: c in TableOf(st).columns && c <= o
  {
    var k :| 0 <= k < |st.oids| && st.oids[k] == o;
    InferredColumn(next, stored, st, k, len);
    assert o[|st.root| + 1] in st.columns;
    var i :| 0 <= i < |st.columns| && st.columns[i] == o[|st.root| + 1];
    assert TableOf(st).columns[i] in TableOf(st).columns;
  }

  /** The inferred columns partition what the reference walk found, and each walked
      alone yields exactly its part, in the same order. */
  lemma SubtreeAgrees(next: Successor, stored: set<Arcs>, st: Subtree, len: nat)
    requires SaneSuccessor(next, len) && Misordering(next, stored) && Completed(next, st, len)
    ensures SaneColumns(TableOf(st).columns, len) && NonNested(TableOf(st).columns)
    ensures forall c :: c in TableOf(st).columns ==>
              c != [] && |c| <= len && Under(c, st.oids) == NextWalk(next, c, c, len)
    ensures forall o :: o in st.oids ==> exists c :: c in TableOf(st).columns && c <= o
  {
    hide Misordering, Under, NextWalk;
    var cols := TableOf(st).columns;
    if st.IsTable() {
      forall i | 0 <= i < |cols|
        ensures cols[i] != [] && Sane(cols[i], len) && Under(cols[i], st.oids) == NextWalk(next, cols[i], cols[i], len)
      {
        TableAgrees(next, stored, st, i, len);
      }
      forall o | o in st.oids ensures exists c :: c in cols && c <= o {
        TableCovers(next, stored, st, o, len);
      }
      forall i, j | 0 <= i < j < |cols| ensures Apart(cols[i], cols[j]) {
        assert cols[i][|st.root| + 1] != cols[j][|st.root| + 1];
      }
    } else {
      NextWalkAscends(next, st.root, st.root, len);
      forall i | 0 <= i < |st.oids| ensures st.root <= st.oids[i] {
        assert st.oids[i] in st.oids;
      }
      UnderAll(st.root, st.oids);
      assert cols == [st.root] && st.root in cols;
    }
  }

  ghost predicate Inferred(next: Successor, inv: Inventory, w: Workload, len: nat)
    requires SaneSuccessor(next, len)
  {
    && |w.tables| == |inv.subtrees|
    && forall k :: 0 <= k < |w.tables| ==>
         w.tables[k] == TableOf(inv.subtrees[k]) && Completed(next, inv.subtrees[k], len)
  }

  /** What Walk and FromInventory promise puts a complete inventory in scope. */
  lemma WalkInfers(next: Successor, roots: seq<Arcs>, inv: Inventory, w: Workload, len: nat)
    requires SaneSuccessor(next, len) && forall i :: 0 <= i < |roots| ==> Sane(roots[i], len)
    requires AllSurveyed(roots, inv) && AllPlainlyWalked(next, inv.subtrees, len) && !inv.partial
    requires |w.tables| == |inv.subtrees| && forall k :: 0 <= k < |w.tables| ==> w.tables[k] == TableOf(inv.subtrees[k])
    ensures Inferred(next, inv, w, len)
  {
    forall k | 0 <= k < |w.tables| ensures Completed(next, inv.subtrees[k], len) {
      assert Surveyed(inv.subtrees[k]) && PlainlyWalked(next, inv.subtrees[k], len);
    }
  }

  lemma InferredSane(next: Successor, stored: set<Arcs>, inv: Inventory, w: Workload, len: nat)
    requires SaneSuccessor(next, len) && Misordering(next, stored) && Inferred(next, inv, w, len)
    ensures SaneWorkload(w, len)
  {
    forall t | t in w.tables ensures SaneColumns(t.columns, len) {
      var k :| 0 <= k < |w.tables| && w.tables[k] == t;
      SubtreeAgrees(next, stored, inv.subtrees[k], len);
    }
  }

  lemma ReferenceOIDCollected(next: Successor, stored: set<Arcs>, inv: Inventory, w: Workload, k: nat, o: Arcs,
                              len: nat)
    requires SaneSuccessor(next, len) && Misordering(next, stored) && Inferred(next, inv, w, len)
    requires k < |inv.subtrees| && o in inv.subtrees[k].oids
    requires SaneColumns(AllColumns(w.tables), len)
    ensures o in GroundTruth(inv.subtrees, w)
    ensures o in WalkBag(next, AllColumns(w.tables), len)
  {
    var st := inv.subtrees[k];
    SubtreeAgrees(next, stored, st, len);
    var c :| c in TableOf(st).columns && c <= o;
    var i :| 0 <= i < |TableOf(st).columns| && TableOf(st).columns[i] == c;
    assert w.tables[k].base == st.root && w.tables[k].columns[i] <= o;
    assert AsksFor(w, st.root, o);
    GroundTruthHas(inv.subtrees, w, o);
    UnderHas(c, st.oids, o);
    HasColumn(w.tables, c);
    WalkBagHas(next, AllColumns(w.tables), len, o);
  }

  lemma AllCollected(next: Successor, stored: set<Arcs>, inv: Inventory, w: Workload, len: nat)
    requires SaneSuccessor(next, len) && Misordering(next, stored) && Inferred(next, inv, w, len)
    requires SaneColumns(AllColumns(w.tables), len)
    ensures forall k, o :: 0 <= k < |inv.subtrees| && o in inv.subtrees[k].oids ==> o in GroundTruth(inv.subtrees, w)
    ensures forall o :: o in GroundTruth(inv.subtrees, w) ==> o in WalkBag(next, AllColumns(w.tables), len)
  {
    forall k, o | 0 <= k < |inv.subtrees| && o in inv.subtrees[k].oids ensures o in GroundTruth(inv.subtrees, w) {
      ReferenceOIDCollected(next, stored, inv, w, k, o, len);
    }
    forall o | o in GroundTruth(inv.subtrees, w) ensures o in WalkBag(next, AllColumns(w.tables), len) {
      GroundTruthHas(inv.subtrees, w, o);
      var k :| 0 <= k < |inv.subtrees| && o in inv.subtrees[k].oids;
      ReferenceOIDCollected(next, stored, inv, w, k, o, len);
    }
  }

  /** Trial and reference agree. Let an agent answer every cursor truly except that at
      stored instances it may answer backwards, and let the reference walk have
      completed its subtrees. Then for every valid R and V, and however either side's
      replies were cut, a trial over the inferred workload completes, every reference
      OID counts as asked for, and none of them is missing. */
  lemma TrialMissesNothing(next: Successor, stored: set<Arcs>, inv: Inventory, w: Workload, tr: Transport,
                           s: Settings, len: nat)
    requires SaneSuccessor(next, len) && Misordering(next, stored) && Inferred(next, inv, w, len)
    requires SaneAgent(tr, len) && Memoryless(tr, next, len) && Valid(s)
    ensures SaneWorkload(w, len)
    ensures var (res, end) := RunWalk(tr, w, s, len);
            end == Complete && CountMissing(GroundTruth(inv.subtrees, w), res.oids) == 0
    ensures forall k, o :: 0 <= k < |inv.subtrees| && o in inv.subtrees[k].oids ==> o in GroundTruth(inv.subtrees, w)
  {
    InferredSane(next, stored, inv, w, len);
    RunRefinesGetNext(next, tr, w, s, len);
    AllCollected(next, stored, inv, w, len);
    var truth, got := GroundTruth(inv.subtrees, w), RunWalk(tr, w, s, len).0.oids;
    forall o | o in truth ensures o in got {
      InBag(got, o);
    }
    MissingNone(truth, got);
  }

  /** If moreover no root lies under another, the trial collects of every column the
      very list, in the very order, that the reference walk found there. */
  lemma TrialRepeatsReference(next: Successor, stored: set<Arcs>, inv: Inventory, w: Workload, tr: Transport,
                              s: Settings,
                              len: nat, k: nat, c: Arcs)
    requires SaneSuccessor(next, len) && Misordering(next, stored) && Inferred(next, inv, w, len)
    requires SaneAgent(tr, len) && Memoryless(tr, next, len) && Valid(s)
    requires NonNested(AllColumns(w.tables)) && k < |w.tables| && c in w.tables[k].columns
    ensures SaneWorkload(w, len)
    ensures Under(c, RunWalk(tr, w, s, len).0.oids) == Under(c, inv.subtrees[k].oids)
  {
    InferredSane(next, stored, inv, w, len);
    HasColumn(w.tables, c);
    RunKeepsColumnOrder(next, tr, w, s, c, len);
    SubtreeAgrees(next, stored, inv.subtrees[k], len);
  }
}
