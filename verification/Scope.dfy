/** What a trial misses of the reference walk when its workload is not inferred from it:
    columns as a datacollection group lists them (internal/workload/workload.go:99-147,
    internal/search/search.go:238-256). */
module Scope {
  import opened Oid
  import opened Agent
  import opened Column
  import opened Reference
  import opened Inventory
  import opened Workloads
  import opened Walk
  import opened Run
  import opened Completeness
  import opened Agreement

  // ---------- One column ----------

  /** When the walk of the root collects the column's own OID, what it collects of the
      column is that and the walk of the column. */
  lemma {:induction false} SameThrough(next: Successor, root: Arcs, col: Arcs, cursor: Arcs, len: nat)
    requires SaneSuccessor(next, len) && root != [] && root <= col && root <= cursor
    requires |cursor| <= len && |col| <= len && col in NextWalk(next, root, cursor, len)
    ensures Under(col, NextWalk(next, root, cursor, len)) == [col] + NextWalk(next, col, col, len)
    decreases Left(cursor, len)
  {
    var vb := next(cursor);
    assert SaneVarbind(vb, len);
    NextWalkAscends(next, root, cursor, len);
    if Less(cursor, vb.oid) {
      RankMonotone(cursor, vb.oid, len);
      UnderCons(col, vb.oid, NextWalk(next, root, vb.oid, len));
      if vb.oid == col {
        SameInside(next, root, col, col, len);
      } else {
        NextWalkAscends(next, root, vb.oid, len);
        PrefixBelow(col, vb.oid);
        SameThrough(next, root, col, vb.oid, len);
      }
    } else {
      SkipAdvances(root, cursor, vb.oid, len);
      RankMonotone(cursor, SkipTarget(cursor, vb.oid), len);
      SameThrough(next, root, col, SkipTarget(cursor, vb.oid), len);
    }
  }

  /** The walk of any column of a completed subtree collects all that the reference
      walk found at or under it, except the OID of the column itself. */
  lemma ColumnCollects(next: Successor, stored: set<Arcs>, st: Subtree, c: Arcs, o: Arcs, len: nat)
    requires SaneSuccessor(next, len) && Misordering(next, stored) && Completed(next, st, len)
    requires st.root <= c && Sane(c, len) && o in st.oids && c <= o
    ensures o in NextWalk(next, c, c, len) <==> o != c
  {
    var own := NextWalk(next, c, c, len);
    NextWalkAscends(next, c, c, len);
    LessTotal(c, c);
    UnderHas(c, st.oids, o);
    if c == st.root {
      NextWalkAscends(next, st.root, st.root, len);
    } else if c in st.oids {
      SameThrough(next, st.root, c, st.root, len);
    } else {
      PrefixNotAbove(st.root, c);
      SameFromBefore(next, stored, st.root, c, st.root, len);
    }
  }

  // ---------- Trials ----------

  /** Every column lies at or under the base of its table, as parentOID makes it. */
  predicate Based(w: Workload) {
    forall t, c :: t in w.tables && c in t.columns ==> t.base <= c
  }

  ghost predicate AllCompleted(next: Successor, subtrees: seq<Subtree>, len: nat)
    requires SaneSuccessor(next, len)
  {
    forall st :: st in subtrees ==> Completed(next, st, len)
  }

  /** A column the OID is strictly under. */
  ghost predicate StrictlyUnder(cols: seq<Arcs>, o: Arcs) {
    exists c :: c in cols && c <= o && c != o
  }

  lemma CollectedUnder(next: Successor, w: Workload, o: Arcs, len: nat)
    requires SaneSuccessor(next, len) && SaneColumns(AllColumns(w.tables), len)
    requires o in WalkBag(next, AllColumns(w.tables), len)
    ensures StrictlyUnder(AllColumns(w.tables), o)
  {
    var cols := AllColumns(w.tables);
    WalkBagHas(next, cols, len, o);
    var c :| c in cols && o in NextWalk(next, c, c, len);
    NextWalkAscends(next, c, c, len);
    LessTotal(c, c);
  }

  /** Some column of a table based on that root is the one that asks for it. */
  lemma Asking(w: Workload, root: Arcs, o: Arcs) returns (c: Arcs)
    requires AsksFor(w, root, o) && Based(w)
    ensures c in AllColumns(w.tables) && root <= c && c <= o
  {
    var t, i :| 0 <= t < |w.tables| && w.tables[t].base == root
                && 0 <= i < |w.tables[t].columns| && w.tables[t].columns[i] <= o;
    c := w.tables[t].columns[i];
    assert w.tables[t] in w.tables && c in w.tables[t].columns;
    HasColumn(w.tables, c);
  }

  lemma AskedCollected(next: Successor, stored: set<Arcs>, subtrees: seq<Subtree>, w: Workload, o: Arcs, len: nat)
    requires SaneSuccessor(next, len) && Misordering(next, stored) && AllCompleted(next, subtrees, len)
    requires Based(w) && SaneColumns(AllColumns(w.tables), len) && o in GroundTruth(subtrees, w)
    ensures o in WalkBag(next, AllColumns(w.tables), len) || o in AllColumns(w.tables)
  {
    hide Misordering, NextWalk, AsksFor, GroundTruth, AllColumns, Based;
    GroundTruthHas(subtrees, w, o);
    var k :| 0 <= k < |subtrees| && o in subtrees[k].oids && AsksFor(w, subtrees[k].root, o);
    var c := Asking(w, subtrees[k].root, o);
    ColumnCollects(next, stored, subtrees[k], c, o, len);
    WalkBagHas(next, AllColumns(w.tables), len, o);
  }

  lemma NotUnderAnother(cols: seq<Arcs>, o: Arcs)
    requires NonNested(cols) && o in cols
    ensures !StrictlyUnder(cols, o)
  {
    forall c | c in cols && c <= o ensures c == o {
      var i, j :| 0 <= i < |cols| && 0 <= j < |cols| && cols[i] == o && cols[j] == c;
    }
  }

  /** What a trial over any workload misses, at any R and V and however the agent cuts its
      replies: at most reference OIDs that are themselves columns; if no column lies under
      another, exactly these. It misses nothing exactly when no column is one. */
  lemma TrialMissesExactly(next: Successor, stored: set<Arcs>, subtrees: seq<Subtree>, w: Workload, tr: Transport,
                           s: Settings, len: nat)
    requires SaneSuccessor(next, len) && Misordering(next, stored) && AllCompleted(next, subtrees, len)
    requires SaneAgent(tr, len) && Memoryless(tr, next, len) && SaneWorkload(w, len) && Based(w) && Valid(s)
    ensures var (res, end), truth, cols := RunWalk(tr, w, s, len), GroundTruth(subtrees, w), AllColumns(w.tables);
            && end == Complete
            && (forall o :: o in truth ==> o in res.oids || o in cols)
            && ((forall c :: c in cols ==> c !in truth) ==> CountMissing(truth, res.oids) == 0)
            && (NonNested(cols) ==>
                  && (forall o :: o in truth ==> (o in res.oids <==> o !in cols))
                  && (CountMissing(truth, res.oids) == 0 <==> forall c :: c in cols ==> c !in truth))
  {
    RunRefinesGetNext(next, tr, w, s, len);
    var truth, got, cols := GroundTruth(subtrees, w), RunWalk(tr, w, s, len).0.oids, AllColumns(w.tables);
    MissingNone(truth, got);
    forall o | o in truth
      ensures o in got || o in cols
      ensures o in got ==> StrictlyUnder(cols, o)
    {
      InBag(got, o);
      AskedCollected(next, stored, subtrees, w, o, len);
      if o in got { CollectedUnder(next, w, o, len); }
    }
    if NonNested(cols) {
      forall o | o in cols ensures !StrictlyUnder(cols, o) {
        NotUnderAnother(cols, o);
      }
    }
  }

  // ---------- A column that is itself an instance ----------

  /** An agent that stores this one OID. */
  function Alone(o: Arcs): Successor {
    c => if Less(c, o) then Varbind(o, Data) else Varbind(c, EndOfMibView)
  }

  lemma AloneWalks(o: Arcs, base: Arcs, len: nat)
    requires Sane(o, len) && base != [] && base <= o && base != o
    ensures SaneSuccessor(Alone(o), len) && Misordering(Alone(o), {o})
    ensures NextWalk(Alone(o), base, base, len) == [o] && SkippedBy(Alone(o), base, base, len) == []
  {
    LessTotal(o, o);
    PrefixNotAbove(base, o);
    assert NextWalk(Alone(o), base, o, len) == [] && SkippedBy(Alone(o), base, o, len) == [];
  }

  /** The OID an agent stores, such as sysUpTime.0, given as a column, with the base two
      arcs above it: the reference walk finds it, the trial asks for it, and no trial at any
      R and V ever collects it. */
  lemma InstanceColumnMissed(o: Arcs, tr: Transport, s: Settings, len: nat)
    requires |o| >= 3 && Sane(o, len) && Valid(s)
    requires SaneAgent(tr, len) && Memoryless(tr, Alone(o), len)
    ensures SaneSuccessor(Alone(o), len) && Misordering(Alone(o), {o})
    ensures var base := o[..|o| - 2];
            var st, w := Subtree(base, [o], 0, [], [], false), Workload([Table(base, [o])], []);
            && Completed(Alone(o), st, len) && SaneWorkload(w, len) && o in GroundTruth([st], w)
            && o !in RunWalk(tr, w, s, len).0.oids
            && CountMissing(GroundTruth([st], w), RunWalk(tr, w, s, len).0.oids) > 0
  {
    var base := o[..|o| - 2];
    var st, w := Subtree(base, [o], 0, [], [], false), Workload([Table(base, [o])], []);
    AloneWalks(o, base, len);
    HasColumn(w.tables, o);
    assert AllColumns(w.tables) == [o];
    assert w.tables[0].base == base && w.tables[0].columns[0] <= o;
    GroundTruthHas([st], w, o);
    TrialMissesExactly(Alone(o), {o}, [st], w, tr, s, len);
  }
}
