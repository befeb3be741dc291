/** What one trial queries (internal/workload/workload.go), and the reference OIDs a
    trial over it is checked against (internal/search/search.go:241-256). */
module Workloads {
  import opened Oid
  import opened Inventory

  /** One set of columns walked together. */
  datatype Table = Table(base: Arcs, columns: seq<Arcs>)

  datatype Workload = Workload(tables: seq<Table>, scalars: seq<Arcs>)

  /** All columns of a workload, table by table. */
  function AllColumns(tables: seq<Table>): seq<Arcs> {
    if tables == [] then [] else tables[0].columns + AllColumns(tables[1..])
  }

  lemma {:induction false} HasColumn(tables: seq<Table>, c: Arcs)
    ensures c in AllColumns(tables) <==> exists k :: 0 <= k < |tables| && c in tables[k].columns
  {
    if tables != [] {
      HasColumn(tables[1..], c);
      if k :| 0 <= k < |tables| && c in tables[k].columns {
        if k > 0 { assert tables[1..][k - 1] == tables[k]; }
      }
      if k :| 0 <= k < |tables[1..]| && c in tables[1..][k].columns {
        assert tables[k + 1] == tables[1..][k];
      }
    }
  }

  /** Inferred columns for a table-shaped subtree, a single column for any other. */
  function TableOf(st: Subtree): (t: Table)
    ensures t.base == st.root
  {
    Table(st.root,
          if st.IsTable() then seq(|st.columns|, i requires 0 <= i < |st.columns| => st.root + [1, st.columns[i]])
          else [st.root])
  }

  method FromInventory(inv: Inventory) returns (w: Workload)
    ensures w.scalars == [] && |w.tables| == |inv.subtrees|
    ensures forall k :: 0 <= k < |w.tables| ==> w.tables[k] == TableOf(inv.subtrees[k])
  {
    w := Workload([], []);
    for k := 0 to |inv.subtrees|
      invariant w.scalars == [] && |w.tables| == k
      invariant forall m :: 0 <= m < k ==> w.tables[m] == TableOf(inv.subtrees[m])
    {
      var st := inv.subtrees[k];
      var columns := [];
      if st.IsTable() {
        for i := 0 to |st.columns|
          invariant |columns| == i
          invariant forall m :: 0 <= m < i ==> columns[m] == st.root + [1, st.columns[m]]
        {
          columns := columns + [st.root + [1, st.columns[i]]];
        }
      } else {
        columns := [st.root];
      }
      assert columns == TableOf(st).columns;
      w := w.(tables := w.tables + [Table(st.root, columns)]);
    }
  }

  /** The largest column count of these tables. */
  function Width(tables: seq<Table>): nat {
    if tables == [] then 0 else
    var rest, n := Width(tables[..|tables| - 1]), |tables[|tables| - 1].columns|;
    if rest < n then n else rest
  }

  lemma {:induction false} WidthIsMax(tables: seq<Table>)
    ensures forall k :: 0 <= k < |tables| ==> |tables[k].columns| <= Width(tables)
    ensures Width(tables) == 0 || exists k :: 0 <= k < |tables| && |tables[k].columns| == Width(tables)
  {
    if tables != [] {
      var n := |tables| - 1;
      WidthIsMax(tables[..n]);
      assert forall k :: 0 <= k < n ==> tables[..n][k] == tables[k];
    }
  }

  method WidestTable(w: Workload) returns (n: nat)
    ensures n == Width(w.tables)
    ensures forall k :: 0 <= k < |w.tables| ==> |w.tables[k].columns| <= n
    ensures n == 0 || exists k :: 0 <= k < |w.tables| && |w.tables[k].columns| == n
  {
    n := 0;
    for k := 0 to |w.tables|
      invariant n == Width(w.tables[..k])
    {
      assert w.tables[..k + 1][..k] == w.tables[..k];
      n := if n < |w.tables[k].columns| then |w.tables[k].columns| else n;
    }
    assert w.tables[..|w.tables|] == w.tables;
    WidthIsMax(w.tables);
  }

  // ---------- The ground truth of a trial ----------

  /** Some table of the workload based on this root walks over o. */
  ghost predicate AsksFor(w: Workload, root: Arcs, o: Arcs) {
    exists k, i :: 0 <= k < |w.tables| && w.tables[k].base == root &&
                   0 <= i < |w.tables[k].columns| && w.tables[k].columns[i] <= o
  }

  ghost function KeepAsked(w: Workload, root: Arcs, oids: seq<Arcs>): seq<Arcs> {
    if oids == [] then [] else
    var n := |oids| - 1;
    KeepAsked(w, root, oids[..n]) + if AsksFor(w, root, oids[n]) then [oids[n]] else []
  }

  /** The inventory's OIDs in their order, without those the workload does not walk. */
  ghost function GroundTruth(subtrees: seq<Subtree>, w: Workload): seq<Arcs> {
    if subtrees == [] then [] else
    var n := |subtrees| - 1;
    GroundTruth(subtrees[..n], w) + KeepAsked(w, subtrees[n].root, subtrees[n].oids)
  }

  lemma {:induction false} KeptHas(w: Workload, root: Arcs, oids: seq<Arcs>, o: Arcs)
    ensures o in KeepAsked(w, root, oids) <==> o in oids && AsksFor(w, root, o)
  {
    if oids != [] {
      KeptHas(w, root, oids[..|oids| - 1], o);
      assert oids == oids[..|oids| - 1] + [oids[|oids| - 1]];
    }
  }

  /** The ground truth is exactly what was inventoried and is asked for. */
  lemma {:induction false} GroundTruthHas(subtrees: seq<Subtree>, w: Workload, o: Arcs)
    ensures o in GroundTruth(subtrees, w) <==>
              exists k :: 0 <= k < |subtrees| && o in subtrees[k].oids && AsksFor(w, subtrees[k].root, o)
  {
    if subtrees != [] {
      var n := |subtrees| - 1;
      GroundTruthHas(subtrees[..n], w, o);
      KeptHas(w, subtrees[n].root, subtrees[n].oids, o);
      assert forall k :: 0 <= k < n ==> subtrees[..n][k] == subtrees[k];
    }
  }

  /** It keeps the order of the inventory and of its subtrees. */
  lemma {:induction false} KeepAskedOrder(w: Workload, root: Arcs, a: seq<Arcs>, b: seq<Arcs>)
    ensures KeepAsked(w, root, a + b) == KeepAsked(w, root, a) + KeepAsked(w, root, b)
  {
    if b == [] {
      assert a + b == a;
    } else {
      KeepAskedOrder(w, root, a, b[..|b| - 1]);
      assert (a + b)[..|a + b| - 1] == a + b[..|b| - 1];
    }
  }

  lemma {:induction false} GroundTruthOrder(a: seq<Subtree>, b: seq<Subtree>, w: Workload)
    ensures GroundTruth(a + b, w) == GroundTruth(a, w) + GroundTruth(b, w)
  {
    hide KeepAsked;
    if b == [] {
      assert a + b == a;
    } else {
      GroundTruthOrder(a, b[..|b| - 1], w);
      assert (a + b)[..|a + b| - 1] == a + b[..|b| - 1];
    }
  }

  /** cols are the columns of all tables based on this root. */
  ghost predicate ColumnsOf(w: Workload, root: Arcs, upTo: nat, cols: seq<Arcs>)
    requires upTo <= |w.tables|
  {
    forall c :: c in cols <==> exists k :: 0 <= k < upTo && w.tables[k].base == root && c in w.tables[k].columns
  }

  lemma ColumnsAsk(w: Workload, root: Arcs, cols: seq<Arcs>, o: Arcs)
    requires ColumnsOf(w, root, |w.tables|, cols)
    ensures (exists c :: c in cols && c <= o) <==> AsksFor(w, root, o)
  {
    if AsksFor(w, root, o) {
      var k, i :| 0 <= k < |w.tables| && w.tables[k].base == root &&
                  0 <= i < |w.tables[k].columns| && w.tables[k].columns[i] <= o;
      assert w.tables[k].columns[i] in cols;
    }
  }

  /** search.referenceOIDs. */
  method ReferenceOIDs(subtrees: seq<Subtree>, w: Workload) returns (ref: seq<Arcs>)
    ensures ref == GroundTruth(subtrees, w)
  {
    ref := [];
    for k := 0 to |subtrees|
      invariant ref == GroundTruth(subtrees[..k], w)
    {
      var st := subtrees[k];
      var cols := [];
      for t := 0 to |w.tables|
        invariant ColumnsOf(w, st.root, t, cols)
      {
        if w.tables[t].base == st.root {
          cols := cols + w.tables[t].columns;
        }
      }
      ghost var before := ref;
      for i := 0 to |st.oids|
        invariant ref == before + KeepAsked(w, st.root, st.oids[..i])
      {
        assert st.oids[..i + 1][..i] == st.oids[..i];
        ColumnsAsk(w, st.root, cols, st.oids[i]);
        if exists c | c in cols :: c <= st.oids[i] {
          ref := ref + [st.oids[i]];
        }
      }
      assert st.oids[..|st.oids|] == st.oids;
      assert subtrees[..k + 1][..k] == subtrees[..k];
    }
    assert subtrees[..|subtrees|] == subtrees;
  }

  /** How many reference OIDs are absent from got. */
  function CountMissing(ref: seq<Arcs>, got: seq<Arcs>): nat {
    if ref == [] then 0 else
    CountMissing(ref[..|ref| - 1], got) + if ref[|ref| - 1] in got then 0 else 1
  }

  /** Where the absent ones are. */
  function Absent(ref: seq<Arcs>, got: seq<Arcs>): set<nat> {
    set k: nat | 0 <= k < |ref| && ref[k] !in got
  }

  lemma AbsentSnoc(ref: seq<Arcs>, got: seq<Arcs>)
    requires ref != []
    ensures |Absent(ref, got)| == |Absent(ref[..|ref| - 1], got)| + if ref[|ref| - 1] in got then 0 else 1
  {
    var n := |ref| - 1;
    assert forall k :: 0 <= k < n ==> ref[..n][k] == ref[k];
    assert Absent(ref, got) == Absent(ref[..n], got) + if ref[n] in got then {} else {n};
  }

  lemma {:induction false} MissingCounts(ref: seq<Arcs>, got: seq<Arcs>)
    ensures CountMissing(ref, got) == |Absent(ref, got)|
  {
    if ref == [] {
      assert Absent(ref, got) == {};
    } else {
      hide Absent;
      MissingCounts(ref[..|ref| - 1], got);
      AbsentSnoc(ref, got);
    }
  }

  /** walk.Missing, over a set of what was seen: every absent reference OID is counted. */
  method Missing(ref: seq<Arcs>, got: seq<Arcs>) returns (n: nat)
    ensures n == CountMissing(ref, got) == |set k: nat | 0 <= k < |ref| && ref[k] !in got|
  {
    MissingCounts(ref, got);
    var seen: set<Arcs> := {};
    for i := 0 to |got|
      invariant forall o :: o in seen <==> o in got[..i]
    {
      assert got[..i + 1] == got[..i] + [got[i]];
      seen := seen + {got[i]};
    }
    assert got[..|got|] == got;
    n := 0;
    for i := 0 to |ref|
      invariant n == CountMissing(ref[..i], got)
    {
      assert ref[..i + 1][..i] == ref[..i];
      if ref[i] !in seen {
        n := n + 1;
      }
    }
    assert ref[..|ref|] == ref;
  }

  /** Extra OIDs are ignored and none is missing exactly when all are there. */
  lemma {:induction false} MissingNone(ref: seq<Arcs>, got: seq<Arcs>)
    ensures CountMissing(ref, got) == 0 <==> forall o :: o in ref ==> o in got
    ensures CountMissing(ref, got) <= |ref|
  {
    if ref != [] {
      MissingNone(ref[..|ref| - 1], got);
      assert ref == ref[..|ref| - 1] + [ref[|ref| - 1]];
    }
  }
}
