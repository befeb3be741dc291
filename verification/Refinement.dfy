/** The bulk walk refines the plain one-cursor GetNext walk, for every chunk of
    columns, every max-repetitions and every way the agent cuts its replies. */
module Refinement {
  import opened Arithmetic
  import opened Oid
  import opened Agent
  import opened Column
  import opened Walk

  // ---------- Bags of OIDs over lists of columns ----------

  ghost function Bag(f: Col -> multiset<Arcs>, cols: seq<Col>): multiset<Arcs> {
    if cols == [] then multiset{} else Bag(f, cols[..|cols| - 1]) + f(cols[|cols| - 1])
  }

  ghost function GotOf(c: Col): multiset<Arcs> { multiset(c.got) }

  ghost function NameOf(c: Col): multiset<Arcs> { multiset{c.oid} }

  /** A bag that looks at nothing but the names of the columns. */
  ghost predicate ByName(f: Col -> multiset<Arcs>) {
    forall c: Col, d: Col :: c.oid == d.oid ==> f(c) == f(d)
  }

  lemma {:induction false} BagAppend(f: Col -> multiset<Arcs>, a: seq<Col>, b: seq<Col>)
    ensures Bag(f, a + b) == Bag(f, a) + Bag(f, b)
  {
    if b == [] {
      assert a + b == a;
    } else {
      BagAppend(f, a, b[..|b| - 1]);
      assert (a + b)[..|a + b| - 1] == a + b[..|b| - 1];
    }
  }

  lemma BagSnoc(f: Col -> multiset<Arcs>, cols: seq<Col>, c: Col)
    ensures Bag(f, cols + [c]) == Bag(f, cols) + f(c)
  {
    assert (cols + [c])[..|cols|] == cols;
  }

  lemma {:induction false} BagSplit(f: Col -> multiset<Arcs>, cols: seq<Col>)
    ensures Bag(f, cols) == Bag(f, Unfinished(cols)) + Bag(f, Finished(cols))
  {
    if cols != [] {
      var n := |cols| - 1;
      BagSplit(f, cols[..n]);
      if cols[n].finished {
        BagSnoc(f, Finished(cols[..n]), cols[n]);
        assert Unfinished(cols) == Unfinished(cols[..n]);
      } else {
        BagSnoc(f, Unfinished(cols[..n]), cols[n]);
        assert Finished(cols) == Finished(cols[..n]);
      }
    }
  }

  lemma {:induction false} BagSame(f: Col -> multiset<Arcs>, g: Col -> multiset<Arcs>, a: seq<Col>, b: seq<Col>)
    requires |a| == |b| && forall i :: 0 <= i < |a| ==> f(a[i]) == g(b[i])
    ensures Bag(f, a) == Bag(g, b)
  {
    if a != [] {
      BagSame(f, g, a[..|a| - 1], b[..|b| - 1]);
    }
  }

  lemma {:induction false} BagUpdate(f: Col -> multiset<Arcs>, cols: seq<Col>, i: nat, c: Col, extra: multiset<Arcs>)
    requires i < |cols| && f(c) == f(cols[i]) + extra
    ensures Bag(f, cols[i := c]) == Bag(f, cols) + extra
  {
    var n := |cols| - 1;
    if i == n {
      assert cols[i := c][..n] == cols[..n];
    } else {
      BagUpdate(f, cols[..n], i, c, extra);
      assert cols[i := c][..n] == cols[..n][i := c];
    }
  }

  // ---------- Every column stays on course ----------

  /** What the column has and what it will still get is the plain walk of it. */
  ghost predicate OnCourse(next: Successor, c: Col, len: nat)
    requires SaneSuccessor(next, len)
  {
    && c.oid != [] && |c.oid| <= len
    && (c.finished || Placed(c, len))
    && Destiny(next, c, len) == NextWalk(next, c.oid, c.oid, len)
  }

  ghost predicate AllOnCourse(next: Successor, cols: seq<Col>, len: nat)
    requires SaneSuccessor(next, len)
  {
    forall i :: 0 <= i < |cols| ==> OnCourse(next, cols[i], len)
  }

  /** Unless column i ignores the rest of the response, its cursor is the name the
      next varbind for it will follow. n varbinds were taken so far. */
  ghost predicate InStep(cols: seq<Col>, vbs: seq<Varbind>, n: nat, c: Col, i: nat)
    requires i < |cols| && n <= |vbs|
  {
    c.finished || c.jumped ||
    forall k :: 0 <= k <= |vbs| && n <= k < n + |cols| && k % |cols| == i ==>
      c.cursor == if k < |cols| then cols[i].cursor else vbs[k - |cols|].oid
  }

  ghost predicate AllInStep(cols: seq<Col>, vbs: seq<Varbind>, n: nat, now: seq<Col>)
    requires n <= |vbs|
  {
    |now| == |cols| && forall j :: 0 <= j < |cols| ==> InStep(cols, vbs, n, now[j], j)
  }

  /** A column left open by a varbind has its OID as the cursor. */
  lemma AbsorbedCursor(c: Col, vb: Varbind)
    requires c.cursor != []
    ensures c.finished || c.jumped ==> Absorb(c, vb) == c
    ensures !Absorb(c, vb).finished && !Absorb(c, vb).jumped ==> Absorb(c, vb).cursor == vb.oid
  {
  }

  lemma StepInStep(cols: seq<Col>, vbs: seq<Varbind>, n: nat, s: Scan, j: nat)
    requires n < |vbs| && cols != [] && |s.cols| == |cols| && HaveCursors(s.cols) && j < |cols|
    requires InStep(cols, vbs, n, s.cols[j], j)
    ensures var s' := ScanStep(s, n % |cols|, vbs[n]);
            InStep(cols, vbs, n + 1, s'.cols[j], j)
  {
    hide Absorb;
    var w := |cols|;
    var i := n % w;
    var c := s.cols[j];
    var c' := ScanStep(s, i, vbs[n]).cols[j];
    AbsorbedCursor(c, vbs[n]);
    forall k | 0 <= k <= |vbs| && n + 1 <= k < n + 1 + w && k % w == j && !c'.finished && !c'.jumped
      ensures c'.cursor == if k < w then cols[j].cursor else vbs[k - w].oid
    {
      if j == i {
        ModStep(n, w);
        if k < n + w {
          ModUnique(n, k, w);
        }
        assert k == n + w;
        assert c' == Absorb(c, vbs[n]);
      } else if k == n + w {
        ModStep(n, w);
      }
    }
  }

  lemma StepAllInStep(cols: seq<Col>, vbs: seq<Varbind>, n: nat, s: Scan)
    requires n < |vbs| && cols != [] && HaveCursors(s.cols) && AllInStep(cols, vbs, n, s.cols)
    ensures AllInStep(cols, vbs, n + 1, ScanStep(s, n % |cols|, vbs[n]).cols)
  {
    forall j | 0 <= j < |cols| ensures InStep(cols, vbs, n + 1, ScanStep(s, n % |cols|, vbs[n]).cols[j], j) {
      StepInStep(cols, vbs, n, s, j);
    }
  }

  lemma TakesSuccessor(next: Successor, cols: seq<Col>, vbs: seq<Varbind>, n: nat, c: Col)
    requires n < |vbs| && cols != [] && RowMajor(next, Cursors(cols), vbs)
    requires InStep(cols, vbs, n, c, n % |cols|) && !c.finished && !c.jumped
    ensures vbs[n] == next(c.cursor)
  {
    var w := |cols|;
    assert c.cursor == if n < w then cols[n % w].cursor else vbs[n - w].oid;
    if n < w {
      DivMod(n, w, 0, n);
    }
    assert c.cursor == Asked(Cursors(cols), vbs, n);
  }

  lemma ScanStepOnCourse(next: Successor, cols: seq<Col>, vbs: seq<Varbind>, n: nat, s: Scan, len: nat)
    requires SaneSuccessor(next, len) && n < |vbs| && cols != []
    requires RowMajor(next, Cursors(cols), vbs)
    requires AllInStep(cols, vbs, n, s.cols) && HaveCursors(s.cols) && AllOnCourse(next, s.cols, len)
    ensures AllOnCourse(next, ScanStep(s, n % |cols|, vbs[n]).cols, len)
  {
    var i := n % |cols|;
    var c := s.cols[i];
    assert OnCourse(next, c, len) && InStep(cols, vbs, n, c, i);
    if !c.finished && !c.jumped {
      TakesSuccessor(next, cols, vbs, n, c);
      assert SaneVarbind(next(c.cursor), len);
      AbsorbKeepsDestiny(next, c, vbs[n], len);
    } else {
      assert Absorb(c, vbs[n]) == c;
    }
    assert OnCourse(next, Absorb(c, vbs[n]), len);
  }

  lemma RewoundOnCourse(next: Successor, cols: seq<Col>, vbs: seq<Varbind>, len: nat)
    requires SaneSuccessor(next, len) && AllOnCourse(next, cols, len)
    ensures AllOnCourse(next, Rewound(cols), len)
    ensures AllInStep(cols, vbs, 0, Rewound(cols))
  {
    forall j | 0 <= j < |cols| ensures OnCourse(next, Rewound(cols)[j], len) {
      assert OnCourse(next, cols[j], len);
    }
  }

  /** Through a whole response every column stays on course, and what is gathered is
      what the columns got. */
  lemma {:induction false} ScanOnCourse(next: Successor, cols: seq<Col>, vbs: seq<Varbind>, n: nat, len: nat)
    requires SaneSuccessor(next, len) && n <= |vbs| && cols != [] && HaveCursors(cols)
    requires RowMajor(next, Cursors(cols), vbs)
    requires AllOnCourse(next, cols, len)
    ensures AllOnCourse(next, ScanTo(cols, vbs, n).cols, len)
    ensures AllInStep(cols, vbs, n, ScanTo(cols, vbs, n).cols)
  {
    hide RowMajor, AllOnCourse, AllInStep, Absorb, Accepts, Skips;
    if n == 0 {
      RewoundOnCourse(next, cols, vbs, len);
    } else {
      ScanOnCourse(next, cols, vbs, n - 1, len);
      var s := ScanTo(cols, vbs, n - 1);
      var s' := ScanStep(s, (n - 1) % |cols|, vbs[n - 1]);
      ScanStepOnCourse(next, cols, vbs, n - 1, s, len);
      StepAllInStep(cols, vbs, n - 1, s);
      assert ScanTo(cols, vbs, n) == s';
    }
  }

  lemma RewoundBags(f: Col -> multiset<Arcs>, cols: seq<Col>)
    requires ByName(f)
    ensures Bag(GotOf, Rewound(cols)) == Bag(GotOf, cols)
    ensures Bag(f, Rewound(cols)) == Bag(f, cols)
  {
    BagSame(GotOf, GotOf, Rewound(cols), cols);
    BagSame(f, f, Rewound(cols), cols);
  }

  lemma AbsorbGathers(f: Col -> multiset<Arcs>, s: Scan, i: nat, vb: Varbind, base: multiset<Arcs>)
    requires i < |s.cols| && HaveCursors(s.cols) && ByName(f)
    requires Bag(GotOf, s.cols) == base + multiset(s.oids)
    ensures var s' := ScanStep(s, i, vb);
            && Bag(GotOf, s'.cols) == base + multiset(s'.oids)
            && Bag(f, s'.cols) == Bag(f, s.cols)
  {
    var c := s.cols[i];
    var c' := Absorb(c, vb);
    BagUpdate(f, s.cols, i, c', multiset{});
    if Accepts(c, vb) {
      BagUpdate(GotOf, s.cols, i, c', multiset{vb.oid});
    } else {
      BagUpdate(GotOf, s.cols, i, c', multiset{});
    }
  }

  /** Against any agent, what a response adds to the result is what its columns got,
      and no column changes its name. */
  lemma {:induction false} ScanGathers(f: Col -> multiset<Arcs>, cols: seq<Col>, vbs: seq<Varbind>, n: nat)
    requires n <= |vbs| && cols != [] && HaveCursors(cols) && ByName(f)
    ensures var s := ScanTo(cols, vbs, n);
            && Bag(GotOf, s.cols) == Bag(GotOf, cols) + multiset(s.oids)
            && Bag(f, s.cols) == Bag(f, cols)
  {
    hide HaveCursors, Accepts, Skips, Absorb, Bag, Rewound;
    if n == 0 {
      RewoundBags(f, cols);
    } else {
      ScanGathers(f, cols, vbs, n - 1);
      var s := ScanTo(cols, vbs, n - 1);
      var i := (n - 1) % |cols|;
      AbsorbGathers(f, s, i, vbs[n - 1], Bag(GotOf, cols));
      assert ScanTo(cols, vbs, n) == ScanStep(s, i, vbs[n - 1]);
    }
  }

  // ---------- Whole walks of a chunk ----------

  /** All columns of a walk, finished or not. */
  ghost function AllOf(f: Col -> multiset<Arcs>, st: State): multiset<Arcs> {
    Bag(f, st.active) + Bag(f, st.retired)
  }

  lemma TurnBags(f: Col -> multiset<Arcs>, st: State, reps: Uint32, r: Reply)
    requires st.active != [] && HaveCursors(st.active)
    ensures AllOf(f, Turn(st, reps, r)) == Bag(f, ScanTo(st.active, r.varbinds, |r.varbinds|).cols) + Bag(f, st.retired)
  {
    var s := ScanTo(st.active, r.varbinds, |r.varbinds|);
    BagSplit(f, s.cols);
    BagAppend(f, st.retired, Finished(s.cols));
  }

  lemma TurnGathers(f: Col -> multiset<Arcs>, st: State, reps: Uint32, r: Reply, base: multiset<Arcs>)
    requires st.active != [] && HaveCursors(st.active) && ByName(f)
    requires multiset(st.res.oids) == base + AllOf(GotOf, st)
    ensures var st' := Turn(st, reps, r);
            multiset(st'.res.oids) == base + AllOf(GotOf, st') && AllOf(f, st') == AllOf(f, st)
  {
    var s := ScanTo(st.active, r.varbinds, |r.varbinds|);
    ScanGathers(f, st.active, r.varbinds, |r.varbinds|);
    TurnBags(f, st, reps, r);
    TurnBags(GotOf, st, reps, r);
    assert Turn(st, reps, r).res.oids == st.res.oids + s.oids;
    assert multiset(st.res.oids + s.oids) == multiset(st.res.oids) + multiset(s.oids);
  }

  /** Against any agent the collected OIDs are exactly, as a bag, those the columns
      got, and the columns of the chunk are conserved. */
  lemma {:induction false} TableGathers(f: Col -> multiset<Arcs>, tr: Transport, reps: Uint32, st: State, len: nat,
                                        base: multiset<Arcs>)
    requires SaneAgent(tr, len) && AllPlaced(st.active, len) && ByName(f)
    requires multiset(st.res.oids) == base + AllOf(GotOf, st)
    ensures var st' := TableWalk(tr, reps, st, len).0;
            multiset(st'.res.oids) == base + AllOf(GotOf, st') && AllOf(f, st') == AllOf(f, st)
    decreases Distance(st.active, len)
  {
    if st.active != [] && !tr.cancelled(|st.res.pdus|) {
      PlacedHaveCursors(st.active, len);
      var r := tr.bulk(|st.res.pdus|, Cursors(st.active), reps);
      assert SaneReply(r, len);
      if r.status.Answered? {
        TurnGathers(f, st, reps, r, base);
        TurnShrinks(st, reps, r, len);
        if r.varbinds != [] {
          TableGathers(f, tr, reps, Turn(st, reps, r), len, base);
        }
      }
    }
  }

  lemma {:induction false} SplitMembers(cols: seq<Col>, c: Col)
    ensures c in Unfinished(cols) ==> c in cols && !c.finished
    ensures c in Finished(cols) ==> c in cols && c.finished
  {
    if cols != [] {
      SplitMembers(cols[..|cols| - 1], c);
    }
  }

  /** Every finished column got exactly the plain walk of it. */
  ghost predicate Fulfilled(next: Successor, retired: seq<Col>, len: nat)
    requires SaneSuccessor(next, len)
  {
    forall c :: c in retired ==> c.finished && OnCourse(next, c, len)
  }

  lemma TurnOnCourse(next: Successor, st: State, reps: Uint32, r: Reply, len: nat)
    requires SaneSuccessor(next, len) && st.active != [] && HaveCursors(st.active)
    requires AllOnCourse(next, st.active, len) && Fulfilled(next, st.retired, len)
    requires RowMajor(next, Cursors(st.active), r.varbinds)
    ensures AllOnCourse(next, Turn(st, reps, r).active, len)
    ensures Fulfilled(next, Turn(st, reps, r).retired, len)
  {
    var vbs := r.varbinds;
    var s := ScanTo(st.active, vbs, |vbs|);
    ScanOnCourse(next, st.active, vbs, |vbs|, len);
    forall c ensures c in Unfinished(s.cols) || c in Finished(s.cols) ==> OnCourse(next, c, len)
             ensures c in Finished(s.cols) ==> c.finished {
      SplitMembers(s.cols, c);
    }
  }

  lemma PlacedProper(cols: seq<Col>, reps: Uint32, len: nat)
    requires cols != [] && reps > 0 && AllPlaced(cols, len)
    ensures Proper(Cursors(cols), reps, len)
  {
    forall i | 0 <= i < |cols| ensures |Cursors(cols)[i]| <= len {
      assert Placed(cols[i], len);
    }
  }

  lemma {:induction false} TableOnCourse(next: Successor, tr: Transport, reps: Uint32, st: State, len: nat)
    requires SaneSuccessor(next, len) && SaneAgent(tr, len) && Memoryless(tr, next, len)
    requires AllPlaced(st.active, len) && AllOnCourse(next, st.active, len) && Fulfilled(next, st.retired, len)
    requires reps > 0
    ensures var (st', end) := TableWalk(tr, reps, st, len);
            end == Done && st'.active == [] && Fulfilled(next, st'.retired, len)
    decreases Distance(st.active, len)
  {
    if st.active != [] {
      PlacedHaveCursors(st.active, len);
      var r := tr.bulk(|st.res.pdus|, Cursors(st.active), reps);
      PlacedProper(st.active, reps, len);
      assert SaneReply(r, len) && PrefixReply(next, Cursors(st.active), r);
      TurnShrinks(st, reps, r, len);
      TurnOnCourse(next, st, reps, r, len);
      TableOnCourse(next, tr, reps, Turn(st, reps, r), len);
    }
  }
}
