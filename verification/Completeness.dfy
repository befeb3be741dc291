/** Against an ordered agent a run collects exactly the stored OIDs strictly under its
    columns, each once and ascending per column. */
module Completeness {
  import opened Oid
  import opened Agent
  import opened Column
  import opened Walk
  import opened Workloads
  import opened Refinement
  import opened Run
  import opened Reference

  /** Neither lies at or under the other. */
  predicate Apart(a: Arcs, b: Arcs) { !(a <= b) && !(b <= a) }

  lemma ApartUnder(p: Arcs, q: Arcs, o: Arcs)
    requires Apart(p, q) && q <= o
    ensures !(p <= o)
  {
    assert forall k :: 0 <= k < |q| ==> q[k] == o[k];
  }

  lemma InSnoc(s: seq<Arcs>, o: Arcs)
    requires s != []
    ensures o in s <==> o in s[..|s| - 1] || o == s[|s| - 1]
  {
    assert s == s[..|s| - 1] + [s[|s| - 1]];
  }

  predicate NonNested(cols: seq<Arcs>) {
    forall i, j :: 0 <= i < j < |cols| ==> Apart(cols[i], cols[j])
  }

  /** p names at most one of the columns and is apart from all others. */
  ghost predicate Sole(p: Arcs, cols: seq<Col>) {
    cols == [] ||
    var last := cols[|cols| - 1];
    && Sole(p, cols[..|cols| - 1])
    && (last.oid == p || Apart(p, last.oid))
    && (last.oid == p ==> forall c :: c in cols[..|cols| - 1] ==> c.oid != p)
  }

  ghost function Rest(next: Successor, p: Arcs, c: Col, len: nat): seq<Arcs>
    requires SaneSuccessor(next, len)
  {
    if c.oid == p && !c.finished && Placed(c, len) then NextWalk(next, p, c.cursor, len) else []
  }

  /** What the columns named p will still collect. */
  ghost function RestOf(next: Successor, p: Arcs, cols: seq<Col>, len: nat): seq<Arcs>
    requires SaneSuccessor(next, len)
  {
    if cols == [] then [] else
    RestOf(next, p, cols[..|cols| - 1], len) + Rest(next, p, cols[|cols| - 1], len)
  }

  lemma {:induction false} RestNone(next: Successor, p: Arcs, cols: seq<Col>, len: nat)
    requires SaneSuccessor(next, len) && forall c :: c in cols ==> c.oid != p
    ensures RestOf(next, p, cols, len) == []
  {
    if cols != [] {
      RestNone(next, p, cols[..|cols| - 1], len);
    }
  }

  lemma {:induction false} SoleApart(p: Arcs, cols: seq<Col>, i: nat)
    requires Sole(p, cols) && i < |cols|
    ensures cols[i].oid == p || Apart(p, cols[i].oid)
  {
    if i < |cols| - 1 {
      SoleApart(p, cols[..|cols| - 1], i);
    }
  }

  lemma {:induction false} SoleRenamed(p: Arcs, a: seq<Col>, b: seq<Col>)
    requires Sole(p, a) && |b| == |a| && forall i :: 0 <= i < |a| ==> b[i].oid == a[i].oid
    ensures Sole(p, b)
  {
    if a != [] {
      var n := |a| - 1;
      SoleRenamed(p, a[..n], b[..n]);
      if b[n].oid == p {
        forall c | c in b[..n] ensures c.oid != p {
          var i :| 0 <= i < n && b[i] == c;
          assert a[i] in a[..n];
        }
      }
    }
  }

  lemma {:induction false} SoleUnfinished(next: Successor, p: Arcs, cols: seq<Col>, len: nat)
    requires SaneSuccessor(next, len) && Sole(p, cols)
    ensures Sole(p, Unfinished(cols))
    ensures RestOf(next, p, Unfinished(cols), len) == RestOf(next, p, cols, len)
  {
    if cols != [] {
      var n := |cols| - 1;
      SoleUnfinished(next, p, cols[..n], len);
      var u := Unfinished(cols[..n]);
      if !cols[n].finished {
        assert (u + [cols[n]])[..|u|] == u;
        forall c | c in u ensures c in cols[..n] {
          SplitMembers(cols[..n], c);
        }
      } else {
        assert Unfinished(cols) == u;
      }
    }
  }

  lemma RestUpdateLast(next: Successor, p: Arcs, cols: seq<Col>, c: Col, first: seq<Arcs>, len: nat)
    requires SaneSuccessor(next, len) && Sole(p, cols) && cols != [] && c.oid == cols[|cols| - 1].oid
    requires Rest(next, p, cols[|cols| - 1], len) == first + Rest(next, p, c, len)
    requires c.oid != p ==> first == []
    ensures RestOf(next, p, cols, len) == first + RestOf(next, p, cols[|cols| - 1 := c], len)
  {
    hide Rest, NextWalk, Placed, SaneSuccessor;
    var n := |cols| - 1;
    assert cols[n := c][..n] == cols[..n];
    var a, b := RestOf(next, p, cols[..n], len), Rest(next, p, c, len);
    if c.oid == p {
      RestNone(next, p, cols[..n], len);
      assert a == [];
      assert first + ([] + b) == [] + (first + b);
    } else {
      assert [] + (a + b) == a + ([] + b);
    }
  }

  /** What one column takes, the columns named p have less to collect. */
  lemma {:induction false} RestUpdate(next: Successor, p: Arcs, cols: seq<Col>, i: nat, c: Col, first: seq<Arcs>,
                                      len: nat)
    requires SaneSuccessor(next, len) && Sole(p, cols) && i < |cols| && c.oid == cols[i].oid
    requires Rest(next, p, cols[i], len) == first + Rest(next, p, c, len)
    requires c.oid != p ==> first == []
    ensures RestOf(next, p, cols, len) == first + RestOf(next, p, cols[i := c], len)
  {
    hide Rest, NextWalk, Placed, SaneSuccessor;
    var n := |cols| - 1;
    if i == n {
      RestUpdateLast(next, p, cols, c, first, len);
    } else {
      RestUpdate(next, p, cols[..n], i, c, first, len);
      assert cols[i := c][..n] == cols[..n][i := c];
      var a, b := RestOf(next, p, cols[..n][i := c], len), Rest(next, p, cols[n], len);
      Assoc(first, a, b);
    }
  }

  /** Everything a scan needs to keep for column p. */
  ghost predicate Tracks(next: Successor, p: Arcs, cols: seq<Col>, s: Scan, len: nat)
    requires SaneSuccessor(next, len)
  {
    && Sole(p, s.cols)
    && Under(p, s.oids) + RestOf(next, p, s.cols, len) == RestOf(next, p, cols, len)
  }

  /** What column c takes from a varbind, as far as it is named p. */
  function Taken(p: Arcs, c: Col, vb: Varbind): seq<Arcs> {
    if Accepts(c, vb) && c.oid == p then [vb.oid] else []
  }

  lemma AbsorbRest(next: Successor, p: Arcs, c: Col, vb: Varbind, len: nat)
    requires SaneSuccessor(next, len) && SaneVarbind(vb, len) && c.cursor != []
    requires c.finished || Placed(c, len)
    requires !c.finished && !c.jumped ==> vb == next(c.cursor)
    ensures Rest(next, p, c, len) == Taken(p, c, vb) + Rest(next, p, Absorb(c, vb), len)
  {
    AbsorbForward(c, vb, len);
    if Skips(c, vb) && c.oid == p {
      SkipAdvances(p, c.cursor, vb.oid, len);
    }
  }

  lemma StepUnder(p: Arcs, s: Scan, i: nat, vb: Varbind)
    requires i < |s.cols| && HaveCursors(s.cols)
    requires s.cols[i].oid == p || Apart(p, s.cols[i].oid)
    ensures Under(p, ScanStep(s, i, vb).oids) == Under(p, s.oids) + Taken(p, s.cols[i], vb)
  {
    if Accepts(s.cols[i], vb) {
      assert (s.oids + [vb.oid])[..|s.oids|] == s.oids;
      if s.cols[i].oid != p {
        ApartUnder(p, s.cols[i].oid, vb.oid);
      }
    }
  }

  lemma StepSole(p: Arcs, s: Scan, i: nat, vb: Varbind)
    requires i < |s.cols| && HaveCursors(s.cols) && Sole(p, s.cols)
    ensures Sole(p, ScanStep(s, i, vb).cols)
  {
    SoleRenamed(p, s.cols, ScanStep(s, i, vb).cols);
  }

  lemma StepTracks(next: Successor, p: Arcs, cols: seq<Col>, s: Scan, i: nat, vb: Varbind, len: nat)
    requires SaneSuccessor(next, len) && Tracks(next, p, cols, s, len) && HaveCursors(s.cols) && i < |s.cols|
    requires s.cols[i].finished || Placed(s.cols[i], len)
    requires SaneVarbind(vb, len)
    requires !s.cols[i].finished && !s.cols[i].jumped ==> vb == next(s.cols[i].cursor)
    ensures Tracks(next, p, cols, ScanStep(s, i, vb), len)
  {
    var c, s' := s.cols[i], ScanStep(s, i, vb);
    SoleApart(p, s.cols, i);
    StepSole(p, s, i, vb);
    AbsorbRest(next, p, c, vb, len);
    assert Absorb(c, vb).oid == c.oid;
    RestUpdate(next, p, s.cols, i, Absorb(c, vb), Taken(p, c, vb), len);
    StepUnder(p, s, i, vb);
    var a, b, r := Under(p, s.oids), Taken(p, c, vb), RestOf(next, p, s'.cols, len);
    Assoc(a, b, r);
  }

  lemma {:induction false} RewoundRest(next: Successor, p: Arcs, cols: seq<Col>, len: nat)
    requires SaneSuccessor(next, len) && Sole(p, cols)
    ensures Sole(p, Rewound(cols))
    ensures RestOf(next, p, Rewound(cols), len) == RestOf(next, p, cols, len)
  {
    SoleRenamed(p, cols, Rewound(cols));
    if cols != [] {
      var n := |cols| - 1;
      RewoundRest(next, p, cols[..n], len);
      assert Rewound(cols)[..n] == Rewound(cols[..n]);
    }
  }

  lemma NextForColumn(next: Successor, cols: seq<Col>, vbs: seq<Varbind>, n: nat, len: nat)
    requires SaneSuccessor(next, len) && n < |vbs| && cols != [] && HaveCursors(cols)
    requires RowMajor(next, Cursors(cols), vbs) && AllOnCourse(next, cols, len)
    ensures var c := ScanTo(cols, vbs, n).cols[n % |cols|];
            && (c.finished || Placed(c, len))
            && (!c.finished && !c.jumped ==> vbs[n] == next(c.cursor))
  {
    ScanOnCourse(next, cols, vbs, n, len);
    var c := ScanTo(cols, vbs, n).cols[n % |cols|];
    assert OnCourse(next, c, len) && InStep(cols, vbs, n, c, n % |cols|);
    if !c.finished && !c.jumped {
      TakesSuccessor(next, cols, vbs, n, c);
    }
  }

  lemma {:induction false} ScanTracks(next: Successor, p: Arcs, cols: seq<Col>, vbs: seq<Varbind>, n: nat, len: nat)
    requires SaneSuccessor(next, len) && n <= |vbs| && cols != [] && HaveCursors(cols) && Sole(p, cols)
    requires RowMajor(next, Cursors(cols), vbs) && AllOnCourse(next, cols, len)
    requires forall k :: 0 <= k < |vbs| ==> SaneVarbind(vbs[k], len)
    ensures Tracks(next, p, cols, ScanTo(cols, vbs, n), len)
  {
    hide Sole, RowMajor, AllOnCourse, RestOf, SaneVarbind, Placed, HaveCursors;
    if n == 0 {
      RewoundRest(next, p, cols, len);
    } else {
      ScanTracks(next, p, cols, vbs, n - 1, len);
      NextForColumn(next, cols, vbs, n - 1, len);
      var s := ScanTo(cols, vbs, n - 1);
      StepTracks(next, p, cols, s, (n - 1) % |cols|, vbs[n - 1], len);
    }
  }

  lemma UnfinishedOnCourse(next: Successor, cols: seq<Col>, len: nat)
    requires SaneSuccessor(next, len) && AllOnCourse(next, cols, len)
    ensures AllOnCourse(next, Unfinished(cols), len)
  {
    var u := Unfinished(cols);
    forall i | 0 <= i < |u| ensures OnCourse(next, u[i], len) {
      SplitMembers(cols, u[i]);
    }
  }

  lemma TurnTracks(next: Successor, p: Arcs, reps: Uint32, st: State, r: Reply, len: nat)
    requires SaneSuccessor(next, len) && SaneReply(r, len)
    requires st.active != [] && HaveCursors(st.active) && RowMajor(next, Cursors(st.active), r.varbinds)
    requires AllOnCourse(next, st.active, len) && Sole(p, st.active)
    ensures var st' := Turn(st, reps, r);
            && AllOnCourse(next, st'.active, len) && Sole(p, st'.active)
            && Under(p, st'.res.oids) + RestOf(next, p, st'.active, len)
               == Under(p, st.res.oids) + RestOf(next, p, st.active, len)
  {
    var s := ScanTo(st.active, r.varbinds, |r.varbinds|);
    ScanOnCourse(next, st.active, r.varbinds, |r.varbinds|, len);
    UnfinishedOnCourse(next, s.cols, len);
    ScanTracks(next, p, st.active, r.varbinds, |r.varbinds|, len);
    SoleUnfinished(next, p, s.cols, len);
    UnderAppend(p, st.res.oids, s.oids);
    assert Turn(st, reps, r).res.oids == st.res.oids + s.oids;
    var a, b, c := Under(p, st.res.oids), Under(p, s.oids), RestOf(next, p, s.cols, len);
    Assoc(a, b, c);
  }

  lemma {:induction false} TableTracks(next: Successor, p: Arcs, tr: Transport, reps: Uint32, st: State, len: nat)
    requires SaneSuccessor(next, len) && SaneAgent(tr, len) && Memoryless(tr, next, len) && reps > 0
    requires AllPlaced(st.active, len) && AllOnCourse(next, st.active, len) && Sole(p, st.active)
    ensures Under(p, TableWalk(tr, reps, st, len).0.res.oids) == Under(p, st.res.oids) + RestOf(next, p, st.active, len)
    decreases Distance(st.active, len)
  {
    if st.active != [] {
      PlacedHaveCursors(st.active, len);
      var r := tr.bulk(|st.res.pdus|, Cursors(st.active), reps);
      PlacedProper(st.active, reps, len);
      assert SaneReply(r, len) && PrefixReply(next, Cursors(st.active), r);
      TurnShrinks(st, reps, r, len);
      TurnTracks(next, p, reps, st, r, len);
      TableTracks(next, p, tr, reps, Turn(st, reps, r), len);
    }
  }

  lemma NotBefore(chunk: seq<Arcs>, p: Arcs)
    requires NonNested(chunk) && chunk != [] && chunk[|chunk| - 1] == p
    ensures p !in chunk[..|chunk| - 1]
    ensures forall c :: c in Fresh(chunk)[..|chunk| - 1] ==> c.oid != p
  {
    var n := |chunk| - 1;
    forall i | 0 <= i < n ensures chunk[i] != p {
      assert Apart(chunk[i], chunk[n]);
    }
  }

  lemma {:induction false} FreshSole(next: Successor, p: Arcs, chunk: seq<Arcs>, len: nat)
    requires SaneSuccessor(next, len) && SaneColumns(chunk, len) && NonNested(chunk)
    requires forall i :: 0 <= i < |chunk| ==> chunk[i] == p || Apart(p, chunk[i])
    ensures Sole(p, Fresh(chunk))
    ensures p in chunk ==> p != [] && |p| <= len && RestOf(next, p, Fresh(chunk), len) == NextWalk(next, p, p, len)
    ensures p !in chunk ==> RestOf(next, p, Fresh(chunk), len) == []
  {
    hide NextWalk, Apart;
    if chunk != [] {
      var n := |chunk| - 1;
      FreshSole(next, p, chunk[..n], len);
      assert Fresh(chunk)[..n] == Fresh(chunk[..n]);
      assert chunk == chunk[..n] + [chunk[n]];
      if chunk[n] == p {
        NotBefore(chunk, p);
        assert Placed(Fresh(chunk)[n], len);
      }
    }
  }

  // ---------- Whole runs ----------

  lemma ChunkTracks(next: Successor, p: Arcs, tr: Transport, reps: Uint32, chunk: seq<Arcs>, res: Result, len: nat)
    requires SaneSuccessor(next, len) && SaneAgent(tr, len) && Memoryless(tr, next, len)
    requires SaneColumns(chunk, len) && reps > 0
    requires NonNested(chunk) && p != [] && |p| <= len
    requires forall i :: 0 <= i < |chunk| ==> chunk[i] == p || Apart(p, chunk[i])
    ensures AllPlaced(Fresh(chunk), len)
    ensures Under(p, TableWalk(tr, reps, State(Fresh(chunk), [], res), len).0.res.oids)
         == Under(p, res.oids) + if p in chunk then NextWalk(next, p, p, len) else []
  {
    FreshPlaced(chunk, len);
    FreshSole(next, p, chunk, len);
    forall i | 0 <= i < |chunk| ensures OnCourse(next, Fresh(chunk)[i], len) {
      assert Placed(Fresh(chunk)[i], len);
    }
    TableTracks(next, p, tr, reps, State(Fresh(chunk), [], res), len);
  }

  lemma NonNestedSplit(a: seq<Arcs>, b: seq<Arcs>, p: Arcs)
    requires NonNested(a + b)
    ensures NonNested(a) && NonNested(b) && !(p in a && p in b)
  {
    assert forall i :: 0 <= i < |a| ==> (a + b)[i] == a[i];
    assert forall i :: 0 <= i < |b| ==> (a + b)[|a| + i] == b[i];
    forall i, j | 0 <= i < |a| && 0 <= j < |b| ensures a[i] != b[j] {
      assert Apart((a + b)[i], (a + b)[|a| + j]);
    }
    forall i, j | 0 <= i < j < |b| ensures Apart(b[i], b[j]) {
      assert Apart((a + b)[|a| + i], (a + b)[|a| + j]);
    }
    forall i, j | 0 <= i < j < |a| ensures Apart(a[i], a[j]) {
      assert Apart((a + b)[i], (a + b)[j]);
    }
  }

  lemma OneOf(s: seq<Arcs>, t: seq<Arcs>, a: bool, b: bool)
    requires !(a && b)
    ensures (s + if a then t else []) + (if b then t else []) == s + if a || b then t else []
  {
  }

  lemma {:induction false} TablesTrack(next: Successor, p: Arcs, tr: Transport, reps: Uint32, chunks: seq<seq<Arcs>>,
                                       res: Result, fails: seq<Failure>, len: nat)
    requires SaneSuccessor(next, len) && SaneAgent(tr, len) && Memoryless(tr, next, len)
    requires SaneChunks(chunks, len) && reps > 0
    requires NonNested(Flat(chunks)) && p != [] && |p| <= len
    requires forall c :: c in Flat(chunks) ==> c == p || Apart(p, c)
    ensures Under(p, Tables(tr, reps, chunks, res, fails, len).0.oids)
         == Under(p, res.oids) + if p in Flat(chunks) then NextWalk(next, p, p, len) else []
  {
    hide Under, NextWalk, NonNested, TableWalk, Apart, AllPlaced, Fresh, SaneAgent, Memoryless;
    if chunks != [] {
      var chunk, rest := chunks[0], Flat(chunks[1..]);
      NonNestedSplit(chunk, rest, p);
      ChunkTracks(next, p, tr, reps, chunk, res, len);
      ChunkRefinesGetNext(next, tr, reps, chunk, res, len);
      var st := TableWalk(tr, reps, State(Fresh(chunk), [], res), len).0;
      TablesTrack(next, p, tr, reps, chunks[1..], st.res, fails, len);
      var walk := NextWalk(next, p, p, len);
      assert p in Flat(chunks) <==> p in chunk || p in rest;
      OneOf(Under(p, res.oids), walk, p in chunk, p in rest);
    }
  }

  lemma UnderNone(p: Arcs)
    ensures Under(p, []) == []
  {
  }

  lemma OthersApart(cols: seq<Arcs>, p: Arcs)
    requires NonNested(cols) && p in cols
    ensures forall i :: 0 <= i < |cols| ==> cols[i] == p || Apart(p, cols[i])
  {
    var k :| 0 <= k < |cols| && cols[k] == p;
    forall i | 0 <= i < |cols| && i != k ensures Apart(p, cols[i]) {
      assert if i < k then Apart(cols[i], cols[k]) else Apart(cols[k], cols[i]);
    }
  }

  /** With pairwise non-nested columns, restricting what a run collected to one column
      gives exactly the plain walk of that column, in its order. */
  lemma RunKeepsColumnOrder(next: Successor, tr: Transport, w: Workload, s: Settings, p: Arcs, len: nat)
    requires SaneSuccessor(next, len) && SaneAgent(tr, len) && Memoryless(tr, next, len) && SaneWorkload(w, len)
    requires Valid(s) && NonNested(AllColumns(w.tables)) && p in AllColumns(w.tables)
    ensures p != [] && |p| <= len
    ensures Under(p, RunWalk(tr, w, s, len).0.oids) == NextWalk(next, p, p, len)
  {
    hide Tables, AllChunks, AllColumns, Under, NonNested, Apart, PrefixReply, WalkBag;
    assert Under(p, []) == [] by { UnderNone(p); }
    var v := s.maxVarsPerPDU;
    var chunks := AllChunks(w.tables, v);
    AllChunksSane(w.tables, v, len);
    FlatAllChunks(w.tables, v);
    FlatSane(chunks, len);
    OthersApart(AllColumns(w.tables), p);
    TablesTrack(next, p, tr, s.maxRepetitions, chunks, EMPTY, [], len);
    TablesCollect(next, tr, s.maxRepetitions, chunks, EMPTY, [], len);
    var res := Tables(tr, s.maxRepetitions, chunks, EMPTY, [], len).0;
    ScalarsKeepOIDs(tr, Chunks(w.scalars, v), res, []);
  }

  lemma {:induction false} WalkBagHas(next: Successor, cols: seq<Arcs>, len: nat, o: Arcs)
    requires SaneSuccessor(next, len) && SaneColumns(cols, len)
    ensures o in WalkBag(next, cols, len) <==>
              exists c :: c in cols && c != [] && |c| <= len && o in NextWalk(next, c, c, len)
  {
    if cols != [] {
      var n := |cols| - 1;
      WalkBagHas(next, cols[..n], len, o);
      assert cols[n] != [] && Sane(cols[n], len) && cols[n] in cols;
      if o in WalkBag(next, cols[..n], len) {
        var c :| c in cols[..n] && c != [] && |c| <= len && o in NextWalk(next, c, c, len);
        InSnoc(cols, c);
      } else if exists c :: c in cols && c != [] && |c| <= len && o in NextWalk(next, c, c, len) {
        var c :| c in cols && c != [] && |c| <= len && o in NextWalk(next, c, c, len);
        InSnoc(cols, c);
      }
    }
  }

  lemma AscendingOnce(s: seq<Arcs>, o: Arcs)
    requires Ascending(s)
    ensures multiset(s)[o] <= 1
  {
    if s != [] {
      var n := |s| - 1;
      AscendingOnce(s[..n], o);
      assert s == s[..n] + [s[n]];
      if s[n] == o && o in s[..n] {
        var i :| 0 <= i < n && s[..n][i] == o;
        assert Less(s[i], s[n]);
        LessTotal(o, o);
      }
    }
  }

  /** Completeness under caps. Against an ordered agent that cuts its replies anywhere
      but answers something, a run over pairwise non-nested columns collects exactly
      the stored OIDs strictly under its columns, each once, ascending per column. */
  lemma RunCollectsExactly(next: Successor, stored: set<Arcs>, tr: Transport, w: Workload, s: Settings, len: nat,
                           o: Arcs)
    requires SaneSuccessor(next, len) && SaneAgent(tr, len) && Memoryless(tr, next, len) && Ordered(next, stored)
    requires SaneWorkload(w, len) && Valid(s) && NonNested(AllColumns(w.tables))
    ensures var (res, end) := RunWalk(tr, w, s, len);
            && end == Complete
            && multiset(res.oids)[o] ==
               (if o in stored && exists c :: c in AllColumns(w.tables) && c <= o && c != o then 1 else 0)
            && forall c :: c in AllColumns(w.tables) ==> Ascending(Under(c, res.oids))
  {
    var cols := AllColumns(w.tables);
    RunRefinesGetNext(next, tr, w, s, len);
    var res := RunWalk(tr, w, s, len).0;
    forall c | c in cols
      ensures Ascending(Under(c, res.oids))
      ensures o in Under(c, res.oids) <==> o in stored && c <= o && c != o
      ensures c <= o ==> multiset(res.oids)[o] == if o in Under(c, res.oids) then 1 else 0
    {
      RunKeepsColumnOrder(next, tr, w, s, c, len);
      NextWalkAscends(next, c, c, len);
      NextWalkComplete(next, stored, c, c, len, o);
      LessTotal(c, c);
      if c <= o { PrefixNotAbove(c, o); }
      UnderBag(c, res.oids, o);
      AscendingOnce(Under(c, res.oids), o);
    }
    WalkBagHas(next, cols, len, o);
    if o in res.oids {
      assert o in multiset(res.oids);
      var c :| c in cols && c != [] && |c| <= len && o in NextWalk(next, c, c, len);
      NextWalkAscends(next, c, c, len);
    } else {
      assert o !in multiset(res.oids);
    }
  }
}
