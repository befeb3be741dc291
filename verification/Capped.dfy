/** The same promise against an agent that caps the rows of a response: the search
    locates the cap (internal/search/search_test.go:89-115). */
module Capped {
  import opened Arithmetic
  import opened Oid
  import opened Agent
  import opened Column
  import opened Reference
  import opened Walk
  import opened Workloads
  import opened Agreement
  import opened Sustained
  import Inventory
  import R = Run
  import Accounting
  import Refinement
  import Sim
  import SimAgreement
  import Trials
  import Machine
  import SearchSafety
  import SearchRuns
  import Climb
  import Guarantees

  function Lesser(a: nat, b: nat): nat { if a < b then a else b }

  /** Answers with as many rows as it is asked for, but never with more than rows. */
  ghost predicate CapsRows(tr: Transport, next: Successor, len: nat, rows: nat) {
    && (forall k, oids, reps: Uint32 :: Proper(oids, reps, len) ==>
          var r := tr.bulk(k, oids, reps); PrefixReply(next, oids, r) && |r.varbinds| == |oids| * Lesser(reps, rows))
    && (forall k, oids :: tr.get(k, oids).status.Answered?)
    && (forall k :: !tr.cancelled(k))
  }

  // ---------- How deep a column is ----------

  /** The first n successors of c are all there. */
  ghost predicate Deep(next: Successor, c: Arcs, n: nat)
    decreases n
  {
    n == 0 || (!next(c).value.EndOfMibView? && Deep(next, next(c).oid, n - 1))
  }

  ghost function Above(stored: set<Arcs>, c: Arcs): set<Arcs> {
    set o | o in stored && Less(c, o)
  }

  /** On an ordered agent there are n of them exactly when it stores n OIDs above c. */
  lemma {:induction false} DeepCounts(next: Successor, stored: set<Arcs>, c: Arcs, n: nat)
    requires Ordered(next, stored)
    ensures Deep(next, c, n) <==> n <= |Above(stored, c)|
    decreases n
  {
    if n > 0 {
      var vb := next(c);
      assert TrueAnswer(stored, c, vb);
      if vb.value.EndOfMibView? {
        assert Above(stored, c) == {};
      } else {
        DeepCounts(next, stored, vb.oid, n - 1);
        LessTotal(vb.oid, vb.oid);
        forall o ensures o in Above(stored, c) <==> o == vb.oid || o in Above(stored, vb.oid) {
          if Less(vb.oid, o) { LessTransitive(c, vb.oid, o); }
        }
        assert Above(stored, c) == {vb.oid} + Above(stored, vb.oid);
      }
    }
  }

  /** As long as a column is deep, its varbinds in a reply are data. */
  lemma {:induction false} DeepRow(next: Successor, cursors: seq<Arcs>, vbs: seq<Varbind>, i: nat, n: nat, row: nat)
    requires cursors != [] && RowMajor(next, cursors, vbs) && i < |cursors| && row < n
    requires Deep(next, cursors[i], n) && row * |cursors| + i < |vbs|
    ensures var vb := vbs[row * |cursors| + i]; !vb.value.EndOfMibView? && Deep(next, vb.oid, n - 1 - row)
  {
    var k := row * |cursors| + i;
    assert vbs[k] == next(Agent.Asked(cursors, vbs, k));
    if row > 0 {
      assert k - |cursors| == (row - 1) * |cursors| + i;
      MulMonotone(0, row - 1, |cursors|);
      DeepRow(next, cursors, vbs, i, n, row - 1);
    }
  }

  /** A reply of n rows, fewer than asked for, is truncated if some column is as deep. */
  lemma ShortIsCut(next: Successor, cursors: seq<Arcs>, vbs: seq<Varbind>, i: nat, n: nat, reps: Uint32)
    requires cursors != [] && RowMajor(next, cursors, vbs) && i < |cursors| && 0 < n < reps
    requires Deep(next, cursors[i], n) && |vbs| == |cursors| * n
    ensures CutShort(vbs, |cursors|, reps)
  {
    var w := |cursors|;
    var k := (n - 1) * w + i;
    assert k < n * w;
    DivMod(|vbs| + w - 1, w, n, w - 1);
    DivMod(k, w, n - 1, i);
    DeepRow(next, cursors, vbs, i, n, n - 1);
  }

  // ---------- A truncation fails the run ----------

  lemma {:induction false} TableGrows(tr: Transport, reps: Uint32, st: State, len: nat)
    requires SaneAgent(tr, len) && AllPlaced(st.active, len) && reps > 0
    ensures TableWalk(tr, reps, st, len).0.res.truncations >= st.res.truncations
    decreases Distance(st.active, len)
  {
    if st.active != [] && !tr.cancelled(|st.res.pdus|) {
      PlacedHaveCursors(st.active, len);
      RoundShrinks(tr, reps, st, len);
      var (st', end) := Round(tr, reps, st);
      if end == Done {
        TableGrows(tr, reps, st', len);
      }
    }
  }

  lemma {:induction false} TablesGrow(tr: Transport, reps: Uint32, chunks: seq<seq<Arcs>>, res: Result,
                                      fails: seq<Failure>, len: nat)
    requires SaneAgent(tr, len) && R.SaneChunks(chunks, len) && reps > 0
    ensures R.Tables(tr, reps, chunks, res, fails, len).0.truncations >= res.truncations
  {
    if chunks != [] {
      R.FreshPlaced(chunks[0], len);
      var st0 := State(R.Fresh(chunks[0]), [], res);
      TableGrows(tr, reps, st0, len);
      var (st, end) := TableWalk(tr, reps, st0, len);
      if end == Done {
        TablesGrow(tr, reps, chunks[1..], st.res, fails, len);
      } else if end == EmptyResponse {
        TablesGrow(tr, reps, chunks[1..], st.res, fails + [EmptyBulk], len);
      }
    }
  }

  /** The first request for a chunk with a deep column is truncated. */
  lemma ChunkCut(tr: Transport, next: Successor, rows: nat, reps: Uint32, chunk: seq<Arcs>, res: Result, len: nat,
                 i: nat)
    requires SaneAgent(tr, len) && CapsRows(tr, next, len, rows) && R.SaneColumns(chunk, len)
    requires 0 < rows < reps && i < |chunk| && Deep(next, chunk[i], rows)
    ensures AllPlaced(R.Fresh(chunk), len)
    ensures TableWalk(tr, reps, State(R.Fresh(chunk), [], res), len).0.res.truncations > res.truncations
  {
    R.FreshPlaced(chunk, len);
    var st0 := State(R.Fresh(chunk), [], res);
    PlacedHaveCursors(st0.active, len);
    Refinement.PlacedProper(st0.active, reps, len);
    var r := tr.bulk(|res.pdus|, Cursors(st0.active), reps);
    assert PrefixReply(next, Cursors(st0.active), r) && |r.varbinds| == |chunk| * rows;
    ShortIsCut(next, Cursors(st0.active), r.varbinds, i, rows, reps);
    RoundShrinks(tr, reps, st0, len);
    TableGrows(tr, reps, Round(tr, reps, st0).0, len);
  }

  lemma CapsMemoryless(tr: Transport, next: Successor, len: nat, rows: nat)
    requires CapsRows(tr, next, len, rows)
    ensures Memoryless(tr, next, len)
  {
  }

  lemma {:induction false} TablesCut(tr: Transport, next: Successor, rows: nat, reps: Uint32, chunks: seq<seq<Arcs>>,
                                     res: Result, fails: seq<Failure>, len: nat, k: nat, i: nat)
    requires SaneSuccessor(next, len) && SaneAgent(tr, len) && CapsRows(tr, next, len, rows)
    requires R.SaneChunks(chunks, len) && 0 < rows < reps
    requires k < |chunks| && i < |chunks[k]| && Deep(next, chunks[k][i], rows)
    ensures R.Tables(tr, reps, chunks, res, fails, len).0.truncations > res.truncations
  {
    hide CapsRows, TableWalk, SaneAgent, Deep;
    CapsMemoryless(tr, next, len, rows);
    R.ChunkRefinesGetNext(next, tr, reps, chunks[0], res, len);
    var st0 := State(R.Fresh(chunks[0]), [], res);
    var st := TableWalk(tr, reps, st0, len).0;
    if k == 0 {
      ChunkCut(tr, next, rows, reps, chunks[0], res, len, i);
      TablesGrow(tr, reps, chunks[1..], st.res, fails, len);
    } else {
      TableGrows(tr, reps, st0, len);
      TablesCut(tr, next, rows, reps, chunks[1..], st.res, fails, len, k - 1, i);
    }
  }

  // ---------- Runs, and the threshold of a search ----------

  lemma UncappedWhole(tr: Transport, next: Successor, len: nat, rows: nat, reps: Uint32, v: nat)
    requires CapsRows(tr, next, len, rows) && reps <= rows
    ensures Whole(tr, len, reps, v)
  {
  }

  lemma {:induction false} InSomeChunk(chunks: seq<seq<Arcs>>, c: Arcs) returns (k: nat, i: nat)
    requires c in R.Flat(chunks)
    ensures k < |chunks| && i < |chunks[k]| && chunks[k][i] == c
  {
    if c in chunks[0] {
      k := 0;
      i :| 0 <= i < |chunks[0]| && chunks[0][i] == c;
    } else {
      k, i := InSomeChunk(chunks[1..], c);
      k := k + 1;
    }
  }

  lemma RunCut(tr: Transport, next: Successor, w: Workload, s: Settings, len: nat, rows: nat, c: Arcs)
    requires SaneSuccessor(next, len) && SaneAgent(tr, len) && CapsRows(tr, next, len, rows)
    requires R.SaneWorkload(w, len) && R.Valid(s) && 0 < rows < s.maxRepetitions
    requires c in AllColumns(w.tables) && Deep(next, c, rows)
    ensures R.RunWalk(tr, w, s, len).0.truncations > 0
  {
    hide SaneAgent, Deep, R.AllChunks, R.Flat, AllColumns, R.Tables, R.RunWalk, PrefixReply;
    var v := s.maxVarsPerPDU;
    var chunks := R.AllChunks(w.tables, v);
    R.AllChunksSane(w.tables, v, len);
    R.FlatAllChunks(w.tables, v);
    var k, i := InSomeChunk(chunks, c);
    TablesCut(tr, next, rows, s.maxRepetitions, chunks, EMPTY, [], len, k, i);
    RunTruncations(tr, w, s, len);
  }

  /** A run is clean and complete exactly when the agent never cuts its rows, provided
      some column of the workload is as deep as the cap. */
  lemma RunCapped(u: Machine.Setup, tr: Transport, next: Successor, stored: set<Arcs>, inv: Inventory.Inventory,
                  w: Workload, s: Settings, len: nat, rows: nat, c: Arcs)
    requires SaneSuccessor(next, len) && Misordering(next, stored) && Inferred(next, inv, w, len)
    requires SaneAgent(tr, len) && CapsRows(tr, next, len, rows) && R.Valid(s) && rows > 0
    requires c in AllColumns(w.tables) && Deep(next, c, rows)
    requires u.refOIDs == GroundTruth(inv.subtrees, w) && u.opts.tolerance >= 0.0
    ensures R.SaneWorkload(w, len)
    ensures var (res, end) := R.RunWalk(tr, w, s, len);
            end == R.Complete && (Machine.Checked(u, res).failure == [] <==> s.maxRepetitions <= rows)
  {
    InferredSane(next, stored, inv, w, len);
    CapsMemoryless(tr, next, len, rows);
    R.RunRefinesGetNext(next, tr, w, s, len);
    Climb.AgreeingRunPasses(u, next, stored, inv, w, tr, s, len);
    if s.maxRepetitions <= rows {
      UncappedWhole(tr, next, len, rows, s.maxRepetitions, s.maxVarsPerPDU);
      RunUncut(tr, w, s, len);
    } else {
      RunCut(tr, next, w, s, len, rows, c);
    }
  }

  /** Every walk of the search runs the workload against such an agent. */
  ghost predicate WalksCapped(env: Machine.Env, w: Workload, next: Successor, len: nat, rows: nat) {
    R.SaneWorkload(w, len) &&
    forall k, s ::
      if R.Valid(s) then
        exists tr :: SaneAgent(tr, len) && CapsRows(tr, next, len, rows)
            && env.walk(k, s).result == R.RunWalk(tr, w, s, len).0
      else env.walk(k, s).failed
  }

  lemma ProductWithin(r: nat, n: nat, v: int)
    requires v > 0
    ensures r * v <= n * v <==> r <= n
  {
    if n < r { MulStrict(n, r, v); }
  }

  lemma RowsThreshold(u: Machine.Setup, next: Successor, stored: set<Arcs>, inv: Inventory.Inventory, w: Workload,
                      len: nat, rows: nat, c: Arcs, v0: int)
    requires SaneSuccessor(next, len) && Misordering(next, stored) && Inferred(next, inv, w, len)
    requires WalksCapped(u.env, w, next, len, rows) && rows > 0 && v0 > 0
    requires c in AllColumns(w.tables) && Deep(next, c, rows)
    requires u.refOIDs == GroundTruth(inv.subtrees, w) && u.opts.tolerance >= 0.0
    ensures SearchRuns.Threshold(u, v0, rows * v0 + 1)
  {
    forall s: Settings, res: Result | s.maxVarsPerPDU == v0 && SearchSafety.Produced(u, s, res)
      ensures res.failure == [] <==> s.Product() < rows * v0 + 1
    {
      var k :| !u.env.walk(k, s).failed && res == Machine.Checked(u, u.env.walk(k, s).result);
      var tr :| SaneAgent(tr, len) && CapsRows(tr, next, len, rows)
          && u.env.walk(k, s).result == R.RunWalk(tr, w, s, len).0;
      RunCapped(u, tr, next, stored, inv, w, s, len, rows, c);
      ProductWithin(s.maxRepetitions, rows, v0);
    }
  }

  lemma Finds(u: Machine.Setup, m: Machine.Progress, v0: int, widest: nat, K: int)
    requires Guarantees.Unused(u, m) && v0 > 0 && 0 <= u.maxProduct < 0x8000_0000
    requires K > 0 && SearchRuns.Threshold(u, v0, K)
    ensures var m' := Machine.RunSearch(u, m, v0, widest);
            (SearchSafety.Unstopped(m') && !m'.out.stressed && m'.out.note.Some?
                && m'.out.note.value.FailedThenBisect?) ==>
              Guarantees.Located(u, m', v0, K)
  {
    Guarantees.RunKeeps(u, m, v0, widest);
  }

  lemma LocatedRows(u: Machine.Setup, m: Machine.Progress, v0: int, rows: nat)
    requires v0 > 0 && Guarantees.Located(u, m, v0, rows * v0 + 1)
    ensures exists g: nat :: Trials.LargestClean(m.out.trials) == g * v0 && g <= rows < g + Trials.Max(1, g / 10)
  {
    var g: nat :| Trials.LargestClean(m.out.trials) == g * v0
                  && g * v0 < rows * v0 + 1 <= (g + Trials.Max(1, g / 10)) * v0;
    ProductWithin(g, rows, v0);
    ProductWithin(g + Trials.Max(1, g / 10), rows, v0);
  }

  /** Let an agent, perhaps misordering, cut every response after so many rows, and some
      column of the workload have as many successors. If a search over the inferred
      workload is neither stopped nor stressed and escalation ends in a failure, its largest
      clean R at the first V is at most the cap and within a tenth of it. */
  lemma SearchLocatesRows(u: Machine.Setup, m: Machine.Progress, next: Successor, stored: set<Arcs>,
                          inv: Inventory.Inventory, w: Workload, len: nat, rows: nat, c: Arcs, v0: int)
    requires SaneSuccessor(next, len) && Misordering(next, stored) && Inferred(next, inv, w, len)
    requires WalksCapped(u.env, w, next, len, rows) && rows > 0 && v0 > 0
    requires c in AllColumns(w.tables) && Deep(next, c, rows)
    requires u.refOIDs == GroundTruth(inv.subtrees, w) && u.opts.tolerance >= 0.0
    requires Guarantees.Unused(u, m) && u.maxProduct < 0x8000_0000
    ensures var m' := Machine.RunSearch(u, m, v0, Width(w.tables));
            SearchSafety.Unstopped(m') && !m'.out.stressed && m'.out.note.Some?
                && m'.out.note.value.FailedThenBisect? ==>
              exists g: nat :: Trials.LargestClean(m'.out.trials) == g * v0 && g <= rows < g + Trials.Max(1, g / 10)
  {
    hide Deep, AllColumns, Inferred, Misordering, WalksCapped;
    RowsThreshold(u, next, stored, inv, w, len, rows, c, v0);
    Finds(u, m, v0, Width(w.tables), rows * v0 + 1);
    var m' := Machine.RunSearch(u, m, v0, Width(w.tables));
    if SearchSafety.Unstopped(m') && !m'.out.stressed && m'.out.note.Some? && m'.out.note.value.FailedThenBisect? {
      LocatedRows(u, m', v0, rows);
    }
  }

  // ---------- The simulator is such an agent ----------

  lemma SimCapsRows(tr: Transport, cfg: Sim.Config, values: map<Arcs, nat>, len: nat)
    requires SimAgreement.ServesAll(tr, cfg, values, len) && cfg.errorAbove == 0 && cfg.maxBytes == 0 && cfg.maxRows > 0
    ensures CapsRows(tr, Sim.NextOf(cfg, values.Keys), len, cfg.maxRows)
  {
    hide SimAgreement.Serves, PrefixReply;
    var next := Sim.NextOf(cfg, values.Keys);
    forall k: nat, oids: seq<Arcs>, reps: Uint32 | Proper(oids, reps, len)
      ensures var r := tr.bulk(k, oids, reps);
              PrefixReply(next, oids, r) && |r.varbinds| == |oids| * Lesser(reps, cfg.maxRows)
    {
      SimAgreement.UncappedBytes(cfg, values, oids, reps, tr.bulk(k, oids, reps));
    }
  }
}
