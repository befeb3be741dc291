/** The central promise, across all layers: against an agent that refuses requests for
    more than a certain number of varbinds, the search locates exactly that number. */
module Sustained {
  import opened Arithmetic
  import opened Oid
  import opened Agent
  import opened Walk
  import opened Workloads
  import opened Agreement
  import Inventory
  import R = Run
  import opened Records
  import Refinement
  import Sim
  import SimAgreement
  import Trials
  import Machine
  import SearchSafety
  import SearchRuns
  import Climb
  import Guarantees

  /** Answers in full whatever asks for at most cap varbinds, and refuses all else. */
  ghost predicate RefusesAbove(tr: Transport, next: Successor, len: nat, cap: nat) {
    && (forall k, oids, reps :: Proper(oids, reps, len) ==>
          var r := tr.bulk(k, oids, reps);
          if |oids| * reps > cap then r.status == AgentError
          else PrefixReply(next, oids, r) && |r.varbinds| == |oids| * reps)
    && (forall k, oids :: tr.get(k, oids).status.Answered?)
    && (forall k :: !tr.cancelled(k))
  }

  // ---------- What it does not refuse, an agent without memory answers the same ----------

  /** The same agent, answering with a single varbind where it would refuse. */
  function Lenient(tr: Transport, next: Successor, cap: nat): Transport {
    Transport((k: nat, oids: seq<Arcs>, reps: Uint32) =>
                if oids != [] && |oids| * reps > cap then Reply(Answered, [next(oids[0])], 0, 0, 0)
                    else tr.bulk(k, oids, reps),
              tr.get, tr.cancelled)
  }

  lemma LenientAgent(tr: Transport, next: Successor, len: nat, cap: nat)
    requires SaneSuccessor(next, len) && SaneAgent(tr, len) && RefusesAbove(tr, next, len, cap)
    ensures SaneAgent(Lenient(tr, next, cap), len) && Memoryless(Lenient(tr, next, cap), next, len)
  {
    var mild := Lenient(tr, next, cap);
    forall k, oids, reps | Proper(oids, reps, len) ensures PrefixReply(next, oids, mild.bulk(k, oids, reps)) {
      if |oids| * reps > cap {
        assert mild.bulk(k, oids, reps).varbinds == [next(oids[0])];
      } else {
        assert mild.bulk(k, oids, reps) == tr.bulk(k, oids, reps);
      }
    }
    forall k, oids, reps ensures SaneReply(mild.bulk(k, oids, reps), len) {
      assert SaneReply(tr.bulk(k, oids, reps), len);
      assert oids != [] ==> SaneVarbind(next(oids[0]), len);
    }
  }

  /** The two answer alike what asks for at most v columns. */
  ghost predicate Alike(a: Transport, b: Transport, reps: Uint32, v: nat) {
    && a.get == b.get && a.cancelled == b.cancelled
    && forall k, oids :: oids != [] && |oids| <= v ==> a.bulk(k, oids, reps) == b.bulk(k, oids, reps)
  }

  lemma LenientAlike(tr: Transport, next: Successor, cap: nat, reps: Uint32, v: nat)
    requires v * reps <= cap
    ensures Alike(tr, Lenient(tr, next, cap), reps, v)
  {
    forall k, oids: seq<Arcs> | oids != [] && |oids| <= v
      ensures tr.bulk(k, oids, reps) == Lenient(tr, next, cap).bulk(k, oids, reps)
    {
      MulMonotone(|oids|, v, reps);
    }
  }

  lemma {:induction false} TableAlike(a: Transport, b: Transport, reps: Uint32, st: State, len: nat, v: nat)
    requires SaneAgent(a, len) && SaneAgent(b, len) && Alike(a, b, reps, v)
    requires AllPlaced(st.active, len) && |st.active| <= v
    ensures TableWalk(a, reps, st, len) == TableWalk(b, reps, st, len)
    decreases Distance(st.active, len)
  {
    if st.active != [] && !a.cancelled(|st.res.pdus|) {
      PlacedHaveCursors(st.active, len);
      RoundShrinks(a, reps, st, len);
      assert Round(a, reps, st) == Round(b, reps, st);
      var (st', end) := Round(a, reps, st);
      if end == Done {
        UnfinishedShorter(ScanTo(st.active, a.bulk(|st.res.pdus|, Cursors(st.active), reps).varbinds,
                               |a.bulk(|st.res.pdus|, Cursors(st.active), reps).varbinds|).cols);
        TableAlike(a, b, reps, st', len, v);
      }
    }
  }

  lemma {:induction false} TablesAlike(a: Transport, b: Transport, reps: Uint32, chunks: seq<seq<Arcs>>, res: Result,
                                       fails: seq<Failure>, len: nat, v: nat)
    requires SaneAgent(a, len) && SaneAgent(b, len) && Alike(a, b, reps, v) && R.SaneChunks(chunks, len)
    requires forall k :: 0 <= k < |chunks| ==> |chunks[k]| <= v
    ensures R.Tables(a, reps, chunks, res, fails, len) == R.Tables(b, reps, chunks, res, fails, len)
  {
    if chunks != [] {
      R.FreshPlaced(chunks[0], len);
      var st0 := State(R.Fresh(chunks[0]), [], res);
      TableAlike(a, b, reps, st0, len, v);
      var (st, end) := TableWalk(a, reps, st0, len);
      if end == Done {
        TablesAlike(a, b, reps, chunks[1..], st.res, fails, len, v);
      } else if end == EmptyResponse {
        TablesAlike(a, b, reps, chunks[1..], st.res, fails + [EmptyBulk], len, v);
      }
    }
  }

  lemma {:induction false} ScalarsAlike(a: Transport, b: Transport, chunks: seq<seq<Arcs>>, res: Result,
                                        fails: seq<Failure>)
    requires a.get == b.get
    ensures R.Scalars(a, chunks, res, fails) == R.Scalars(b, chunks, res, fails)
  {
    if chunks != [] {
      ScalarsAlike(a, b, chunks[1..], R.ScalarChunk(a, chunks[0], res).0, fails);
    }
  }

  lemma RunAlike(a: Transport, b: Transport, w: Workload, s: Settings, len: nat)
    requires SaneAgent(a, len) && SaneAgent(b, len) && R.SaneWorkload(w, len)
    requires R.Valid(s) && Alike(a, b, s.maxRepetitions, s.maxVarsPerPDU)
    ensures R.RunWalk(a, w, s, len) == R.RunWalk(b, w, s, len)
  {
    var v := s.maxVarsPerPDU;
    R.AllChunksSane(w.tables, v, len);
    TablesAlike(a, b, s.maxRepetitions, R.AllChunks(w.tables, v), EMPTY, [], len, v);
    var (res, fails, course) := R.Tables(a, s.maxRepetitions, R.AllChunks(w.tables, v), EMPTY, [], len);
    ScalarsAlike(a, b, R.Chunks(w.scalars, v), res, fails);
  }

  // ---------- Whole replies are not truncated ----------

  /** All rows, or fewer of which the last is at the end of the MIB throughout. */
  ghost predicate WholeRows(vbs: seq<Varbind>, w: nat, reps: Uint32)
    requires w > 0
  {
    || |vbs| == w * reps
    || (vbs != [] && |vbs| % w == 0 && forall k :: 0 <= k < |vbs| && |vbs| - w <= k ==> vbs[k].value.EndOfMibView?)
  }

  lemma WholeIsUncut(vbs: seq<Varbind>, w: nat, reps: Uint32)
    requires w > 0 && reps > 0 && WholeRows(vbs, w, reps)
    ensures vbs != [] && !CutShort(vbs, w, reps)
  {
    MulMonotone(1, w, reps);
    MarkedExactly(vbs, w, reps);
    if |vbs| == w * reps {
      DivMod(|vbs|, w, reps, 0);
    }
  }

  /** The response that legitimately ends a table, short of R rows but whole and at the end
      of the MIB in its last row, is not marked and not counted. */
  lemma EndOfTableUnmarked(st: State, reps: Uint32, r: Reply)
    requires st.active != [] && HaveCursors(st.active) && reps > 0
    requires r.varbinds != [] && |r.varbinds| % |st.active| == 0
    requires forall k :: 0 <= k < |r.varbinds| && |r.varbinds| - |st.active| <= k ==> r.varbinds[k].value.EndOfMibView?
    ensures var res := Turn(st, reps, r).res;
            |res.pdus| == |st.res.pdus| + 1 && !res.pdus[|st.res.pdus|].truncated
            && res.truncations == st.res.truncations
  {
    WholeIsUncut(r.varbinds, |st.active|, reps);
  }

  /** Answers what asks for so many rows of at most v columns in whole rows, unless it has
      come to the end of the MIB. */
  ghost predicate Whole(tr: Transport, len: nat, reps: Uint32, v: nat) {
    forall k, oids :: Proper(oids, reps, len) && |oids| <= v ==>
      tr.bulk(k, oids, reps).status.Answered? && WholeRows(tr.bulk(k, oids, reps).varbinds, |oids|, reps)
  }

  lemma {:induction false} TableUncut(tr: Transport, reps: Uint32, st: State, len: nat, v: nat)
    requires SaneAgent(tr, len) && Whole(tr, len, reps, v) && reps > 0
    requires AllPlaced(st.active, len) && |st.active| <= v
    ensures TableWalk(tr, reps, st, len).0.res.truncations == st.res.truncations
    decreases Distance(st.active, len)
  {
    if st.active != [] {
      PlacedHaveCursors(st.active, len);
      RoundShrinks(tr, reps, st, len);
      var r := tr.bulk(|st.res.pdus|, Cursors(st.active), reps);
      Refinement.PlacedProper(st.active, reps, len);
      WholeIsUncut(r.varbinds, |st.active|, reps);
      var (st', end) := Round(tr, reps, st);
      UnfinishedShorter(ScanTo(st.active, r.varbinds, |r.varbinds|).cols);
      TableUncut(tr, reps, st', len, v);
    }
  }

  lemma {:induction false} TablesUncut(tr: Transport, reps: Uint32, chunks: seq<seq<Arcs>>, res: Result,
                                       fails: seq<Failure>, len: nat, v: nat)
    requires SaneAgent(tr, len) && Whole(tr, len, reps, v) && reps > 0
    requires R.SaneChunks(chunks, len)
    requires forall k :: 0 <= k < |chunks| ==> |chunks[k]| <= v
    ensures R.Tables(tr, reps, chunks, res, fails, len).0.truncations == res.truncations
  {
    if chunks != [] {
      R.FreshPlaced(chunks[0], len);
      var st0 := State(R.Fresh(chunks[0]), [], res);
      TableUncut(tr, reps, st0, len, v);
      var (st, end) := TableWalk(tr, reps, st0, len);
      if end == Done {
        TablesUncut(tr, reps, chunks[1..], st.res, fails, len, v);
      } else if end == EmptyResponse {
        TablesUncut(tr, reps, chunks[1..], st.res, fails + [EmptyBulk], len, v);
      }
    }
  }

  /** Only the chunks of tables are ever truncated. */
  lemma RunTruncations(tr: Transport, w: Workload, s: Settings, len: nat)
    requires SaneAgent(tr, len) && R.SaneWorkload(w, len) && R.Valid(s)
    requires forall k, oids :: tr.get(k, oids).status.Answered?
    ensures R.SaneChunks(R.AllChunks(w.tables, s.maxVarsPerPDU), len)
    ensures R.RunWalk(tr, w, s, len).0.truncations
         == R.Tables(tr, s.maxRepetitions, R.AllChunks(w.tables, s.maxVarsPerPDU), EMPTY, [], len).0.truncations
  {
    hide R.Tables, R.AllChunks, R.Chunks;
    var v := s.maxVarsPerPDU;
    R.AllChunksSane(w.tables, v, len);
    var (res, fails, course) := R.Tables(tr, s.maxRepetitions, R.AllChunks(w.tables, v), EMPTY, [], len);
    R.ScalarsKeepOIDs(tr, R.Chunks(w.scalars, v), res, fails);
  }

  lemma RunUncut(tr: Transport, w: Workload, s: Settings, len: nat)
    requires SaneAgent(tr, len) && R.SaneWorkload(w, len) && R.Valid(s)
    requires Whole(tr, len, s.maxRepetitions, s.maxVarsPerPDU)
    requires forall k, oids :: tr.get(k, oids).status.Answered?
    ensures R.RunWalk(tr, w, s, len).0.truncations == 0
  {
    var v := s.maxVarsPerPDU;
    RunTruncations(tr, w, s, len);
    TablesUncut(tr, s.maxRepetitions, R.AllChunks(w.tables, v), EMPTY, [], len, v);
  }

  /** A run against an agent that never cuts is clean at any R and V: it has all rows it asked
      for, except where the agent has come to the end of the MIB. */
  lemma RunEndsClean(tr: Transport, next: Successor, w: Workload, s: Settings, len: nat)
    requires SaneSuccessor(next, len) && SaneAgent(tr, len) && Memoryless(tr, next, len)
    requires R.SaneWorkload(w, len) && R.Valid(s) && Whole(tr, len, s.maxRepetitions, s.maxVarsPerPDU)
    ensures var (res, end) := R.RunWalk(tr, w, s, len);
            end == R.Complete && res.truncations == 0 && res.failure == []
  {
    R.RunRefinesGetNext(next, tr, w, s, len);
    RunUncut(tr, w, s, len);
  }

  lemma SustainedWhole(tr: Transport, next: Successor, len: nat, cap: nat, reps: Uint32, v: nat)
    requires RefusesAbove(tr, next, len, cap) && v * reps <= cap
    ensures Whole(tr, len, reps, v)
  {
    forall k, oids | Proper(oids, reps, len) && |oids| <= v
      ensures tr.bulk(k, oids, reps).status.Answered? && WholeRows(tr.bulk(k, oids, reps).varbinds, |oids|, reps)
    {
      MulMonotone(|oids|, v, reps);
    }
  }

  // ---------- What it refuses fails the run ----------

  lemma FirstRefused(tr: Transport, next: Successor, cap: nat, reps: Uint32, chunk: seq<Arcs>, res: Result, len: nat)
    requires SaneAgent(tr, len) && RefusesAbove(tr, next, len, cap) && R.SaneColumns(chunk, len)
    requires chunk != [] && reps > 0 && |chunk| * reps > cap
    ensures AllPlaced(R.Fresh(chunk), len)
    ensures TableWalk(tr, reps, State(R.Fresh(chunk), [], res), len).1 == Refused(AgentError)
  {
    R.FreshPlaced(chunk, len);
    PlacedHaveCursors(R.Fresh(chunk), len);
    Refinement.PlacedProper(R.Fresh(chunk), reps, len);
  }

  lemma WalkedThrough(tr: Transport, next: Successor, cap: nat, reps: Uint32, chunk: seq<Arcs>, res: Result, len: nat)
    requires SaneSuccessor(next, len) && SaneAgent(tr, len) && RefusesAbove(tr, next, len, cap)
    requires R.SaneColumns(chunk, len)
    requires reps > 0 && |chunk| * reps <= cap
    ensures AllPlaced(R.Fresh(chunk), len)
    ensures TableWalk(tr, reps, State(R.Fresh(chunk), [], res), len).1 == Done
  {
    var mild := Lenient(tr, next, cap);
    LenientAgent(tr, next, len, cap);
    LenientAlike(tr, next, cap, reps, |chunk|);
    R.ChunkRefinesGetNext(next, mild, reps, chunk, res, len);
    TableAlike(tr, mild, reps, State(R.Fresh(chunk), [], res), len, |chunk|);
  }

  lemma {:induction false} TablesRefused(tr: Transport, next: Successor, cap: nat, reps: Uint32,
                                         chunks: seq<seq<Arcs>>, res: Result,
                                         fails: seq<Failure>, len: nat, wide: seq<Arcs>)
    requires SaneSuccessor(next, len) && SaneAgent(tr, len) && RefusesAbove(tr, next, len, cap)
    requires reps > 0 && R.SaneChunks(chunks, len) && forall k :: 0 <= k < |chunks| ==> chunks[k] != []
    requires wide in chunks && |wide| * reps > cap
    ensures var (res', fails', course) := R.Tables(tr, reps, chunks, res, fails, len);
            course == R.Return && fails' != []
  {
    hide RefusesAbove, TableWalk, SaneAgent;
    var chunk := chunks[0];
    if |chunk| * reps > cap {
      FirstRefused(tr, next, cap, reps, chunk, res, len);
    } else {
      WalkedThrough(tr, next, cap, reps, chunk, res, len);
      var st := TableWalk(tr, reps, State(R.Fresh(chunk), [], res), len).0;
      assert wide in chunks[1..];
      TablesRefused(tr, next, cap, reps, chunks[1..], st.res, fails, len, wide);
    }
  }

  /** Some chunk is as wide as V allows, if some table is. */
  lemma {:induction false} WideChunk(tables: seq<Table>, v: nat, k: nat) returns (wide: seq<Arcs>)
    requires v > 0 && k < |tables| && |tables[k].columns| >= v
    ensures wide in R.AllChunks(tables, v) && |wide| == v
  {
    if k == 0 {
      wide := tables[0].columns[..v];
      assert R.Chunks(tables[0].columns, v)[0] == wide;
    } else {
      wide := WideChunk(tables[1..], v, k - 1);
    }
  }

  // ---------- Runs, and the threshold of a search ----------

  lemma SustainedRun(u: Machine.Setup, tr: Transport, next: Successor, stored: set<Arcs>, inv: Inventory.Inventory,
                     w: Workload, s: Settings, len: nat, cap: nat)
    requires SaneSuccessor(next, len) && Misordering(next, stored) && Inferred(next, inv, w, len)
    requires SaneAgent(tr, len) && RefusesAbove(tr, next, len, cap) && R.Valid(s) && s.Product() <= cap
    requires u.refOIDs == GroundTruth(inv.subtrees, w) && u.opts.tolerance >= 0.0 && R.SaneWorkload(w, len)
    ensures var (res, end) := R.RunWalk(tr, w, s, len);
            end == R.Complete && res.failure == [] && Machine.Checked(u, res) == res
  {
    var mild, v := Lenient(tr, next, cap), s.maxVarsPerPDU;
    LenientAgent(tr, next, len, cap);
    LenientAlike(tr, next, cap, s.maxRepetitions, v);
    RunAlike(tr, mild, w, s, len);
    Climb.AgreeingRunPasses(u, next, stored, inv, w, mild, s, len);
    R.RunRefinesGetNext(next, mild, w, s, len);
    SustainedWhole(tr, next, len, cap, s.maxRepetitions, v);
    RunUncut(tr, w, s, len);
  }

  lemma RefusedRun(tr: Transport, next: Successor, w: Workload, s: Settings, len: nat, cap: nat)
    requires SaneSuccessor(next, len) && SaneAgent(tr, len) && RefusesAbove(tr, next, len, cap)
        && R.SaneWorkload(w, len)
    requires R.Valid(s) && s.maxVarsPerPDU <= Width(w.tables) && s.Product() > cap
    ensures var (res, end) := R.RunWalk(tr, w, s, len); end == R.Complete && res.failure != []
  {
    hide RefusesAbove, SaneAgent, R.Chunks, R.AllChunks, R.Tables, Width, R.SaneColumns;
    var v := s.maxVarsPerPDU;
    R.AllChunksSane(w.tables, v, len);
    WidthIsMax(w.tables);
    var k :| 0 <= k < |w.tables| && |w.tables[k].columns| == Width(w.tables);
    var wide := WideChunk(w.tables, v, k);
    TablesRefused(tr, next, cap, s.maxRepetitions, R.AllChunks(w.tables, v), EMPTY, [], len, wide);
  }

  /** A run at V no wider than the widest table is clean and complete exactly when the
      agent sustains its product. */
  lemma RunSustained(u: Machine.Setup, tr: Transport, next: Successor, stored: set<Arcs>, inv: Inventory.Inventory,
                     w: Workload, s: Settings, len: nat, cap: nat)
    requires SaneSuccessor(next, len) && Misordering(next, stored) && Inferred(next, inv, w, len)
    requires SaneAgent(tr, len) && RefusesAbove(tr, next, len, cap) && R.Valid(s) && s.maxVarsPerPDU <= Width(w.tables)
    requires u.refOIDs == GroundTruth(inv.subtrees, w) && u.opts.tolerance >= 0.0
    ensures R.SaneWorkload(w, len)
    ensures var (res, end) := R.RunWalk(tr, w, s, len);
            end == R.Complete && (Machine.Checked(u, res).failure == [] <==> s.Product() <= cap)
  {
    InferredSane(next, stored, inv, w, len);
    if s.Product() <= cap {
      SustainedRun(u, tr, next, stored, inv, w, s, len, cap);
    } else {
      RefusedRun(tr, next, w, s, len, cap);
    }
  }

  /** Every walk of the search runs the workload against such an agent. */
  ghost predicate WalksAgent(env: Machine.Env, w: Workload, next: Successor, len: nat, cap: nat) {
    R.SaneWorkload(w, len) &&
    forall k, s ::
      if R.Valid(s) then
        exists tr :: SaneAgent(tr, len) && RefusesAbove(tr, next, len, cap)
            && env.walk(k, s).result == R.RunWalk(tr, w, s, len).0
      else env.walk(k, s).failed
  }

  lemma HasThreshold(u: Machine.Setup, next: Successor, stored: set<Arcs>, inv: Inventory.Inventory, w: Workload,
                     len: nat, cap: nat, v0: int)
    requires SaneSuccessor(next, len) && Misordering(next, stored) && Inferred(next, inv, w, len)
    requires WalksAgent(u.env, w, next, len, cap) && 0 < v0 <= Width(w.tables)
    requires u.refOIDs == GroundTruth(inv.subtrees, w) && u.opts.tolerance >= 0.0
    ensures SearchRuns.Threshold(u, v0, cap + 1)
  {
    forall s: Settings, res: Result | s.maxVarsPerPDU == v0 && SearchSafety.Produced(u, s, res)
        ensures res.failure == [] <==> s.Product() < cap + 1 {
      var k :| !u.env.walk(k, s).failed && res == Machine.Checked(u, u.env.walk(k, s).result);
      var tr :| SaneAgent(tr, len) && RefusesAbove(tr, next, len, cap)
          && u.env.walk(k, s).result == R.RunWalk(tr, w, s, len).0;
      RunSustained(u, tr, next, stored, inv, w, s, len, cap);
    }
  }

  /** Let an agent answer in full, perhaps misordered, all requests for at most cap
      varbinds and refuse all others. If a search over the inferred workload is neither
      stopped nor stressed and escalation ends in a failure, its largest clean product is
      at most cap and within a tenth of R of it. */
  lemma SearchLocatesLimit(u: Machine.Setup, m: Machine.Progress, next: Successor, stored: set<Arcs>,
                           inv: Inventory.Inventory, w: Workload, len: nat, cap: nat, v0: int)
    requires SaneSuccessor(next, len) && Misordering(next, stored) && Inferred(next, inv, w, len)
    requires WalksAgent(u.env, w, next, len, cap) && 0 < v0 <= Width(w.tables)
    requires u.refOIDs == GroundTruth(inv.subtrees, w) && u.opts.tolerance >= 0.0
    requires Guarantees.Unused(u, m) && u.maxProduct < 0x8000_0000
    ensures var m' := Machine.RunSearch(u, m, v0, Width(w.tables));
            SearchSafety.Unstopped(m') && !m'.out.stressed && m'.out.note.Some?
                && m'.out.note.value.FailedThenBisect? ==>
              exists g: nat :: Trials.LargestClean(m'.out.trials) == g * v0
                  && g * v0 <= cap < (g + Trials.Max(1, g / 10)) * v0
  {
    HasThreshold(u, next, stored, inv, w, len, cap, v0);
    Guarantees.RunKeeps(u, m, v0, Width(w.tables));
    var m' := Machine.RunSearch(u, m, v0, Width(w.tables));
    if SearchSafety.Unstopped(m') && !m'.out.stressed && m'.out.note.Some? && m'.out.note.value.FailedThenBisect? {
      assert Guarantees.Located(u, m', v0, cap + 1);
    }
  }

  // ---------- The simulator is such an agent ----------

  lemma SimRefusesAbove(tr: Transport, cfg: Sim.Config, values: map<Arcs, nat>, len: nat)
    requires SimAgreement.ServesAll(tr, cfg, values, len) && cfg.maxRows == 0 && cfg.maxBytes == 0 && cfg.errorAbove > 0
    ensures RefusesAbove(tr, Sim.NextOf(cfg, values.Keys), len, cfg.errorAbove)
  {
    hide PrefixReply, Sim.BulkVarbinds;
    var next := Sim.NextOf(cfg, values.Keys);
    forall k: nat, oids: seq<Arcs>, reps: Uint32 | Proper(oids, reps, len) && |oids| * reps <= cfg.errorAbove
      ensures var r := tr.bulk(k, oids, reps); PrefixReply(next, oids, r) && |r.varbinds| == |oids| * reps
    {
      SimAgreement.UncappedBytes(cfg, values, oids, reps, tr.bulk(k, oids, reps));
    }
  }
}
