/** One trial run of a workload (internal/walk/walk.go:122-161, 248-299): chunks of
    columns, then chunks of scalars, and how the outcome is accounted. */
module Run {
  import opened Oid
  import opened Agent
  import opened Column
  import opened Walk
  import opened Workloads
  import opened Refinement

  /** slices.Chunk. */
  function Chunks<T>(s: seq<T>, v: nat): (r: seq<seq<T>>)
    requires v > 0
    ensures forall k :: 0 <= k < |r| ==> 0 < |r[k]| <= v
  {
    if s == [] then [] else if |s| <= v then [s] else [s[..v]] + Chunks(s[v..], v)
  }

  /** Where chunk k ends. */
  function ChunkEnd(n: nat, v: nat, k: nat): (e: int)
    ensures e == (k + 1) * v || e == n
  {
    if (k + 1) * v < n then (k + 1) * v else n
  }

  lemma ChunkShift(n: nat, v: nat, k: nat)
    requires k > 0 && n > v
    ensures (k - 1) * v == k * v - v && ChunkEnd(n, v, k) == v + ChunkEnd(n - v, v, k - 1)
    ensures k * v < n <==> (k - 1) * v < n - v
    ensures (k + 1) * v < n <==> k * v < n - v
  {
    assert (k - 1) * v == k * v - v && (k + 1) * v == k * v + v;
  }

  lemma Slices<T>(s: seq<T>, v: nat, a: nat, e: nat)
    requires v <= |s| && a <= e <= |s| - v
    ensures s[v..][a..e] == s[v + a..v + e]
  {
  }

  /** Chunk k starts at k x V and has V members, but for the last one. */
  lemma {:induction false} ChunkAt<T>(s: seq<T>, v: nat, k: nat)
    requires v > 0 && k < |Chunks(s, v)|
    ensures 0 <= k * v < |s| && (k + 1 < |Chunks(s, v)| <==> (k + 1) * v < |s|)
    ensures k * v <= ChunkEnd(|s|, v, k) <= |s| && Chunks(s, v)[k] == s[k * v..ChunkEnd(|s|, v, k)]
  {
    if k == 0 {
      assert 0 * v == 0 && 1 * v == v;
    } else {
      hide ChunkEnd;
      var rest, r := Chunks(s[v..], v), Chunks(s, v);
      assert r == [s[..v]] + rest;
      ChunkAt(s[v..], v, k - 1);
      ChunkShift(|s|, v, k);
      Slices(s, v, (k - 1) * v, ChunkEnd(|s| - v, v, k - 1));
    }
  }

  function AllChunks(tables: seq<Table>, v: nat): (r: seq<seq<Arcs>>)
    requires v > 0
    ensures forall k :: 0 <= k < |r| ==> 0 < |r[k]| <= v
  {
    if tables == [] then [] else Chunks(tables[0].columns, v) + AllChunks(tables[1..], v)
  }

  /** No chunk spans two tables. */
  lemma {:induction false} ChunksOfTables(tables: seq<Table>, v: nat, c: seq<Arcs>)
    requires v > 0
    ensures c in AllChunks(tables, v) <==> exists k :: 0 <= k < |tables| && c in Chunks(tables[k].columns, v)
  {
    if tables != [] {
      ChunksOfTables(tables[1..], v, c);
      assert forall k :: 0 < k < |tables| ==> tables[k] == tables[1..][k - 1];
    }
  }

  function Fresh(chunk: seq<Arcs>): (cols: seq<Col>)
    ensures |cols| == |chunk|
    ensures forall i :: 0 <= i < |cols| ==> cols[i] == Col(chunk[i], chunk[i], false, false, [])
  {
    seq(|chunk|, i requires 0 <= i < |chunk| => Col(chunk[i], chunk[i], false, false, []))
  }

  /** SkipTarget would index out of range on the empty OID, so no column may be empty. */
  ghost predicate SaneColumns(chunk: seq<Arcs>, len: nat) {
    forall i :: 0 <= i < |chunk| ==> chunk[i] != [] && Sane(chunk[i], len)
  }

  ghost predicate SaneChunks(chunks: seq<seq<Arcs>>, len: nat) {
    forall k :: 0 <= k < |chunks| ==> SaneColumns(chunks[k], len)
  }

  ghost predicate SaneWorkload(w: Workload, len: nat) {
    forall t :: t in w.tables ==> SaneColumns(t.columns, len)
  }

  lemma FreshPlaced(chunk: seq<Arcs>, len: nat)
    requires SaneColumns(chunk, len)
    ensures AllPlaced(Fresh(chunk), len)
  {
    forall i | 0 <= i < |chunk| ensures Placed(Fresh(chunk)[i], len) && !Fresh(chunk)[i].finished {
      assert chunk[i] != [] && Sane(chunk[i], len);
    }
  }

  lemma {:induction false} ChunksSane(cols: seq<Arcs>, v: nat, len: nat)
    requires v > 0 && SaneColumns(cols, len)
    ensures SaneChunks(Chunks(cols, v), len)
  {
    if |cols| > v {
      ChunksSane(cols[v..], v, len);
    }
  }

  lemma {:induction false} AllChunksSane(tables: seq<Table>, v: nat, len: nat)
    requires v > 0 && forall t :: t in tables ==> SaneColumns(t.columns, len)
    ensures SaneChunks(AllChunks(tables, v), len)
  {
    if tables != [] {
      ChunksSane(tables[0].columns, v, len);
      AllChunksSane(tables[1..], v, len);
    }
  }

  /** Whether Run goes on to the scalars, returns a failed result, or errs. */
  datatype Course = Continue | Return | Abort(end: End)

  ghost function Tables(tr: Transport, reps: Uint32, chunks: seq<seq<Arcs>>, res: Result, fails: seq<Failure>, len: nat)
    : (Result, seq<Failure>, Course)
    requires SaneAgent(tr, len) && SaneChunks(chunks, len)
  {
    if chunks == [] then (res, fails, Continue)
    else
      FreshPlaced(chunks[0], len);
      var (st, end) := TableWalk(tr, reps, State(Fresh(chunks[0]), [], res), len);
      match end
      case Done => Tables(tr, reps, chunks[1..], st.res, fails, len)
      case EmptyResponse => Tables(tr, reps, chunks[1..], st.res, fails + [EmptyBulk], len)
      case Refused(Timeout) => (st.res, fails + [Failure.Status(Timeout)], Return)
      case Refused(AgentError) => (st.res, fails + [Failure.Status(AgentError)], Return)
      case _ => (st.res, fails, Abort(end))
  }

  /** Walking two lists of chunks one after the other. */
  lemma {:induction false} TablesAppend(tr: Transport, reps: Uint32, a: seq<seq<Arcs>>, b: seq<seq<Arcs>>, res: Result,
                                        fails: seq<Failure>, len: nat)
    requires SaneAgent(tr, len) && SaneChunks(a, len) && SaneChunks(b, len)
    ensures SaneChunks(a + b, len)
    ensures var (res', fails', course) := Tables(tr, reps, a, res, fails, len);
            Tables(tr, reps, a + b, res, fails, len)
            == if course == Continue then Tables(tr, reps, b, res', fails', len) else (res', fails', course)
  {
    if a == [] {
      assert a + b == b;
    } else {
      assert (a + b)[0] == a[0] && (a + b)[1..] == a[1..] + b;
      FreshPlaced(a[0], len);
      var (st, end) := TableWalk(tr, reps, State(Fresh(a[0]), [], res), len);
      if end == Done {
        TablesAppend(tr, reps, a[1..], b, st.res, fails, len);
      } else if end == EmptyResponse {
        TablesAppend(tr, reps, a[1..], b, st.res, fails + [EmptyBulk], len);
      }
    }
  }

  function AnsweredScalars(vbs: seq<Varbind>): nat {
    if vbs == [] then 0 else
    AnsweredScalars(vbs[..|vbs| - 1]) + if vbs[|vbs| - 1].value.Data? then 1 else 0
  }

  /** Walker.scalars on one chunk. */
  function ScalarChunk(tr: Transport, chunk: seq<Arcs>, res: Result): (Result, Agent.Status) {
    var r := tr.get(|res.pdus|, chunk);
    var sent := Sent(res, Get, |chunk|, 0, r);
    if r.status.Answered? then (sent.(varbinds := res.varbinds + AnsweredScalars(r.varbinds)), r.status)
    else (sent, r.status)
  }

  function Scalars(tr: Transport, chunks: seq<seq<Arcs>>, res: Result, fails: seq<Failure>): (Result, seq<Failure>,
                   Course) {
    if chunks == [] then (res, fails, Continue)
    else
      var (res', status) := ScalarChunk(tr, chunks[0], res);
      match status
      case Answered => Scalars(tr, chunks[1..], res', fails)
      case Broken => (res', fails, Abort(Refused(Broken)))
      case _ => (res', fails + [Failure.Status(status)], Continue)
  }

  datatype RunEnd = Complete | InvalidSettings | Error(end: End)

  predicate Valid(s: Settings) {
    s.maxRepetitions != 0 && s.maxVarsPerPDU > 0
  }

  function Concluded(res: Result, fails: seq<Failure>): Result {
    res.(failure := fails + if res.truncations > 0 then [Truncated(res.truncations)] else [])
  }

  /** walk.Run. */
  ghost function RunWalk(tr: Transport, w: Workload, s: Settings, len: nat): (Result, RunEnd)
    requires SaneAgent(tr, len) && SaneWorkload(w, len)
  {
    if !Valid(s) then (EMPTY, InvalidSettings)
    else
      AllChunksSane(w.tables, s.maxVarsPerPDU, len);
      var (res, fails, course) := Tables(tr, s.maxRepetitions, AllChunks(w.tables, s.maxVarsPerPDU), EMPTY, [], len);
      match course
      case Return => (res.(failure := fails), Complete)
      case Abort(end) => (res, Error(end))
      case Continue =>
        var (res', fails', course') := Scalars(tr, Chunks(w.scalars, s.maxVarsPerPDU), res, fails);
        if course'.Abort? then (res', Error(course'.end)) else (Concluded(res', fails'), Complete)
  }

  // ---------- What a run collects ----------

  ghost function WalkBag(next: Successor, cols: seq<Arcs>, len: nat): multiset<Arcs>
    requires SaneSuccessor(next, len) && SaneColumns(cols, len)
  {
    if cols == [] then multiset{} else
    WalkBag(next, cols[..|cols| - 1], len)
      + multiset(NextWalk(next, cols[|cols| - 1], cols[|cols| - 1], len))
  }

  ghost function PlainWalkOf(next: Successor, len: nat): (f: Col -> multiset<Arcs>)
    requires SaneSuccessor(next, len)
    ensures ByName(f)
    ensures forall c: Col :: c.oid != [] && |c.oid| <= len ==> f(c) == multiset(NextWalk(next, c.oid, c.oid, len))
  {
    (c: Col) => if c.oid != [] && |c.oid| <= len then multiset(NextWalk(next, c.oid, c.oid, len)) else multiset{}
  }

  lemma FreshSnoc(f: Col -> multiset<Arcs>, chunk: seq<Arcs>)
    requires chunk != []
    ensures var n := |chunk| - 1;
            Bag(f, Fresh(chunk)) == Bag(f, Fresh(chunk[..n])) + f(Col(chunk[n], chunk[n], false, false, []))
  {
    var n := |chunk| - 1;
    var c := Col(chunk[n], chunk[n], false, false, []);
    assert Fresh(chunk) == Fresh(chunk[..n]) + [c];
    BagSnoc(f, Fresh(chunk[..n]), c);
  }

  lemma {:induction false} FreshNames(chunk: seq<Arcs>)
    ensures Bag(GotOf, Fresh(chunk)) == multiset{}
    ensures Bag(NameOf, Fresh(chunk)) == multiset(chunk)
  {
    hide Fresh;
    if chunk == [] {
      assert Fresh(chunk) == [];
    } else {
      var n := |chunk| - 1;
      FreshSnoc(GotOf, chunk);
      FreshSnoc(NameOf, chunk);
      FreshNames(chunk[..n]);
      assert chunk == chunk[..n] + [chunk[n]];
    }
  }

  lemma {:induction false} FreshWalks(f: Col -> multiset<Arcs>, next: Successor, chunk: seq<Arcs>, len: nat)
    requires SaneSuccessor(next, len) && SaneColumns(chunk, len)
    requires forall c: Col :: c.oid != [] && |c.oid| <= len ==> f(c) == multiset(NextWalk(next, c.oid, c.oid, len))
    ensures Bag(f, Fresh(chunk)) == WalkBag(next, chunk, len)
  {
    if chunk != [] {
      var n := |chunk| - 1;
      FreshSnoc(f, chunk);
      FreshWalks(f, next, chunk[..n], len);
      assert f(Col(chunk[n], chunk[n], false, false, [])) == multiset(NextWalk(next, chunk[n], chunk[n], len));
    }
  }

  lemma FulfilledGot(next: Successor, retired: seq<Col>, len: nat)
    requires SaneSuccessor(next, len) && Fulfilled(next, retired, len)
    ensures forall c :: c in retired ==> c.oid != [] && |c.oid| <= len && c.got == NextWalk(next, c.oid, c.oid, len)
  {
    forall c | c in retired ensures c.oid != [] && |c.oid| <= len && c.got == NextWalk(next, c.oid, c.oid, len) {
      assert OnCourse(next, c, len);
      assert c.got + [] == c.got;
    }
  }

  lemma FulfilledBags(f: Col -> multiset<Arcs>, next: Successor, retired: seq<Col>, len: nat)
    requires SaneSuccessor(next, len) && Fulfilled(next, retired, len)
    requires forall c: Col :: c.oid != [] && |c.oid| <= len ==> f(c) == multiset(NextWalk(next, c.oid, c.oid, len))
    ensures Bag(GotOf, retired) == Bag(f, retired)
  {
    FulfilledGot(next, retired, len);
    forall i | 0 <= i < |retired| ensures GotOf(retired[i]) == f(retired[i]) {
      assert retired[i] in retired;
    }
    BagSame(GotOf, f, retired, retired);
  }

  lemma TableBags(f: Col -> multiset<Arcs>, tr: Transport, reps: Uint32, chunk: seq<Arcs>, res: Result, len: nat)
    requires SaneAgent(tr, len) && SaneColumns(chunk, len) && ByName(f)
    ensures AllPlaced(Fresh(chunk), len)
    ensures var (st, end) := TableWalk(tr, reps, State(Fresh(chunk), [], res), len);
            && multiset(st.res.oids) == multiset(res.oids) + AllOf(GotOf, st)
            && AllOf(f, st) == Bag(f, Fresh(chunk))
  {
    FreshPlaced(chunk, len);
    FreshNames(chunk);
    TableGathers(f, tr, reps, State(Fresh(chunk), [], res), len, multiset(res.oids));
  }

  /** The refinement, for one chunk of columns: whatever max-repetitions, the shape of
      the chunk and where the agent cuts its replies, the bulk walk ends normally, ends
      every column of the chunk, and has collected for each exactly the list of the
      plain GetNext walk; the result grew by exactly these OIDs. */
  lemma ChunkRefinesGetNext(next: Successor, tr: Transport, reps: Uint32, chunk: seq<Arcs>, res: Result, len: nat)
    requires SaneSuccessor(next, len) && SaneAgent(tr, len) && Memoryless(tr, next, len)
    requires SaneColumns(chunk, len) && reps > 0
    ensures AllPlaced(Fresh(chunk), len)
    ensures var (st, end) := TableWalk(tr, reps, State(Fresh(chunk), [], res), len);
            && end == Done
            && Bag(NameOf, st.retired) == multiset(chunk)
            && (forall c :: c in st.retired ==>
                  c.oid != [] && |c.oid| <= len && c.got == NextWalk(next, c.oid, c.oid, len))
            && multiset(st.res.oids) == multiset(res.oids) + WalkBag(next, chunk, len)
  {
    FreshPlaced(chunk, len);
    var st0 := State(Fresh(chunk), [], res);
    forall i | 0 <= i < |chunk| ensures OnCourse(next, Fresh(chunk)[i], len) {
      assert Placed(Fresh(chunk)[i], len);
    }
    TableOnCourse(next, tr, reps, st0, len);
    var st := TableWalk(tr, reps, st0, len).0;
    FulfilledGot(next, st.retired, len);
    TableBags(NameOf, tr, reps, chunk, res, len);
    FreshNames(chunk);
    var f := PlainWalkOf(next, len);
    TableBags(f, tr, reps, chunk, res, len);
    FreshWalks(f, next, chunk, len);
    FulfilledBags(f, next, st.retired, len);
  }

  // ---------- The refinement for a whole workload ----------

  lemma WalkBagNone(next: Successor, len: nat)
    requires SaneSuccessor(next, len)
    ensures WalkBag(next, [], len) == multiset{}
  {
  }

  lemma WalkBagSnoc(next: Successor, cols: seq<Arcs>, c: Arcs, len: nat)
    requires SaneSuccessor(next, len) && SaneColumns(cols, len) && c != [] && Sane(c, len)
    ensures SaneColumns(cols + [c], len)
    ensures WalkBag(next, cols + [c], len) == WalkBag(next, cols, len) + multiset(NextWalk(next, c, c, len))
  {
    hide NextWalk, Sane, SaneSuccessor;
    assert (cols + [c])[..|cols|] == cols;
  }

  lemma {:induction false} WalkBagAppend(next: Successor, a: seq<Arcs>, b: seq<Arcs>, len: nat)
    requires SaneSuccessor(next, len) && SaneColumns(a, len) && SaneColumns(b, len)
    ensures SaneColumns(a + b, len)
    ensures WalkBag(next, a + b, len) == WalkBag(next, a, len) + WalkBag(next, b, len)
  {
    hide NextWalk, Sane, SaneSuccessor, WalkBag;
    if b == [] {
      assert a + b == a;
      assert WalkBag(next, b, len) == multiset{} by { WalkBagNone(next, len); }
    } else {
      var n := |b| - 1;
      assert b == b[..n] + [b[n]];
      assert a + b == (a + b[..n]) + [b[n]];
      WalkBagAppend(next, a, b[..n], len);
      WalkBagSnoc(next, b[..n], b[n], len);
      WalkBagSnoc(next, a + b[..n], b[n], len);
    }
  }

  function Flat<T>(chunks: seq<seq<T>>): seq<T> {
    if chunks == [] then [] else chunks[0] + Flat(chunks[1..])
  }

  lemma {:induction false} FlatAppend<T>(a: seq<seq<T>>, b: seq<seq<T>>)
    ensures Flat(a + b) == Flat(a) + Flat(b)
  {
    if a == [] {
      assert a + b == b;
    } else {
      assert (a + b)[1..] == a[1..] + b;
      FlatAppend(a[1..], b);
    }
  }

  lemma {:induction false} FlatChunks<T>(s: seq<T>, v: nat)
    requires v > 0
    ensures Flat(Chunks(s, v)) == s
  {
    if s == [] {
    } else if |s| <= v {
      assert Flat([s]) == s + Flat([s][1..]) == s;
    } else {
      FlatChunks(s[v..], v);
      assert Chunks(s, v)[1..] == Chunks(s[v..], v);
      assert s == s[..v] + s[v..];
    }
  }

  /** Chunking loses, repeats and reorders nothing. */
  lemma {:induction false} FlatAllChunks(tables: seq<Table>, v: nat)
    requires v > 0
    ensures Flat(AllChunks(tables, v)) == AllColumns(tables)
  {
    if tables != [] {
      FlatChunks(tables[0].columns, v);
      FlatAllChunks(tables[1..], v);
      FlatAppend(Chunks(tables[0].columns, v), AllChunks(tables[1..], v));
    }
  }

  lemma {:induction false} FlatSane(chunks: seq<seq<Arcs>>, len: nat)
    requires SaneChunks(chunks, len)
    ensures SaneColumns(Flat(chunks), len)
  {
    if chunks != [] {
      FlatSane(chunks[1..], len);
    }
  }

  lemma {:induction false} TablesCollect(next: Successor, tr: Transport, reps: Uint32, chunks: seq<seq<Arcs>>,
                                         res: Result, fails: seq<Failure>, len: nat)
    requires SaneSuccessor(next, len) && SaneAgent(tr, len) && Memoryless(tr, next, len)
    requires SaneChunks(chunks, len) && reps > 0
    ensures SaneColumns(Flat(chunks), len)
    ensures var (res', fails', course) := Tables(tr, reps, chunks, res, fails, len);
            && course == Continue && fails' == fails
            && multiset(res'.oids) == multiset(res.oids) + WalkBag(next, Flat(chunks), len)
  {
    FlatSane(chunks, len);
    if chunks != [] {
      FreshPlaced(chunks[0], len);
      ChunkRefinesGetNext(next, tr, reps, chunks[0], res, len);
      var st := TableWalk(tr, reps, State(Fresh(chunks[0]), [], res), len).0;
      TablesCollect(next, tr, reps, chunks[1..], st.res, fails, len);
      FlatSane(chunks[1..], len);
      WalkBagAppend(next, chunks[0], Flat(chunks[1..]), len);
    }
  }

  lemma {:induction false} ScalarsKeepOIDs(tr: Transport, chunks: seq<seq<Arcs>>, res: Result, fails: seq<Failure>)
    requires forall k, oids :: tr.get(k, oids).status.Answered?
    ensures var (res', fails', course) := Scalars(tr, chunks, res, fails);
            course == Continue && fails' == fails && res'.oids == res.oids && res'.truncations == res.truncations
  {
    if chunks != [] {
      ScalarsKeepOIDs(tr, chunks[1..], ScalarChunk(tr, chunks[0], res).0, fails);
    }
  }

  /** The bulk walk of a workload refines the GetNext walk of each of its columns: for
      every valid R and V and every way replies are cut, a run completes, collects
      exactly the union of the plain walks of its columns, and can only have failed
      for truncation. */
  lemma RunRefinesGetNext(next: Successor, tr: Transport, w: Workload, s: Settings, len: nat)
    requires SaneSuccessor(next, len) && SaneAgent(tr, len) && Memoryless(tr, next, len) && SaneWorkload(w, len)
    requires Valid(s)
    ensures SaneColumns(AllColumns(w.tables), len)
    ensures var (res, end) := RunWalk(tr, w, s, len);
            && end == Complete
            && multiset(res.oids) == WalkBag(next, AllColumns(w.tables), len)
            && res.failure == if res.truncations > 0 then [Truncated(res.truncations)] else []
  {
    var v := s.maxVarsPerPDU;
    var chunks := AllChunks(w.tables, v);
    AllChunksSane(w.tables, v, len);
    TablesCollect(next, tr, s.maxRepetitions, chunks, EMPTY, [], len);
    FlatAllChunks(w.tables, v);
    var res := Tables(tr, s.maxRepetitions, chunks, EMPTY, [], len).0;
    ScalarsKeepOIDs(tr, Chunks(w.scalars, v), res, []);
  }
}
