/** The walker as the program has it: column objects updated in place, an array of
    active columns compacted in place, counters in fields (internal/walk/walk.go). Each
    method is proved to compute the functions of Walk and Run. */
module Walkers {
  import opened Oid
  import opened Agent
  import C = Column
  import opened Walk
  import opened Workloads
  import opened Run

  class Column {
    const oid: Arcs
    var cursor: Arcs
    var jumped: bool
    ghost var got: seq<Arcs>

    /** The value of this column, finished or not. */
    ghost predicate Is(v: C.Col, finished: bool)
      reads this
    {
      v == C.Col(oid, cursor, jumped, finished, got)
    }

    constructor (oid: Arcs)
      ensures Is(C.Col(oid, oid, false, false, []), false)
    {
      this.oid, cursor, jumped, got := oid, oid, false, [];
    }
  }

  ghost predicate NoneTwice(cs: seq<Column>) {
    forall i, j :: 0 <= i < j < |cs| ==> cs[i] != cs[j]
  }

  /** The columns and the finished flags stand for these values. */
  ghost predicate Mirror(cs: seq<Column>, finished: seq<bool>, v: seq<C.Col>)
    reads cs
  {
    && |v| == |cs| == |finished| && NoneTwice(cs)
    && forall i :: 0 <= i < |cs| ==> cs[i].Is(v[i], finished[i])
  }

  /** All of them still active. */
  ghost predicate MirrorActive(cs: seq<Column>, v: seq<C.Col>)
    reads cs
  {
    && |v| == |cs| && NoneTwice(cs)
    && forall i :: 0 <= i < |cs| ==> cs[i].Is(v[i], false)
  }

  // ---------- active[:0] and append ----------

  /** The unfinished columns, in order. */
  ghost function Remaining(cs: seq<Column>, finished: seq<bool>): (r: seq<Column>)
    requires |finished| == |cs|
    ensures |r| <= |cs| && forall c :: c in r ==> c in cs
  {
    if cs == [] then [] else
    var n := |cs| - 1;
    Remaining(cs[..n], finished[..n]) + if finished[n] then [] else [cs[n]]
  }

  lemma {:induction false} RemainingMirror(cs: seq<Column>, finished: seq<bool>, v: seq<C.Col>)
    requires Mirror(cs, finished, v)
    ensures MirrorActive(Remaining(cs, finished), Unfinished(v))
  {
    if cs != [] {
      var n := |cs| - 1;
      RemainingMirror(cs[..n], finished[..n], v[..n]);
      assert cs[n].Is(v[n], finished[n]);
      assert cs[n] !in cs[..n];
    }
  }

  /** The unfinished columns move to the front of the array. */
  method Compact(active: array<Column>, width: nat, finished: array<bool>) returns (n: nat)
    requires width <= active.Length && finished.Length == width
    modifies active
    ensures n <= width && active[..n] == Remaining(old(active[..width]), finished[..])
  {
    n := 0;
    ghost var was, fin := active[..width], finished[..];
    for i := 0 to width
      invariant n <= i
      invariant finished[..] == fin
      invariant forall k :: i <= k < width ==> active[k] == was[k]
      invariant active[..n] == Remaining(was[..i], fin[..i])
    {
      assert was[..i + 1][..i] == was[..i] && fin[..i + 1][..i] == fin[..i];
      if !finished[i] {
        active[n] := active[i];
        n := n + 1;
      }
    }
    assert was[..width] == was && fin[..width] == fin;
  }

  /** One fresh column object per column of the chunk. */
  method MakeColumns(chunk: seq<Arcs>) returns (active: array<Column>)
    ensures fresh(active) && active.Length == |chunk| && fresh(active[..|chunk|])
    ensures MirrorActive(active[..|chunk|], Fresh(chunk))
  {
    var cs: seq<Column> := [];
    for i := 0 to |chunk|
      invariant |cs| == i && NoneTwice(cs) && fresh(cs)
      invariant forall k :: 0 <= k < i ==> cs[k].Is(Fresh(chunk)[k], false)
    {
      var c := new Column(chunk[i]);
      cs := cs + [c];
    }
    active := new Column[|cs|](i requires 0 <= i < |cs| => cs[i]);
    assert active[..|chunk|] == cs;
  }

  // ---------- The counters ----------

  /** What a scan adds to the counters of a result. */
  ghost function Gathered(res: Result, s: Scan): Result {
    res.(oids := res.oids + s.oids, varbinds := res.varbinds + |s.oids|, skips := res.skips + s.skips)
  }

  /** The counters after one more varbind for column c. */
  ghost function Counted(res: Result, c: C.Col, vb: Varbind): Result {
    if C.Accepts(c, vb) then res.(oids := res.oids + [vb.oid], varbinds := res.varbinds + 1)
    else if C.Skips(c, vb) then res.(skips := res.skips + [c.oid])
    else res
  }

  lemma GatheredStep(res: Result, s: Scan, i: nat, vb: Varbind)
    requires i < |s.cols| && HaveCursors(s.cols)
    ensures Gathered(res, ScanStep(s, i, vb)) == Counted(Gathered(res, s), s.cols[i], vb)
  {
    assert res.oids + (s.oids + [vb.oid]) == res.oids + s.oids + [vb.oid];
    assert res.skips + (s.skips + [s.cols[i].oid]) == res.skips + s.skips + [s.cols[i].oid];
  }

  lemma AccountedBy(res: Result, width: nat, reps: Uint32, r: Reply, s: Scan, sent: Result)
    requires width > 0 && sent == Sent(res, GetBulk, width, reps, r) && r.status.Answered?
    ensures var g, cut := Gathered(sent, s), CutShort(r.varbinds, width, reps);
            var k := |res.pdus|;
            && |g.pdus| == k + 1
            && g.(pdus := g.pdus[..k] + [g.pdus[k].(rows := Rows(|r.varbinds|, width), truncated := cut,
                                          error := if s.skips != [] then Misordered else NoError)],
                  truncations := g.truncations + if cut then 1 else 0)
               == Accounted(res, width, reps, r, s)
  {
    assert Sent(res, GetBulk, width, reps, r).pdus[..|res.pdus|] == res.pdus;
  }

  lemma ScanNext(cols: seq<C.Col>, vbs: seq<Varbind>, n: nat)
    requires n < |vbs| && cols != [] && HaveCursors(cols)
    ensures var s, s', i := ScanTo(cols, vbs, n), ScanTo(cols, vbs, n + 1), n % |cols|;
            s' == ScanStep(s, i, vbs[n]) && (s'.skips != [] <==> s.skips != [] || C.Skips(s.cols[i], vbs[n]))
  {
  }

  lemma RowAllEndNext(vbs: seq<Varbind>, width: nat, row: int, n: nat)
    requires width > 0 && n < |vbs|
    ensures RowAllEnd(vbs, width, row, n + 1) <==>
              RowAllEnd(vbs, width, row, n) && (n / width == row ==> vbs[n].value.EndOfMibView?)
  {
  }

  class Walker {
    const tr: Transport
    var res: Result
    var log: seq<PDU>

    constructor (tr: Transport)
      ensures this.tr == tr && res == EMPTY && log == []
    {
      this.tr, res, log := tr, EMPTY, [];
    }

    /** c.jumped = false for every active column. */
    method Rewind(cs: seq<Column>, ghost v: seq<C.Col>)
      requires MirrorActive(cs, v)
      modifies cs
      ensures MirrorActive(cs, Rewound(v))
    {
      for i := 0 to |cs|
        invariant forall k :: 0 <= k < i ==> cs[k].Is(v[k].(jumped := false), false)
        invariant forall k :: i <= k < |cs| ==> cs[k].Is(v[k], false)
      {
        cs[i].jumped := false;
      }
    }

    /** One varbind of a response for the column object c, standing for v. */
    method AbsorbVarbind(c: Column, i: nat, vb: Varbind, finished: array<bool>, ghost v: C.Col)
      returns (skipped: bool, ended: bool)
      requires i < finished.Length && c.Is(v, finished[i]) && v.cursor != []
      modifies `res, finished, c
      ensures c.Is(C.Absorb(v, vb), finished[i])
      ensures finished[..] == old(finished[..])[i := finished[i]]
      ensures skipped == C.Skips(v, vb) && res == Counted(old(res), v, vb)
    {
      skipped, ended := false, false;
      if finished[i] || c.jumped {
        return;
      }
      if vb.value.EndOfMibView? || !(c.oid <= vb.oid) {
        finished[i], ended := true, true;
        return;
      }
      var order := CompareArcs(vb.oid, c.cursor);
      LessTotal(vb.oid, c.cursor);
      if order <= 0 {
        var target := ComputeSkipTarget(c.cursor, vb.oid);
        res := res.(skips := res.skips + [c.oid]);
        skipped := true;
        c.cursor, c.jumped := target, true;
        if !(c.oid <= target) {
          finished[i], ended := true, true;
        }
        return;
      }
      c.cursor, c.got := vb.oid, c.got + [vb.oid];
      res := res.(oids := res.oids + [vb.oid], varbinds := res.varbinds + 1);
    }

    /** One varbind of a response for column i of the active ones. */
    method TakeVarbind(cs: seq<Column>, i: nat, vb: Varbind, finished: array<bool>, ghost s: Scan)
      returns (skipped: bool, ended: bool)
      requires i < |cs| && HaveCursors(s.cols) && Mirror(cs, finished[..], s.cols)
      modifies `res, finished, cs[i]
      ensures i < |s.cols| && Mirror(cs, finished[..], ScanStep(s, i, vb).cols)
      ensures skipped == C.Skips(s.cols[i], vb) && res == Counted(old(res), s.cols[i], vb)
    {
      ghost var fin := finished[..];
      assert cs[i].Is(s.cols[i], fin[i]);
      skipped, ended := AbsorbVarbind(cs[i], i, vb, finished, s.cols[i]);
      forall k | 0 <= k < |cs| ensures cs[k].Is(ScanStep(s, i, vb).cols[k], finished[..][k]) {
        if k != i {
          assert old(cs[k].Is(s.cols[k], fin[k])) && cs[k] != cs[i];
        }
      }
    }

    /** The state after the first n varbinds of a response. */
    ghost predicate Scanned(cs: seq<Column>, finished: array<bool>, v: seq<C.Col>, vbs: seq<Varbind>, n: nat,
                            res0: Result, skipped: bool)
      reads this, finished, cs
    {
      && v != [] && HaveCursors(v) && n <= |vbs| && |cs| == |v|
      && var s := ScanTo(v, vbs, n);
      && Mirror(cs, finished[..], s.cols)
      && res == Gathered(res0, s) && skipped == (s.skips != [])
    }

    /** Varbind n of a response: row n / width, column n % width. */
    method TakeNext(cs: seq<Column>, vbs: seq<Varbind>, n: nat, finished: array<bool>, skipped: bool,
                    ghost v: seq<C.Col>, ghost res0: Result)
      returns (skipped': bool, ended: bool)
      requires n < |vbs| && Scanned(cs, finished, v, vbs, n, res0, skipped)
      modifies `res, finished, cs
      ensures Scanned(cs, finished, v, vbs, n + 1, res0, skipped')
    {
      ghost var s := ScanTo(v, vbs, n);
      GatheredStep(res0, s, n % |cs|, vbs[n]);
      ScanNext(v, vbs, n);
      var skip;
      skip, ended := TakeVarbind(cs, n % |cs|, vbs[n], finished, s);
      skipped' := skipped || skip;
    }

    /** All varbinds of a response, row by row. */
    method ScanResponse(cs: seq<Column>, vbs: seq<Varbind>, finished: array<bool>, ghost v: seq<C.Col>)
      returns (skipped: bool, anyFinished: bool, lastRowAllEnd: bool)
      requires cs != [] && |cs| == finished.Length && HaveCursors(v)
      requires MirrorActive(cs, v) && forall i :: 0 <= i < |cs| ==> !finished[i]
      modifies `res, finished, cs
      ensures Scanned(cs, finished, v, vbs, |vbs|, old(res), skipped)
      ensures lastRowAllEnd == LastRowAllEnd(vbs, |cs|)
      ensures vbs == [] ==> !anyFinished
    {
      var width, n := |cs|, |vbs|;
      var lastRow: int := Rows(n, width) - 1;
      skipped, anyFinished, lastRowAllEnd := false, false, n > 0;
      Rewind(cs, v);
      assert Gathered(res, ScanTo(v, vbs, 0)) == res;
      for idx := 0 to n
        invariant Scanned(cs, finished, v, vbs, idx, old(res), skipped)
        invariant lastRowAllEnd == (n > 0 && RowAllEnd(vbs, width, lastRow, idx))
        invariant n == 0 ==> !anyFinished
      {
        if idx / width == lastRow && !vbs[idx].value.EndOfMibView? {
          lastRowAllEnd := false;
        }
        RowAllEndNext(vbs, width, lastRow, idx);
        var ended;
        skipped, ended := TakeNext(cs, vbs, idx, finished, skipped, v, old(res));
        anyFinished := anyFinished || ended;
      }
    }

    /** Every completed request has been logged as it ended up in the result. */
    ghost predicate Logged()
      reads this
    {
      log == res.pdus
    }

    /** send: the record of an answered request is logged only when it is complete. */
    method Send(kind: Kind, oids: seq<Arcs>, reps: Uint32) returns (r: Reply)
      requires Logged()
      modifies this
      ensures r == if kind.GetBulk? then tr.bulk(old(|res.pdus|), oids, reps) else tr.get(old(|res.pdus|), oids)
      ensures res == Sent(old(res), kind, |oids|, reps, r)
      ensures log == if r.status.Answered? then old(log) else res.pdus
    {
      r := if kind.GetBulk? then tr.bulk(|res.pdus|, oids, reps) else tr.get(|res.pdus|, oids);
      res := Sent(res, kind, |oids|, reps, r);
      if !r.status.Answered? {
        log := log + [res.pdus[|res.pdus| - 1]];
      }
    }

    /** The bookkeeping after a scanned response, and its log line. */
    method Conclude(vbs: seq<Varbind>, width: nat, reps: Uint32, skipped: bool, lastRowAllEnd: bool)
      requires width > 0 && res.pdus != [] && log == res.pdus[..|res.pdus| - 1]
      requires lastRowAllEnd == LastRowAllEnd(vbs, width)
      modifies this
      ensures Logged()
      ensures var was, cut := old(res), CutShort(vbs, width, reps);
              var k := |was.pdus| - 1;
              var p := was.pdus[k].(rows := Rows(|vbs|, width), truncated := was.pdus[k].truncated || cut,
                                    error := if skipped then Misordered else was.pdus[k].error);
              res == was.(pdus := was.pdus[..k] + [p], truncations := was.truncations + if cut then 1 else 0)
    {
      var n, k := |vbs|, |res.pdus| - 1;
      var p := res.pdus[k];
      if skipped {
        p := p.(error := Misordered);
      }
      var rows := Rows(n, width);
      p := p.(rows := rows);
      if (rows < reps || n % width != 0) && !lastRowAllEnd {
        p := p.(truncated := true);
        res := res.(truncations := res.truncations + 1);
      }
      res := res.(pdus := res.pdus[..k] + [p]);
      log := log + [p];
    }

    /** One answered request: what its response does to the columns and the result. */
    method Respond(cs: seq<Column>, reps: Uint32, r: Reply, ghost st: State)
      returns (finished: array<bool>, end: End)
      requires cs != [] && MirrorActive(cs, st.active) && HaveCursors(st.active) && r.status.Answered?
      requires res == Sent(st.res, GetBulk, |cs|, reps, r) && log == st.res.pdus
      modifies this, cs
      ensures fresh(finished) && finished.Length == |cs|
      ensures Logged() && res == Turn(st, reps, r).res
      ensures Mirror(cs, finished[..], ScanTo(st.active, r.varbinds, |r.varbinds|).cols)
      ensures end == if r.varbinds == [] then EmptyResponse else Done
    {
      hide CutShort, HaveCursors, Accounted, ScanTo;
      finished := new bool[|cs|](i => false);
      ghost var sent := res;
      assert sent.pdus[..|sent.pdus| - 1] == st.res.pdus;
      var skipped, anyFinished, lastRowAllEnd := ScanResponse(cs, r.varbinds, finished, st.active);
      Conclude(r.varbinds, |cs|, reps, skipped, lastRowAllEnd);
      AccountedBy(st.res, |cs|, reps, r, ScanTo(st.active, r.varbinds, |r.varbinds|), sent);
      end := if |r.varbinds| == 0 && !anyFinished then EmptyResponse else Done;
    }

    /** One request for the active columns. */
    method Exchange(active: array<Column>, n: nat, reps: Uint32, ghost st: State, ghost pool: set<Column>)
      returns (left: nat, end: End)
      requires 0 < n <= active.Length && Logged() && st.res == res
      requires MirrorActive(active[..n], st.active) && HaveCursors(st.active)
      requires forall c :: c in active[..n] ==> c in pool
      modifies this, active, pool
      ensures Logged()
      ensures left <= n && forall c :: c in active[..left] ==> c in pool
      ensures var (st', e) := Round(tr, reps, st);
              end == e && res == st'.res && MirrorActive(active[..left], st'.active)
    {
      hide HaveCursors, Accounted, CutShort, Remaining, Unfinished, Sent, ScanTo;
      var cs := active[..n];
      var oids := seq(n, i requires 0 <= i < n reads cs => cs[i].cursor);
      assert forall i :: 0 <= i < n ==> cs[i].Is(st.active[i], false);
      assert oids == Cursors(st.active);
      var r := Send(GetBulk, oids, reps);
      if !r.status.Answered? {
        return n, Refused(r.status);
      }
      var finished;
      finished, end := Respond(cs, reps, r, st);
      ghost var fin, cols := finished[..], ScanTo(st.active, r.varbinds, |r.varbinds|).cols;
      assert active[..n] == cs;
      left := Compact(active, n, finished);
      RemainingMirror(cs, fin, cols);
      assert active[..left] == Remaining(cs, fin);
      assert Round(tr, reps, st).0.active == Unfinished(cols);
    }

    /** table: walks one chunk of columns. */
    method Table(chunk: seq<Arcs>, reps: Uint32, ghost len: nat) returns (end: End)
      requires SaneAgent(tr, len) && SaneColumns(chunk, len) && Logged()
      modifies this
      ensures Logged() && AllPlaced(Fresh(chunk), len)
      ensures var (st, e) := TableWalk(tr, reps, State(Fresh(chunk), [], old(res)), len);
              res == st.res && end == e
    {
      FreshPlaced(chunk, len);
      var active := MakeColumns(chunk);
      var n := |chunk|;
      ghost var pool := set c | c in active[..n];
      ghost var st := State(Fresh(chunk), [], res);
      ghost var goal := TableWalk(tr, reps, st, len);
      while n > 0
        invariant 0 <= n <= active.Length && fresh(active) && fresh(pool) && forall c :: c in active[..n] ==> c in pool
        invariant Logged() && st.res == res && AllPlaced(st.active, len)
        invariant MirrorActive(active[..n], st.active)
        invariant TableWalk(tr, reps, st, len) == goal
        decreases Distance(st.active, len)
      {
        PlacedHaveCursors(st.active, len);
        if tr.cancelled(|res.pdus|) {
          return Cancelled;
        }
        RoundShrinks(tr, reps, st, len);
        n, end := Exchange(active, n, reps, st, pool);
        st := Round(tr, reps, st).0;
        if end != Done {
          return;
        }
      }
      return Done;
    }

    /** scalars: one Get for a chunk of scalars. */
    method ScalarGet(chunk: seq<Arcs>) returns (status: Agent.Status)
      requires Logged()
      modifies this
      ensures Logged() && (res, status) == ScalarChunk(tr, chunk, old(res))
    {
      var r := Send(Get, chunk, 0);
      if !r.status.Answered? {
        return r.status;
      }
      log := log + [res.pdus[|res.pdus| - 1]];
      ghost var sent := res;
      for k := 0 to |r.varbinds|
        invariant Logged() && res == sent.(varbinds := sent.varbinds + AnsweredScalars(r.varbinds[..k]))
      {
        assert r.varbinds[..k + 1][..k] == r.varbinds[..k];
        if !r.varbinds[k].value.NoSuchObject? && !r.varbinds[k].value.NoSuchInstance?
            && !r.varbinds[k].value.EndOfMibView? {
          res := res.(varbinds := res.varbinds + 1);
        }
      }
      assert r.varbinds[..|r.varbinds|] == r.varbinds;
      return Answered;
    }

    /** The inner loop of Run: the chunks of one table. */
    method Chunks(chunks: seq<seq<Arcs>>, reps: Uint32, fails0: seq<Failure>, ghost len: nat)
      returns (fails: seq<Failure>, course: Course)
      requires SaneAgent(tr, len) && SaneChunks(chunks, len) && Logged()
      modifies this
      ensures Logged() && (res, fails, course) == Run.Tables(tr, reps, chunks, old(res), fails0, len)
    {
      fails, course := fails0, Continue;
      ghost var goal := Run.Tables(tr, reps, chunks, res, fails, len);
      assert chunks[0..] == chunks;
      for k := 0 to |chunks|
        invariant Logged() && SaneChunks(chunks[k..], len) && course == Continue
        invariant Run.Tables(tr, reps, chunks[k..], res, fails, len) == goal
      {
        assert chunks[k..][0] == chunks[k] && chunks[k..][1..] == chunks[k + 1..];
        var end := Table(chunks[k], reps, len);
        match end
        case Done =>
        case EmptyResponse => fails := fails + [EmptyBulk];
        case Refused(status) =>
          if status == Timeout || status == AgentError {
            return fails + [Failure.Status(status)], Return;
          }
          return fails, Abort(end);
        case Cancelled => return fails, Abort(end);
      }
    }

    /** The outer loop of Run: the tables. */
    method Tables(w: Workload, s: Settings, ghost len: nat) returns (fails: seq<Failure>, course: Course)
      requires SaneAgent(tr, len) && SaneWorkload(w, len) && Valid(s) && Logged()
      modifies this
      ensures Logged() && SaneChunks(AllChunks(w.tables, s.maxVarsPerPDU), len)
      ensures (res, fails, course) == Run.Tables(tr, s.maxRepetitions, AllChunks(w.tables, s.maxVarsPerPDU), old(res),
                                                 [], len)
    {
      var v, reps := s.maxVarsPerPDU, s.maxRepetitions;
      fails, course := [], Continue;
      AllChunksSane(w.tables, v, len);
      ghost var goal := Run.Tables(tr, reps, AllChunks(w.tables, v), res, [], len);
      assert w.tables[0..] == w.tables;
      for t := 0 to |w.tables|
        invariant Logged() && SaneChunks(AllChunks(w.tables[t..], v), len) && course == Continue
        invariant Run.Tables(tr, reps, AllChunks(w.tables[t..], v), res, fails, len) == goal
      {
        assert w.tables[t..][1..] == w.tables[t + 1..];
        var chunks := Run.Chunks(w.tables[t].columns, v);
        ChunksSane(w.tables[t].columns, v, len);
        AllChunksSane(w.tables[t + 1..], v, len);
        TablesAppend(tr, reps, chunks, AllChunks(w.tables[t + 1..], v), res, fails, len);
        fails, course := Chunks(chunks, reps, fails, len);
        if course != Continue {
          return;
        }
      }
    }

    /** The loop of Run over the chunks of scalars. */
    method Scalars(scalars: seq<Arcs>, v: nat, fails0: seq<Failure>) returns (fails: seq<Failure>, course: Course)
      requires v > 0 && Logged()
      modifies this
      ensures Logged() && (res, fails, course) == Run.Scalars(tr, Run.Chunks(scalars, v), old(res), fails0)
    {
      fails, course := fails0, Continue;
      var chunks := Run.Chunks(scalars, v);
      assert chunks[0..] == chunks;
      for k := 0 to |chunks|
        invariant Logged() && course == Continue
        invariant Run.Scalars(tr, chunks[k..], res, fails) == Run.Scalars(tr, chunks, old(res), fails0)
      {
        assert chunks[k..][1..] == chunks[k + 1..];
        var status := ScalarGet(chunks[k]);
        if status == Timeout || status == AgentError {
          return fails + [Failure.Status(status)], Continue;
        } else if status == Broken {
          return fails, Abort(Refused(Broken));
        }
      }
    }

    /** walk.Run on a new walker: the result is that of RunWalk, and every request was
        logged once, in order, as it finally stands in the result. */
    method RunWorkload(w: Workload, s: Settings, ghost len: nat) returns (end: RunEnd)
      requires SaneAgent(tr, len) && SaneWorkload(w, len) && res == EMPTY && log == []
      modifies this
      ensures (res, end) == RunWalk(tr, w, s, len) && Logged()
    {
      if s.maxRepetitions == 0 || s.maxVarsPerPDU <= 0 {
        return InvalidSettings;
      }
      AllChunksSane(w.tables, s.maxVarsPerPDU, len);
      var fails, course := Tables(w, s, len);
      match course
      case Return =>
        res := res.(failure := fails);
        return Complete;
      case Abort(e) => return Error(e);
      case Continue =>
        ghost var before, sofar := res, fails;
        fails, course := Scalars(w.scalars, s.maxVarsPerPDU, fails);
        assert (res, fails, course) == Run.Scalars(tr, Run.Chunks(w.scalars, s.maxVarsPerPDU), before, sofar);
        if course.Abort? {
          return Error(course.end);
        }
        ghost var scalars, sure := res, fails;
        if res.truncations > 0 {
          fails := fails + [Truncated(res.truncations)];
        }
        res := res.(failure := fails);
        assert res == Concluded(scalars, sure);
        return Complete;
    }
  }
}
