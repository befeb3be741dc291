/** The multi-repeater bulk walk of a workload (internal/walk/walk.go), as functions
    on values: what the loops of Walker compute. */
module Walk {
  import opened Oid
  import opened Agent
  import opened Column

  datatype Settings = Settings(maxRepetitions: Uint32, maxVarsPerPDU: int) {
    function Product(): int { maxRepetitions * maxVarsPerPDU }
  }

  datatype Kind = GetBulk | Get

  datatype Remark = NoError | Misordered | Failed(status: Status)

  datatype PDU = PDU(seqNo: nat, kind: Kind, repeaters: nat, maxReps: Uint32, requested: nat, rows: nat,
                     varbinds: nat, bytes: nat, rtt: nat, retries: nat, truncated: bool, error: Remark)

  /** The parts joined into Result.Failure; no part is the empty string when no failure. */
  datatype Failure = Status(status: Agent.Status) | EmptyBulk | Truncated(n: nat) | MissingOIDs(missing: nat, of: nat)

  datatype Result = Result(pdus: seq<PDU>, oids: seq<Arcs>, varbinds: nat, skips: seq<Arcs>, timeouts: nat,
                           agentErrors: nat, truncations: nat, retries: nat, failure: seq<Failure>)

  const EMPTY := Result([], [], 0, [], 0, 0, 0, 0, [])

  /** How the walk of one chunk ends: nil, ctx.Err(), a failed request, or errWalk. */
  datatype End = Done | Cancelled | Refused(status: Agent.Status) | EmptyResponse

  // ---------- One request ----------

  /** What send records of a request. */
  function Sent(res: Result, kind: Kind, width: nat, reps: Uint32, r: Reply): Result {
    var requested := if kind.GetBulk? then width * reps else width;
    var p := PDU(|res.pdus| + 1, kind, width, reps, requested, 0, |r.varbinds|, r.bytes, r.rtt, r.retries, false,
                 if r.status.Answered? then NoError else Failed(r.status));
    res.(pdus := res.pdus + [p],
         retries := res.retries + r.retries,
         timeouts := res.timeouts + (if r.status.Timeout? then 1 else 0),
         agentErrors := res.agentErrors + (if r.status.AgentError? then 1 else 0))
  }

  // ---------- One response ----------

  /** The columns and everything gathered after the first n varbinds. */
  datatype Scan = Scan(cols: seq<Col>, oids: seq<Arcs>, skips: seq<Arcs>)

  function Rewound(cols: seq<Col>): (r: seq<Col>)
    ensures |r| == |cols| && forall i :: 0 <= i < |r| ==> r[i] == cols[i].(jumped := false)
  {
    seq(|cols|, i requires 0 <= i < |cols| => cols[i].(jumped := false))
  }

  ghost predicate HaveCursors(cols: seq<Col>) {
    forall i :: 0 <= i < |cols| ==> cols[i].cursor != []
  }

  function ScanStep(s: Scan, i: nat, vb: Varbind): (s': Scan)
    requires i < |s.cols| && HaveCursors(s.cols)
    ensures |s'.cols| == |s.cols| && HaveCursors(s'.cols)
  {
    var c := s.cols[i];
    Scan(s.cols[i := Absorb(c, vb)],
         if Accepts(c, vb) then s.oids + [vb.oid] else s.oids,
         if Skips(c, vb) then s.skips + [c.oid] else s.skips)
  }

  function ScanTo(cols: seq<Col>, vbs: seq<Varbind>, n: nat): (s: Scan)
    requires n <= |vbs| && cols != [] && HaveCursors(cols)
    ensures |s.cols| == |cols| && HaveCursors(s.cols)
  {
    if n == 0 then Scan(Rewound(cols), [], [])
    else ScanStep(ScanTo(cols, vbs, n - 1), (n - 1) % |cols|, vbs[n - 1])
  }

  /** A partial trailing row counts. */
  function Rows(n: nat, width: nat): nat
    requires width > 0
  {
    (n + width - 1) / width
  }

  /** Among the first n varbinds, those of the given row are all the end of the MIB. */
  ghost predicate RowAllEnd(vbs: seq<Varbind>, width: nat, row: int, n: nat)
    requires width > 0 && n <= |vbs|
  {
    forall k :: 0 <= k < n && k / width == row ==> vbs[k].value.EndOfMibView?
  }

  ghost predicate LastRowAllEnd(vbs: seq<Varbind>, width: nat)
    requires width > 0
  {
    vbs != [] && RowAllEnd(vbs, width, Rows(|vbs|, width) - 1, |vbs|)
  }

  ghost predicate CutShort(vbs: seq<Varbind>, width: nat, reps: Uint32)
    requires width > 0
  {
    (Rows(|vbs|, width) < reps || |vbs| % width != 0) && !LastRowAllEnd(vbs, width)
  }

  function Unfinished(cols: seq<Col>): seq<Col> {
    if cols == [] then [] else
    Unfinished(cols[..|cols| - 1]) + if cols[|cols| - 1].finished then [] else [cols[|cols| - 1]]
  }

  lemma {:induction false} UnfinishedShorter(cols: seq<Col>)
    ensures |Unfinished(cols)| <= |cols|
  {
    if cols != [] {
      UnfinishedShorter(cols[..|cols| - 1]);
    }
  }

  function Finished(cols: seq<Col>): seq<Col> {
    if cols == [] then [] else
    Finished(cols[..|cols| - 1]) + if cols[|cols| - 1].finished then [cols[|cols| - 1]] else []
  }

  function Cursors(cols: seq<Col>): (s: seq<Arcs>)
    ensures |s| == |cols| && forall i :: 0 <= i < |s| ==> s[i] == cols[i].cursor
  {
    seq(|cols|, i requires 0 <= i < |cols| => cols[i].cursor)
  }

  /** A walk of one chunk under way; `retired` are the columns already finished. */
  datatype State = State(active: seq<Col>, retired: seq<Col>, res: Result)

  /** What the scan s of an answered request does to the result. */
  ghost function Accounted(res: Result, width: nat, reps: Uint32, r: Reply, s: Scan): Result
    requires width > 0
  {
    var sent := Sent(res, GetBulk, width, reps, r);
    var cut := CutShort(r.varbinds, width, reps);
    var p := sent.pdus[|res.pdus|].(rows := Rows(|r.varbinds|, width), truncated := cut,
                                    error := if s.skips == [] then NoError else Misordered);
    sent.(pdus := res.pdus + [p], oids := res.oids + s.oids, varbinds := res.varbinds + |s.oids|,
          skips := res.skips + s.skips, truncations := res.truncations + if cut then 1 else 0)
  }

  ghost function Turn(st: State, reps: Uint32, r: Reply): State
    requires st.active != [] && HaveCursors(st.active)
  {
    var s := ScanTo(st.active, r.varbinds, |r.varbinds|);
    State(Unfinished(s.cols), st.retired + Finished(s.cols), Accounted(st.res, |st.active|, reps, r, s))
  }

  // ---------- The walk of one chunk, and why it ends ----------

  ghost predicate AllPlaced(cols: seq<Col>, len: nat) {
    forall i :: 0 <= i < |cols| ==> Placed(cols[i], len) && !cols[i].finished
  }

  /** How much walking is left in a list of columns. */
  ghost function Distance(cols: seq<Col>, len: nat): nat {
    if cols == [] then 0 else Distance(cols[..|cols| - 1], len) + Left(cols[|cols| - 1].cursor, len)
  }

  ghost predicate Moved(before: seq<Col>, after: seq<Col>, len: nat) {
    |after| == |before| && forall i :: 0 <= i < |before| ==> Forward(before[i], after[i], len)
  }

  lemma ForwardLeft(c: Col, c': Col, len: nat)
    requires Placed(c, len) && Forward(c, c', len) && !c'.finished
    ensures Placed(c', len)
    ensures Left(c'.cursor, len) <= Left(c.cursor, len)
    ensures c'.cursor != c.cursor ==> Left(c'.cursor, len) < Left(c.cursor, len)
  {
    if c'.cursor != c.cursor {
      RankMonotone(c.cursor, c'.cursor, len);
    }
  }

  lemma UnfinishedSnoc(cols: seq<Col>, c: Col)
    ensures Unfinished(cols + [c]) == if c.finished then Unfinished(cols) else Unfinished(cols) + [c]
  {
    assert (cols + [c])[..|cols|] == cols;
  }

  lemma DistanceSnoc(cols: seq<Col>, c: Col, len: nat)
    ensures Distance(cols + [c], len) == Distance(cols, len) + Left(c.cursor, len) > Distance(cols, len)
  {
    assert (cols + [c])[..|cols|] == cols;
  }

  lemma NothingMoves(after: seq<Col>, len: nat)
    requires after == []
    ensures Unfinished(after) == [] && Distance(after, len) == 0
  {
  }

  lemma {:induction false} MovedShrinks(before: seq<Col>, after: seq<Col>, len: nat)
    requires Moved(before, after, len)
    requires forall i :: 0 <= i < |before| ==> Placed(before[i], len)
    ensures Distance(Unfinished(after), len) <= Distance(before, len)
    ensures before != [] && (after[0].finished || after[0].cursor != before[0].cursor) ==>
              Distance(Unfinished(after), len) < Distance(before, len)
    ensures AllPlaced(Unfinished(after), len)
  {
    hide Forward, Placed, Left, Unfinished, Distance;
    if before == [] {
      NothingMoves(after, len);
    } else {
      var n := |before| - 1;
      MovedShrinks(before[..n], after[..n], len);
      UnfinishedSnoc(after[..n], after[n]);
      assert before == before[..n] + [before[n]] && after == after[..n] + [after[n]];
      DistanceSnoc(before[..n], before[n], len);
      if !after[n].finished {
        ForwardLeft(before[n], after[n], len);
        DistanceSnoc(Unfinished(after[..n]), after[n], len);
      }
    }
  }

  lemma ForwardThenAbsorb(c0: Col, c: Col, vb: Varbind, len: nat)
    requires Placed(c0, len) && Forward(c0, c, len) && c.cursor != [] && SaneVarbind(vb, len)
    ensures Forward(c0, Absorb(c, vb), len)
    ensures !c.finished && !c.jumped ==> Absorb(c, vb).finished || Less(c.cursor, Absorb(c, vb).cursor)
    ensures c.finished || c.cursor != c0.cursor ==> Absorb(c, vb).finished || Absorb(c, vb).cursor != c0.cursor
  {
    AbsorbForward(c, vb, len);
    var c' := Absorb(c, vb);
    if !c'.finished && c'.cursor != c.cursor && c.cursor != c0.cursor {
      LessTransitive(c0.cursor, c.cursor, c'.cursor);
    }
    LessTotal(c0.cursor, c0.cursor);
    LessTotal(c.cursor, c.cursor);
  }

  lemma ScanStepMoves(cols: seq<Col>, s: Scan, i: nat, vb: Varbind, len: nat)
    requires AllPlaced(cols, len) && HaveCursors(s.cols) && Moved(cols, s.cols, len)
    requires i < |cols| && SaneVarbind(vb, len)
    ensures Moved(cols, ScanStep(s, i, vb).cols, len)
    ensures var c := s.cols[0];
            var c' := ScanStep(s, i, vb).cols[0];
            (c.finished || c.cursor != cols[0].cursor) || (i == 0 && !c.jumped) ==>
              c'.finished || c'.cursor != cols[0].cursor
  {
    ForwardThenAbsorb(cols[i], s.cols[i], vb, len);
    LessTotal(s.cols[0].cursor, s.cols[0].cursor);
    LessTotal(s.cols[0].cursor, cols[0].cursor);
  }

  lemma RewoundMoves(cols: seq<Col>, len: nat)
    requires AllPlaced(cols, len)
    ensures Moved(cols, Rewound(cols), len)
  {
    forall i | 0 <= i < |cols| ensures Forward(cols[i], Rewound(cols)[i], len) {
      assert Placed(cols[i], len);
    }
  }

  /** Against any agent, the first varbind of a response finishes the first column or
      moves it strictly forward, and nothing ever moves a column back. */
  lemma {:induction false} ScanMoves(cols: seq<Col>, vbs: seq<Varbind>, n: nat, len: nat)
    requires n <= |vbs| && cols != [] && HaveCursors(cols) && AllPlaced(cols, len)
    requires forall k :: 0 <= k < |vbs| ==> SaneVarbind(vbs[k], len)
    ensures Moved(cols, ScanTo(cols, vbs, n).cols, len)
    ensures n > 0 ==> var c := ScanTo(cols, vbs, n).cols[0]; c.finished || c.cursor != cols[0].cursor
  {
    hide AllPlaced, Moved, HaveCursors, SaneVarbind, Absorb, Accepts, Skips;
    if n == 0 {
      RewoundMoves(cols, len);
    } else {
      ScanMoves(cols, vbs, n - 1, len);
      var s := ScanTo(cols, vbs, n - 1);
      var i := (n - 1) % |cols|;
      ScanStepMoves(cols, s, i, vbs[n - 1], len);
      assert ScanTo(cols, vbs, n) == ScanStep(s, i, vbs[n - 1]);
      assert n == 1 ==> i == 0 && s.cols == Rewound(cols);
    }
  }

  lemma PlacedHaveCursors(cols: seq<Col>, len: nat)
    requires AllPlaced(cols, len)
    ensures HaveCursors(cols)
  {
    forall i | 0 <= i < |cols| ensures cols[i].cursor != [] {
      assert cols[i].oid <= cols[i].cursor;
    }
  }

  lemma TurnShrinks(st: State, reps: Uint32, r: Reply, len: nat)
    requires st.active != [] && AllPlaced(st.active, len) && HaveCursors(st.active) && SaneReply(r, len)
    ensures AllPlaced(Turn(st, reps, r).active, len)
    ensures Distance(Turn(st, reps, r).active, len) <= Distance(st.active, len)
    ensures r.varbinds != [] ==> Distance(Turn(st, reps, r).active, len) < Distance(st.active, len)
  {
    ScanMoves(st.active, r.varbinds, |r.varbinds|, len);
    MovedShrinks(st.active, ScanTo(st.active, r.varbinds, |r.varbinds|).cols, len);
  }

  /** One request for the active columns. */
  ghost function Round(tr: Transport, reps: Uint32, st: State): (State, End)
    requires st.active != [] && HaveCursors(st.active)
  {
    var r := tr.bulk(|st.res.pdus|, Cursors(st.active), reps);
    if r.status.Answered? then (Turn(st, reps, r), if r.varbinds == [] then EmptyResponse else Done)
    else (st.(res := Sent(st.res, GetBulk, |st.active|, reps, r)), Refused(r.status))
  }

  lemma RoundShrinks(tr: Transport, reps: Uint32, st: State, len: nat)
    requires SaneAgent(tr, len) && st.active != [] && AllPlaced(st.active, len) && HaveCursors(st.active)
    ensures var (st', end) := Round(tr, reps, st);
            end == Done ==> AllPlaced(st'.active, len) && Distance(st'.active, len) < Distance(st.active, len)
  {
    var r := tr.bulk(|st.res.pdus|, Cursors(st.active), reps);
    assert SaneReply(r, len);
    if r.status.Answered? {
      TurnShrinks(st, reps, r, len);
    }
  }

  /** Walker.table. It is total: against any sane agent, whatever it replies, the walk
      ends, because the distance shrinks with every answer that is not empty. */
  ghost function TableWalk(tr: Transport, reps: Uint32, st: State, len: nat): (State, End)
    requires SaneAgent(tr, len) && AllPlaced(st.active, len)
    decreases Distance(st.active, len)
  {
    if st.active == [] then (st, Done)
    else if tr.cancelled(|st.res.pdus|) then (st, Cancelled)
    else
      PlacedHaveCursors(st.active, len);
      RoundShrinks(tr, reps, st, len);
      var (st', end) := Round(tr, reps, st);
      if end == Done then TableWalk(tr, reps, st', len) else (st', end)
  }
}
