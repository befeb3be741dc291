/** What the telemetry of a run means: its counters agree with its records, no request
    asks for more than R x V varbinds, and what an untruncated record guarantees. */
module Accounting {
  import opened Arithmetic
  import opened Oid
  import opened Agent
  import opened Column
  import opened Walk
  import opened Workloads
  import opened Run
  import opened Refinement
  import opened Reference
  import opened Completeness
  import opened Records
  import Sim
  import SimAgreement

  ghost function Count(what: PDU -> bool, pdus: seq<PDU>): nat {
    if pdus == [] then 0 else
    Count(what, pdus[..|pdus| - 1]) + if what(pdus[|pdus| - 1]) then 1 else 0
  }

  ghost predicate IsTruncated(p: PDU) { p.truncated }
  ghost predicate IsTimeout(p: PDU) { p.error == Failed(Timeout) }
  ghost predicate IsAgentError(p: PDU) { p.error == Failed(AgentError) }

  ghost predicate IsMisordered(p: PDU) { p.error == Misordered }
  ghost predicate IsEmptyBulk(p: PDU) { p.kind.GetBulk? && !p.error.Failed? && p.varbinds == 0 }

  ghost function Retries(pdus: seq<PDU>): nat {
    if pdus == [] then 0 else Retries(pdus[..|pdus| - 1]) + pdus[|pdus| - 1].retries
  }

  /** Record k of a run at these settings is that of its k-th request and of the reply to
      it: a GetBulk of at most V repeaters for R rows, sent while the context was live, or a
      Get for at most V scalars. */
  ghost predicate InShape(tr: Transport, p: PDU, k: nat, s: Settings) {
    (p.kind.GetBulk? ==> !tr.cancelled(k)) && exists oids :: RecordOf(tr, p, k, oids, s)
  }

  /** Every record is that of its request and reply, and the counters count records. */
  ghost predicate Booked(tr: Transport, res: Result, s: Settings) {
    && (forall k :: 0 <= k < |res.pdus| ==> InShape(tr, res.pdus[k], k, s))
    && res.truncations == Count(IsTruncated, res.pdus)
    && res.timeouts == Count(IsTimeout, res.pdus)
    && res.agentErrors == Count(IsAgentError, res.pdus)
    && res.retries == Retries(res.pdus)
    && (res.skips == [] <==> Count(IsMisordered, res.pdus) == 0)
  }

  lemma CountSnoc(what: PDU -> bool, pdus: seq<PDU>, p: PDU)
    ensures Count(what, pdus + [p]) == Count(what, pdus) + if what(p) then 1 else 0
    ensures Retries(pdus + [p]) == Retries(pdus) + p.retries
  {
    assert (pdus + [p])[..|pdus|] == pdus;
  }

  lemma BookedSnoc(tr: Transport, res: Result, res': Result, p: PDU, s: Settings)
    requires Booked(tr, res, s) && InShape(tr, p, |res.pdus|, s) && res'.pdus == res.pdus + [p]
    requires res'.truncations == res.truncations + if p.truncated then 1 else 0
    requires res'.timeouts == res.timeouts + if IsTimeout(p) then 1 else 0
    requires res'.agentErrors == res.agentErrors + if IsAgentError(p) then 1 else 0
    requires res'.retries == res.retries + p.retries
    requires |res'.skips| >= |res.skips| && (|res'.skips| > |res.skips| <==> IsMisordered(p))
    ensures Booked(tr, res', s)
  {
    hide InShape;
    CountSnoc(IsTruncated, res.pdus, p);
    CountSnoc(IsTimeout, res.pdus, p);
    CountSnoc(IsAgentError, res.pdus, p);
    CountSnoc(IsMisordered, res.pdus, p);
  }

  lemma RoundBooked(tr: Transport, st: State, s: Settings)
    requires st.active != [] && HaveCursors(st.active) && |st.active| <= s.maxVarsPerPDU && Booked(tr, st.res, s)
    requires s.maxRepetitions > 0 && !tr.cancelled(|st.res.pdus|)
    ensures Booked(tr, Round(tr, s.maxRepetitions, st).0.res, s)
    ensures |Round(tr, s.maxRepetitions, st).0.active| <= |st.active|
  {
    var reps := s.maxRepetitions;
    var r := tr.bulk(|st.res.pdus|, Cursors(st.active), reps);
    var res' := Round(tr, reps, st).0.res;
    RoundRecords(tr, st, s);
    assert InShape(tr, res'.pdus[|st.res.pdus|], |st.res.pdus|, s);
    assert res'.pdus == res'.pdus[..|st.res.pdus|] + [res'.pdus[|st.res.pdus|]];
    BookedSnoc(tr, st.res, res', res'.pdus[|st.res.pdus|], s);
    if r.status.Answered? {
      UnfinishedShorter(ScanTo(st.active, r.varbinds, |r.varbinds|).cols);
    }
  }

  /** Only tables were walked so far: one varbind counts for every OID collected. */
  ghost predicate TablesOnly(res: Result) {
    res.varbinds == |res.oids| && forall k :: 0 <= k < |res.pdus| ==> res.pdus[k].kind.GetBulk?
  }

  /** The last request was a GetBulk that was refused. */
  predicate LastRefused(res: Result) {
    res.pdus != [] && res.pdus[|res.pdus| - 1].kind.GetBulk? && res.pdus[|res.pdus| - 1].error.Failed?
  }

  /** How the failure counters changed while one chunk was walked to its end. */
  ghost predicate Charged(res: Result, res': Result, end: End) {
    && res'.timeouts == res.timeouts + (if end == Refused(Timeout) then 1 else 0)
    && res'.agentErrors == res.agentErrors + (if end == Refused(AgentError) then 1 else 0)
    && res'.truncations >= res.truncations + (if end == EmptyResponse then 1 else 0)
    && Count(IsEmptyBulk, res'.pdus) == Count(IsEmptyBulk, res.pdus) + (if end == EmptyResponse then 1 else 0)
    && end != Refused(Answered)
    && (TablesOnly(res) ==> TablesOnly(res'))
    && (if end.Refused? then LastRefused(res') else LastRefused(res') ==> LastRefused(res))
  }

  /** How a walk that errs ended: the context was done, or the last request broke. */
  ghost predicate Errored(tr: Transport, res: Result, end: End) {
    || (end == Cancelled && tr.cancelled(|res.pdus|))
    || (end == Refused(Broken) && res.pdus != [] && res.pdus[|res.pdus| - 1].error == Failed(Broken))
  }

  lemma RoundCharged(tr: Transport, reps: Uint32, st: State)
    requires st.active != [] && HaveCursors(st.active) && reps > 0
    ensures var (st', end) := Round(tr, reps, st); Charged(st.res, st'.res, end)
  {
    hide ScanTo, HaveCursors, Unfinished, Finished, CutShort, Rows, Count;
    var r := tr.bulk(|st.res.pdus|, Cursors(st.active), reps);
    var k, res' := |st.res.pdus|, Round(tr, reps, st).0.res;
    MarkedExactly(r.varbinds, |st.active|, reps);
    CountSnoc(IsEmptyBulk, st.res.pdus, res'.pdus[k]);
    assert res'.pdus == st.res.pdus + [res'.pdus[k]];
    assert res'.varbinds - st.res.varbinds == |res'.oids| - |st.res.oids|;
  }

  lemma ChargedOn(a: Result, b: Result, c: Result, end: End)
    requires Charged(a, b, Done) && Charged(b, c, end)
    ensures Charged(a, c, end)
  {
    hide Count;
  }

  lemma NothingCharged(tr: Transport, res: Result)
    ensures Charged(res, res, Done) && Charged(res, res, Cancelled)
    ensures tr.cancelled(|res.pdus|) ==> Errored(tr, res, Cancelled)
  {
    hide Count;
  }

  lemma BrokenRound(tr: Transport, reps: Uint32, st: State)
    requires st.active != [] && HaveCursors(st.active)
    ensures var (st', end) := Round(tr, reps, st);
            end != Cancelled && (end == Refused(Broken) ==> Errored(tr, st'.res, end))
  {
  }

  lemma {:induction false} TableBooked(tr: Transport, st: State, s: Settings, len: nat)
    requires SaneAgent(tr, len) && AllPlaced(st.active, len) && |st.active| <= s.maxVarsPerPDU
    requires Booked(tr, st.res, s) && s.maxRepetitions > 0
    ensures var (st', end) := TableWalk(tr, s.maxRepetitions, st, len);
            && Booked(tr, st'.res, s) && Charged(st.res, st'.res, end)
            && (end == Cancelled || end == Refused(Broken) ==> Errored(tr, st'.res, end))
    decreases Distance(st.active, len)
  {
    hide Booked, Charged, Errored, Round;
    if st.active == [] || tr.cancelled(|st.res.pdus|) {
      NothingCharged(tr, st.res);
    }
    if st.active != [] && !tr.cancelled(|st.res.pdus|) {
      PlacedHaveCursors(st.active, len);
      RoundShrinks(tr, s.maxRepetitions, st, len);
      RoundBooked(tr, st, s);
      RoundCharged(tr, s.maxRepetitions, st);
      var (st', end) := Round(tr, s.maxRepetitions, st);
      if end == Done {
        TableBooked(tr, st', s, len);
        ChargedOn(st.res, st'.res, TableWalk(tr, s.maxRepetitions, st', len).0.res,
                  TableWalk(tr, s.maxRepetitions, st', len).1);
      } else {
        BrokenRound(tr, s.maxRepetitions, st);
      }
    }
  }

  /** Failures are listed exactly when a request was refused or a response was empty, each
      for what it is. */
  ghost predicate Listed(res: Result, fails: seq<Failure>) {
    && (Failure.Status(Timeout) in fails <==> res.timeouts > 0)
    && (Failure.Status(AgentError) in fails <==> res.agentErrors > 0)
    && (EmptyBulk in fails <==> Count(IsEmptyBulk, res.pdus) > 0)
    && (forall f :: f in fails ==> f in {Failure.Status(Timeout), Failure.Status(AgentError), EmptyBulk})
    && (fails == [] ==> res.timeouts == 0 && res.agentErrors == 0)
    && (fails != [] ==> res.timeouts + res.agentErrors + res.truncations > 0)
  }

  lemma ChargedListed(res: Result, res': Result, end: End, fails: seq<Failure>)
    requires Charged(res, res', end) && Listed(res, fails) && res.timeouts == 0 && res.agentErrors == 0
    ensures TablesOnly(res) ==> TablesOnly(res')
    ensures if end.Refused? then LastRefused(res') else LastRefused(res') ==> LastRefused(res)
    ensures end == Done || end == EmptyResponse ==> res'.timeouts == 0 && res'.agentErrors == 0
    ensures match end
            case Done => Listed(res', fails)
            case EmptyResponse => Listed(res', fails + [EmptyBulk])
            case Refused(Timeout) => Listed(res', fails + [Failure.Status(Timeout)]) && res'.timeouts > 0
            case Refused(AgentError) => Listed(res', fails + [Failure.Status(AgentError)]) && res'.agentErrors > 0
            case _ => end != Refused(Answered)
  {
    hide Count, TablesOnly, LastRefused;
  }

  lemma {:induction false} TablesBooked(tr: Transport, chunks: seq<seq<Arcs>>, res: Result, fails: seq<Failure>,
                                        s: Settings, len: nat)
    requires SaneAgent(tr, len) && SaneChunks(chunks, len) && Valid(s)
    requires forall k :: 0 <= k < |chunks| ==> |chunks[k]| <= s.maxVarsPerPDU
    requires Booked(tr, res, s) && Listed(res, fails) && res.timeouts == 0 && res.agentErrors == 0
    requires !LastRefused(res)
    ensures var (res', fails', course) := Tables(tr, s.maxRepetitions, chunks, res, fails, len);
            && Booked(tr, res', s) && (!course.Abort? ==> Listed(res', fails'))
            && (course == Continue ==> res'.timeouts == 0 && res'.agentErrors == 0 && !LastRefused(res'))
            && (course == Return ==> LastRefused(res') && fails' != [] && (res'.timeouts > 0 || res'.agentErrors > 0))
            && (course.Abort? ==> Errored(tr, res', course.end)) && (TablesOnly(res) ==> TablesOnly(res'))
  {
    hide Booked, Listed, Charged, TablesOnly, Errored, TableWalk, LastRefused;
    if chunks != [] {
      FreshPlaced(chunks[0], len);
      var st0 := State(Fresh(chunks[0]), [], res);
      TableBooked(tr, st0, s, len);
      var (st, end) := TableWalk(tr, s.maxRepetitions, st0, len);
      ChargedListed(res, st.res, end, fails);
      if end == Done {
        TablesBooked(tr, chunks[1..], st.res, fails, s, len);
      } else if end == EmptyResponse {
        TablesBooked(tr, chunks[1..], st.res, fails + [EmptyBulk], s, len);
      }
    }
  }

  lemma ScalarBooked(tr: Transport, chunk: seq<Arcs>, res: Result, fails: seq<Failure>, s: Settings)
    requires 0 < |chunk| <= s.maxVarsPerPDU && Booked(tr, res, s) && Listed(res, fails)
    requires res.timeouts == 0 && res.agentErrors == 0
    ensures var (res', status) := ScalarChunk(tr, chunk, res);
            && Booked(tr, res', s) && (status == Answered ==> res'.timeouts == 0 && res'.agentErrors == 0)
            && match status
               case Answered => Listed(res', fails)
               case Broken => Errored(tr, res', Refused(Broken))
               case _ => Listed(res', fails + [Failure.Status(status)])
  {
    var res' := ScalarChunk(tr, chunk, res).0;
    var k := |res.pdus|;
    assert res'.pdus[..k] == res.pdus && res'.pdus == res.pdus + [res'.pdus[k]];
    assert RecordOf(tr, res'.pdus[k], k, chunk, s);
    BookedSnoc(tr, res, res', res'.pdus[k], s);
    CountSnoc(IsEmptyBulk, res.pdus, res'.pdus[k]);
  }

  lemma {:induction false} ScalarsBooked(tr: Transport, chunks: seq<seq<Arcs>>, res: Result, fails: seq<Failure>,
                                         s: Settings)
    requires forall k :: 0 <= k < |chunks| ==> 0 < |chunks[k]| <= s.maxVarsPerPDU
    requires Booked(tr, res, s) && Listed(res, fails)
    requires res.timeouts == 0 && res.agentErrors == 0
    ensures var (res', fails', course) := Scalars(tr, chunks, res, fails);
            && Booked(tr, res', s) && (!course.Abort? ==> Listed(res', fails'))
            && (course.Abort? ==> Errored(tr, res', course.end))
  {
    hide Booked, Listed, ScalarChunk;
    if chunks != [] {
      ScalarBooked(tr, chunks[0], res, fails, s);
      var (res', status) := ScalarChunk(tr, chunks[0], res);
      if status == Answered {
        ScalarsBooked(tr, chunks[1..], res', fails, s);
      }
    }
  }

  lemma NothingListed()
    ensures Listed(EMPTY, []) && !LastRefused(EMPTY)
  {
  }

  lemma ListedSum(res: Result, fails: seq<Failure>)
    requires Listed(res, fails)
    ensures fails == [] ==> res.timeouts == 0 && res.agentErrors == 0
    ensures fails != [] ==> res.timeouts + res.agentErrors + res.truncations > 0
  {
  }

  /** The failure of a completed run names what failed it, and nothing else; truncations
      unless a refused GetBulk ended the run. */
  ghost predicate Explained(res: Result) {
    && (Failure.Status(Timeout) in res.failure <==> res.timeouts > 0)
    && (Failure.Status(AgentError) in res.failure <==> res.agentErrors > 0)
    && (EmptyBulk in res.failure <==> Count(IsEmptyBulk, res.pdus) > 0)
    && (Truncated(res.truncations) in res.failure <==> res.truncations > 0 && !LastRefused(res))
    && (forall i, n :: 0 <= i < |res.failure| && res.failure[i] == Truncated(n) ==> i == |res.failure| - 1)
    && (forall f :: f in res.failure ==>
          || f in {Failure.Status(Timeout), Failure.Status(AgentError), EmptyBulk}
          || (f == Truncated(res.truncations) && res.truncations > 0))
  }

  lemma ConcludedExplained(res: Result, fails: seq<Failure>)
    requires Listed(res, fails)
    ensures !LastRefused(res) ==> Explained(Concluded(res, fails))
    ensures LastRefused(res) ==> Explained(res.(failure := fails))
  {
    hide Count;
    var tail := if res.truncations > 0 then [Truncated(res.truncations)] else [];
    assert forall f :: f in fails + tail <==> f in fails || f in tail;
    assert forall i :: 0 <= i < |fails| ==> fails[i] in fails;
  }

  /** The varbinds that carry a value. */
  function Present(vbs: seq<Varbind>): set<nat> {
    set k: nat | k < |vbs| && vbs[k].value.Data?
  }

  lemma {:induction false} ScalarsPresent(vbs: seq<Varbind>)
    ensures AnsweredScalars(vbs) == |Present(vbs)|
  {
    if vbs == [] {
      assert Present(vbs) == {};
    } else {
      var n := |vbs| - 1;
      ScalarsPresent(vbs[..n]);
      assert Present(vbs) == Present(vbs[..n]) + if vbs[n].value.Data? then {n} else {};
    }
  }

  /** What Gets for these chunks, the first being request k, bring until one fails. */
  ghost function SeenFrom(tr: Transport, chunks: seq<seq<Arcs>>, k: nat): nat {
    if chunks == [] then 0 else
    var r := tr.get(k, chunks[0]);
    if r.status.Answered? then |Present(r.varbinds)| + SeenFrom(tr, chunks[1..], k + 1) else 0
  }

  lemma {:induction false} ScalarsSeen(tr: Transport, chunks: seq<seq<Arcs>>, res: Result, fails: seq<Failure>)
    ensures var res' := Scalars(tr, chunks, res, fails).0;
            && res'.varbinds == res.varbinds + SeenFrom(tr, chunks, |res.pdus|) && res'.oids == res.oids
            && |res.pdus| <= |res'.pdus| && res'.pdus[..|res.pdus|] == res.pdus
            && forall k :: |res.pdus| <= k < |res'.pdus| ==> res'.pdus[k].kind.Get?
  {
    if chunks != [] {
      var n := |res.pdus|;
      ScalarsPresent(tr.get(n, chunks[0]).varbinds);
      var (res1, status) := ScalarChunk(tr, chunks[0], res);
      assert res1.pdus[..n] == res.pdus;
      if status == Answered {
        ScalarsSeen(tr, chunks[1..], res1, fails);
        var res' := Scalars(tr, chunks[1..], res1, fails).0;
        assert res'.pdus[..n] == res'.pdus[..n + 1][..n];
        assert res'.pdus[n] == res'.pdus[..n + 1][n];
      }
    }
  }

  lemma BookedFailed(tr: Transport, res: Result, res': Result, s: Settings)
    requires Booked(tr, res, s) && res' == res.(failure := res'.failure)
    ensures Booked(tr, res', s)
  {
    hide InShape, Count, Retries;
  }

  lemma ScalarsRefused(tr: Transport, chunks: seq<seq<Arcs>>, res: Result, fails: seq<Failure>)
    requires !LastRefused(res)
    ensures !LastRefused(Scalars(tr, chunks, res, fails).0)
  {
    ScalarsSeen(tr, chunks, res, fails);
    var res' := Scalars(tr, chunks, res, fails).0;
    if |res'.pdus| == |res.pdus| { assert res'.pdus == res.pdus; }
  }

  lemma NothingBooked(tr: Transport, s: Settings)
    ensures Booked(tr, EMPTY, s) && TablesOnly(EMPTY)
  {
  }

  /** Against any sane agent the result of a run is booked, and the failure of a completed
      run names what failed it: it is empty exactly when nothing timed out, errored or was
      truncated; an empty GetBulk response counts as truncated. */
  lemma RunBooked(tr: Transport, w: Workload, s: Settings, len: nat)
    requires SaneAgent(tr, len) && SaneWorkload(w, len)
    ensures var (res, end) := RunWalk(tr, w, s, len);
            && Booked(tr, res, s)
            && (end == Complete ==>
                  && (res.failure == [] <==> res.timeouts == 0 && res.agentErrors == 0 && res.truncations == 0)
                  && Explained(res))
            && (end.Error? ==> Errored(tr, res, end.end))
  {
    if Valid(s) {
      hide Listed, Explained, Booked, Errored, Scalars, Tables, LastRefused, TablesOnly, Chunks, AllChunks, Count;
      var v := s.maxVarsPerPDU;
      AllChunksSane(w.tables, v, len);
      NothingListed();
      NothingBooked(tr, s);
      TablesBooked(tr, AllChunks(w.tables, v), EMPTY, [], s, len);
      var (res, fails, course) := Tables(tr, s.maxRepetitions, AllChunks(w.tables, v), EMPTY, [], len);
      if course == Continue {
        ScalarsBooked(tr, Chunks(w.scalars, v), res, fails, s);
        var (res', fails', course') := Scalars(tr, Chunks(w.scalars, v), res, fails);
        ScalarsRefused(tr, Chunks(w.scalars, v), res, fails);
        if !course'.Abort? {
          ListedSum(res', fails');
          ConcludedExplained(res', fails');
          BookedFailed(tr, res', Concluded(res', fails'), s);
        }
      } else if course == Return {
        ListedSum(res, fails);
        ConcludedExplained(res, fails);
        BookedFailed(tr, res, res.(failure := fails), s);
      }
    } else {
      NothingBooked(tr, s);
    }
  }

  // ---------- What is counted as varbinds ----------

  lemma ScalarsSent(tr: Transport, chunks: seq<seq<Arcs>>, res: Result, fails: seq<Failure>)
    requires chunks != []
    ensures |Scalars(tr, chunks, res, fails).0.pdus| > |res.pdus|
  {
    if tr.get(|res.pdus|, chunks[0]).status.Answered? {
      ScalarsSeen(tr, chunks[1..], ScalarChunk(tr, chunks[0], res).0, fails);
    }
  }

  /** The first n records are of tables, the rest Gets for these chunks; varbinds are one for
      every collected OID, and one for every scalar the Gets showed to exist. */
  ghost predicate CountedFrom(tr: Transport, res: Result, chunks: seq<seq<Arcs>>, n: nat) {
    && n <= |res.pdus| && (forall k :: 0 <= k < |res.pdus| ==> (res.pdus[k].kind.GetBulk? <==> k < n))
    && res.varbinds == |res.oids| + if n == |res.pdus| then 0 else SeenFrom(tr, chunks, n)
  }

  lemma ScalarsCounted(tr: Transport, chunks: seq<seq<Arcs>>, res: Result, fails: seq<Failure>)
    requires TablesOnly(res)
    ensures CountedFrom(tr, Scalars(tr, chunks, res, fails).0, chunks, |res.pdus|)
    ensures CountedFrom(tr, res, chunks, |res.pdus|)
  {
    var res', n := Scalars(tr, chunks, res, fails).0, |res.pdus|;
    ScalarsSeen(tr, chunks, res, fails);
    assert forall k :: 0 <= k < n ==> res'.pdus[k] == res'.pdus[..n][k] == res.pdus[k];
    if chunks != [] { ScalarsSent(tr, chunks, res, fails); }
  }

  lemma CountedSame(tr: Transport, res: Result, res': Result, chunks: seq<seq<Arcs>>, n: nat)
    requires CountedFrom(tr, res, chunks, n) && res'.pdus == res.pdus
    requires res'.oids == res.oids && res'.varbinds == res.varbinds
    ensures CountedFrom(tr, res', chunks, n)
  {
  }

  lemma VarbindsCounted(tr: Transport, w: Workload, s: Settings, len: nat) returns (n: nat)
    requires SaneAgent(tr, len) && SaneWorkload(w, len) && Valid(s)
    ensures CountedFrom(tr, RunWalk(tr, w, s, len).0, Chunks(w.scalars, s.maxVarsPerPDU), n)
  {
    hide Listed, Booked, Errored, Scalars, Tables, Chunks, AllChunks, CountedFrom, TablesOnly, LastRefused;
    var v := s.maxVarsPerPDU;
    AllChunksSane(w.tables, v, len);
    NothingListed();
    NothingBooked(tr, s);
    TablesBooked(tr, AllChunks(w.tables, v), EMPTY, [], s, len);
    var (res, fails, course) := Tables(tr, s.maxRepetitions, AllChunks(w.tables, v), EMPTY, [], len);
    n := |res.pdus|;
    ScalarsCounted(tr, Chunks(w.scalars, v), res, fails);
    var whole := RunWalk(tr, w, s, len).0;
    var (res', fails', course') := Scalars(tr, Chunks(w.scalars, v), res, fails);
    CountedSame(tr, if course == Continue then res' else res, whole, Chunks(w.scalars, v), n);
  }

  /** No request of a run asks for more than the product of its settings. */
  lemma RequestsWithinProduct(tr: Transport, w: Workload, s: Settings, len: nat, k: nat)
    requires SaneAgent(tr, len) && SaneWorkload(w, len)
    requires k < |RunWalk(tr, w, s, len).0.pdus|
    ensures RunWalk(tr, w, s, len).0.pdus[k].requested <= s.Product()
  {
    RunBooked(tr, w, s, len);
    var p := RunWalk(tr, w, s, len).0.pdus[k];
    assert InShape(tr, p, k, s);
    MulMonotone(p.repeaters, s.maxVarsPerPDU, s.maxRepetitions);
    MulMonotone(1, s.maxRepetitions, s.maxVarsPerPDU);
  }

  // ---------- What an untruncated response means ----------

  lemma {:induction false} EndFinishes(cols: seq<Col>, vbs: seq<Varbind>, n: nat, k: nat, i: nat)
    requires cols != [] && HaveCursors(cols) && k < n <= |vbs| && vbs[k].value.EndOfMibView?
    requires i < |cols| && k % |cols| == i
    ensures var c := ScanTo(cols, vbs, n).cols[i]; c.finished || c.jumped
  {
    hide HaveCursors, Accepts, Skips;
    if n - 1 > k {
      EndFinishes(cols, vbs, n - 1, k, i);
    }
  }

  lemma {:induction false} JumpsAreSkips(cols: seq<Col>, vbs: seq<Varbind>, n: nat, i: nat)
    requires cols != [] && HaveCursors(cols) && n <= |vbs| && i < |cols|
    ensures ScanTo(cols, vbs, n).cols[i].jumped ==> ScanTo(cols, vbs, n).skips != []
  {
    hide HaveCursors, Less;
    if n > 0 {
      JumpsAreSkips(cols, vbs, n - 1, i);
    }
  }

  /** Short of R rows, or ending in a partial one. */
  ghost predicate Short(vbs: seq<Varbind>, width: nat, reps: Uint32)
    requires width > 0
  {
    Rows(|vbs|, width) < reps || |vbs| % width != 0
  }

  lemma LastRowEnds(vbs: seq<Varbind>, width: nat, reps: Uint32, k: nat)
    requires width > 0 && !CutShort(vbs, width, reps)
    requires Short(vbs, width, reps)
    requires k < |vbs| && k / width == Rows(|vbs|, width) - 1
    ensures vbs[k].value.EndOfMibView?
  {
    assert LastRowAllEnd(vbs, width);
  }

  lemma EndedUnlessSkipped(cols: seq<Col>, vbs: seq<Varbind>, n: nat, k: nat, i: nat)
    requires cols != [] && HaveCursors(cols) && k < n <= |vbs| && vbs[k].value.EndOfMibView?
    requires i < |cols| && k % |cols| == i
    ensures ScanTo(cols, vbs, n).skips == [] ==> ScanTo(cols, vbs, n).cols[i].finished
  {
    EndFinishes(cols, vbs, n, k, i);
    JumpsAreSkips(cols, vbs, n, i);
  }

  /** An answered response s that skipped nothing, is short and yet not marked truncated
      has finished every column with a varbind in its last row. */
  lemma UntruncatedEnds(cols: seq<Col>, vbs: seq<Varbind>, reps: Uint32, n: nat, s: Scan, k: nat, i: nat)
    requires cols != [] && HaveCursors(cols) && n == |vbs| && s == ScanTo(cols, vbs, n) && s.skips == []
    requires Short(vbs, |cols|, reps) && !CutShort(vbs, |cols|, reps)
    requires k < n && k / |cols| == Rows(n, |cols|) - 1 && i < |cols| && k % |cols| == i
    ensures s.cols[i].finished
  {
    LastRowEnds(vbs, |cols|, reps, k);
    EndedUnlessSkipped(cols, vbs, n, k, i);
  }

  lemma WholeRowsAtLeastOne(n: nat, w: nat)
    requires w > 0 && n > 0 && n % w == 0
    ensures w <= n
  {
    assert n == (n / w) * w;
    MulSign(n / w, w);
  }

  lemma LastRowIndex(n: nat, w: nat, i: nat)
    requires 0 < w <= n && n % w == 0 && i < w
    ensures Rows(n, w) == n / w
    ensures (n - w + i) / w == n / w - 1 && (n - w + i) % w == i
  {
    var q := n / w;
    assert n == q * w;
    DivMod(n + w - 1, w, q, w - 1);
    assert (q - 1) * w == q * w - w;
    DivMod(n - w + i, w, q - 1, i);
  }

  /** In a reply of whole rows every column has a varbind in the last one. */
  lemma UntruncatedWholeRows(cols: seq<Col>, vbs: seq<Varbind>, reps: Uint32, n: nat, s: Scan, i: nat)
    requires cols != [] && HaveCursors(cols) && n == |vbs| && s == ScanTo(cols, vbs, n) && s.skips == []
    requires n > 0 && n % |cols| == 0 && !CutShort(vbs, |cols|, reps) && i < |cols|
    ensures n / |cols| >= reps || s.cols[i].finished
  {
    WholeRowsAtLeastOne(n, |cols|);
    LastRowIndex(n, |cols|, i);
    if n / |cols| < reps {
      UntruncatedEnds(cols, vbs, reps, n, s, n - |cols| + i, i);
    }
  }

  // ---------- Ordered agents ----------

  lemma RewoundInStep(cols: seq<Col>, vbs: seq<Varbind>)
    ensures AllInStep(cols, vbs, 0, Rewound(cols))
  {
    forall j | 0 <= j < |cols| ensures InStep(cols, vbs, 0, Rewound(cols)[j], j) {
      forall k | 0 <= k < |cols| && k % |cols| == j ensures k == j {
        DivMod(k, |cols|, 0, k);
      }
    }
  }

  lemma NotSkipped(next: Successor, stored: set<Arcs>, cols: seq<Col>, vbs: seq<Varbind>, n: nat, c: Col)
    requires Ordered(next, stored) && cols != [] && n < |vbs| && RowMajor(next, Cursors(cols), vbs)
    requires InStep(cols, vbs, n, c, n % |cols|)
    ensures !Skips(c, vbs[n])
  {
    if !c.finished && !c.jumped {
      TakesSuccessor(next, cols, vbs, n, c);
      assert TrueAnswer(stored, c.cursor, next(c.cursor));
    }
  }

  /** A reply of iterated successors of an ordered agent, cut anywhere, skips nothing. */
  lemma {:induction false} OrderedSkipsNone(next: Successor, stored: set<Arcs>, cols: seq<Col>, vbs: seq<Varbind>,
                                            n: nat)
    requires Ordered(next, stored) && cols != [] && HaveCursors(cols) && n <= |vbs|
    requires RowMajor(next, Cursors(cols), vbs)
    ensures AllInStep(cols, vbs, n, ScanTo(cols, vbs, n).cols) && ScanTo(cols, vbs, n).skips == []
  {
    hide Absorb, Less, IsNext, InStep, RowMajor, Accepts, Ordered;
    if n == 0 {
      RewoundInStep(cols, vbs);
    } else {
      OrderedSkipsNone(next, stored, cols, vbs, n - 1);
      var s, i := ScanTo(cols, vbs, n - 1), (n - 1) % |cols|;
      StepAllInStep(cols, vbs, n - 1, s);
      NotSkipped(next, stored, cols, vbs, n - 1, s.cols[i]);
    }
  }

  /** So for a row-aligned reply of an ordered agent that is not marked truncated: it has
      R rows, or it has finished column i. */
  lemma OrderedUntruncated(next: Successor, stored: set<Arcs>, cols: seq<Col>, vbs: seq<Varbind>, reps: Uint32, i: nat)
    requires Ordered(next, stored) && cols != [] && HaveCursors(cols) && RowMajor(next, Cursors(cols), vbs)
    requires vbs != [] && |vbs| % |cols| == 0 && !CutShort(vbs, |cols|, reps) && i < |cols|
    ensures |vbs| / |cols| >= reps || ScanTo(cols, vbs, |vbs|).cols[i].finished
  {
    OrderedSkipsNone(next, stored, cols, vbs, |vbs|);
    UntruncatedWholeRows(cols, vbs, reps, |vbs|, ScanTo(cols, vbs, |vbs|), i);
  }

  // ---------- When the mark can be relied on ----------

  /** An ordered agent's reply to columns under way, none at or under another. */
  ghost predicate OrderedReply(next: Successor, stored: set<Arcs>, cols: seq<Col>, vbs: seq<Varbind>) {
    && Ordered(next, stored) && cols != [] && RowMajor(next, Cursors(cols), vbs)
    && (forall i :: 0 <= i < |cols| ==> cols[i].oid != [] && cols[i].oid <= cols[i].cursor && !cols[i].finished)
    && (forall i, j :: 0 <= i < j < |cols| ==> Apart(cols[i].oid, cols[j].oid))
  }

  ghost predicate AllFinished(cols: seq<Col>) {
    forall i :: 0 <= i < |cols| ==> cols[i].finished
  }

  ghost predicate Trusted(cols: seq<Col>, vbs: seq<Varbind>, reps: Uint32) {
    cols != [] && HaveCursors(cols) && (CutShort(vbs, |cols|, reps) || |vbs| / |cols| >= reps ||
                                        AllFinished(ScanTo(cols, vbs, |vbs|).cols))
  }

  /** Every reply of n varbinds of an ordered agent to so many columns that is not marked
      truncated has R whole rows or has finished every column. */
  ghost predicate MarkReliable(width: nat, n: nat, reps: Uint32)
    requires width > 0
  {
    forall next: Successor, stored: set<Arcs>, cols: seq<Col>, vbs: seq<Varbind> |
      |cols| == width && |vbs| == n && OrderedReply(next, stored, cols, vbs) :: Trusted(cols, vbs, reps)
  }

  // ---------- An ordered agent whose partial reply hides an open column ----------

  function Ones(k: nat): Arcs { seq(k, _ => 1) }

  /** The open column is 0, below all others, which lie above everything stored. */
  function Name(i: nat, width: nat): Arcs {
    if i + 1 == width then [0] else [1] + Ones(i) + [2]
  }

  /** What is stored under 0: a chain of OIDs, each one arc longer. */
  function Link(k: nat): Arcs { [0] + Ones(k) }

  function Chain(q: nat): (stored: set<Arcs>)
    ensures forall o :: o in stored <==> exists k :: 0 < k <= q && o == Link(k)
  {
    set k | 0 < k <= q :: Link(k)
  }

  function Open(width: nat): (cols: seq<Col>)
    ensures |cols| == width
    ensures forall i :: 0 <= i < width ==> cols[i] == Col(Name(i, width), Name(i, width), false, false, [])
  {
    seq(width, i requires 0 <= i < width => Col(Name(i, width), Name(i, width), false, false, []))
  }

  function RaggedAt(width: nat, k: nat): Varbind
    requires width > 0
  {
    QuotientNonNegative(k, width);
    if k % width + 1 == width then Varbind(Link(k / width + 1), Data)
    else Varbind(Name(k % width, width), EndOfMibView)
  }

  /** All columns but the last are at the end of the MIB from the start. */
  function Ragged(width: nat, n: nat): (vbs: seq<Varbind>)
    requires width > 0
    ensures |vbs| == n && forall k :: 0 <= k < n ==> vbs[k] == RaggedAt(width, k)
  {
    seq(n, k requires 0 <= k < n => RaggedAt(width, k))
  }

  const PLAIN := Sim.Config(0, 0, 0, [], map[], 0)

  lemma LinksAscend(j: nat, k: nat)
    requires j < k
    ensures Less(Link(j), Link(k)) && !Less(Link(k), Link(j)) && Link(j) != Link(k)
  {
    assert Link(k)[..j + 1] == Link(j);
    PrefixNotAbove(Link(j), Link(k));
    assert |Link(k)| == k + 1;
  }

  lemma NextLink(q: nat, j: nat)
    requires j < q
    ensures Sim.NextOf(PLAIN, Chain(q))(Link(j)) == Varbind(Link(j + 1), Data)
  {
    var stored := Chain(q);
    LinksAscend(j, j + 1);
    forall o | o in stored && Less(Link(j), o) ensures o == Link(j + 1) || Less(Link(j + 1), o) {
      var k :| 0 < k <= q && o == Link(k);
      if k > j + 1 {
        LinksAscend(j + 1, k);
      } else if k < j {
        LinksAscend(k, j);
      } else if k == j {
        LessTotal(Link(j), Link(j));
      }
    }
    assert IsNext(stored, Link(j), Link(j + 1));
    forall o | IsNext(stored, Link(j), o) ensures o == Link(j + 1) {
      Sim.NextUnique(stored, Link(j), o, Link(j + 1));
    }
  }

  lemma NothingAbove(q: nat, i: nat, width: nat)
    requires i + 1 != width
    ensures Sim.NextOf(PLAIN, Chain(q))(Name(i, width)) == Varbind(Name(i, width), EndOfMibView)
  {
    var c := Name(i, width);
    forall o | o in Chain(q) ensures !Less(c, o) {
      var k :| 0 < k <= q && o == Link(k);
      SharedIs(c, o, 0);
    }
  }

  lemma NamesApart(i: nat, j: nat, width: nat)
    requires i < j < width
    ensures Apart(Name(i, width), Name(j, width))
  {
    var a, b := Name(i, width), Name(j, width);
    if j + 1 == width {
      assert a[0] == 1 && b[0] == 0;
    } else {
      assert a[i + 1] == 2 && b[i + 1] == 1;
    }
  }

  lemma RaggedRows(width: nat, n: nat, k: nat)
    requires width > 0 && k < n && n % width != 0
    ensures k % width + 1 == width ==> k / width < n / width
    ensures k >= width ==> (k - width) % width == k % width && (k - width) / width == k / width - 1
    ensures k < width ==> k % width == k && k / width == 0
  {
    if k < width {
      DivMod(k, width, 0, k);
    } else {
      assert (k / width - 1) * width == (k / width) * width - width;
      DivMod(k - width, width, k / width - 1, k % width);
    }
    if k / width >= n / width {
      MulMonotone(n / width, k / width, width);
    }
  }

  lemma FirstLink(width: nat)
    ensures Link(0) == [0] && (width > 0 ==> Name(width - 1, width) == [0])
  {
  }

  /** What varbind k of the reply answers. */
  lemma RaggedAsks(width: nat, n: nat, k: nat)
    requires width > 0 && k < n && n % width != 0
    ensures Asked(Cursors(Open(width)), Ragged(width, n), k)
         == if k % width + 1 == width then Link(k / width) else Name(k % width, width)
  {
    hide Ones, Name;
    RaggedRows(width, n, k);
    FirstLink(width);
  }

  lemma RaggedAnswers(width: nat, n: nat, k: nat)
    requires width > 0 && k < n && n % width != 0
    ensures Ragged(width, n)[k] == Sim.NextOf(PLAIN, Chain(n / width))(Asked(Cursors(Open(width)), Ragged(width, n), k))
  {
    hide Sim.NextOf, Chain, Link, Name, Asked, Open, Cursors;
    RaggedAsks(width, n, k);
    RaggedRows(width, n, k);
    if k % width + 1 == width {
      NextLink(n / width, k / width);
    } else {
      NothingAbove(n / width, k % width, width);
    }
  }

  lemma RaggedReply(width: nat, n: nat)
    requires width > 0 && n % width != 0
    ensures OrderedReply(Sim.NextOf(PLAIN, Chain(n / width)), Chain(n / width), Open(width), Ragged(width, n))
  {
    hide Sim.NextOf, Chain, Link, Asked, Apart, Ordered;
    SimAgreement.SimOrdered(PLAIN, Chain(n / width));
    forall k | 0 <= k < n
      ensures Ragged(width, n)[k]
           == Sim.NextOf(PLAIN, Chain(n / width))(Asked(Cursors(Open(width)), Ragged(width, n), k))
    {
      RaggedAnswers(width, n, k);
    }
    forall i, j | 0 <= i < j < width ensures Apart(Open(width)[i].oid, Open(width)[j].oid) {
      NamesApart(i, j, width);
    }
  }

  lemma RaggedSkipsNone(width: nat, n: nat, m: nat)
    requires width > 0 && n % width != 0 && m <= n
    ensures HaveCursors(Open(width)) && ScanTo(Open(width), Ragged(width, n), m).skips == []
  {
    hide Ordered, Chain, Sim.NextOf, ScanTo;
    RaggedReply(width, n);
    OrderedSkipsNone(Sim.NextOf(PLAIN, Chain(n / width)), Chain(n / width), Open(width), Ragged(width, n), m);
  }

  /** The open column takes what lies under it, or ignores it. */
  lemma OpenStep(c: Col, k: nat)
    requires !c.finished && c.oid == [0] && c.cursor != [] && !Skips(c, Varbind(Link(k), Data))
    ensures !Absorb(c, Varbind(Link(k), Data)).finished && Absorb(c, Varbind(Link(k), Data)).oid == [0]
  {
    assert Link(k)[..1] == [0];
  }

  ghost predicate LastOpen(s: Scan) {
    s.cols != [] && HaveCursors(s.cols) && !s.cols[|s.cols| - 1].finished && s.cols[|s.cols| - 1].oid == [0]
  }

  lemma OpenScanStep(s: Scan, i: nat, vb: Varbind, k: nat)
    requires LastOpen(s) && i < |s.cols| && ScanStep(s, i, vb).skips == []
    requires i + 1 == |s.cols| ==> vb == Varbind(Link(k), Data)
    ensures LastOpen(ScanStep(s, i, vb))
  {
    hide Accepts, Skips, Absorb, Link;
    if i + 1 == |s.cols| {
      assert !Skips(s.cols[i], vb);
      OpenStep(s.cols[i], k);
    }
  }

  ghost predicate LinksOnly(vbs: seq<Varbind>, width: nat)
    requires width > 0
  {
    forall k :: 0 <= k < |vbs| && k % width + 1 == width ==> vbs[k] == Varbind(Link(k / width + 1), Data)
  }

  lemma SkipsGrow(s: Scan, i: nat, vb: Varbind)
    requires i < |s.cols| && HaveCursors(s.cols)
    ensures ScanStep(s, i, vb).skips == [] ==> s.skips == []
  {
  }

  lemma LinkAt(vbs: seq<Varbind>, width: nat, k: nat) returns (i: nat, j: nat)
    requires width > 0 && k < |vbs| && LinksOnly(vbs, width)
    ensures i == k % width && i < width && (i + 1 == width ==> vbs[k] == Varbind(Link(j), Data))
  {
    i, j := k % width, k / width + 1;
  }

  lemma {:induction false} StaysOpen(cols: seq<Col>, vbs: seq<Varbind>, m: nat)
    requires cols != [] && HaveCursors(cols) && m <= |vbs| && LastOpen(ScanTo(cols, vbs, 0))
    requires ScanTo(cols, vbs, m).skips == [] && LinksOnly(vbs, |cols|)
    ensures LastOpen(ScanTo(cols, vbs, m))
  {
    hide LastOpen, Link, HaveCursors, LinksOnly, ScanStep;
    if m > 0 {
      var s := ScanTo(cols, vbs, m - 1);
      var i, j := LinkAt(vbs, |cols|, m - 1);
      SkipsGrow(s, i, vbs[m - 1]);
      StaysOpen(cols, vbs, m - 1);
      OpenScanStep(s, i, vbs[m - 1], j);
    }
  }

  lemma RaggedOpen(width: nat, n: nat)
    requires width > 0 && n % width != 0
    ensures HaveCursors(Open(width)) && LastOpen(ScanTo(Open(width), Ragged(width, n), n))
  {
    hide Link;
    FirstLink(width);
    RaggedSkipsNone(width, n, n);
    StaysOpen(Open(width), Ragged(width, n), n);
  }

  lemma PartialRows(n: nat, w: nat)
    requires w > 0 && n % w != 0
    ensures Rows(n, w) == n / w + 1
  {
    assert (n / w + 1) * w == (n / w) * w + w;
    DivMod(n + w - 1, w, n / w + 1, n % w - 1);
  }

  /** The rows of a record are complete ones exactly when the response is row-aligned. */
  lemma RowsExactly(n: nat, w: nat)
    requires w > 0
    ensures Rows(n, w) == n / w <==> n % w == 0
  {
    if n % w == 0 {
      DivMod(n + w - 1, w, n / w, w - 1);
    } else {
      PartialRows(n, w);
    }
  }

  lemma PartialUnreliable(width: nat, n: nat, reps: Uint32)
    requires width > 0 && n % width != 0 && n / width < reps
    ensures !MarkReliable(width, n, reps)
  {
    hide ScanTo, OrderedReply;
    var cols, vbs := Open(width), Ragged(width, n);
    RaggedOpen(width, n);
    RaggedReply(width, n);
    PartialRows(n, width);
    forall k | 0 <= k < n && k / width == n / width ensures vbs[k].value.EndOfMibView? {
      RaggedRows(width, n, k);
    }
    assert vbs != [] && RowAllEnd(vbs, width, n / width, n);
    assert !Trusted(cols, vbs, reps);
  }

  lemma UncutNonEmpty(vbs: seq<Varbind>, width: nat, reps: Uint32)
    requires width > 0 && reps > 0 && !CutShort(vbs, width, reps)
    ensures vbs != []
  {
    DivMod(width - 1, width, 0, width - 1);
  }

  /** From any agent, a response of fewer whole rows than asked for that skipped nothing and
      is not marked truncated has finished every column. */
  lemma WholeRowsReliable(cols: seq<Col>, vbs: seq<Varbind>, reps: Uint32)
    requires cols != [] && HaveCursors(cols) && |vbs| % |cols| == 0 && |vbs| / |cols| < reps && reps > 0
    requires ScanTo(cols, vbs, |vbs|).skips == [] && !CutShort(vbs, |cols|, reps)
    ensures AllFinished(ScanTo(cols, vbs, |vbs|).cols)
  {
    hide ScanTo, CutShort, HaveCursors;
    var n, s := |vbs|, ScanTo(cols, vbs, |vbs|);
    forall i | 0 <= i < |s.cols| ensures s.cols[i].finished {
      UncutNonEmpty(vbs, |cols|, reps);
      UntruncatedWholeRows(cols, vbs, reps, n, s, i);
    }
  }

  lemma TrustedWholeRows(next: Successor, stored: set<Arcs>, cols: seq<Col>, vbs: seq<Varbind>, reps: Uint32)
    requires OrderedReply(next, stored, cols, vbs) && (|vbs| % |cols| == 0 || |vbs| / |cols| >= reps)
    ensures Trusted(cols, vbs, reps)
  {
    hide ScanTo, CutShort, AllFinished, Ordered, RowMajor;
    QuotientNonNegative(|vbs|, |cols|);
    if |vbs| / |cols| < reps && !CutShort(vbs, |cols|, reps) {
      OrderedSkipsNone(next, stored, cols, vbs, |vbs|);
      WholeRowsReliable(cols, vbs, reps);
    }
  }

  /** On an ordered agent, a response without the mark can be relied on exactly when it
      consists of whole rows or has R of them: of a partial trailing row only what is there
      is inspected. */
  lemma MarkReliableExactly(width: nat, n: nat, reps: Uint32)
    requires width > 0
    ensures MarkReliable(width, n, reps) <==> n % width == 0 || n / width >= reps
  {
    hide Trusted, OrderedReply;
    if n % width == 0 || n / width >= reps {
      forall next: Successor, stored: set<Arcs>, cols: seq<Col>, vbs: seq<Varbind> |
        |cols| == width && |vbs| == n && OrderedReply(next, stored, cols, vbs)
        ensures Trusted(cols, vbs, reps)
      {
        TrustedWholeRows(next, stored, cols, vbs, reps);
      }
    } else {
      PartialUnreliable(width, n, reps);
    }
  }

  // ---------- What is recorded of a skip ----------

  /** Every entry is the OID of a column. */
  lemma {:induction false} SkipsNameColumns(cols: seq<Col>, vbs: seq<Varbind>, n: nat)
    requires cols != [] && HaveCursors(cols) && n <= |vbs|
    ensures forall i :: 0 <= i < |cols| ==> ScanTo(cols, vbs, n).cols[i].oid == cols[i].oid
    ensures forall x :: x in ScanTo(cols, vbs, n).skips ==> exists i :: 0 <= i < |cols| && x == cols[i].oid
  {
    hide Accepts, Less;
    if n > 0 {
      SkipsNameColumns(cols, vbs, n - 1);
    }
  }

  /** It is the prefix that was skipped exactly when request and answer share nothing below
      the column. */
  lemma SkipIsPrefixExactly(c: Col, vb: Varbind)
    requires Skips(c, vb) && c.oid != [] && c.oid <= c.cursor
    ensures c.oid == c.cursor[..Kept(c.cursor, vb.oid)] <==> Shared(c.cursor, vb.oid) == |c.oid|
  {
    var n := Shared(c.cursor, vb.oid);
    assert forall k :: 0 <= k < |c.oid| ==> c.cursor[k] == c.oid[k] == vb.oid[k];
    assert n >= |c.oid|;
  }
}
