/** What the record of a request says, in terms of the reply to that very request
    (internal/walk/walk.go:185-233, 266-299). */
module Records {
  import opened Arithmetic
  import opened Oid
  import opened Agent
  import opened Walk

  // ---------- Rows and the truncation mark ----------

  /** How many varbinds the last row has, be it partial. */
  function LastRow(n: nat, w: nat): (t: nat)
    requires w > 0
    ensures t <= w
  {
    if n % w == 0 then w else n % w
  }

  /** An answer to w columns and R rows is cut: it is empty, or short of R rows or ragged
      although some varbind of its last row is not the end of the MIB. */
  ghost predicate Marked(vbs: seq<Varbind>, w: nat, reps: Uint32)
    requires w > 0
  {
    var n := |vbs|;
    || n == 0
    || ((n % w != 0 || n < reps * w)
        && exists k :: n - LastRow(n, w) <= k < n && 0 <= k && !vbs[k].value.EndOfMibView?)
  }

  lemma RowsBracket(n: nat, w: nat)
    requires w > 0
    ensures n <= Rows(n, w) * w < n + w
  {
    var q := Rows(n, w);
    assert q * w == n + w - 1 - (n + w - 1) % w;
  }

  lemma OneRowLess(q: int, w: nat)
    ensures (q - 1) * w == q * w - w
  {
  }

  lemma LastRowStarts(n: nat, w: nat)
    requires w > 0 && n > 0
    ensures LastRow(n, w) <= n && (Rows(n, w) - 1) * w == n - LastRow(n, w)
  {
    var d, r := n / w, n % w;
    assert n == d * w + r;
    if r == 0 {
      DivMod(n + w - 1, w, d, w - 1);
      OneRowLess(d, w);
      MulSign(d, w);
    } else {
      OneRowLess(d + 1, w);
      DivMod(n + w - 1, w, d + 1, r - 1);
    }
  }

  lemma RowOf(n: nat, w: nat, k: nat)
    requires w > 0 && k < n
    ensures k / w == Rows(n, w) - 1 <==> n - LastRow(n, w) <= k
  {
    hide Rows;
    var m := Rows(n, w) - 1;
    LastRowStarts(n, w);
    if m * w <= k {
      DivMod(k, w, m, k - m * w);
    } else if k / w >= m {
      MulMonotone(m, k / w, w);
    }
  }

  lemma ShortOfRows(n: nat, w: nat, reps: Uint32)
    requires w > 0
    ensures Rows(n, w) < reps || n % w != 0 <==> n % w != 0 || n < reps * w
  {
    var q := Rows(n, w);
    if n % w == 0 {
      DivMod(n + w - 1, w, n / w, w - 1);
      if q < reps {
        MulMonotone(q + 1, reps, w);
      } else {
        MulMonotone(reps, q, w);
      }
    }
  }

  lemma MarkedExactly(vbs: seq<Varbind>, w: nat, reps: Uint32)
    requires w > 0 && reps > 0
    ensures CutShort(vbs, w, reps) <==> Marked(vbs, w, reps)
  {
    var n := |vbs|;
    ShortOfRows(n, w, reps);
    if n == 0 {
      DivMod(w - 1, w, 0, w - 1);
    } else {
      LastRowStarts(n, w);
      forall k | 0 <= k < n ensures k / w == Rows(n, w) - 1 <==> n - LastRow(n, w) <= k {
        RowOf(n, w, k);
      }
    }
  }

  // ---------- The record of a request ----------

  /** Record k of a run at s is that of a request for these names and of its reply. */
  ghost predicate RecordOf(tr: Transport, p: PDU, k: nat, oids: seq<Arcs>, s: Settings) {
    var bulk, w := p.kind.GetBulk?, |oids|;
    var r := if bulk then tr.bulk(k, oids, s.maxRepetitions) else tr.get(k, oids);
    && p.seqNo == k + 1 && p.repeaters == w && 0 < w <= s.maxVarsPerPDU
    && p.maxReps == (if bulk then s.maxRepetitions else 0) && p.requested == (if bulk then w * s.maxRepetitions else w)
    && p.varbinds == |r.varbinds| && p.bytes == r.bytes && p.rtt == r.rtt && p.retries == r.retries
    && (if r.status.Answered? then !p.error.Failed? else p.error == Failed(r.status))
    && (if bulk && r.status.Answered? then
          && p.varbinds <= p.rows * w < p.varbinds + w
          && (p.truncated <==> Marked(r.varbinds, w, s.maxRepetitions))
        else p.rows == 0 && !p.truncated && p.error != Misordered)
  }

  /** A round adds the record of its request, marked misordered exactly when it skipped. */
  lemma RoundRecords(tr: Transport, st: State, s: Settings)
    requires st.active != [] && HaveCursors(st.active) && |st.active| <= s.maxVarsPerPDU && s.maxRepetitions > 0
    ensures var res' := Round(tr, s.maxRepetitions, st).0.res;
            var k := |st.res.pdus|;
            && |res'.pdus| == k + 1 && res'.pdus[..k] == st.res.pdus
            && RecordOf(tr, res'.pdus[k], k, Cursors(st.active), s) && res'.pdus[k].kind.GetBulk?
            && res'.retries == st.res.retries + res'.pdus[k].retries
            && |res'.skips| >= |st.res.skips|
            && (res'.pdus[k].error == Misordered <==> |res'.skips| > |st.res.skips|)
            && res'.varbinds - st.res.varbinds == |res'.oids| - |st.res.oids|
  {
    var reps, w, k := s.maxRepetitions, |st.active|, |st.res.pdus|;
    var r := tr.bulk(k, Cursors(st.active), reps);
    var res' := Round(tr, reps, st).0.res;
    assert res'.pdus[..k] == st.res.pdus;
    RowsBracket(|r.varbinds|, w);
    MarkedExactly(r.varbinds, w, reps);
  }
}
