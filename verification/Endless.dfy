/** The two assumptions under which a walk ends are needed: an arc of 2^32-1, or OIDs
    of unbounded length, let an agent hold a walk forever. */
module Endless {
  import opened Oid
  import opened Agent
  import opened Column
  import opened Walk
  import I = Inventory

  lemma {:induction false} UnfinishedHaveCursors(cols: seq<Col>)
    requires HaveCursors(cols)
    ensures HaveCursors(Unfinished(cols))
  {
    if cols != [] {
      UnfinishedHaveCursors(cols[..|cols| - 1]);
    }
  }

  /** The walk of a chunk after at most n requests, without asking that it ends. */
  ghost function Rounds(tr: Transport, reps: Uint32, st: State, n: nat): State
    requires HaveCursors(st.active)
    decreases n
  {
    if n == 0 || st.active == [] then st
    else
      var r := tr.bulk(|st.res.pdus|, Cursors(st.active), reps);
      UnfinishedHaveCursors(ScanTo(st.active, r.varbinds, |r.varbinds|).cols);
      Rounds(tr, reps, Round(tr, reps, st).0, n - 1)
  }

  /** One column walked with single varbinds. */
  lemma SingleRound(tr: Transport, reps: Uint32, st: State, vb: Varbind)
    requires |st.active| == 1 && HaveCursors(st.active) && !st.active[0].finished
    requires var r := tr.bulk(|st.res.pdus|, Cursors(st.active), reps);
             r.status.Answered? && r.varbinds == [vb]
    ensures var c := Absorb(st.active[0].(jumped := false), vb);
            !c.finished ==> Round(tr, reps, st).0.active == [c]
  {
    var c := Absorb(st.active[0].(jumped := false), vb);
    var s := ScanTo(st.active, [vb], 1);
    assert s == ScanStep(ScanTo(st.active, [vb], 0), 0, vb);
    assert s.cols == [c];
    assert Unfinished([c]) == Unfinished([]) + if c.finished then [] else [c];
  }

  const TOP: Arcs := [1, MAX_ARC]

  /** Always answers 1.4294967295. */
  function Stubborn(): Transport {
    Transport((k, oids, reps) => Reply(Answered, [Varbind(TOP, Data)], 0, 0, 0),
              (k, oids) => Reply(Answered, [], 0, 0, 0), k => false)
  }

  /** Answers every cursor with its first child. */
  function Bottomless(): Transport {
    Transport((k, oids: seq<Arcs>, reps) =>
                Reply(Answered, if oids == [] then [] else [Varbind(oids[0] + [0], Data)], 0, 0, 0),
              (k, oids) => Reply(Answered, [], 0, 0, 0), k => false)
  }

  ghost predicate Cycling(c: Col) {
    !c.finished && c.oid == [1] && (c.cursor == [1] || c.cursor == TOP || c.cursor == [1, 0])
  }

  lemma CycleStep(c: Col)
    requires Cycling(c) && !c.jumped
    ensures Cycling(Absorb(c, Varbind(TOP, Data)))
  {
    var one: Arcs, low: Arcs := [1], [1, 0];
    assert one <= TOP by { assert TOP[..1] == one; }
    if c.cursor == TOP {
      SharedIs(TOP, TOP, 2);
      assert SkipTarget(TOP, TOP) == TOP[..1] + [Increment(MAX_ARC)] == low;
      assert one <= low by { assert low[..1] == one; }
    } else if c.cursor == low {
      SharedIs(low, TOP, 1);
    } else {
      SharedIs(one, TOP, 1);
    }
  }

  /** At the largest arc the increment of a skip wraps to 0, the cursor falls back, and
      the walk of column 1 never ends. */
  lemma {:induction false} WrapNeverEnds(reps: Uint32, st: State, n: nat)
    requires |st.active| == 1 && Cycling(st.active[0])
    ensures HaveCursors(st.active) && Rounds(Stubborn(), reps, st, n).active != []
    decreases n
  {
    hide Absorb, ScanTo, Round, Accounted;
    if n > 0 {
      var vb := Varbind(TOP, Data);
      assert Stubborn().bulk(|st.res.pdus|, Cursors(st.active), reps).varbinds == [vb];
      CycleStep(st.active[0].(jumped := false));
      SingleRound(Stubborn(), reps, st, vb);
      WrapNeverEnds(reps, Round(Stubborn(), reps, st).0, n - 1);
    }
  }

  /** Without a bound on the length of OIDs a walk need not end either. */
  lemma {:induction false} DepthNeverEnds(reps: Uint32, st: State, n: nat)
    requires |st.active| == 1 && st.active[0].oid != [] && st.active[0].oid <= st.active[0].cursor
    requires !st.active[0].finished
    ensures HaveCursors(st.active) && Rounds(Bottomless(), reps, st, n).active != []
    decreases n
  {
    hide ScanTo, Round, Accounted;
    if n > 0 {
      var c := st.active[0];
      var child := c.cursor + [0];
      var vb := Varbind(child, Data);
      assert Cursors(st.active)[0] == c.cursor;
      assert Bottomless().bulk(|st.res.pdus|, Cursors(st.active), reps).varbinds == [vb];
      assert child[..|c.cursor|] == c.cursor;
      SharedIs(c.cursor, child, |c.cursor|);
      assert c.oid <= child by { assert child[..|c.oid|] == c.cursor[..|c.oid|]; }
      SingleRound(Bottomless(), reps, st, vb);
      DepthNeverEnds(reps, Round(Bottomless(), reps, st).0, n - 1);
    }
  }

  // ---------- The same of the reference walk ----------

  /** The walk of one root after at most n requests, the OID budget being unlimited. */
  function Passes(tr: Transport, s: I.Survey, n: nat): I.Survey
    requires s.st.root != [] && (!s.Over() ==> s.st.root <= s.cursor)
    decreases n
  {
    if n == 0 || s.Over() then s else Passes(tr, I.Pass(tr, 0, s), n - 1)
  }

  lemma SinglePass(tr: Transport, s: I.Survey, vb: Varbind)
    requires !s.Over() && s.st.root != [] && s.st.root <= s.cursor && s.st.root <= vb.oid && vb.value.Data?
    requires var r := tr.bulk(s.sent, [s.cursor], I.REFERENCE_REPETITIONS); r.status.Answered? && r.varbinds == [vb]
    requires !tr.cancelled(s.sent)
    ensures var s' := I.Pass(tr, 0, s);
            var target := if Less(s.cursor, vb.oid) then vb.oid else SkipTarget(s.cursor, vb.oid);
            s.st.root <= target ==> !s'.Over() && s'.cursor == target && s'.st.root == s.st.root
  {
    assert [vb][1..] == [];
    var c := I.Collect(s.st.root, s.cursor, [vb], s.st.oids, s.st.skipped);
    if Less(s.cursor, vb.oid) {
      assert c == I.Collect(s.st.root, vb.oid, [], s.st.oids + [vb.oid], s.st.skipped);
    }
  }

  predicate Turning(s: I.Survey) {
    !s.Over() && s.st.root == [1] && (s.cursor == [1] || s.cursor == TOP || s.cursor == [1, 0])
  }

  lemma TurningPass(s: I.Survey)
    requires Turning(s)
    ensures s.st.root <= s.cursor && Turning(I.Pass(Stubborn(), 0, s))
  {
    var one: Arcs, low: Arcs, vb := [1], [1, 0], Varbind(TOP, Data);
    assert one <= TOP && one <= low by { assert TOP[..1] == one && low[..1] == one; }
    assert Stubborn().bulk(s.sent, [s.cursor], I.REFERENCE_REPETITIONS).varbinds == [vb];
    SinglePass(Stubborn(), s, vb);
    if s.cursor == TOP {
      SharedIs(TOP, TOP, 2);
      assert SkipTarget(TOP, TOP) == TOP[..1] + [Increment(MAX_ARC)] == low;
    } else if s.cursor == low {
      SharedIs(low, TOP, 1);
    } else {
      SharedIs(one, TOP, 1);
    }
  }

  /** At the largest arc the reference walk of root 1 never ends. */
  lemma {:induction false} WrapHoldsReference(s: I.Survey, n: nat)
    requires Turning(s)
    ensures s.st.root <= s.cursor && !Passes(Stubborn(), s, n).Over()
    decreases n
  {
    hide I.Pass;
    TurningPass(s);
    if n > 0 {
      WrapHoldsReference(I.Pass(Stubborn(), 0, s), n - 1);
    }
  }

  lemma DeeperPass(s: I.Survey)
    requires !s.Over() && s.st.root != [] && s.st.root <= s.cursor
    ensures var s' := I.Pass(Bottomless(), 0, s); !s'.Over() && s'.st.root == s.st.root && s'.st.root <= s'.cursor
  {
    var child := s.cursor + [0];
    var vb := Varbind(child, Data);
    assert Bottomless().bulk(s.sent, [s.cursor], I.REFERENCE_REPETITIONS).varbinds == [vb];
    assert child[..|s.cursor|] == s.cursor;
    SharedIs(s.cursor, child, |s.cursor|);
    assert s.st.root <= child by { assert child[..|s.st.root|] == s.cursor[..|s.st.root|]; }
    SinglePass(Bottomless(), s, vb);
  }

  /** Nor does it on OIDs of unbounded length. */
  lemma {:induction false} DepthHoldsReference(s: I.Survey, n: nat)
    requires !s.Over() && s.st.root != [] && s.st.root <= s.cursor
    ensures !Passes(Bottomless(), s, n).Over()
    decreases n
  {
    hide I.Pass;
    DeeperPass(s);
    if n > 0 {
      DepthHoldsReference(I.Pass(Bottomless(), 0, s), n - 1);
    }
  }
}
