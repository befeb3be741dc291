/** The shape of a whole search (internal/search/search.go:145-219): first it climbs from
    the default setting, doubling R, then it halves the gap between the last clean and the
    failed R, then it splits the product it found, each phase exactly so. */
module Shape {
  import opened Arithmetic
  import opened Agent
  import opened Walk
  import opened Trials
  import opened Machine
  import opened SearchSafety
  import opened SearchRuns
  import opened Climb
  import opened Reasons
  import opened EverySearch
  import Guarantees

  // ---------- The bracket of escalation ----------

  /** Escalation trials that ended in a failure leave the bracket of the last two R. */
  ghost predicate Brackets(ts: seq<Trial>, good: nat, lg: nat, fb: nat) {
    fb > 0 ==>
      && ts != [] && !ts[|ts| - 1].OK() && ts[|ts| - 1].settings.maxRepetitions == fb
      && (if |ts| == 1 then lg == good else 2 * lg == fb)
  }

  lemma BracketsOn(before: seq<Trial>, t: Trial, after: seq<Trial>, good: nat, reps: nat, lg: nat, fb: nat)
    requires |before| < |after| && after[..|before| + 1] == before + [t]
    requires Brackets(after[|before| + 1..], reps, lg, fb) && (fb > 0 ==> |after| > |before| + 1)
    requires fb > 0 && |after| == |before| + 2 ==> after[|before| + 1].settings.maxRepetitions == 2 * reps
    ensures Brackets(after[|before|..], good, lg, fb)
  {
    assert after[|before|..] == [t] + after[|before| + 1..] by {
      assert after[|before|] == after[..|before| + 1][|before|] == t;
    }
  }

  lemma FirstRung(u: Setup, before: seq<Trial>, R: nat, v0: int, prev: Option<real>, m: Progress, stop: bool)
    requires Laddered(u, before, R, v0, prev, m, stop) && |m.out.trials| > |before|
    ensures m.out.trials[|before|].settings.maxRepetitions == R
  {
    assert m.out.trials[|before|..][0] == m.out.trials[|before|];
  }

  lemma LadderedGrows(u: Setup, before: seq<Trial>, R: nat, v0: int, prev: Option<real>, m: Progress, stop: bool)
    requires Laddered(u, before, R, v0, prev, m, stop)
    ensures |before| <= |m.out.trials| && m.out.trials[..|before|] == before
  {
  }

  lemma NoBracket(ts: seq<Trial>, good: nat, lg: nat)
    ensures Brackets(ts, good, lg, 0)
  {
  }

  lemma OneBracket(t: Trial, good: nat, fb: nat)
    requires !t.OK() && t.settings.maxRepetitions == fb
    ensures Brackets([t], good, good, fb)
  {
  }

  lemma BracketsMore(ts: seq<Trial>, good: nat, lg: nat, fb: nat)
    requires Brackets(ts, good, lg, fb)
    ensures fb > 0 ==> ts != []
  {
  }

  lemma BracketsClimb(u: Setup, before: seq<Trial>, t: Trial, m: Progress, reps: nat, v0: int, good: nat, lg: nat,
                      fb: nat, stop: bool)
    requires Laddered(u, before + [t], reps * 2, v0, Some(t.score), m, stop)
    requires |before| < |m.out.trials| && Brackets(m.out.trials[|before| + 1..], reps, lg, fb)
    ensures Brackets(m.out.trials[|before|..], good, lg, fb)
  {
    hide Rungs, Explained, Brackets, Laddered;
    LadderedGrows(u, before + [t], reps * 2, v0, Some(t.score), m, stop);
    BracketsMore(m.out.trials[|before| + 1..], reps, lg, fb);
    if |m.out.trials| > |before| + 1 {
      FirstRung(u, before + [t], reps * 2, v0, Some(t.score), m, stop);
    }
    BracketsOn(before, t, m.out.trials, good, reps, lg, fb);
  }

  lemma {:induction false} EscalationBrackets(u: Setup, m: Progress, reps: Uint32, v0: int, good: Uint32,
                                              prevScore: real)
    requires Rung(u, v0, m, good) && reps > 0 && v0 > 0 && 0 <= u.maxProduct < 0x8000_0000
    requires good < reps && good * v0 <= u.maxProduct && Told(u, m)
    ensures var (m', lg, fb, stop) := Escalation(u, m, reps, v0, good, prevScore);
            |m.out.trials| <= |m'.out.trials| && Brackets(m'.out.trials[|m.out.trials|..], good, lg, fb)
    decreases u.maxProduct + 1 - reps * v0
  {
    hide Ready, Stopped, Measure, Rising, Threshold, Climbed, OnlyV, Rung, Bracket, MaybeFailed, Laddered,
         Explained, Rungs, Plateaued, Told, Brackets;
    var s := Settings(reps, v0);
    var n := |m.out.trials|;
    var (m', lg, fb, ended) := Escalation(u, m, reps, v0, good, prevScore);
    EscalationLadder(u, m, reps, v0, good, prevScore);
    LadderedGrows(u, m.out.trials, reps, v0, if good > 0 then Some(prevScore) else None, m', ended);
    MulStrict(0, reps, v0);
    if fb == 0 {
      NoBracket(m'.out.trials[n..], good, lg);
    } else {
      RungReady(u, v0, m, good);
      MeasuredOne(u, m, s);
      RungStep(u, m, reps, v0, good);
      UnstoppedTold(u, m, s);
      var (m1, t, stop) := Measure(u, m, s, Escalate);
      assert m1.out.trials[n..] == [t.value];
      if t.value.OK() {
        DoublingFits(reps, v0, u.maxProduct);
        EscalationLadder(u, m1, reps * 2, v0, reps, t.value.score);
        EscalationBrackets(u, m1, reps * 2, v0, reps, t.value.score);
        BracketsClimb(u, m.out.trials, t.value, m', reps, v0, good, lg, fb, ended);
      } else {
        OneBracket(t.value, good, fb);
      }
    }
  }

  // ---------- Splits ----------

  /** A split of this product at one of these V. */
  predicate SplitOf(t: Trial, product: nat, vs: seq<int>) {
    t.phase == Split && t.settings.maxVarsPerPDU in vs && t.settings.maxVarsPerPDU > 0
    && t.settings.maxRepetitions == product / t.settings.maxVarsPerPDU
  }

  ghost predicate AllSplits(ts: seq<Trial>, b: nat, product: nat, vs: seq<int>) {
    forall k :: b <= k < |ts| ==> SplitOf(ts[k], product, vs)
  }

  lemma OneMore(u: Setup, m: Progress, s: Settings, phase: Phase)
    requires Ready(u, m, phase == Try) && s.Product() >= 0
    ensures var (m1, t, stop) := Measure(u, m, s, phase);
            && (!stop ==> Ready(u, m1, phase == Try))
            && (m1.out.trials == m.out.trials
                || exists x: Trial :: x.settings == s && x.phase == phase && m1.out.trials == m.out.trials + [x])
  {
    hide Ready, Stopped, Measure;
    MeasureKeeps(u, m, s, phase);
    var (m1, t, stop) := Measure(u, m, s, phase);
    if t.Some? {
      ScoreMeaning(s, phase, t.value.runs);
    }
  }

  lemma SplitsMore(before: seq<Trial>, mid: seq<Trial>, after: seq<Trial>, product: nat, vs: seq<int>)
    requires vs != [] && |before| <= |mid| <= |after| && mid[..|before|] == before && after[..|mid|] == mid
    requires AllSplits(mid, |before|, product, vs) && AllSplits(after, |mid|, product, vs[1..])
    ensures after[..|before|] == before && AllSplits(after, |before|, product, vs)
  {
    assert after[..|before|] == after[..|mid|][..|before|];
    forall k | |before| <= k < |after| ensures SplitOf(after[k], product, vs) {
      if k < |mid| { assert after[k] == after[..|mid|][k] == mid[k]; }
    }
  }

  lemma {:induction false} SplittingShape(u: Setup, m: Progress, product: nat, vs: seq<int>)
    requires Ready(u, m, false) && product <= 0xFFFF_FFFF && forall k :: 0 <= k < |vs| ==> vs[k] > 0
    ensures var ts := Splitting(u, m, product, vs).0.out.trials;
            var n := |m.out.trials|;
            n <= |ts| && ts[..n] == m.out.trials && AllSplits(ts, n, product, vs)
    decreases |vs|
  {
    hide Ready, Measure;
    var n := |m.out.trials|;
    assert m.out.trials[..n] == m.out.trials;
    if vs != [] {
      QuotientFits(product, vs[0]);
      if product / vs[0] < 1 {
        SplittingShape(u, m, product, vs[1..]);
      } else {
        var s := Settings(product / vs[0], vs[0]);
        OneMore(u, m, s, Split);
        var (m1, t, stop) := Measure(u, m, s, Split);
        assert m1.out.trials[..n] == m.out.trials && AllSplits(m1.out.trials, n, product, vs);
        if !stop {
          SplittingShape(u, m1, product, vs[1..]);
          SplitsMore(m.out.trials, m1.out.trials, Splitting(u, m1, product, vs[1..]).0.out.trials, product, vs);
        }
      }
    }
  }

  // ---------- Whole searches ----------

  /** The first a trials climb from R = 2, those up to b halve the gap they left, the rest
      split the largest product clean by then. */
  ghost predicate Shaped(ts: seq<Trial>, v0: int, gain: real, vs: seq<int>, a: nat, b: nat) {
    && a <= b <= |ts| && Rungs(ts[..a], 2, v0, None, gain)
    && (a < b ==>
          && a > 0 && !ts[a - 1].OK()
          && var R := ts[a - 1].settings.maxRepetitions; Halves(ts[a..b], if a == 1 then 0 else R / 2, R, v0))
    && (b < |ts| ==> LargestClean(ts[..b]) >= 0 && AllSplits(ts, b, LargestClean(ts[..b]), vs))
  }

  lemma {:induction false} RungsAmended(x: seq<Trial>, y: seq<Trial>, R: nat, v0: int, prev: Option<real>, gain: real)
    requires Guarantees.Amended(x, y) && Rungs(x, R, v0, prev, gain)
    ensures Rungs(y, R, v0, prev, gain)
  {
    if |x| > 1 {
      assert forall i :: 0 < i < |x| - 1 ==> y[1..][i - 1] == y[i] && x[1..][i - 1] == x[i];
      RungsAmended(x[1..], y[1..], 2 * R, v0, Some(x[0].score), gain);
    }
  }

  lemma {:induction false} HalvesAmended(x: seq<Trial>, y: seq<Trial>, good: nat, bad: nat, v0: int)
    requires Guarantees.Amended(x, y) && Halves(x, good, bad, v0)
    ensures Halves(y, good, bad, v0)
  {
    if |x| > 1 {
      var mid := (good + bad) / 2;
      assert forall i :: 0 < i < |x| - 1 ==> y[1..][i - 1] == y[i] && x[1..][i - 1] == x[i];
      HalvesAmended(x[1..], y[1..], if x[0].OK() then mid else good, if x[0].OK() then bad else mid, v0);
    } else if |x| == 1 {
      assert y[1..] == [];
    }
  }

  lemma SliceAmended(x: seq<Trial>, y: seq<Trial>, a: nat, b: nat)
    requires Guarantees.Amended(x, y) && a <= b <= |x|
    ensures Guarantees.Amended(x[a..b], y[a..b]) && (b < |x| ==> x[a..b] == y[a..b])
  {
  }

  lemma AmendedFrom(x: seq<Trial>, y: seq<Trial>)
    requires Guarantees.Amended(x, y)
    ensures |x| == |y| && forall i :: 0 <= i < |x| ==>
              y[i].settings == x[i].settings && y[i].phase == x[i].phase && (!x[i].OK() ==> !y[i].OK())
  {
  }

  lemma ShapedAmended(x: seq<Trial>, y: seq<Trial>, v0: int, gain: real, vs: seq<int>, a: nat, b: nat)
    requires Shaped(x, v0, gain, vs, a, b) && Guarantees.Amended(x, y)
    ensures Shaped(y, v0, gain, vs, a, b)
  {
    hide Rungs, Halves, Guarantees.Amended, LargestClean;
    AmendedFrom(x, y);
    SliceAmended(x, y, 0, a);
    SliceAmended(x, y, a, b);
    SliceAmended(x, y, 0, b);
    assert x[0..a] == x[..a] && y[0..a] == y[..a] && x[0..b] == x[..b] && y[0..b] == y[..b];
    RungsAmended(x[..a], y[..a], 2, v0, None, gain);
    if a < b {
      var R := x[a - 1].settings.maxRepetitions;
      HalvesAmended(x[a..b], y[a..b], if a == 1 then 0 else R / 2, R, v0);
    }
  }

  lemma ClimbShaped(u: Setup, m: Progress, v0: int, vs: seq<int>, stop: bool)
    requires Laddered(u, [], 2, v0, None, m, stop)
    ensures Shaped(m.out.trials, v0, u.opts.plateauGain, vs, |m.out.trials|, |m.out.trials|)
    ensures !stop ==> Explained(u, m, m.out.trials, 2, v0, None)
  {
    var n := |m.out.trials|;
    assert m.out.trials[0..] == m.out.trials && m.out.trials[..n] == m.out.trials;
  }

  lemma HalvesShaped(ts: seq<Trial>, ts': seq<Trial>, v0: int, gain: real, vs: seq<int>, good: nat, bad: nat)
    requires Shaped(ts, v0, gain, vs, |ts|, |ts|) && Brackets(ts, 0, good, bad) && bad > 0
    requires |ts| <= |ts'| && ts'[..|ts|] == ts && Halves(ts'[|ts|..], good, bad, v0)
    ensures Shaped(ts', v0, gain, vs, |ts|, |ts'|)
  {
    hide Rungs, Halves;
    var a := |ts|;
    assert ts[..a] == ts && ts'[a..|ts'|] == ts'[a..];
    assert ts'[a - 1] == ts'[..a][a - 1] == ts[a - 1];
  }

  lemma SplitsShaped(ts: seq<Trial>, ts': seq<Trial>, v0: int, gain: real, vs: seq<int>, a: nat)
    requires Shaped(ts, v0, gain, vs, a, |ts|) && LargestClean(ts) >= 0
    requires |ts| <= |ts'| && ts'[..|ts|] == ts && AllSplits(ts', |ts|, LargestClean(ts), vs)
    ensures Shaped(ts', v0, gain, vs, a, |ts|)
  {
    hide Rungs, Halves, LargestClean, AllSplits;
    var b := |ts|;
    assert ts'[..a] == ts'[..b][..a] == ts[..a] && ts'[a..b] == ts'[..b][a..] == ts[a..b];
    assert a > 0 ==> ts'[a - 1] == ts'[..b][a - 1] == ts[a - 1];
  }

  lemma FinishShaped(u: Setup, m: Progress, v0: int, widest: int, goodR: Uint32, a: nat)
    requires Ready(u, m, false) && m.lastGood == goodR * v0
    requires v0 > 0 && widest >= 0 && goodR * v0 <= u.maxProduct < 0x8000_0000
    requires Shaped(m.out.trials, v0, u.opts.plateauGain, SplitCandidates(v0, widest), a, |m.out.trials|)
    requires Rising(m.out.trials) && OnlyV(m, v0)
    ensures var m' := Finish(u, m, v0, widest, goodR);
            && Shaped(m'.out.trials, v0, u.opts.plateauGain, SplitCandidates(v0, widest), a, |m.out.trials|)
            && (Unstopped(m') ==> |m.out.trials| <= |m'.out.trials| && m'.out.trials[..|m.out.trials|] == m.out.trials)
  {
    hide Ready, Shaped, Splitting, FinalProbe, SplitCandidates, Guarantees.Sound, Guarantees.Amended, LargestClean,
         Rising, OnlyV;
    var vs := SplitCandidates(v0, widest);
    var gain := u.opts.plateauGain;
    MulSign(goodR, v0);
    if goodR == 0 {
      Guarantees.FinalProbeKeeps(u, m, false);
      ShapedAmended(m.out.trials, FinalProbe(u, m).out.trials, v0, gain, vs, a, |m.out.trials|);
      assert m.out.trials[..|m.out.trials|] == m.out.trials;
    } else {
      CandidatesPositive(v0, widest);
      Guarantees.CandidatesUntried(m, v0, widest);
      Guarantees.ReadyLasts(u, m, false);
      SplittingShape(u, m, goodR * v0, vs);
      SplittingKeeps(u, m, goodR * v0, vs);
      var (m1, stop) := Splitting(u, m, goodR * v0, vs);
      SplitsShaped(m.out.trials, m1.out.trials, v0, gain, vs, a);
      if !stop {
        Guarantees.FinalProbeKeeps(u, m1, false);
        ShapedAmended(m1.out.trials, FinalProbe(u, m1).out.trials, v0, gain, vs, a, |m.out.trials|);
      }
    }
  }

  lemma ShapeFits(ts: seq<Trial>, v0: int, gain: real, vs: seq<int>, a: nat, b: nat)
    requires Shaped(ts, v0, gain, vs, a, b)
    ensures a <= b <= |ts|
  {
  }

  lemma StartsEmpty(u: Setup, m: Progress)
    requires Guarantees.Unused(u, m)
    ensures var m0 := Begin(m, u.maxProduct + 1); m0.out.trials == [] && Told(u, m0) && Unstopped(m0)
  {
    BeginTold(u, m, u.maxProduct + 1);
  }

  /** What explained the end of the climb still does at the end of the search. */
  lemma StillExplained(u: Setup, m: Progress, m': Progress, v0: int, a: nat)
    requires a == |m.out.trials| <= |m'.out.trials| && m'.out.trials[..a] == m.out.trials
    requires Explained(u, m, m.out.trials, 2, v0, None) && m'.out.note == m.out.note
    requires Told(u, m) && Told(u, m') && (m.out.stressed ==> m'.out.stressed)
    ensures Explained(u, m', m'.out.trials[..a], 2, v0, None)
  {
    hide StressSeen;
  }

  lemma HalvedShaped(u: Setup, m: Progress, v0: int, widest: int, good: Uint32, bad: Uint32)
    requires Bracket(u, v0, m, good, bad) && Brackets(m.out.trials, 0, good, bad)
    requires v0 > 0 && widest >= 0 && 0 < bad && good < bad < 0x8000_0000 && bad * v0 <= u.maxProduct < 0x8000_0000
    requires var a := |m.out.trials|;
             Shaped(m.out.trials, v0, u.opts.plateauGain, SplitCandidates(v0, widest), a, a)
    ensures var (m2, goodR, badR, stop) := Bisection(u, m, good, bad, v0);
            goodR * v0 <= u.maxProduct &&
            var m' := if stop then m2 else Finish(u, m2, v0, widest, goodR);
            && Shaped(m'.out.trials, v0, u.opts.plateauGain, SplitCandidates(v0, widest), |m.out.trials|,
                      |m2.out.trials|)
            && (Unstopped(m') ==>
                  && |m.out.trials| <= |m'.out.trials| && m'.out.trials[..|m.out.trials|] == m.out.trials
                  && m'.out.note == m.out.note && (m.out.stressed ==> m'.out.stressed))
  {
    hide Ready, Stopped, Rising, OnlyV, Bisection, Finish, Shaped, Halves, Brackets, Threshold, Climbed,
         SplitCandidates, Bracket, LargestClean, Guarantees.Ended;
    BisectionKeeps(u, m, good, bad, v0);
    BisectionHalves(u, m, good, bad, v0);
    var (m2, goodR, badR, stop) := Bisection(u, m, good, bad, v0);
    HalvesShaped(m.out.trials, m2.out.trials, v0, u.opts.plateauGain, SplitCandidates(v0, widest), good, bad);
    MulMonotone(goodR, bad, v0);
    if stop {
      Guarantees.StoppedIs(u, m2);
    } else {
      FinishShaped(u, m2, v0, widest, goodR, |m.out.trials|);
      Guarantees.FinishEnds(u, m2, v0, widest, goodR);
      var ts := Finish(u, m2, v0, widest, goodR).out.trials;
      assert |m2.out.trials| <= |ts| && ts[..|m2.out.trials|] == m2.out.trials ==>
          ts[..|m.out.trials|] == m2.out.trials[..|m.out.trials|];
    }
  }

  /** Every run, stopped or not, has this shape, and one that was not stopped says truthfully
      why it stopped climbing. */
  lemma RunShape(u: Setup, m: Progress, v0: int, widest: int)
    requires Guarantees.Unused(u, m) && v0 > 0 && widest >= 0 && 0 <= u.maxProduct < 0x8000_0000
    ensures var m' := RunSearch(u, m, v0, widest);
            exists a: nat, b: nat ::
              && Shaped(m'.out.trials, v0, u.opts.plateauGain, SplitCandidates(v0, widest), a, b)
              && (Unstopped(m') ==> Explained(u, m', m'.out.trials[..a], 2, v0, None))
  {
    hide Ready, Stopped, Rising, OnlyV, Escalation, Bisection, Finish, Shaped, Explained, Laddered, Halves, Brackets,
         Threshold, Climbed, Told, Begin, SplitCandidates, LargestClean, Bracket, KeptByTrials, Guarantees.Ended;
    var vs, gain := SplitCandidates(v0, widest), u.opts.plateauGain;
    var m0 := Begin(m, u.maxProduct + 1);
    Guarantees.BeginRung(u, m, v0);
    StartsEmpty(u, m);
    EscalationKeeps(u, m0, START.maxRepetitions, v0, 0, 0.0);
    EscalationLadder(u, m0, START.maxRepetitions, v0, 0, 0.0);
    EscalationBrackets(u, m0, START.maxRepetitions, v0, 0, 0.0);
    KeptTold(u);
    EscalationKept(u, s => true, m => Told(u, m), m0, START.maxRepetitions, v0, 0, 0.0);
    var (m1, lastGoodR, firstBadR, stop) := Escalation(u, m0, START.maxRepetitions, v0, 0, 0.0);
    var a := |m1.out.trials|;
    assert m1.out.trials[0..] == m1.out.trials;
    ClimbShaped(u, m1, v0, vs, stop);
    RunTold(u, m, v0, widest);
    var m' := RunSearch(u, m, v0, widest);
    ghost var b := a;
    if stop {
      Guarantees.StoppedIs(u, m1);
    } else if firstBadR == 0 {
      FinishShaped(u, m1, v0, widest, lastGoodR, a);
      Guarantees.FinishEnds(u, m1, v0, widest, lastGoodR);
    } else {
      HalvedShaped(u, m1, v0, widest, lastGoodR, firstBadR);
      b := |Bisection(u, m1, lastGoodR, firstBadR, v0).0.out.trials|;
    }
    assert Shaped(m'.out.trials, v0, gain, vs, a, b);
    if Unstopped(m') { StillExplained(u, m1, m', v0, a); }
    ShapeFits(m'.out.trials, v0, gain, vs, a, b);
  }
}
