/** The shape of a search: what escalation climbs and how it explains its end, that the
    split phase leaves out nothing, and that trials are not blamed for what an agreeing
    agent was never asked (internal/search/search.go:150-216, 349-354). */
module Climb {
  import opened Arithmetic
  import opened Oid
  import opened Agent
  import opened Walk
  import opened Trials
  import opened Machine
  import opened SearchSafety
  import opened SearchRuns
  import opened Workloads
  import opened Agreement
  import opened Reasons
  import Guarantees
  import Inventory
  import Run

  // ---------- Escalation ----------

  /** Escalate trials from R on: each doubles R, and all but the last are clean and gained
      at least the plateau gain over the one before. */
  ghost predicate Rungs(ts: seq<Trial>, R: nat, v0: int, prev: Option<real>, gain: real) {
    ts == [] ||
    var t := ts[0];
    && t.phase == Escalate && t.settings.maxRepetitions == R && t.settings.maxVarsPerPDU == v0
    && (|ts| > 1 ==>
          && t.OK() && (prev.Some? ==> t.score >= prev.value + prev.value * gain)
          && Rungs(ts[1..], 2 * R, v0, Some(t.score), gain))
  }

  /** The setting after these rungs. */
  predicate Upcoming(ts: seq<Trial>, R: nat, v0: int, s: Settings) {
    s.maxVarsPerPDU == v0 && s.maxRepetitions == if ts == [] then R else 2 * ts[|ts| - 1].settings.maxRepetitions
  }

  /** The score of the trial before the last, if there is one. */
  function Previous(ts: seq<Trial>, prev: Option<real>): Option<real> {
    if |ts| > 1 then Some(ts[|ts| - 2].score) else prev
  }

  /** The last trial gained less than the plateau gain over the one before. */
  predicate Flat(ts: seq<Trial>, prev: Option<real>, gain: real)
    requires ts != []
  {
    var before := Previous(ts, prev);
    before.Some? && ts[|ts| - 1].score < before.value + before.value * gain
  }

  /** The note of a finished escalation from R on tells the truth about its last trial. */
  ghost predicate Explained(u: Setup, m: Progress, ts: seq<Trial>, R: nat, v0: int, prev: Option<real>) {
    m.out.note.Some? &&
    match m.out.note.value
    case ExceedsMaxProduct(s) =>
      s.Product() > u.maxProduct && Upcoming(ts, R, v0, s) && (ts != [] ==> ts[|ts| - 1].OK())
    case NotTried(s) =>
      StressSeen(m.trace) && (Upcoming(ts, R, v0, s) || (ts != [] && !ts[|ts| - 1].OK() && ts[|ts| - 1].settings == s))
    case FailedThenBisect(s) => ts != [] && !ts[|ts| - 1].OK() && ts[|ts| - 1].settings == s
    case Plateau(s) =>
      ts != [] && ts[|ts| - 1].OK() && ts[|ts| - 1].settings == s && Flat(ts, prev, u.opts.plateauGain)
    case StressAfter(s) =>
      && ts != [] && ts[|ts| - 1].OK() && ts[|ts| - 1].settings == s && !Flat(ts, prev, u.opts.plateauGain)
      && StressSeen(m.trace)
  }

  ghost predicate Laddered(u: Setup, before: seq<Trial>, R: nat, v0: int, prev: Option<real>, m: Progress, stop: bool) {
    && |before| <= |m.out.trials| && m.out.trials[..|before|] == before
    && var ts := m.out.trials[|before|..];
       Rungs(ts, R, v0, prev, u.opts.plateauGain) && (!stop ==> Explained(u, m, ts, R, v0, prev))
  }

  lemma RungsOn(t: Trial, ts: seq<Trial>, R: nat, v0: int, prev: Option<real>, gain: real)
    requires t.phase == Escalate && t.settings.maxRepetitions == R && t.settings.maxVarsPerPDU == v0 && t.OK()
    requires prev.Some? ==> !Plateaued(t.score, prev.value, gain)
    requires Rungs(ts, 2 * R, v0, Some(t.score), gain)
    ensures Rungs([t] + ts, R, v0, prev, gain)
  {
    assert ([t] + ts)[1..] == ts;
  }

  lemma ExplainedOn(u: Setup, m: Progress, t: Trial, ts: seq<Trial>, R: nat, v0: int, prev: Option<real>)
    requires t.settings.maxRepetitions == R && t.settings.maxVarsPerPDU == v0 && t.OK()
    requires Explained(u, m, ts, 2 * R, v0, Some(t.score))
    ensures Explained(u, m, [t] + ts, R, v0, prev)
  {
    hide StressSeen;
    var all := [t] + ts;
    assert ts != [] ==> all[|all| - 1] == ts[|ts| - 1];
    assert Previous(all, prev) == if ts == [] then prev else Previous(ts, Some(t.score));
  }

  lemma LadderOn(u: Setup, before: seq<Trial>, t: Trial, R: nat, v0: int, prev: Option<real>, m: Progress, stop: bool)
    requires t.phase == Escalate && t.settings.maxRepetitions == R && t.settings.maxVarsPerPDU == v0 && t.OK()
    requires prev.Some? ==> !Plateaued(t.score, prev.value, u.opts.plateauGain)
    requires Laddered(u, before + [t], 2 * R, v0, Some(t.score), m, stop)
    ensures Laddered(u, before, R, v0, prev, m, stop)
  {
    hide Rungs, Explained, Plateaued;
    var n, trials := |before|, m.out.trials;
    assert trials[..n] == trials[..n + 1][..n] == before;
    assert trials[n] == trials[..n + 1][n] == t;
    assert trials[n..] == [t] + trials[n + 1..];
    RungsOn(t, trials[n + 1..], R, v0, prev, u.opts.plateauGain);
    if !stop {
      ExplainedOn(u, m, t, trials[n + 1..], R, v0, prev);
    }
  }

  lemma LadderEnd(u: Setup, before: seq<Trial>, t: Trial, R: nat, v0: int, prev: Option<real>, m: Progress, stop: bool)
    requires t.phase == Escalate && t.settings.maxRepetitions == R && t.settings.maxVarsPerPDU == v0
    requires m.out.trials == before + [t] && (!stop ==> Explained(u, m, [t], R, v0, prev))
    ensures Laddered(u, before, R, v0, prev, m, stop)
  {
    assert m.out.trials[|before|..] == [t];
    assert m.out.trials[..|before|] == before;
  }

  lemma LadderNone(u: Setup, R: nat, v0: int, prev: Option<real>, m: Progress, stop: bool)
    requires !stop ==> Explained(u, m, [], R, v0, prev)
    ensures Laddered(u, m.out.trials, R, v0, prev, m, stop)
  {
    assert m.out.trials[|m.out.trials|..] == [];
    assert m.out.trials[..|m.out.trials|] == m.out.trials;
  }

  lemma MeasuredOne(u: Setup, m: Progress, s: Settings)
    requires Ready(u, m, false) && s.Product() >= 0
    ensures var (m1, t, stop) := Measure(u, m, s, Escalate);
            && (t.Some? ==>
                  m1.out.trials == m.out.trials + [t.value] && t.value.phase == Escalate && t.value.settings == s)
            && (t.None? ==> MaybeFailed(m.out.trials, m1.out.trials, s, Escalate))
  {
    hide Ready, Stopped, Measure;
    MeasureKeeps(u, m, s, Escalate);
    var (m1, t, stop) := Measure(u, m, s, Escalate);
    if t.Some? {
      ScoreMeaning(s, Escalate, t.value.runs);
    }
  }

  lemma RungReady(u: Setup, v0: int, m: Progress, good: nat)
    requires Rung(u, v0, m, good)
    ensures Ready(u, m, false)
  {
  }

  lemma NotKeptLadder(u: Setup, m: Progress, m': Progress, s: Settings, v0: int, prev: Option<real>, stop: bool)
    requires MaybeFailed(m.out.trials, m'.out.trials, s, Escalate) && s.maxVarsPerPDU == v0
    requires !stop ==> StressSeen(m'.trace) && m'.out.note == Some(NotTried(s))
    ensures Laddered(u, m.out.trials, s.maxRepetitions, v0, prev, m', stop)
  {
    if m'.out.trials == m.out.trials {
      LadderNone(u, s.maxRepetitions, v0, prev, m', stop);
    } else {
      var x: Trial :| x.settings == s && x.phase == Escalate && !x.OK() && m'.out.trials == m.out.trials + [x];
      LadderEnd(u, m.out.trials, x, s.maxRepetitions, v0, prev, m', stop);
    }
  }

  lemma LadderStops(u: Setup, before: seq<Trial>, m1: Progress, t: Trial, reps: nat, v0: int, flat: bool,
                    prev: Option<real>, m': Progress)
    requires t.phase == Escalate && t.settings.maxRepetitions == reps && t.settings.maxVarsPerPDU == v0
    requires m1.out.trials == before + [t] && (!t.OK() || flat || StressSeen(m1.trace))
    requires flat <==> prev.Some? && Plateaued(t.score, prev.value, u.opts.plateauGain)
    requires m' == Noted(m1, if !t.OK() then FailedThenBisect(t.settings)
                             else if flat then Plateau(t.settings)
                             else StressAfter(t.settings))
    ensures Laddered(u, before, reps, v0, prev, m', false)
  {
    LadderEnd(u, before, t, reps, v0, prev, m', false);
  }

  lemma UnstoppedTold(u: Setup, m: Progress, s: Settings)
    requires Ready(u, m, false) && Told(u, m)
    ensures var m1 := Measure(u, m, s, Escalate).0; Told(u, m1) && (m1.out.stressed <==> StressSeen(m1.trace))
  {
    hide Measure, Going, StressSeen;
    MeasureTold(u, m, s, Escalate);
  }

  /** Escalation doubles R from trial to trial, goes on only after a clean trial that
      gained enough, and says truthfully why it ended. */
  lemma {:induction false} EscalationLadder(u: Setup, m: Progress, reps: Uint32, v0: int, good: Uint32, prevScore: real)
    requires Rung(u, v0, m, good) && reps > 0 && v0 > 0 && 0 <= u.maxProduct < 0x8000_0000
    requires good < reps && good * v0 <= u.maxProduct && Told(u, m)
    ensures var (m', lg, fb, stop) := Escalation(u, m, reps, v0, good, prevScore);
            Laddered(u, m.out.trials, reps, v0, if good > 0 then Some(prevScore) else None, m', stop)
    decreases u.maxProduct + 1 - reps * v0
  {
    hide Ready, Stopped, Measure, Rising, Threshold, Climbed, OnlyV, Rung, Bracket, MaybeFailed, Laddered,
         Explained, Rungs, Plateaued, Told;
    var s := Settings(reps, v0);
    var prev := if good > 0 then Some(prevScore) else None;
    var (m', lg, fb, ended) := Escalation(u, m, reps, v0, good, prevScore);
    MulStrict(0, reps, v0);
    if s.Product() > u.maxProduct {
      LadderNone(u, reps, v0, prev, m', false);
    } else {
      RungReady(u, v0, m, good);
      MeasuredOne(u, m, s);
      RungStep(u, m, reps, v0, good);
      UnstoppedTold(u, m, s);
      var (m1, t, stop) := Measure(u, m, s, Escalate);
      if t.None? {
        NotKeptLadder(u, m, m', s, v0, prev, stop);
      } else if t.value.OK() && !(good > 0 && Plateaued(t.value.score, prevScore, u.opts.plateauGain))
          && !m1.out.stressed {
        DoublingFits(reps, v0, u.maxProduct);
        EscalationLadder(u, m1, reps * 2, v0, reps, t.value.score);
        LadderOn(u, m.out.trials, t.value, reps, v0, prev, m', ended);
      } else {
        var flat := good > 0 && Plateaued(t.value.score, prevScore, u.opts.plateauGain);
        LadderStops(u, m.out.trials, m1, t.value, reps, v0, flat, prev, m');
      }
    }
  }

  // ---------- Bisection ----------

  /** Bisect trials between a clean and a failed R: each halves a gap that is still more
      than one and more than a tenth of the clean R, and its verdict closes one side. */
  ghost predicate Halves(ts: seq<Trial>, good: nat, bad: nat, v0: int) {
    ts == [] ||
    var t, mid := ts[0], (good + bad) / 2;
    && bad - good > 1 && bad - good > good / 10
    && t.phase == Bisect && t.settings.maxRepetitions == mid && t.settings.maxVarsPerPDU == v0
    && Halves(ts[1..], if t.OK() then mid else good, if t.OK() then bad else mid, v0)
  }

  lemma HalvesOn(before: seq<Trial>, t: Trial, after: seq<Trial>, good: nat, bad: nat, v0: int)
    requires |before| < |after| && after[..|before| + 1] == before + [t]
    requires bad - good > 1 && bad - good > good / 10
    requires t.phase == Bisect && t.settings.maxRepetitions == (good + bad) / 2 && t.settings.maxVarsPerPDU == v0
    requires var mid := (good + bad) / 2;
             Halves(after[|before| + 1..], if t.OK() then mid else good, if t.OK() then bad else mid, v0)
    ensures after[..|before|] == before && Halves(after[|before|..], good, bad, v0)
  {
    var n := |before|;
    assert after[..n] == after[..n + 1][..n];
    assert after[n] == after[..n + 1][n] == t;
    assert after[n..][1..] == after[n + 1..];
  }

  lemma HalvesEnd(before: seq<Trial>, after: seq<Trial>, good: nat, bad: nat, mid: Uint32, v0: int)
    requires MaybeFailed(before, after, Settings(mid, v0), Bisect) && mid == (good + bad) / 2
    requires bad - good > 1 && bad - good > good / 10
    ensures |before| <= |after| && after[..|before|] == before && Halves(after[|before|..], good, bad, v0)
  {
    if after == before {
      assert after[..|before|] == before && after[|before|..] == [];
    } else {
      var t: Trial :| t.settings == Settings(mid, v0) && t.phase == Bisect && after == before + [t];
      assert after[..|before| + 1] == after && after[|before| + 1..] == [];
      HalvesOn(before, t, after, good, bad, v0);
    }
  }

  lemma HalfTried(u: Setup, m: Progress, good: Uint32, bad: Uint32, mid: Uint32, v0: int)
    requires Bracket(u, v0, m, good, bad) && v0 > 0 && good < mid < bad
    ensures var (m1, t, stop) := Measure(u, m, Settings(mid, v0), Bisect);
            && (t.Some? ==>
                  && m1.out.trials == m.out.trials + [t.value] && t.value.phase == Bisect
                  && t.value.settings == Settings(mid, v0))
            && (t.None? ==> MaybeFailed(m.out.trials, m1.out.trials, Settings(mid, v0), Bisect))
  {
    hide Ready, Stopped, Measure, Rising, Threshold, Climbed;
    MulStrict(0, mid, v0);
    MeasureKeeps(u, m, Settings(mid, v0), Bisect);
    var (m1, t, stop) := Measure(u, m, Settings(mid, v0), Bisect);
    if t.Some? {
      ScoreMeaning(Settings(mid, v0), Bisect, t.value.runs);
    }
  }

  lemma NoHalves(trials: seq<Trial>, good: nat, bad: nat, v0: int)
    ensures trials[..|trials|] == trials && Halves(trials[|trials|..], good, bad, v0)
  {
    assert trials[|trials|..] == [];
  }

  /** Bisection tries midpoints of such gaps and nothing else: it stops once the gap is one
      or a tenth. */
  lemma {:induction false} BisectionHalves(u: Setup, m: Progress, good: Uint32, bad: Uint32, v0: int)
    requires Bracket(u, v0, m, good, bad) && v0 > 0 && good < bad < 0x8000_0000
    ensures var (m', lg, fb, stop) := Bisection(u, m, good, bad, v0);
            var n := |m.out.trials|;
            n <= |m'.out.trials| && m'.out.trials[..n] == m.out.trials && Halves(m'.out.trials[n..], good, bad, v0)
    decreases bad - good
  {
    hide Measure, Bracket, Halves, MaybeFailed, Threshold;
    var n := |m.out.trials|;
    if bad - good > Max(1, good / 10) {
      var mid: Uint32 := (good + bad) / 2;
      MidStep(u, m, good, bad, mid, v0);
      HalfTried(u, m, good, bad, mid, v0);
      var (m1, t, stop) := Measure(u, m, Settings(mid, v0), Bisect);
      if t.None? {
        HalvesEnd(m.out.trials, m1.out.trials, good, bad, mid, v0);
      } else {
        var g, b := if t.value.OK() then mid else good, if t.value.OK() then bad else mid;
        BisectionHalves(u, m1, g, b, v0);
        HalvesOn(m.out.trials, t.value, Bisection(u, m1, g, b, v0).0.out.trials, good, bad, v0);
      }
    } else {
      NoHalves(m.out.trials, good, bad, v0);
    }
  }

  // ---------- Nothing is left out without a reason ----------

  /** Why the ceiling is where it is: the limit, a failed product, or stress and what was
      clean by then. */
  ghost predicate Justified(u: Setup, m: Progress) {
    || m.ceiling == u.maxProduct + 1
    || (exists i :: 0 <= i < |m.out.trials| && !m.out.trials[i].OK() && m.out.trials[i].Product() == m.ceiling)
    || (m.out.stressed &&
        exists k :: 0 <= k <= |m.out.trials| && m.ceiling == Max(LargestClean(m.out.trials[..k]), u.startProduct) + 1)
  }

  lemma JustifiedOn(u: Setup, m: Progress, m': Progress)
    requires Justified(u, m) && m.lastGood == LargestClean(m.out.trials) && (m.out.stressed ==> m'.out.stressed)
    requires |m.out.trials| <= |m'.out.trials| && m'.out.trials[..|m.out.trials|] == m.out.trials
    requires Capped(u, m, m')
    ensures Justified(u, m')
  {
    var n := |m.out.trials|;
    assert forall i :: 0 <= i < n ==> m'.out.trials[i] == m'.out.trials[..n][i] == m.out.trials[i];
    assert forall k :: 0 <= k <= n ==> m'.out.trials[..k] == m.out.trials[..k];
    assert m.out.trials[..n] == m.out.trials;
  }

  /** A setting was begun, or is not below the ceiling. */
  predicate Begun(m: Progress, s: Settings) {
    s in m.measured || s.Product() >= m.ceiling
  }

  lemma TrialsGrow(m: Progress, m1: Progress, s: Settings, phase: Phase, t: Option<Trial>)
    requires t.Some? ==> m1.out.trials == m.out.trials + [t.value]
    requires t.None? ==> m1 == m || MaybeFailed(m.out.trials, m1.out.trials, s, phase)
    ensures |m.out.trials| <= |m1.out.trials| && m1.out.trials[..|m.out.trials|] == m.out.trials
  {
  }

  lemma FailedJustifies(u: Setup, m: Progress, i: nat)
    requires i < |m.out.trials| && !m.out.trials[i].OK() && m.out.trials[i].Product() == m.ceiling
    ensures Justified(u, m)
  {
  }

  lemma JustifiedStep(u: Setup, m: Progress, s: Settings, phase: Phase)
    requires Ready(u, m, false) && phase != Try && s.Product() >= 0 && Justified(u, m)
    ensures var (m1, t, stop) := Measure(u, m, s, phase);
            && m.measured <= m1.measured && m1.ceiling <= m.ceiling
            && (!stop ==> Ready(u, m1, false) && Justified(u, m1) && Begun(m1, s))
  {
    hide Ready, Stopped, Measure, Justified, MaybeFailed;
    MeasureKeeps(u, m, s, phase);
    var (m1, t, stop) := Measure(u, m, s, phase);
    if !stop {
      LastGoodIs(u, m);
      TrialsGrow(m, m1, s, phase, t);
      if Capped(u, m, m1) {
        JustifiedOn(u, m, m1);
      } else {
        ScoreMeaning(s, phase, t.value.runs);
        assert m1.out.trials[|m.out.trials|] == t.value;
        FailedJustifies(u, m1, |m.out.trials|);
      }
    }
  }

  lemma NotedJustified(u: Setup, m: Progress)
    requires Justified(u, m)
    ensures forall note :: Justified(u, Noted(m, note))
  {
  }

  lemma {:induction false} EscalationJustified(u: Setup, m: Progress, reps: Uint32, v0: int, good: Uint32,
                                               prevScore: real)
    requires Ready(u, m, false) && Justified(u, m) && reps > 0 && v0 > 0 && 0 <= u.maxProduct < 0x8000_0000
    requires good < reps && good * v0 <= u.maxProduct
    ensures var (m', lg, fb, stop) := Escalation(u, m, reps, v0, good, prevScore); !stop ==> Justified(u, m')
    decreases u.maxProduct + 1 - reps * v0
  {
    hide Ready, Measure, Justified, Begun, Plateaued;
    MulStrict(0, reps, v0);
    NotedJustified(u, m);
    if reps * v0 <= u.maxProduct {
      JustifiedStep(u, m, Settings(reps, v0), Escalate);
      var (m1, t, stop) := Measure(u, m, Settings(reps, v0), Escalate);
      if !stop {
        NotedJustified(u, m1);
        if t.Some? && t.value.OK() && !m1.out.stressed
            && !(good > 0 && Plateaued(t.value.score, prevScore, u.opts.plateauGain)) {
          DoublingFits(reps, v0, u.maxProduct);
          EscalationJustified(u, m1, reps * 2, v0, reps, t.value.score);
        }
      }
    }
  }

  lemma {:induction false} BisectionJustified(u: Setup, m: Progress, good: Uint32, bad: Uint32, v0: int)
    requires Ready(u, m, false) && Justified(u, m) && v0 > 0 && good < bad < 0x8000_0000
    ensures var (m', lg, fb, stop) := Bisection(u, m, good, bad, v0); !stop ==> Justified(u, m')
    decreases bad - good
  {
    hide Ready, Measure, Justified, Begun;
    if bad - good > Max(1, good / 10) {
      var mid: Uint32 := (good + bad) / 2;
      MulStrict(0, mid, v0);
      JustifiedStep(u, m, Settings(mid, v0), Bisect);
      var (m1, t, stop) := Measure(u, m, Settings(mid, v0), Bisect);
      if !stop && t.Some? {
        if t.value.OK() {
          BisectionJustified(u, m1, mid, bad, v0);
        } else {
          BisectionJustified(u, m1, good, mid, v0);
        }
      }
    }
  }

  /** Every possible candidate was begun, or is not below the ceiling. */
  ghost predicate SplitsTried(m: Progress, product: nat, vs: seq<int>) {
    forall k :: 0 <= k < |vs| && vs[k] > 0 && product / vs[k] >= 1 && product / vs[k] <= 0xFFFF_FFFF ==>
      Begun(m, Settings(product / vs[k], vs[k]))
  }

  lemma NoneLeft(m: Progress, product: nat)
    ensures SplitsTried(m, product, [])
  {
  }

  lemma TriedMore(m: Progress, product: nat, vs: seq<int>)
    requires vs != [] && SplitsTried(m, product, vs[1..])
    requires vs[0] > 0 && 1 <= product / vs[0] <= 0xFFFF_FFFF ==> Begun(m, Settings(product / vs[0], vs[0]))
    ensures SplitsTried(m, product, vs)
  {
    assert forall k :: 0 < k < |vs| ==> vs[k] == vs[1..][k - 1];
  }

  lemma {:induction false} SplittingTries(u: Setup, m: Progress, product: nat, vs: seq<int>)
    requires Ready(u, m, false) && Justified(u, m) && product <= 0xFFFF_FFFF && forall k :: 0 <= k < |vs| ==> vs[k] > 0
    ensures var (m', stop) := Splitting(u, m, product, vs);
            && m.measured <= m'.measured && m'.ceiling <= m.ceiling
            && (!stop ==> Ready(u, m', false) && Justified(u, m') && SplitsTried(m', product, vs))
    decreases |vs|
  {
    hide Ready, Measure, Justified, SplitsTried;
    if vs == [] {
      NoneLeft(m, product);
    } else if product / vs[0] < 1 {
      SplittingTries(u, m, product, vs[1..]);
      var (m', stop) := Splitting(u, m, product, vs[1..]);
      if !stop {
        TriedMore(m', product, vs);
      }
    } else {
      QuotientFits(product, vs[0]);
      JustifiedStep(u, m, Settings(product / vs[0], vs[0]), Split);
      var (m1, t, stop) := Measure(u, m, Settings(product / vs[0], vs[0]), Split);
      if !stop {
        SplittingTries(u, m1, product, vs[1..]);
        var (m', stop2) := Splitting(u, m1, product, vs[1..]);
        if !stop2 {
          TriedMore(m', product, vs);
        }
      }
    }
  }

  lemma SplitStopped(u: Setup, m: Progress, m1: Progress, product: nat)
    requires SplitUp(u, m, product, m1, true)
    ensures !Unstopped(m1)
  {
  }

  lemma FinalProbeLeaves(u: Setup, m: Progress)
    ensures var m' := FinalProbe(u, m); m'.ceiling == m.ceiling && m'.measured == m.measured
  {
  }

  lemma SameJustified(u: Setup, m: Progress, m': Progress, product: nat, vs: seq<int>)
    requires m'.out == m.out && m'.ceiling == m.ceiling && m'.measured == m.measured
    ensures Justified(u, m) ==> Justified(u, m')
    ensures SplitsTried(m, product, vs) ==> SplitsTried(m', product, vs)
  {
  }

  lemma ProbedJustified(u: Setup, m: Progress, product: nat, vs: seq<int>)
    requires Ready(u, m, false) && Justified(u, m)
    ensures var m' := FinalProbe(u, m);
            Unstopped(m') ==> Justified(u, m') && (SplitsTried(m, product, vs) ==> SplitsTried(m', product, vs))
  {
    hide Ready, Justified, SplitsTried, FinalProbe, Guarantees.Sound, Guarantees.Amended;
    Guarantees.FinalProbeKeeps(u, m, false);
    FinalProbeLeaves(u, m);
    if Unstopped(FinalProbe(u, m)) {
      SameJustified(u, m, FinalProbe(u, m), product, vs);
    }
  }

  lemma FinishTries(u: Setup, m: Progress, v0: int, widest: int, goodR: Uint32)
    requires Ready(u, m, false) && Rising(m.out.trials) && OnlyV(m, v0) && m.lastGood == goodR * v0 && Justified(u, m)
    requires v0 > 0 && widest >= 0 && goodR * v0 <= u.maxProduct < 0x8000_0000
    ensures var m' := Finish(u, m, v0, widest, goodR);
            Unstopped(m') ==>
              Justified(u, m') && LargestClean(m'.out.trials) == goodR * v0 >= 0
              && (goodR > 0 ==> SplitsTried(m', goodR * v0, SplitCandidates(v0, widest)))
  {
    hide Ready, Stopped, Rising, OnlyV, FinalProbe, Splitting, Justified, SplitsTried, SplitCandidates,
        Guarantees.Ended,
         Guarantees.Sound, Guarantees.Amended, LargestClean;
    MulSign(goodR, v0);
    Guarantees.FinishEnds(u, m, v0, widest, goodR);
    if goodR == 0 {
      ProbedJustified(u, m, 0, []);
    } else {
      CandidatesPositive(v0, widest);
      SplittingTries(u, m, goodR * v0, SplitCandidates(v0, widest));
      var (m1, stop) := Splitting(u, m, goodR * v0, SplitCandidates(v0, widest));
      if stop {
        Guarantees.CandidatesUntried(m, v0, widest);
        SplittingKeeps(u, m, goodR * v0, SplitCandidates(v0, widest));
        SplitStopped(u, m, m1, goodR * v0);
      } else {
        ProbedJustified(u, m1, goodR * v0, SplitCandidates(v0, widest));
      }
    }
  }

  lemma BeginJustified(u: Setup, m: Progress)
    ensures Justified(u, Begin(m, u.maxProduct + 1))
  {
  }

  /** In a search that nothing stopped, the ceiling is the limit, a failed product, or due to
      stress; and every candidate split of the largest clean product was begun, or is not
      below that ceiling. */
  lemma RunTriesAll(u: Setup, m: Progress, v0: int, widest: int)
    requires Guarantees.Unused(u, m) && v0 > 0 && widest >= 0 && 0 <= u.maxProduct < 0x8000_0000
    ensures var m' := RunSearch(u, m, v0, widest);
            Unstopped(m') ==>
              && Justified(u, m') && LargestClean(m'.out.trials) >= 0
              && (LargestClean(m'.out.trials) > 0 ==>
                    SplitsTried(m', LargestClean(m'.out.trials), SplitCandidates(v0, widest)))
  {
    hide Ready, Stopped, Rising, OnlyV, Escalation, Bisection, Finish, Justified, SplitsTried, SplitCandidates,
        Threshold,
         Climbed, Lasting, LargestClean;
    Guarantees.BeginRung(u, m, v0);
    var m0 := Begin(m, u.maxProduct + 1);
    BeginJustified(u, m);
    EscalationKeeps(u, m0, START.maxRepetitions, v0, 0, 0.0);
    EscalationJustified(u, m0, START.maxRepetitions, v0, 0, 0.0);
    var (m1, lastGoodR, firstBadR, stop) := Escalation(u, m0, START.maxRepetitions, v0, 0, 0.0);
    if stop {
      Guarantees.StoppedIs(u, m1);
    } else if firstBadR == 0 {
      FinishTries(u, m1, v0, widest, lastGoodR);
    } else {
      BisectionKeeps(u, m1, lastGoodR, firstBadR, v0);
      BisectionJustified(u, m1, lastGoodR, firstBadR, v0);
      var (m2, goodR, badR, stop2) := Bisection(u, m1, lastGoodR, firstBadR, v0);
      if stop2 {
        Guarantees.StoppedIs(u, m2);
      } else {
        MulMonotone(goodR, firstBadR, v0);
        FinishTries(u, m2, v0, widest, goodR);
      }
    }
  }

  // ---------- The check against the reference ----------

  lemma MissingNothing(u: Setup, res: Result)
    requires CountMissing(u.refOIDs, res.oids) == 0 && u.opts.tolerance >= 0.0
    ensures Checked(u, res) == res
  {
  }

  /** On an agent within the scope of Agreement, no run of any setting is failed for
      missing OIDs, however small the tolerance. */
  lemma AgreeingRunPasses(u: Setup, next: Successor, stored: set<Arcs>, inv: Inventory.Inventory, w: Workload,
                          tr: Transport, s: Settings, len: nat)
    requires SaneSuccessor(next, len) && Misordering(next, stored) && Inferred(next, inv, w, len)
    requires SaneAgent(tr, len) && Memoryless(tr, next, len) && Run.Valid(s)
    requires u.refOIDs == GroundTruth(inv.subtrees, w) && u.opts.tolerance >= 0.0
    ensures Run.SaneWorkload(w, len)
    ensures var res := Run.RunWalk(tr, w, s, len).0; Checked(u, res) == res
  {
    hide Misordering, Inferred, Memoryless, SaneAgent, CountMissing, GroundTruth, Checked;
    TrialMissesNothing(next, stored, inv, w, tr, s, len);
    MissingNothing(u, Run.RunWalk(tr, w, s, len).0);
  }
}
