/** What holds of every whole search: ceilings, order, budgets, bisection. */
module SearchRuns {
  import opened Arithmetic
  import opened Agent
  import opened Walk
  import opened Trials
  import opened Machine
  import opened SearchSafety

  predicate Climbing(phase: Phase) { phase == Escalate || phase == Bisect }

  /** A trial of the escalate or bisect phase is above everything clean before it. */
  ghost predicate Rising(trials: seq<Trial>) {
    forall i, j :: 0 <= i < j < |trials| && trials[i].OK() && Climbing(trials[j].phase) ==>
      trials[i].Product() < trials[j].Product()
  }

  ghost predicate AllClimbing(trials: seq<Trial>) {
    forall i :: 0 <= i < |trials| ==> Climbing(trials[i].phase)
  }

  /** While climbing at V = v0: everything measured has R at most good or at least top, and
      what is clean has R at most good. */
  ghost predicate Climbed(m: Progress, v0: int, good: nat, top: nat) {
    && Rising(m.out.trials) && AllClimbing(m.out.trials) && good < top
    && (forall s :: s in m.measured ==> s.maxVarsPerPDU == v0 && (s.maxRepetitions <= good || s.maxRepetitions >= top))
    && (forall i :: 0 <= i < |m.out.trials| ==>
          m.out.trials[i].settings in m.measured && (m.out.trials[i].OK() ==> m.out.trials[i].Product() <= good * v0))
    && m.lastGood == good * v0
  }

  lemma {:induction false} LargestCleanIs(trials: seq<Trial>)
    ensures LargestClean(trials) >= 0
    ensures forall i :: 0 <= i < |trials| && trials[i].OK() ==> trials[i].Product() <= LargestClean(trials)
    ensures LargestClean(trials) > 0 ==>
              exists i :: 0 <= i < |trials| && trials[i].OK() && trials[i].Product() == LargestClean(trials)
  {
    if trials != [] {
      var n := |trials| - 1;
      LargestCleanIs(trials[..n]);
      if LargestClean(trials[..n]) == LargestClean(trials) > 0 {
        var i :| 0 <= i < n && trials[..n][i].OK() && trials[..n][i].Product() == LargestClean(trials);
        assert trials[i] == trials[..n][i];
      }
    }
  }

  /** Recording a trial above everything clean keeps the order. */
  lemma RisingSnoc(trials: seq<Trial>, t: Trial)
    requires Rising(trials)
    requires Climbing(t.phase) ==> forall i :: 0 <= i < |trials| && trials[i].OK() ==> trials[i].Product() < t.Product()
    ensures Rising(trials + [t])
  {
  }

  /** The threshold of an agent that at V = v0 sustains exactly the products below K. */
  ghost predicate Threshold(u: Setup, v0: int, K: int) {
    forall s: Settings, res: Result :: s.maxVarsPerPDU == v0 && Produced(u, s, res) ==>
        (res.failure == [] <==> s.Product() < K)
  }

  lemma ThresholdDecides(u: Setup, v0: int, K: int, s: Settings, phase: Phase, runs: seq<Result>)
    requires Threshold(u, v0, K) && s.maxVarsPerPDU == v0 && runs != [] && forall k :: 0 <= k < |runs| ==>
        Produced(u, s, runs[k])
    ensures ScoreOf(s, phase, runs).OK() <==> s.Product() < K
  {
    ScoreMeaning(s, phase, runs);
    assert Produced(u, s, runs[0]);
  }

  lemma AllClimbingSnoc(trials: seq<Trial>, t: Trial)
    requires AllClimbing(trials) && Climbing(t.phase)
    ensures AllClimbing(trials + [t])
  {
  }

  /** One more recorded trial of R between good and top. */
  lemma ClimbedSnoc(m: Progress, m': Progress, t: Trial, R: Uint32, v0: int, good: nat, top: nat)
    requires Climbed(m, v0, good, top) && good < R < top && v0 > 0
    requires t.settings == Settings(R, v0) && Climbing(t.phase) && m'.out.trials == m.out.trials + [t]
    requires m.measured <= m'.measured <= m.measured + {t.settings}
    requires t.OK() ==> t.settings in m'.measured
    requires m.lastGood == LargestClean(m.out.trials) && m'.lastGood == LargestClean(m'.out.trials)
    ensures Rising(m'.out.trials)
    ensures t.settings in m'.measured && t.OK() ==> Climbed(m', v0, R, top)
    ensures t.settings in m'.measured && !t.OK() ==> Climbed(m', v0, good, R)
    ensures !t.OK() ==> m'.lastGood == good * v0
  {
    hide Rising, AllClimbing, LargestClean;
    MulStrict(good, R, v0);
    MulStrict(0, R, v0);
    RisingSnoc(m.out.trials, t);
    AllClimbingSnoc(m.out.trials, t);
    LargestCleanSnoc(m.out.trials, t);
  }

  ghost predicate OnlyV(m: Progress, v0: int) {
    AllClimbing(m.out.trials) && forall s :: s in m.measured ==> s.maxVarsPerPDU == v0
  }

  /** A climbing trial that was recorded with a score, or not. */
  ghost predicate ClimbedOn(u: Setup, m: Progress, R: Uint32, v0: int, good: nat, top: nat, m': Progress,
                            t: Option<Trial>, stop: bool)
  {
    && Rising(m'.out.trials) && |m.out.trials| <= |m'.out.trials| <= |m.out.trials| + 1 && OnlyV(m', v0)
    && (t.Some? ==> Climbed(m', v0, if t.value.OK() then R else good, if t.value.OK() then top else R))
    && (t.None? && !stop ==> m'.lastGood == good * v0)
    && (forall K :: Threshold(u, v0, K) && t.Some? ==> (t.value.OK() <==> R * v0 < K))
  }

  lemma ClimbedOnly(m: Progress, v0: int, good: nat, top: nat)
    requires Climbed(m, v0, good, top)
    ensures Rising(m.out.trials) && OnlyV(m, v0) && m.lastGood == good * v0
  {
  }

  lemma NotMeasured(m: Progress, R: Uint32, v0: int, good: nat, top: nat)
    requires Climbed(m, v0, good, top) && good < R < top
    ensures Settings(R, v0) !in m.measured && Rising(m.out.trials) && OnlyV(m, v0) && m.lastGood == good * v0
  {
  }

  lemma LastGoodIs(u: Setup, m: Progress)
    requires Ready(u, m, false)
    ensures m.lastGood == LargestClean(m.out.trials)
  {
  }

  /** A climbing trial that was skipped, cut or broken off leaves at most a failed one. */
  lemma NotKept(u: Setup, m: Progress, m': Progress, s: Settings, phase: Phase, v0: int, good: nat, top: nat,
                stop: bool)
    requires Climbed(m, v0, good, top) && m.lastGood == LargestClean(m.out.trials) && v0 > 0 && Climbing(phase)
    requires s.maxVarsPerPDU == v0 && good < s.maxRepetitions < top
    requires m'.out.trials == m.out.trials || MaybeFailed(m.out.trials, m'.out.trials, s, phase)
    requires m'.measured <= m.measured + {s} && (!stop ==> Ready(u, m', false))
    ensures Rising(m'.out.trials) && |m.out.trials| <= |m'.out.trials| <= |m.out.trials| + 1 && OnlyV(m', v0)
    ensures !stop ==> m'.lastGood == good * v0
  {
    hide Ready, Rising, AllClimbing, LargestClean;
    MulStrict(good, s.maxRepetitions, v0);
    if !stop {
      LastGoodIs(u, m');
    }
    if m'.out.trials != m.out.trials {
      var x: Trial :| x.settings == s && x.phase == phase && !x.OK() && m'.out.trials == m.out.trials + [x];
      RisingSnoc(m.out.trials, x);
      AllClimbingSnoc(m.out.trials, x);
      LargestCleanSnoc(m.out.trials, x);
    }
  }

  lemma ClimbStep(u: Setup, m: Progress, R: Uint32, v0: int, good: nat, top: nat, phase: Phase)
    requires Ready(u, m, false) && Climbed(m, v0, good, top) && good < R < top && v0 > 0 && Climbing(phase)
    ensures Settings(R, v0) !in m.measured && R * v0 > good * v0
    ensures var (m', t, stop) := Measure(u, m, Settings(R, v0), phase);
            ClimbedOn(u, m, R, v0, good, top, m', t, stop) && Tried(u, m, Settings(R, v0), phase, m', t, stop)
  {
    hide Ready, Stopped, Measure, Rising, Climbed, OnlyV, AllClean, LargestClean, Threshold;
    var s := Settings(R, v0);
    MulStrict(good, R, v0);
    MulStrict(0, R, v0);
    NotMeasured(m, R, v0, good, top);
    MeasureKeeps(u, m, s, phase);
    var (m', t, stop) := Measure(u, m, s, phase);
    LastGoodIs(u, m);
    if t.Some? {
      ScoreMeaning(s, phase, t.value.runs);
      LastGoodIs(u, m');
      ClimbedSnoc(m, m', t.value, R, v0, good, top);
      ClimbedOnly(m', v0, if t.value.OK() then R else good, if t.value.OK() then top else R);
      forall K | Threshold(u, v0, K) ensures t.value.OK() <==> R * v0 < K {
        ThresholdDecides(u, v0, K, s, phase, t.value.runs);
      }
    } else {
      NotKept(u, m, m', s, phase, v0, good, top, stop);
    }
  }

  // ---------- Escalation ----------

  const UNBOUNDED := 0x1_0000_0000

  lemma NotedKeeps(u: Setup, m: Progress, note: Note, pre: bool)
    requires Ready(u, m, pre)
    ensures Ready(u, Noted(m, note), pre)
  {
    hide Going;
    assert CoreOf(Noted(m, note)) == CoreOf(m);
  }

  /** Where bisection may go on from: a clean and a failed R around the threshold. */
  ghost predicate Bracket(u: Setup, v0: int, m: Progress, good: nat, bad: nat) {
    && Ready(u, m, false) && Climbed(m, v0, good, bad)
    && (!m.out.stressed ==> m.ceiling == bad * v0)
    && (forall K :: K > 0 && Threshold(u, v0, K) ==> good * v0 < K <= bad * v0)
  }

  /** How escalation ends: with everything clean at most good, and, if it ended in a
      failure, in a bracket. */
  ghost predicate Escalated(u: Setup, v0: int, m: Progress, good: nat, bad: nat, stop: bool) {
    && Rising(m.out.trials) && OnlyV(m, v0)
    && (stop ==> Stopped(u, m, false))
    && (!stop ==> Ready(u, m, false) && m.lastGood == good * v0)
    && (!stop && bad > 0 ==> Bracket(u, v0, m, good, bad) && m.out.trials != [])
    && (!stop ==> m.out.note.Some? && (m.out.note.value.FailedThenBisect? <==> bad > 0))
  }

  /** Where escalation may go on from: nothing failed or stressed so far. */
  ghost predicate Rung(u: Setup, v0: int, m: Progress, good: nat) {
    && Ready(u, m, false) && Climbed(m, v0, good, UNBOUNDED)
    && !m.out.stressed && m.ceiling == u.maxProduct + 1
    && (forall K :: K > 0 && Threshold(u, v0, K) ==> good * v0 < K)
  }

  lemma TriedPlain(u: Setup, m: Progress, s: Settings, phase: Phase, m1: Progress, t: Option<Trial>, stop: bool)
    requires Tried(u, m, s, phase, m1, t, stop) && phase != Try
    ensures m1.out.note == m.out.note && (if stop then Stopped(u, m1, false) && t.None? else Ready(u, m1, false))
    ensures t.Some? ==> m1.out.trials == m.out.trials + [t.value]
    ensures t.Some? && !m1.out.stressed ==> m1.ceiling == if t.value.OK() then m.ceiling else s.Product()
    ensures t.None? && !stop ==> s.Product() >= m.ceiling || s in m.measured || m1.out.stressed
  {
    hide Ready, Stopped, MaybeFailed, Capped;
  }

  lemma RungStep(u: Setup, m: Progress, reps: Uint32, v0: int, good: Uint32)
    requires Rung(u, v0, m, good) && good < reps && v0 > 0 && reps * v0 <= u.maxProduct
    ensures var (m1, t, stop) := Measure(u, m, Settings(reps, v0), Escalate);
            && Rising(m1.out.trials) && m1.out.note == m.out.note && OnlyV(m1, v0)
            && (stop ==> Stopped(u, m1, false) && t.None?)
            && (!stop ==> Ready(u, m1, false))
            && (t.Some? ==> m1.out.trials != [])
            && (t.None? && !stop ==> m1.lastGood == good * v0 && m1.out.stressed)
            && (t.Some? && t.value.OK() ==> m1.lastGood == reps * v0 && (!m1.out.stressed ==> Rung(u, v0, m1, reps)))
            && (t.Some? && !t.value.OK() ==> Bracket(u, v0, m1, good, reps) && m1.lastGood == good * v0)
  {
    hide Ready, Stopped, Measure, Rising, Threshold, MaybeFailed, LargestClean, AllClimbing, Tried;
    ClimbStep(u, m, reps, v0, good, UNBOUNDED, Escalate);
    var (m1, t, stop) := Measure(u, m, Settings(reps, v0), Escalate);
    TriedPlain(u, m, Settings(reps, v0), Escalate, m1, t, stop);
  }

  lemma NotedClimbed(m: Progress, v0: int)
    ensures forall note, good: nat, top: nat :: Climbed(m, v0, good, top) ==> Climbed(Noted(m, note), v0, good, top)
    ensures forall note :: OnlyV(m, v0) ==> OnlyV(Noted(m, note), v0)
  {
  }

  lemma {:induction false} EscalationKeeps(u: Setup, m: Progress, reps: Uint32, v0: int, good: Uint32, prevScore: real)
    requires Rung(u, v0, m, good) && reps > 0 && v0 > 0 && 0 <= u.maxProduct < 0x8000_0000
    requires good < reps && good * v0 <= u.maxProduct
    ensures var (m', lg, fb, stop) := Escalation(u, m, reps, v0, good, prevScore); Escalated(u, v0, m', lg, fb, stop)
    decreases u.maxProduct + 1 - reps * v0
  {
    hide Ready, Stopped, Measure, Rising, Threshold, Climbed, OnlyV;
    var s := Settings(reps, v0);
    if s.Product() <= u.maxProduct {
      RungStep(u, m, reps, v0, good);
      var (m1, t, stop) := Measure(u, m, s, Escalate);
      if !stop {
        if t.Some? && t.value.OK() && !m1.out.stressed
            && !(good > 0 && Plateaued(t.value.score, prevScore, u.opts.plateauGain)) {
          DoublingFits(reps, v0, u.maxProduct);
          EscalationKeeps(u, m1, reps * 2, v0, reps, t.value.score);
        } else {
          NotedKeeps(u, m1, NotTried(s), false);
          NotedKeeps(u, m1, FailedThenBisect(s), false);
          NotedKeeps(u, m1, Plateau(s), false);
          NotedKeeps(u, m1, StressAfter(s), false);
          NotedClimbed(m1, v0);
        }
      }
    } else {
      NotMeasured(m, reps, v0, good, UNBOUNDED);
      NotedKeeps(u, m, ExceedsMaxProduct(s), false);
      NotedClimbed(m, v0);
    }
  }

  /** The first trial is not stopped by stress: within the budget it is either measured,
      or the search ends for another reason. */
  lemma FirstTrialMeasured(u: Setup, m: Progress, v0: int)
    requires Ready(u, m, false) && v0 > 0 && u.startProduct == START.maxRepetitions * v0 <= u.maxProduct
    requires m.measured == {} && m.ceiling == u.maxProduct + 1
    ensures var (m', t, stop) := Measure(u, m, Settings(START.maxRepetitions, v0), Escalate); stop || t.Some?
  {
    MeasureKeeps(u, m, Settings(START.maxRepetitions, v0), Escalate);
  }

  // ---------- Bisection ----------

  /** How many times d can be halved, rounding up, until it is one. */
  function CeilLog2(d: nat): nat {
    if d <= 1 then 0 else 1 + CeilLog2((d + 1) / 2)
  }

  lemma {:induction false} CeilLog2Monotone(a: nat, b: nat)
    requires a <= b
    ensures CeilLog2(a) <= CeilLog2(b)
  {
    if a > 1 {
      CeilLog2Monotone((a + 1) / 2, (b + 1) / 2);
    }
  }

  lemma CeilLog2Halves(d: nat)
    ensures CeilLog2(d) == if d <= 1 then 0 else 1 + CeilLog2((d + 1) / 2)
  {
  }

  /** How bisection ends, from good and bad to good' and bad'. Without stress the ceiling
      stays at the failed product, no midpoint is skipped and the gap closes. */
  ghost predicate Bisected(u: Setup, v0: int, m: Progress, good: nat, bad: nat, m': Progress, good': nat,
                           bad': nat, stop: bool)
    requires good < bad
  {
    && Rising(m'.out.trials) && OnlyV(m', v0)
    && |m.out.trials| <= |m'.out.trials| <= |m.out.trials| + CeilLog2(bad - good)
    && m'.out.note == m.out.note && (m.out.stressed ==> m'.out.stressed)
    && (stop ==> Stopped(u, m', false))
    && (!stop ==> Ready(u, m', false) && m'.lastGood == good' * v0)
    && (!stop && !m'.out.stressed ==> bad' - good' <= Max(1, good' / 10) && m'.ceiling == bad' * v0)
    && (!stop ==> forall K :: K > 0 && Threshold(u, v0, K) ==> good' * v0 < K <= bad' * v0)
  }

  lemma MidStep(u: Setup, m: Progress, good: Uint32, bad: Uint32, mid: Uint32, v0: int)
    requires Bracket(u, v0, m, good, bad) && v0 > 0 && good < mid < bad
    ensures var (m1, t, stop) := Measure(u, m, Settings(mid, v0), Bisect);
            && |m.out.trials| <= |m1.out.trials| <= |m.out.trials| + 1 && Rising(m1.out.trials) && OnlyV(m1, v0)
            && m1.out.note == m.out.note && (m.out.stressed ==> m1.out.stressed)
            && (stop ==> Stopped(u, m1, false) && t.None?)
            && (t.Some? ==> if t.value.OK() then Bracket(u, v0, m1, mid, bad) else Bracket(u, v0, m1, good, mid))
            && (t.None? && !stop ==> Ready(u, m1, false) && m1.lastGood == good * v0 && m1.out.stressed)
  {
    hide Ready, Stopped, Measure, Rising, Threshold, MaybeFailed;
    ClimbStep(u, m, mid, v0, good, bad, Bisect);
    MulStrict(mid, bad, v0);
  }

  /** A trial of the midpoint, and the bisection of the half that is left. */
  lemma BisectedOn(u: Setup, v0: int, m: Progress, good: nat, bad: nat, m1: Progress, good1: nat, bad1: nat,
                   r: (Progress, Uint32, Uint32, bool))
    requires good < bad && good1 < bad1 && 1 < bad - good && bad1 - good1 <= (bad - good + 1) / 2
    requires |m.out.trials| <= |m1.out.trials| <= |m.out.trials| + 1
    requires m1.out.note == m.out.note && (m.out.stressed ==> m1.out.stressed)
    requires Bisected(u, v0, m1, good1, bad1, r.0, r.1, r.2, r.3)
    ensures Bisected(u, v0, m, good, bad, r.0, r.1, r.2, r.3)
  {
    hide Ready, Stopped, Rising, Threshold, OnlyV, CeilLog2;
    CeilLog2Halves(bad - good);
    CeilLog2Monotone(bad1 - good1, (bad - good + 1) / 2);
  }

  /** A midpoint that was not measured ends the bisection. */
  lemma BisectionEnds(u: Setup, v0: int, m: Progress, good: nat, bad: nat, m1: Progress, stop: bool)
    requires Bracket(u, v0, m, good, bad) && 1 < bad - good
    requires |m.out.trials| <= |m1.out.trials| <= |m.out.trials| + 1 && Rising(m1.out.trials) && OnlyV(m1, v0)
    requires m1.out.note == m.out.note && (m.out.stressed ==> m1.out.stressed)
    requires if stop then Stopped(u, m1, false)
             else Ready(u, m1, false) && m1.lastGood == good * v0 && m1.out.stressed
    ensures Bisected(u, v0, m, good, bad, m1, good, bad, stop)
  {
    hide Ready, Stopped, Rising, Threshold, OnlyV, CeilLog2, Climbed;
    CeilLog2Halves(bad - good);
  }

  lemma BisectionDone(u: Setup, v0: int, m: Progress, good: nat, bad: nat)
    requires Bracket(u, v0, m, good, bad) && good < bad && bad - good <= Max(1, good / 10)
    ensures Bisected(u, v0, m, good, bad, m, good, bad, false)
  {
    hide Ready, Stopped, Rising, Threshold, OnlyV, CeilLog2, Climbed;
    ClimbedOnly(m, v0, good, bad);
  }

  lemma {:induction false} BisectionKeeps(u: Setup, m: Progress, good: Uint32, bad: Uint32, v0: int)
    requires Bracket(u, v0, m, good, bad) && v0 > 0 && good < bad < 0x8000_0000
    ensures var (m', lg, fb, stop) := Bisection(u, m, good, bad, v0); Bisected(u, v0, m, good, bad, m', lg, fb, stop)
    decreases bad - good
  {
    hide Ready, Stopped, Measure, Rising, Threshold, Climbed, OnlyV, CeilLog2, Bisected, Bracket;
    if bad - good > Max(1, good / 10) {
      var mid: Uint32 := (good + bad) / 2;
      MidStep(u, m, good, bad, mid, v0);
      var (m1, t, stop) := Measure(u, m, Settings(mid, v0), Bisect);
      if t.None? {
        BisectionEnds(u, v0, m, good, bad, m1, stop);
      } else if t.value.OK() {
        BisectionKeeps(u, m1, mid, bad, v0);
        BisectedOn(u, v0, m, good, bad, m1, mid, bad, Bisection(u, m1, mid, bad, v0));
      } else {
        BisectionKeeps(u, m1, good, mid, v0);
        BisectedOn(u, v0, m, good, bad, m1, good, mid, Bisection(u, m1, good, mid, v0));
      }
    } else {
      BisectionDone(u, v0, m, good, bad);
    }
  }

  // ---------- Splitting ----------

  /** From trial n on: split trials of at most this product, each at a V tried never
      before. */
  ghost predicate SplitsFrom(trials: seq<Trial>, n: nat, product: int) {
    forall j :: n <= j < |trials| ==>
      && trials[j].phase == Split && trials[j].Product() <= product
      && forall i :: 0 <= i < j ==> trials[i].settings.maxVarsPerPDU != trials[j].settings.maxVarsPerPDU
  }

  ghost predicate Untried(m: Progress, vs: seq<int>) {
    && (forall s :: s in m.measured ==> s.maxVarsPerPDU !in vs)
    && (forall i, j :: 0 <= i < j < |vs| ==> vs[i] != vs[j])
  }

  ghost predicate SplitUp(u: Setup, m: Progress, product: nat, m': Progress, stop: bool) {
    && Rising(m'.out.trials) && |m.out.trials| <= |m'.out.trials| && m.out.trials == m'.out.trials[..|m.out.trials|]
    && SplitsFrom(m'.out.trials, |m.out.trials|, product)
    && m'.out.note == m.out.note && (m.out.stressed ==> m'.out.stressed)
    && (if stop then Stopped(u, m', false) else Ready(u, m', false) && m'.lastGood == m.lastGood)
  }

  lemma FirstSplit(trials: seq<Trial>, t: Trial, product: int)
    requires t.phase == Split && t.Product() <= product
    requires forall i :: 0 <= i < |trials| ==> trials[i].settings.maxVarsPerPDU != t.settings.maxVarsPerPDU
    ensures SplitsFrom(trials + [t], |trials|, product)
  {
  }

  /** A trial of a new V with at most this product. */
  lemma SplitSnoc(m: Progress, product: int, t: Trial, vs: seq<int>)
    requires vs != [] && Untried(m, vs) && Rising(m.out.trials) && t.phase == Split
    requires t.Product() <= product && t.settings.maxVarsPerPDU == vs[0]
    requires forall i :: 0 <= i < |m.out.trials| ==> m.out.trials[i].settings in m.measured
    requires product <= LargestClean(m.out.trials)
    ensures Rising(m.out.trials + [t]) && SplitsFrom(m.out.trials + [t], |m.out.trials|, product)
    ensures LargestClean(m.out.trials + [t]) == LargestClean(m.out.trials)
  {
    hide Rising, LargestClean, SplitsFrom;
    assert vs[0] in vs;
    FirstSplit(m.out.trials, t, product);
    RisingSnoc(m.out.trials, t);
    LargestCleanSnoc(m.out.trials, t);
  }

  lemma MeasuredHold(u: Setup, m: Progress)
    requires Ready(u, m, false)
    ensures forall i :: 0 <= i < |m.out.trials| ==> m.out.trials[i].settings in m.measured
  {
  }

  lemma SplitOne(u: Setup, m: Progress, m1: Progress, product: nat, t: Trial, vs: seq<int>, stop: bool)
    requires vs != [] && Untried(m, vs) && Rising(m.out.trials) && t.phase == Split
    requires t.Product() <= product <= m.lastGood && t.settings.maxVarsPerPDU == vs[0]
    requires Ready(u, m, false) && m1.out.trials == m.out.trials + [t]
    requires m1.out.note == m.out.note && (m.out.stressed ==> m1.out.stressed)
    requires if stop then Stopped(u, m1, false) else Ready(u, m1, false)
    ensures SplitUp(u, m, product, m1, stop)
  {
    hide Ready, Stopped, Rising, SplitsFrom, Untried, LargestClean;
    LastGoodIs(u, m);
    MeasuredHold(u, m);
    SplitSnoc(m, product, t, vs);
    if !stop { LastGoodIs(u, m1); }
    assert m1.out.trials[..|m.out.trials|] == m.out.trials;
  }

  lemma NoSplits(trials: seq<Trial>, product: int)
    ensures SplitsFrom(trials, |trials|, product)
  {
  }

  lemma SplitNone(u: Setup, m: Progress, m1: Progress, product: nat, stop: bool)
    requires Rising(m.out.trials) && Ready(u, m, false) && m1.out.trials == m.out.trials
    requires m1.out.note == m.out.note && (m.out.stressed ==> m1.out.stressed)
    requires if stop then Stopped(u, m1, false) else Ready(u, m1, false)
    ensures SplitUp(u, m, product, m1, stop)
  {
    hide Ready, Stopped, Rising, SplitsFrom, LargestClean;
    NoSplits(m.out.trials, product);
    LastGoodIs(u, m);
    if !stop { LastGoodIs(u, m1); }
    assert m1.out.trials[..|m.out.trials|] == m.out.trials;
  }

  lemma StillUntried(m: Progress, m1: Progress, vs: seq<int>, s: Settings)
    requires vs != [] && Untried(m, vs) && s.maxVarsPerPDU == vs[0] && m1.measured <= m.measured + {s}
    ensures Untried(m1, vs[1..])
  {
  }

  lemma WhichFailed(before: seq<Trial>, after: seq<Trial>, s: Settings, phase: Phase) returns (x: Trial)
    requires MaybeFailed(before, after, s, phase) && after != before
    ensures x.settings == s && x.phase == phase && !x.OK() && after == before + [x]
  {
    x :| x.settings == s && x.phase == phase && BrokenOffBy(x.failure) && after == before + [x];
  }

  lemma SplitTried(u: Setup, m: Progress, s: Settings, m1: Progress, t: Option<Trial>, stop: bool, product: nat,
                   vs: seq<int>)
    requires Tried(u, m, s, Split, m1, t, stop) && Ready(u, m, false) && Rising(m.out.trials)
    requires vs != [] && Untried(m, vs) && s.maxVarsPerPDU == vs[0] && s.Product() <= product <= m.lastGood
    ensures SplitUp(u, m, product, m1, stop) && Untried(m1, vs[1..])
  {
    hide Ready, Stopped, Rising, SplitUp, Untried, Capped, AllClean, Produced, MaybeFailed;
    StillUntried(m, m1, vs, s);
    if t.Some? {
      ScoreMeaning(s, Split, t.value.runs);
      SplitOne(u, m, m1, product, t.value, vs, stop);
    } else if m1.out.trials != m.out.trials {
      var x := WhichFailed(m.out.trials, m1.out.trials, s, Split);
      SplitOne(u, m, m1, product, x, vs, stop);
    } else {
      SplitNone(u, m, m1, product, stop);
    }
  }

  lemma SplitStep(u: Setup, m: Progress, product: nat, vs: seq<int>)
    requires Ready(u, m, false) && Rising(m.out.trials) && product <= 0xFFFF_FFFF && product <= m.lastGood
    requires vs != [] && (forall k :: 0 <= k < |vs| ==> vs[k] > 0) && Untried(m, vs) && product / vs[0] >= 1
    ensures product / vs[0] <= 0xFFFF_FFFF
    ensures var (m1, t, stop) := Measure(u, m, Settings(product / vs[0], vs[0]), Split);
            SplitUp(u, m, product, m1, stop) && Untried(m1, vs[1..])
  {
    hide Ready, Measure, Rising, SplitUp, Untried, Tried;
    QuotientFits(product, vs[0]);
    var s := Settings(product / vs[0], vs[0]);
    MeasureKeeps(u, m, s, Split);
    var (m1, t, stop) := Measure(u, m, s, Split);
    SplitTried(u, m, s, m1, t, stop, product, vs);
  }

  lemma UntriedTail(m: Progress, vs: seq<int>)
    requires vs != [] && Untried(m, vs)
    ensures Untried(m, vs[1..])
  {
  }

  lemma SplitChain(u: Setup, m: Progress, m1: Progress, m2: Progress, product: nat, stop: bool)
    requires SplitUp(u, m, product, m1, false) && SplitUp(u, m1, product, m2, stop)
    ensures SplitUp(u, m, product, m2, stop)
  {
    hide Ready, Stopped, Rising;
    var n := |m1.out.trials|;
    assert forall j :: 0 <= j < n ==> m2.out.trials[j] == m2.out.trials[..n][j] == m1.out.trials[j];
  }

  lemma NothingSplit(u: Setup, m: Progress, product: nat)
    requires Ready(u, m, false) && Rising(m.out.trials)
    ensures SplitUp(u, m, product, m, false)
  {
    hide Ready, Rising;
    assert m.out.trials[..|m.out.trials|] == m.out.trials;
  }

  lemma SplitGives(u: Setup, m: Progress, product: nat, m1: Progress)
    requires SplitUp(u, m, product, m1, false)
    ensures Ready(u, m1, false) && Rising(m1.out.trials) && m1.lastGood == m.lastGood
  {
    hide Ready, Rising;
  }

  lemma {:induction false} SplittingKeeps(u: Setup, m: Progress, product: nat, vs: seq<int>)
    requires Ready(u, m, false) && Rising(m.out.trials) && product <= 0xFFFF_FFFF && product <= m.lastGood
    requires (forall k :: 0 <= k < |vs| ==> vs[k] > 0) && Untried(m, vs)
    ensures var (m', stop) := Splitting(u, m, product, vs); SplitUp(u, m, product, m', stop)
    decreases |vs|
  {
    hide Ready, Stopped, Measure, Rising, SplitsFrom, Untried, SplitUp;
    if vs == [] {
      NothingSplit(u, m, product);
    } else if product / vs[0] < 1 {
      UntriedTail(m, vs);
      SplittingKeeps(u, m, product, vs[1..]);
    } else {
      SplitStep(u, m, product, vs);
      var (m1, t, stop) := Measure(u, m, Settings(product / vs[0], vs[0]), Split);
      if !stop {
        SplitGives(u, m, product, m1);
        SplittingKeeps(u, m1, product, vs[1..]);
        var (m2, stop2) := Splitting(u, m1, product, vs[1..]);
        SplitChain(u, m, m1, m2, product, stop2);
      }
    }
  }
}
