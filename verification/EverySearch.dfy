/** Whatever every trial keeps, a whole search keeps (internal/search/search.go:131-219):
    induction over its phases, once for all. */
module EverySearch {
  import opened Arithmetic
  import opened Agent
  import opened Walk
  import opened Safety
  import opened Trials
  import opened Machine
  import opened SearchSafety

  // ---------- When a trial ends the search ----------

  lemma KeepIfOut(m: Progress, s: Settings, phase: Phase, runs: seq<Result>, cause: Cause)
    ensures var m' := KeepIf(m, s, phase, runs, cause);
            && m'.out.aborted == m.out.aborted && m'.out.budgetLimited == m.out.budgetLimited
            && m'.out.stressed == m.out.stressed && m'.now == m.now
  {
  }

  lemma InterruptStops(u: Setup, m: Progress, s: Settings, phase: Phase, runs: seq<Result>)
    requires Unstopped(m)
    ensures var (m', yes) := Interrupt(u, m, s, phase, runs);
            if yes then !Unstopped(m') else m' == m.(now := m.now + 1)
  {
    hide KeepIf;
    var m1 := m.(now := m.now + 1);
    KeepIfOut(m1.(out := m.out.(budgetLimited := Some(DurationUsed))), s, phase, runs, Interrupted);
    KeepIfOut(m1.(out := m.out.(aborted := Some(InterruptedDuring(s)))), s, phase, runs, Interrupted);
  }

  lemma WalkOnceStops(u: Setup, m: Progress, s: Settings, phase: Phase, runs: seq<Result>)
    requires Unstopped(m)
    ensures var (m', step) := WalkOnce(u, m, s, phase, runs); (step.Ended? <==> !Unstopped(m')) && !step.Cut?
  {
    hide Checked, Interrupt;
    var report := u.env.walk(m.now, s);
    InterruptStops(u, m.(now := m.now + 1, lastSet := s, prevRun := report.took,
                         trace := m.trace + [Walked(s, report.took, m.now)]), s, phase, runs);
  }

  lemma OnVerdictStops(u: Setup, m: Progress, v: Verdict, s: Settings, phase: Phase, runs: seq<Result>)
    requires Unstopped(m)
    ensures var (m', step) := OnVerdict(u, m, v, s, phase, runs); step.Ended? <==> !Unstopped(m')
  {
    hide KeepIf, WalkOnce;
    var restarted, lost := AgentRestarted(m.lastSet), AgentLost(m.lastSet);
    KeepIfOut(m.(out := m.out.(aborted := Some(restarted))), s, phase, runs, AbortedBy(restarted));
    KeepIfOut(m.(out := m.out.(aborted := Some(lost))), s, phase, runs, AbortedBy(lost));
    KeepIfOut(Heed(u, m, v, phase), s, phase, runs, StressedBeforeRepeat(|runs| + 1));
    WalkOnceStops(u, Heed(u, m, v, phase), s, phase, runs);
  }

  lemma RepeatStops(u: Setup, m: Progress, s: Settings, phase: Phase, runs: seq<Result>)
    requires Unstopped(m)
    ensures var (m', step) := Repeat(u, m, s, phase, runs); step.Ended? <==> !Unstopped(m')
  {
    hide OnVerdict, Interrupt, Classify;
    InterruptStops(u, Sleep(u, m), s, phase, runs);
    var (m1, interrupted) := Interrupt(u, Sleep(u, m), s, phase, runs);
    if !interrupted {
      var (m2, v) := Probe(u, m1);
      OnVerdictStops(u, m2, v, s, phase, runs);
    }
  }

  lemma {:induction false} RepeatsStop(u: Setup, m: Progress, s: Settings, phase: Phase, runs: seq<Result>)
    requires Unstopped(m)
    ensures var (m', runs', scored, stop) := Repeats(u, m, s, phase, runs);
            (stop <==> !Unstopped(m')) && !(scored && stop)
    decreases u.opts.repeats - |runs|
  {
    hide Repeat;
    if |runs| < u.opts.repeats {
      RepeatStops(u, m, s, phase, runs);
      var (m1, step) := Repeat(u, m, s, phase, runs);
      if step.Ran? && step.res.failure == [] {
        RepeatsStop(u, m1, s, phase, runs + [step.res]);
      }
    }
  }

  /** A trial ends the search exactly when it leaves a reason behind; one that is skipped
      changes and asks nothing. */
  lemma MeasureStops(u: Setup, m: Progress, s: Settings, phase: Phase)
    requires Unstopped(m)
    ensures var (m', t, stop) := Measure(u, m, s, phase);
            && (stop <==> !Unstopped(m')) && (stop ==> t == None)
            && (s.Product() >= m.ceiling || s in m.measured ==> m' == m)
  {
    hide Repeats, ScoreOf;
    var (m1, interrupted) := Interrupt(u, m, s, phase, []);
    if !interrupted {
      RepeatsStop(u, m1.(now := m1.now + 1, measured := m1.measured + {s}), s, phase, []);
    }
  }

  // ---------- Induction over the phases ----------

  /** Every trial, at settings that are P, of a search under way keeps it, and so does a note. */
  ghost predicate KeptByTrials(u: Setup, P: Settings -> bool, I: Progress -> bool) {
    && (forall m, s, phase :: P(s) && I(m) && Unstopped(m) ==> I(Measure(u, m, s, phase).0))
    && (forall m, note :: I(m) ==> I(Noted(m, note)))
  }

  predicate Positive(s: Settings) { s.maxRepetitions > 0 && s.maxVarsPerPDU > 0 }

  lemma TrialKept(u: Setup, P: Settings -> bool, I: Progress -> bool, m: Progress, s: Settings, phase: Phase)
    requires KeptByTrials(u, P, I) && P(s) && I(m) && Unstopped(m)
    ensures var (m1, t, stop) := Measure(u, m, s, phase);
            I(m1) && (stop <==> !Unstopped(m1)) && forall note :: I(Noted(m1, note)) && Unstopped(Noted(m, note))
  {
    hide Measure;
    MeasureStops(u, m, s, phase);
  }

  lemma {:induction false} EscalationKept(u: Setup, P: Settings -> bool, I: Progress -> bool, m: Progress,
                                          reps: Uint32, v0: int,
                                          good: Uint32, prevScore: real)
    requires forall s :: Positive(s) ==> P(s)
    requires KeptByTrials(u, P, I) && I(m) && Unstopped(m) && reps > 0 && v0 > 0 && 0 <= u.maxProduct < 0x8000_0000
    requires good < reps && good * v0 <= u.maxProduct
    ensures var (m', lg, fb, stop) := Escalation(u, m, reps, v0, good, prevScore);
            I(m') && (stop <==> !Unstopped(m'))
    decreases u.maxProduct + 1 - reps * v0
  {
    hide Measure, Plateaued;
    if reps * v0 <= u.maxProduct {
      TrialKept(u, P, I, m, Settings(reps, v0), Escalate);
      var (m1, t, stop) := Measure(u, m, Settings(reps, v0), Escalate);
      if !stop && t.Some? && t.value.OK() && !m1.out.stressed
          && !(good > 0 && Plateaued(t.value.score, prevScore, u.opts.plateauGain)) {
        DoublingFits(reps, v0, u.maxProduct);
        EscalationKept(u, P, I, m1, reps * 2, v0, reps, t.value.score);
      }
    }
  }

  lemma {:induction false} BisectionKept(u: Setup, P: Settings -> bool, I: Progress -> bool, m: Progress, good: Uint32,
                                         bad: Uint32, v0: int)
    requires forall s :: Positive(s) ==> P(s)
    requires KeptByTrials(u, P, I) && I(m) && Unstopped(m) && v0 > 0 && good < bad < 0x8000_0000
    ensures var (m', lg, fb, stop) := Bisection(u, m, good, bad, v0); I(m') && (stop <==> !Unstopped(m'))
    decreases bad - good
  {
    hide Measure;
    if bad - good > Max(1, good / 10) {
      var mid: Uint32 := (good + bad) / 2;
      TrialKept(u, P, I, m, Settings(mid, v0), Bisect);
      var (m1, t, stop) := Measure(u, m, Settings(mid, v0), Bisect);
      if !stop && t.Some? {
        if t.value.OK() {
          BisectionKept(u, P, I, m1, mid, bad, v0);
        } else {
          BisectionKept(u, P, I, m1, good, mid, v0);
        }
      }
    }
  }

  lemma {:induction false} SplittingKept(u: Setup, P: Settings -> bool, I: Progress -> bool, m: Progress, product: nat,
                                         vs: seq<int>)
    requires forall s :: Positive(s) ==> P(s)
    requires KeptByTrials(u, P, I) && I(m) && Unstopped(m)
    requires product <= 0xFFFF_FFFF && forall k :: 0 <= k < |vs| ==> vs[k] > 0
    ensures var (m', stop) := Splitting(u, m, product, vs); I(m') && (stop <==> !Unstopped(m'))
    decreases |vs|
  {
    hide Measure;
    if vs != [] {
      QuotientFits(product, vs[0]);
      if product / vs[0] < 1 {
        SplittingKept(u, P, I, m, product, vs[1..]);
      } else {
        TrialKept(u, P, I, m, Settings(product / vs[0], vs[0]), Split);
        var (m1, t, stop) := Measure(u, m, Settings(product / vs[0], vs[0]), Split);
        if !stop {
          SplittingKept(u, P, I, m1, product, vs[1..]);
        }
      }
    }
  }

  lemma {:induction false} PrescribedKept(u: Setup, P: Settings -> bool, I: Progress -> bool, m: Progress,
                                          settings: seq<Settings>)
    requires forall k :: 0 <= k < |settings| ==> P(settings[k])
    requires KeptByTrials(u, P, I) && I(m) && Unstopped(m)
    ensures var (m', stop) := Prescribed(u, m, settings); I(m') && (stop <==> !Unstopped(m'))
    decreases |settings|
  {
    hide Measure;
    if settings != [] {
      TrialKept(u, P, I, m, settings[0], Try);
      var (m1, t, stop) := Measure(u, m, settings[0], Try);
      if !stop {
        PrescribedKept(u, P, I, m1, settings[1..]);
      }
    }
  }

  // ---------- Whole searches ----------

  /** m' is such a search that was stopped, or one that was not, after the final probe. */
  ghost predicate Ends(u: Setup, I: Progress -> bool, m': Progress) {
    (I(m') && !Unstopped(m')) || exists m :: I(m) && Unstopped(m) && m' == FinalProbe(u, m)
  }

  lemma ProbedEnd(u: Setup, I: Progress -> bool, m: Progress)
    requires I(m) && Unstopped(m)
    ensures Ends(u, I, FinalProbe(u, m))
  {
  }

  lemma StoppedEnd(u: Setup, I: Progress -> bool, m: Progress)
    requires I(m) && !Unstopped(m)
    ensures Ends(u, I, m)
  {
  }

  lemma FinishKept(u: Setup, P: Settings -> bool, I: Progress -> bool, m: Progress, v0: int, widest: int, goodR: Uint32)
    requires forall s :: Positive(s) ==> P(s)
    requires KeptByTrials(u, P, I) && I(m) && Unstopped(m)
    requires v0 > 0 && widest >= 0 && goodR * v0 <= u.maxProduct < 0x8000_0000
    ensures Ends(u, I, Finish(u, m, v0, widest, goodR))
  {
    hide FinalProbe, Splitting, SplitCandidates, Ends;
    if goodR == 0 {
      ProbedEnd(u, I, m);
    } else {
      CandidatesPositive(v0, widest);
      MulSign(goodR, v0);
      SplittingKept(u, P, I, m, goodR * v0, SplitCandidates(v0, widest));
      var (m1, stop) := Splitting(u, m, goodR * v0, SplitCandidates(v0, widest));
      if stop {
        StoppedEnd(u, I, m1);
      } else {
        ProbedEnd(u, I, m1);
      }
    }
  }

  /** Run. */
  lemma SearchKept(u: Setup, P: Settings -> bool, I: Progress -> bool, m: Progress, v0: int, widest: int)
    requires forall s :: Positive(s) ==> P(s)
    requires KeptByTrials(u, P, I) && I(Begin(m, u.maxProduct + 1))
    requires v0 > 0 && widest >= 0 && 0 <= u.maxProduct < 0x8000_0000
    ensures Ends(u, I, RunSearch(u, m, v0, widest))
  {
    hide Escalation, Bisection, Finish, Ends, KeptByTrials;
    var m0 := Begin(m, u.maxProduct + 1);
    EscalationKept(u, P, I, m0, START.maxRepetitions, v0, 0, 0.0);
    var (m1, lastGoodR, firstBadR, stop) := Escalation(u, m0, START.maxRepetitions, v0, 0, 0.0);
    if stop {
      StoppedEnd(u, I, m1);
    } else if firstBadR == 0 {
      FinishKept(u, P, I, m1, v0, widest, lastGoodR);
    } else {
      BisectionKept(u, P, I, m1, lastGoodR, firstBadR, v0);
      var (m2, goodR, badR, stop2) := Bisection(u, m1, lastGoodR, firstBadR, v0);
      MulMonotone(goodR, firstBadR, v0);
      if stop2 {
        StoppedEnd(u, I, m2);
      } else {
        FinishKept(u, P, I, m2, v0, widest, goodR);
      }
    }
  }

  /** Measure. */
  lemma MeasureAllKept(u: Setup, P: Settings -> bool, I: Progress -> bool, m: Progress, settings: seq<Settings>)
    requires forall k :: 0 <= k < |settings| ==> P(settings[k])
    requires KeptByTrials(u, P, I) && I(Begin(m, MAX_INT))
    ensures Ends(u, I, MeasureAll(u, m, settings))
  {
    hide Prescribed, FinalProbe, Ends;
    PrescribedKept(u, P, I, Begin(m, MAX_INT), settings);
    var (m1, stop) := Prescribed(u, Begin(m, MAX_INT), settings);
    if stop {
      StoppedEnd(u, I, m1);
    } else {
      ProbedEnd(u, I, m1);
    }
  }
}
