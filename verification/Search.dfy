/** The search as the program runs it (internal/search/search.go): fields updated by
    every trial, loops over max-repetitions. Each method is proved to compute the
    functions of Machine, so all guarantees about those hold of it. */
module Search {
  import opened Arithmetic
  import opened Oid
  import opened Agent
  import I = Inventory
  import opened Walk
  import opened Safety
  import opened Sorting
  import opened Trials
  import opened Machine
  import opened Workloads
  import Guarantees
  import Judgement
  import Reasons
  import Ledger
  import Climb
  import Shape
  import SS = SearchSafety

  /** The ladder of max-vars-per-pdu values. */
  method ComputeSplitCandidates(v0: int, widest: nat) returns (out: seq<int>)
    ensures out == SplitCandidates(v0, widest)
  {
    out := [];
    for k := 0 to |SPLIT_VARS|
      invariant out == Ladder(v0, widest, k)
    {
      var v := SPLIT_VARS[k];
      if v != v0 && (widest == 0 || v <= widest) {
        out := out + [v];
      }
    }
    if widest > 0 && widest != v0 && widest !in out {
      out := out + [widest];
    }
    out := Sort(IntLte, out);
  }

  /** max-vars-per-pdu of the first trial. */
  function InitialV(w: Workload): int {
    var widest := Width(w.tables);
    if widest > 0 then Min(START.maxVarsPerPDU, widest) else START.maxVarsPerPDU
  }

  class Runner {
    const env: Env
    const opts: Options
    const workload: Workload
    const reference: seq<I.Subtree>
    const canary: Canary
    const budget: Tracker

    var out: Outcome
    var ceiling: int
    var lastGood: int
    var startProduct: int
    var prevRun: nat
    var lastSet: Settings
    var refOIDs: seq<Arcs>
    var measured: set<Settings>
    /** How often the world was asked. */
    var now: nat
    ghost var spentBefore: nat
    ghost var trace: seq<Event>

    constructor (env: Env, opts: Options, workload: Workload, reference: seq<I.Subtree>, canary: Canary,
                 budget: Tracker)
      ensures this.env == env && this.opts == opts && this.workload == workload && this.reference == reference
      ensures this.canary == canary && this.budget == budget
      ensures lastGood == 0 && prevRun == 0 && trace == []
    {
      this.env, this.opts, this.workload, this.reference := env, opts, workload, reference;
      this.canary, this.budget := canary, budget;
      out, ceiling, lastGood, startProduct, prevRun := Outcome([], None, None, false, None), 0, 0, 0, 0;
      lastSet, refOIDs, measured, now := Settings(0, 0), [], {}, 0;
      spentBefore, trace := 0, [];
    }

    ghost function Given(): Setup
      reads this
    {
      Setup(env, opts, canary.baseline, budget.maxDuration, budget.maxTrials, budget.maxProduct, spentBefore, refOIDs,
            startProduct)
    }

    ghost function State(): Progress
      reads this, canary, budget
    {
      Progress(now, out, ceiling, lastGood, prevRun, lastSet, measured, canary.State(), budget.trials, trace)
    }

    /** init: v0 and the table width. */
    method Init(ceiling: int) returns (v0: int, widest: nat)
      modifies this
      ensures State() == Begin(old(State()), ceiling)
      ensures widest == Width(workload.tables) && v0 == InitialV(workload) && v0 > 0
      ensures refOIDs == GroundTruth(reference, workload) && startProduct == START.maxRepetitions * v0
      ensures v0 == (if 0 < widest < 10 then widest else 10) && startProduct == 2 * v0
      ensures spentBefore == budget.trials
    {
      out := Outcome([], None, None, false, None);
      this.ceiling := ceiling;
      measured := {};
      refOIDs := ReferenceOIDs(reference, workload);
      widest := WidestTable(workload);
      v0 := START.maxVarsPerPDU;
      if widest > 0 {
        v0 := Min(v0, widest);
      }
      startProduct := START.maxRepetitions * v0;
      spentBefore := budget.trials;
    }

    method Record(s: Settings, phase: Phase, runs: seq<Result>, cause: Cause)
      modifies this, budget
      ensures Given() == old(Given()) && State() == Keep(old(State()), BrokenOff(s, phase, runs, cause))
    {
      var t := Score(s, phase, runs);
      ScoreMeaning(s, phase, runs);
      t := t.(failure := Some(cause), score := 0.0);
      out := out.(trials := out.trials + [t]);
      budget.NoteTrial();
      trace := trace + [Kept(t)];
    }

    method RecordIf(s: Settings, phase: Phase, runs: seq<Result>, cause: Cause)
      modifies this, budget
      ensures Given() == old(Given()) && State() == KeepIf(old(State()), s, phase, runs, cause)
    {
      if |runs| > 0 {
        Record(s, phase, runs, cause);
      }
    }

    method Interrupted(s: Settings, phase: Phase, runs: seq<Result>) returns (yes: bool)
      modifies this, budget
      ensures Given() == old(Given()) && (State(), yes) == Interrupt(Given(), old(State()), s, phase, runs)
    {
      var err := env.ctx(now);
      now := now + 1;
      match err {
        case Live => return false;
        case DeadlineExceeded => out := out.(budgetLimited := Some(DurationUsed));
        case Canceled => out := out.(aborted := Some(InterruptedDuring(s)));
      }
      RecordIf(s, phase, runs, Cause.Interrupted);
      return true;
    }

    method AbortRun(reason: Stop, s: Settings, phase: Phase, runs: seq<Result>)
      modifies this, budget
      ensures Given() == old(Given()) && State() == Abort(old(State()), reason, s, phase, runs)
    {
      out := out.(aborted := Some(reason));
      RecordIf(s, phase, runs, AbortedBy(reason));
    }

    method ProbeCanary() returns (v: Verdict)
      modifies this, canary
      ensures Given() == old(Given()) && (State(), v) == Probe(Given(), old(State()))
    {
      v := canary.Probe(env.probe(now));
      trace := trace + [Probed(v, now)];
      now := now + 1;
    }

    /** The check against the ground truth. */
    method CheckRun(raw: Result) returns (res: Result)
      ensures res == Checked(Given(), raw)
    {
      hide CountMissing;
      res := raw;
      if res.failure == [] && |refOIDs| > 0 {
        var missing := Missing(refOIDs, res.oids);
        if 100.0 * (missing as real) / (|refOIDs| as real) > opts.tolerance {
          res := res.(failure := [MissingOIDs(missing, |refOIDs|)]);
        }
      }
    }

    /** The walk of a repeat, checked against the reference. */
    method WalkSettings(s: Settings, phase: Phase, runs: seq<Result>) returns (step: Machine.Step)
      modifies this, budget
      ensures Given() == old(Given()) && (State(), step) == WalkOnce(Given(), old(State()), s, phase, runs)
    {
      hide Checked, Interrupt;
      var report := env.walk(now, s);
      trace := trace + [Walked(s, report.took, now)];
      now := now + 1;
      lastSet, prevRun := s, report.took;
      if report.failed {
        var interrupted := Interrupted(s, phase, runs);
        if !interrupted {
          out := out.(aborted := Some(TransportError(s)));
        }
        return Ended;
      }
      var res := CheckRun(report.result);
      return Ran(res);
    }

    /** What the verdict of the probe leads to. */
    method ActOn(v: Verdict, s: Settings, phase: Phase, runs: seq<Result>) returns (step: Machine.Step)
      modifies this, budget
      ensures Given() == old(Given()) && (State(), step) == OnVerdict(Given(), old(State()), v, s, phase, runs)
    {
      hide WalkOnce, KeepIf, Abort;
      if v == Restarted {
        AbortRun(AgentRestarted(lastSet), s, phase, runs);
        return Ended;
      }
      if v == Lost {
        AbortRun(AgentLost(lastSet), s, phase, runs);
        return Ended;
      }
      if v == Stressed {
        out := out.(stressed := true);
        if phase != Try {
          ceiling := Min(ceiling, Max(lastGood, startProduct) + 1);
        }
        if s.Product() >= ceiling {
          RecordIf(s, phase, runs, StressedBeforeRepeat(|runs| + 1));
          return Cut;
        }
      }
      step := WalkSettings(s, phase, runs);
    }

    /** One pass of the loop over the repeats. */
    method RepeatOnce(s: Settings, phase: Phase, runs: seq<Result>) returns (step: Machine.Step)
      modifies this, canary, budget
      ensures Given() == old(Given()) && (State(), step) == Repeat(Given(), old(State()), s, phase, runs)
    {
      trace := trace + [Slept(Cooldown(opts.cooldown, prevRun))];
      var interrupted := Interrupted(s, phase, runs);
      if interrupted {
        return Ended;
      }
      var v := ProbeCanary();
      step := ActOn(v, s, phase, runs);
    }

    method SettleTrial(t: Trial)
      modifies this, budget
      ensures Given() == old(Given()) && State() == Settle(old(State()), t)
    {
      out := out.(trials := out.trials + [t]);
      budget.NoteTrial();
      trace := trace + [Kept(t)];
      if t.OK() {
        lastGood := Max(lastGood, t.Product());
      } else {
        ceiling := Min(ceiling, t.Product());
      }
    }

    /** The repeats of a setting that is really measured, and its score. */
    method MeasureRepeats(s: Settings, phase: Phase) returns (t: Option<Trial>, stop: bool)
      modifies this, canary, budget
      ensures Given() == old(Given()) && (State(), t, stop) == MeasureNew(Given(), old(State()), s, phase)
    {
      hide Repeat, ScoreOf, Settle;
      ghost var whole := Repeats(Given(), State(), s, phase, []);
      ghost var given := Given();
      var runs: seq<Result> := [];
      while |runs| < opts.repeats
        invariant Given() == given && Repeats(given, State(), s, phase, runs) == whole
        decreases opts.repeats - |runs|
      {
        var step := RepeatOnce(s, phase, runs);
        match step {
          case Cut => return None, false;
          case Ended => return None, true;
          case Ran(res) =>
            runs := runs + [res];
            if res.failure != [] {
              break;
            }
        }
      }
      assert whole == (State(), runs, true, false);
      var scored := Score(s, phase, runs);
      ScoreMeaning(s, phase, runs);
      SettleTrial(scored);
      return Some(scored), false;
    }

    /** trial: None when the setting was skipped or cut, and whether the run must end. */
    method MeasureOne(s: Settings, phase: Phase) returns (t: Option<Trial>, stop: bool)
      modifies this, canary, budget
      ensures Given() == old(Given()) && (State(), t, stop) == Measure(Given(), old(State()), s, phase)
    {
      if s.Product() >= ceiling || s in measured {
        return None, false;
      }
      var interrupted := Interrupted(s, phase, []);
      if interrupted {
        return None, true;
      }
      var reason := budget.Exhausted(env.elapsed(now));
      now := now + 1;
      if reason != NotExhausted {
        out := out.(budgetLimited := Some(if reason == MaxTrials then TrialsUsed else DurationUsed));
        return None, true;
      }
      measured := measured + {s};
      t, stop := MeasureRepeats(s, phase);
    }

    method ProbeFinally()
      modifies this, canary
      ensures Given() == old(Given()) && State() == FinalProbe(Given(), old(State()))
    {
      hide Classify;
      var err := env.ctx(now);
      now := now + 1;
      if err != Live || |out.trials| == 0 {
        return;
      }
      var v := ProbeCanary();
      var reason: Stop;
      if v == Restarted {
        reason := AgentRestarted(lastSet);
      } else if v == Lost {
        reason := AgentLost(lastSet);
      } else {
        return;
      }
      var trials := out.trials;
      for i := 0 to |out.trials|
        invariant |trials| == |out.trials|
        invariant forall k :: 0 <= k < i ==> trials[k] == Invalidated(out.trials, lastSet, reason)[k]
        invariant forall k :: i <= k < |trials| ==> trials[k] == out.trials[k]
      {
        if trials[i].settings == lastSet {
          trials := trials[i := trials[i].(failure := Some(AbortedBy(reason)), score := 0.0)];
        }
      }
      assert trials == Invalidated(out.trials, lastSet, reason);
      out := out.(aborted := Some(reason), trials := trials);
    }

    // ---------- The phases of Run, and Measure ----------

    method Explain(note: Note)
      modifies this
      ensures Given() == old(Given()) && State() == Noted(old(State()), note)
    {
      out := out.(note := Some(note));
    }

    method EscalatePhase(v0: int) returns (lastGoodR: Uint32, firstBadR: Uint32, stop: bool)
      requires v0 > 0 && budget.maxProduct < 0x8000_0000
      modifies this, canary, budget
      ensures Given() == old(Given())
      ensures (State(), lastGoodR, firstBadR, stop)
          == Escalation(Given(), old(State()), START.maxRepetitions, v0, 0, 0.0)
    {
      hide Measure, Noted;
      var reps: Uint32 := START.maxRepetitions;
      lastGoodR, firstBadR := 0, 0;
      var prevScore := 0.0;
      ghost var given := Given();
      ghost var whole := Escalation(given, State(), reps, v0, 0, 0.0);
      while true
        invariant Given() == given && reps > 0 && lastGoodR < reps && lastGoodR * v0 <= budget.maxProduct
            && firstBadR == 0
        invariant Escalation(given, State(), reps, v0, lastGoodR, prevScore) == whole
        decreases budget.maxProduct + 1 - reps * v0
      {
        var s := Settings(reps, v0);
        if s.Product() > budget.maxProduct {
          Explain(ExceedsMaxProduct(s));
          return lastGoodR, 0, false;
        }
        var t, ended := MeasureOne(s, Escalate);
        if ended {
          return lastGoodR, 0, true;
        }
        if t.None? {
          Explain(NotTried(s));
          return lastGoodR, 0, false;
        }
        DoublingFits(reps, v0, budget.maxProduct);
        if !t.value.OK() {
          Explain(FailedThenBisect(s));
          return lastGoodR, reps, false;
        }
        if lastGoodR > 0 && Plateaued(t.value.score, prevScore, opts.plateauGain) {
          Explain(Plateau(s));
          return reps, 0, false;
        }
        lastGoodR, prevScore := reps, t.value.score;
        if out.stressed {
          Explain(StressAfter(s));
          return reps, 0, false;
        }
        reps := reps * 2;
      }
    }

    method BisectPhase(good: Uint32, bad: Uint32, v0: int) returns (lastGoodR: Uint32, firstBadR: Uint32, stop: bool)
      requires good < bad < 0x8000_0000
      modifies this, canary, budget
      ensures Given() == old(Given())
      ensures (State(), lastGoodR, firstBadR, stop) == Bisection(Given(), old(State()), good, bad, v0)
    {
      hide Measure;
      lastGoodR, firstBadR := good, bad;
      ghost var given := Given();
      ghost var whole := Bisection(given, State(), good, bad, v0);
      while firstBadR - lastGoodR > Max(1, lastGoodR / 10)
        invariant Given() == given && lastGoodR < firstBadR < 0x8000_0000
        invariant Bisection(given, State(), lastGoodR, firstBadR, v0) == whole
        decreases firstBadR - lastGoodR
      {
        var mid: Uint32 := (lastGoodR + firstBadR) / 2;
        var t, ended := MeasureOne(Settings(mid, v0), Bisect);
        if ended {
          return lastGoodR, firstBadR, true;
        }
        if t.None? {
          return lastGoodR, firstBadR, false;
        }
        if t.value.OK() {
          lastGoodR := mid;
        } else {
          firstBadR := mid;
        }
      }
      return lastGoodR, firstBadR, false;
    }

    method SplitPhase(product: nat, vs: seq<int>) returns (stop: bool)
      requires product <= 0xFFFF_FFFF && forall k :: 0 <= k < |vs| ==> vs[k] > 0
      modifies this, canary, budget
      ensures Given() == old(Given())
      ensures (State(), stop) == Splitting(Given(), old(State()), product, vs)
    {
      hide Measure;
      ghost var given := Given();
      ghost var whole := Splitting(given, State(), product, vs);
      assert vs[0..] == vs;
      for k := 0 to |vs|
        invariant Given() == given && Splitting(given, State(), product, vs[k..]) == whole
      {
        assert vs[k..][1..] == vs[k + 1..];
        var v := vs[k];
        if product / v >= 1 {
          QuotientFits(product, v);
          var t, ended := MeasureOne(Settings(product / v, v), Split);
          if ended {
            return true;
          }
        }
      }
      return false;
    }

    method FinishPhase(v0: int, widest: nat, goodR: Uint32)
      requires v0 > 0 && goodR * v0 <= budget.maxProduct < 0x8000_0000
      modifies this, canary, budget
      ensures Given() == old(Given()) && State() == Finish(Given(), old(State()), v0, widest, goodR)
    {
      hide Splitting, FinalProbe, SplitCandidates;
      if goodR > 0 {
        var candidates := ComputeSplitCandidates(v0, widest);
        CandidatesPositive(v0, widest);
        MulSign(goodR, v0);
        var stop := SplitPhase(goodR * v0, candidates);
        if stop {
          return;
        }
      }
      ProbeFinally();
    }

    method RunPhases(v0: int, widest: nat) returns (outcome: Outcome)
      requires v0 > 0 && budget.maxProduct < 0x8000_0000
      modifies this, canary, budget
      ensures outcome == out && Given() == old(Given())
      ensures State() == AfterInit(Given(), old(State()), v0, widest)
    {
      hide Escalation, Bisection, Finish;
      var lastGoodR, firstBadR, stop := EscalatePhase(v0);
      if stop {
        return out;
      }
      if firstBadR > 0 {
        ghost var failed := firstBadR;
        lastGoodR, firstBadR, stop := BisectPhase(lastGoodR, firstBadR, v0);
        if stop {
          return out;
        }
        MulMonotone(lastGoodR, failed, v0);
      }
      FinishPhase(v0, widest, lastGoodR);
      return out;
    }

    /** Run: on a fresh runner it keeps every guardrail, whatever the oracles say. */
    method Run() returns (outcome: Outcome)
      requires lastGood == 0 && prevRun == 0 && trace == [] && opts.repeats > 0
      requires budget.maxTrials > 0 ==> budget.trials <= budget.maxTrials
      requires budget.maxProduct < 0x8000_0000
      modifies this, canary, budget
      ensures outcome == out && refOIDs == GroundTruth(reference, workload)
      ensures startProduct == START.maxRepetitions * InitialV(workload) && InitialV(workload) > 0
      ensures State() == RunSearch(Given(), old(State()), InitialV(workload), Width(workload.tables))
      ensures Guarantees.Ended(Given(), State(), InitialV(workload))
      ensures exists a: nat, b: nat ::
                Shape.Shaped(outcome.trials, InitialV(workload), opts.plateauGain,
                             SplitCandidates(InitialV(workload), Width(workload.tables)), a, b)
      ensures Judgement.Faithful(Given(), old(canary.State()), State())
      ensures forall t :: t in outcome.trials ==> Judgement.JudgedIn(Given(), trace, t)
      ensures Reasons.Told(Given(), State()) && Ledger.Entered(Given(), State())
      ensures outcome.aborted == None && outcome.budgetLimited == None ==>
                (outcome.trials != [] <==> startProduct <= budget.maxProduct)
    {
      hide Escalation, Bisection, Splitting, FinalProbe, Guarantees.Ended, Guarantees.Sound, Judgement.Faithful,
           Judgement.JudgedIn, Reasons.Told, Shape.Shaped, Climb.Explained, Ledger.Entered;
      ghost var m := State();
      var v0, widest := Init(budget.maxProduct + 1);
      ghost var given := Given();
      ghost var m0 := State();
      outcome := RunPhases(v0, widest);
      Guarantees.RunKeeps(given, m.(spent := m0.spent), v0, widest);
      Guarantees.RunMeasuresExactly(given, m.(spent := m0.spent), v0, widest);
      Judgement.RunFaithful(given, m.(spent := m0.spent), v0, widest);
      Guarantees.EndedSound(given, State(), v0);
      Judgement.OutcomeJudged(given, m.canary, State(), false);
      Reasons.RunTold(given, m.(spent := m0.spent), v0, widest);
      Ledger.RunEntered(given, m.(spent := m0.spent), v0, widest);
      Shape.RunShape(given, m.(spent := m0.spent), v0, widest);
    }

    /** Measure: exactly these settings, in order. */
    method MeasureSettings(settings: seq<Settings>) returns (outcome: Outcome)
      requires lastGood == 0 && prevRun == 0 && trace == [] && opts.repeats > 0
      requires budget.maxTrials > 0 ==> budget.trials <= budget.maxTrials
      requires forall k :: 0 <= k < |settings| ==> settings[k].Product() >= 0
      modifies this, canary, budget
      ensures outcome == out && refOIDs == GroundTruth(reference, workload)
      ensures State() == MeasureAll(Given(), old(State()), settings) && Guarantees.Sound(Given(), State(), true)
      ensures Judgement.Faithful(Given(), old(canary.State()), State())
      ensures forall t :: t in outcome.trials ==> Judgement.JudgedIn(Given(), trace, t)
      ensures Reasons.Told(Given(), State()) && Ledger.Entered(Given(), State())
      ensures forall i :: 0 <= i < |outcome.trials| ==> outcome.trials[i].phase == Try
      ensures outcome.aborted == None && outcome.budgetLimited == None ==>
                Guarantees.AllMet(outcome.trials, settings, |settings|)
    {
      hide Measure, FinalProbe, Guarantees.Sound, Guarantees.AllMet, Judgement.Faithful, Judgement.JudgedIn,
           Reasons.Told, Ledger.Entered;
      ghost var m := State();
      var _, _ := Init(MAX_INT);
      ghost var given := Given();
      assert Guarantees.Unused(given, m);
      Guarantees.MeasureAllKeeps(given, m, settings);
      Judgement.MeasureAllFaithful(given, m, settings);
      Judgement.OutcomeJudged(given, m.canary, MeasureAll(given, m, settings), true);
      Reasons.MeasureAllTold(given, m, settings);
      Ledger.MeasureAllEntered(given, m, settings);
      ghost var whole := Prescribed(given, State(), settings);
      assert settings[0..] == settings;
      for k := 0 to |settings|
        invariant Given() == given && Prescribed(given, State(), settings[k..]) == whole
      {
        assert settings[k..][1..] == settings[k + 1..];
        var t, ended := MeasureOne(settings[k], Try);
        if ended {
          return out;
        }
      }
      ProbeFinally();
      return out;
    }
  }
}
