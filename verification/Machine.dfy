/** The search as a deterministic machine over its oracles (internal/search/search.go):
    what every step makes of the state. Runner computes these functions. */
module Machine {
  import opened Arithmetic
  import opened Oid
  import opened Agent
  import opened Walk
  import opened Safety
  import opened Trials
  import opened Workloads
  import opened Sorting

  /** ctx.Err(): nil, the deadline, or a cancel. */
  datatype Context = Live | DeadlineExceeded | Canceled

  /** walk.Run as seen from the search. */
  datatype WalkReport = WalkReport(result: Result, took: nat, failed: bool)

  /** Everything outside the search, at each time it is asked. */
  datatype Env = Env(ctx: nat -> Context, probe: nat -> ProbeReply, walk: (nat, Settings) -> WalkReport,
                     elapsed: nat -> nat)

  datatype Options = Options(repeats: nat, cooldown: nat, tolerance: real, plateauGain: real)

  datatype Limit = TrialsUsed | DurationUsed

  /** Why escalation ended. */
  datatype Note = ExceedsMaxProduct(s: Settings) | NotTried(s: Settings) | FailedThenBisect(s: Settings)
                | Plateau(s: Settings) | StressAfter(s: Settings)

  datatype Outcome = Outcome(trials: seq<Trial>, aborted: Option<Stop>, budgetLimited: Option<Limit>, stressed: bool,
                             note: Option<Note>)

  const START := Settings(2, 10)
  const MAX_INT := 0x7FFF_FFFF_FFFF_FFFF

  /** What does not change during a search. */
  datatype Setup = Setup(env: Env, opts: Options, baseline: nat, maxDuration: nat, maxTrials: nat, maxProduct: nat,
                         spentBefore: nat, refOIDs: seq<Arcs>, startProduct: int)

  /** What does. */
  datatype Progress = Progress(now: nat, out: Outcome, ceiling: int, lastGood: int, prevRun: nat, lastSet: Settings,
                         measured: set<Settings>, canary: CanaryState, spent: nat, trace: seq<Event>)

  function CoreOf(m: Progress): Core {
    Core(m.out.trials, m.ceiling, m.lastGood, m.prevRun, m.lastSet, m.measured, m.trace)
  }

  /** A run that misses more reference OIDs than tolerated has failed. */
  function Checked(u: Setup, res: Result): Result {
    if res.failure == [] && u.refOIDs != [] then
      var missing := CountMissing(u.refOIDs, res.oids);
      if 100.0 * (missing as real) / (|u.refOIDs| as real) > u.opts.tolerance then
        res.(failure := [MissingOIDs(missing, |u.refOIDs|)])
      else res
    else res
  }

  /** The trial recorded for a setting that did not complete its repeats. */
  function BrokenOff(s: Settings, phase: Phase, runs: seq<Result>, cause: Cause): Trial {
    Trial(s, phase, runs, 0.0, Some(cause))
  }

  /** record, and the recording of a measured trial. */
  function Keep(m: Progress, t: Trial): Progress {
    m.(out := m.out.(trials := m.out.trials + [t]), spent := m.spent + 1, trace := m.trace + [Kept(t)])
  }

  function KeepIf(m: Progress, s: Settings, phase: Phase, runs: seq<Result>, cause: Cause): Progress {
    if runs == [] then m else Keep(m, BrokenOff(s, phase, runs, cause))
  }

  /** interrupted: none when the context is live, else the ended state. */
  function Interrupt(u: Setup, m: Progress, s: Settings, phase: Phase, runs: seq<Result>): (Progress, bool) {
    var m1 := m.(now := m.now + 1);
    match u.env.ctx(m.now)
    case Live => (m1, false)
    case DeadlineExceeded =>
      (KeepIf(m1.(out := m.out.(budgetLimited := Some(DurationUsed))), s, phase, runs, Interrupted), true)
    case Canceled =>
      (KeepIf(m1.(out := m.out.(aborted := Some(InterruptedDuring(s)))), s, phase, runs, Interrupted), true)
  }

  function Abort(m: Progress, reason: Stop, s: Settings, phase: Phase, runs: seq<Result>): Progress {
    KeepIf(m.(out := m.out.(aborted := Some(reason))), s, phase, runs, AbortedBy(reason))
  }

  /** How one repeat of a trial ends. */
  datatype Step = Ran(res: Result) | Cut | Ended

  function Sleep(u: Setup, m: Progress): Progress {
    m.(trace := m.trace + [Slept(Cooldown(u.opts.cooldown, m.prevRun))])
  }

  function Probe(u: Setup, m: Progress): (Progress, Verdict) {
    var (canary, v) := Classify(m.canary, u.baseline, u.env.probe(m.now));
    (m.(now := m.now + 1, canary := canary, trace := m.trace + [Probed(v, m.now)]), v)
  }

  /** Stress is noted, and caps the ceiling unless the settings were prescribed. */
  function Heed(u: Setup, m: Progress, v: Verdict, phase: Phase): Progress {
    if v != Stressed then m else
    var m1 := m.(out := m.out.(stressed := true));
    if phase == Try then m1 else m1.(ceiling := Min(m.ceiling, Max(m.lastGood, u.startProduct) + 1))
  }

  function WalkOnce(u: Setup, m: Progress, s: Settings, phase: Phase, runs: seq<Result>): (Progress, Step) {
    var report := u.env.walk(m.now, s);
    var m1 := m.(now := m.now + 1, lastSet := s, prevRun := report.took,
                 trace := m.trace + [Walked(s, report.took, m.now)]);
    if !report.failed then (m1, Ran(Checked(u, report.result)))
    else
      var (m2, interrupted) := Interrupt(u, m1, s, phase, runs);
      (if interrupted then m2 else m2.(out := m2.out.(aborted := Some(TransportError(s)))), Ended)
  }

  /** What the verdict of the probe leads to. */
  function OnVerdict(u: Setup, m: Progress, v: Verdict, s: Settings, phase: Phase, runs: seq<Result>)
    : (Progress, Step)
  {
    if v == Restarted then (Abort(m, AgentRestarted(m.lastSet), s, phase, runs), Ended)
    else if v == Lost then (Abort(m, AgentLost(m.lastSet), s, phase, runs), Ended)
    else
      var m1 := Heed(u, m, v, phase);
      if v == Stressed && s.Product() >= m1.ceiling then
        (KeepIf(m1, s, phase, runs, StressedBeforeRepeat(|runs| + 1)), Cut)
      else
        WalkOnce(u, m1, s, phase, runs)
  }

  /** One repeat: cooldown, probe, walk. */
  function Repeat(u: Setup, m: Progress, s: Settings, phase: Phase, runs: seq<Result>): (Progress, Step) {
    var (m1, interrupted) := Interrupt(u, Sleep(u, m), s, phase, runs);
    if interrupted then (m1, Ended)
    else
      var (m2, v) := Probe(u, m1);
      OnVerdict(u, m2, v, s, phase, runs)
  }

  /** The loop over the repeats, from these runs on: the last step, Ran when the runs
      are to be scored. */
  function Repeats(u: Setup, m: Progress, s: Settings, phase: Phase, runs: seq<Result>): (Progress, seq<Result>,
                   bool, bool)
    decreases u.opts.repeats - |runs|
  {
    if |runs| >= u.opts.repeats then (m, runs, true, false)
    else
      var (m1, step) := Repeat(u, m, s, phase, runs);
      match step
      case Cut => (m1, runs, false, false)
      case Ended => (m1, runs, false, true)
      case Ran(res) =>
        if res.failure != [] then (m1, runs + [res], true, false) else Repeats(u, m1, s, phase, runs + [res])
  }

  /** Recording a scored trial moves the largest clean product or the ceiling. */
  function Settle(m: Progress, t: Trial): Progress {
    var m1 := Keep(m, t);
    if t.OK() then m1.(lastGood := Max(m.lastGood, t.Product())) else m1.(ceiling := Min(m.ceiling, t.Product()))
  }

  function Exhausted(u: Setup, m: Progress): Exhaustion {
    if u.maxTrials > 0 && m.spent >= u.maxTrials then MaxTrials
    else if u.maxDuration > 0 && u.env.elapsed(m.now) >= u.maxDuration then MaxDuration
    else NotExhausted
  }

  /** A setting that is really measured. */
  function MeasureNew(u: Setup, m: Progress, s: Settings, phase: Phase): (Progress, Option<Trial>, bool) {
    var (m1, runs, scored, stop) := Repeats(u, m, s, phase, []);
    if !scored then (m1, None, stop)
    else
      var t := ScoreOf(s, phase, runs);
      (Settle(m1, t), Some(t), false)
  }

  /** trial: the state, the trial unless it was skipped or cut, and whether to stop. */
  function Measure(u: Setup, m: Progress, s: Settings, phase: Phase): (Progress, Option<Trial>, bool) {
    if s.Product() >= m.ceiling || s in m.measured then (m, None, false)
    else
      var (m1, interrupted) := Interrupt(u, m, s, phase, []);
      if interrupted then (m1, None, true)
      else
        var spent := Exhausted(u, m1);
        if spent != NotExhausted then
          (m1.(now := m1.now + 1,
               out := m1.out.(budgetLimited := Some(if spent == MaxTrials then TrialsUsed else DurationUsed))),
           None, true)
        else
          MeasureNew(u, m1.(now := m1.now + 1, measured := m1.measured + {s}), s, phase)
  }

  function Invalidated(trials: seq<Trial>, s: Settings, reason: Stop): (r: seq<Trial>)
    ensures |r| == |trials|
    ensures forall i :: 0 <= i < |r| ==>
              r[i] == if trials[i].settings == s then trials[i].(failure := Some(AbortedBy(reason)), score := 0.0)
                  else trials[i]
  {
    seq(|trials|, i requires 0 <= i < |trials| =>
      if trials[i].settings == s then trials[i].(failure := Some(AbortedBy(reason)), score := 0.0) else trials[i])
  }

  function Invalidate(m: Progress, reason: Stop): Progress {
    m.(out := m.out.(aborted := Some(reason), trials := Invalidated(m.out.trials, m.lastSet, reason)))
  }

  /** finalProbe: a restart or loss after the last trial fails it. */
  function FinalProbe(u: Setup, m: Progress): Progress {
    var m0 := m.(now := m.now + 1);
    if u.env.ctx(m.now) != Live || m.out.trials == [] then m0
    else
      var (m1, v) := Probe(u, m0);
      if v == Restarted then Invalidate(m1, AgentRestarted(m1.lastSet))
      else if v == Lost then Invalidate(m1, AgentLost(m1.lastSet))
      else m1
  }

  // ---------- The phases ----------

  /** Less than the plateau gain over the previous score. */
  predicate Plateaued(score: real, before: real, gain: real) {
    score < before * (1.0 + gain)
  }

  function Noted(m: Progress, note: Note): Progress {
    m.(out := m.out.(note := Some(note)))
  }

  lemma DoublingFits(reps: nat, v0: int, max: nat)
    requires reps > 0 && v0 > 0 && reps * v0 <= max < 0x8000_0000
    ensures reps * 2 <= 0xFFFF_FFFF && reps * 2 * v0 > reps * v0
  {
    assert reps * v0 >= reps;
    assert reps * 2 * v0 == reps * v0 + reps * v0;
  }

  /** Doubling max-repetitions: the last clean and the first failed R, if any. */
  function Escalation(u: Setup, m: Progress, reps: Uint32, v0: int, lastGoodR: Uint32, prevScore: real)
    : (r: (Progress, Uint32, Uint32, bool))
    requires reps > 0 && v0 > 0 && u.maxProduct < 0x8000_0000
    requires lastGoodR < reps && lastGoodR * v0 <= u.maxProduct
    ensures lastGoodR <= r.1 && r.1 * v0 <= u.maxProduct
    ensures r.2 > 0 ==> r.1 < r.2 < 0x8000_0000 && r.2 * v0 <= u.maxProduct
    decreases u.maxProduct + 1 - reps * v0
  {
    var s := Settings(reps, v0);
    if s.Product() > u.maxProduct then (Noted(m, ExceedsMaxProduct(s)), lastGoodR, 0, false)
    else
      var (m1, t, stop) := Measure(u, m, s, Escalate);
      if stop then (m1, lastGoodR, 0, true)
      else if t.None? then (Noted(m1, NotTried(s)), lastGoodR, 0, false)
      else if !t.value.OK() then
        DoublingFits(reps, v0, u.maxProduct);
        (Noted(m1, FailedThenBisect(s)), lastGoodR, reps, false)
      else if lastGoodR > 0 && Plateaued(t.value.score, prevScore, u.opts.plateauGain) then
        (Noted(m1, Plateau(s)), reps, 0, false)
      else if m1.out.stressed then (Noted(m1, StressAfter(s)), reps, 0, false)
      else
        DoublingFits(reps, v0, u.maxProduct);
        Escalation(u, m1, reps * 2, v0, reps, t.value.score)
  }

  /** Bisecting between a clean and a failed R, to a tenth. */
  function Bisection(u: Setup, m: Progress, lastGoodR: Uint32, firstBadR: Uint32, v0: int)
    : (r: (Progress, Uint32, Uint32, bool))
    requires lastGoodR < firstBadR < 0x8000_0000
    ensures lastGoodR <= r.1 < r.2 <= firstBadR
    decreases firstBadR - lastGoodR
  {
    if firstBadR - lastGoodR <= Max(1, lastGoodR / 10) then (m, lastGoodR, firstBadR, false)
    else
      var mid: Uint32 := (lastGoodR + firstBadR) / 2;
      var (m1, t, stop) := Measure(u, m, Settings(mid, v0), Bisect);
      if stop then (m1, lastGoodR, firstBadR, true)
      else if t.None? then (m1, lastGoodR, firstBadR, false)
      else if t.value.OK() then Bisection(u, m1, mid, firstBadR, v0)
      else Bisection(u, m1, lastGoodR, mid, v0)
  }

  lemma QuotientFits(product: nat, v: int)
    requires v > 0
    ensures 0 <= product / v <= product && (product / v) * v <= product
  {
    var q, r := product / v, product % v;
    assert product == q * v + r && 0 <= r < v;
    MulSign(q, v);
  }

  /** Other splits of the final product. */
  function Splitting(u: Setup, m: Progress, product: nat, vs: seq<int>): (Progress, bool)
    requires product <= 0xFFFF_FFFF && forall k :: 0 <= k < |vs| ==> vs[k] > 0
    decreases |vs|
  {
    if vs == [] then (m, false)
    else if product / vs[0] < 1 then Splitting(u, m, product, vs[1..])
    else
      QuotientFits(product, vs[0]);
      var (m1, t, stop) := Measure(u, m, Settings(product / vs[0], vs[0]), Split);
      if stop then (m1, true) else Splitting(u, m1, product, vs[1..])
  }

  /** Measure: exactly the prescribed settings, in order. */
  function Prescribed(u: Setup, m: Progress, settings: seq<Settings>): (Progress, bool)
    decreases |settings|
  {
    if settings == [] then (m, false)
    else
      var (m1, t, stop) := Measure(u, m, settings[0], Try);
      if stop then (m1, true) else Prescribed(u, m1, settings[1..])
  }

  // ---------- Whole searches ----------

  const SPLIT_VARS: seq<int> := [5, 10, 20, 50]

  predicate IntLte(x: int, y: int) { x <= y }

  /** The first n standard values that are not v0 and no wider than the widest table. */
  function Ladder(v0: int, widest: int, n: nat): seq<int>
    requires n <= |SPLIT_VARS|
  {
    if n == 0 then [] else
    var v := SPLIT_VARS[n - 1];
    Ladder(v0, widest, n - 1) + if v != v0 && (widest == 0 || v <= widest) then [v] else []
  }

  /** splitCandidates: the ladder and the table width, in ascending order. */
  function SplitCandidates(v0: int, widest: int): seq<int> {
    var out := Ladder(v0, widest, |SPLIT_VARS|);
    Sort(IntLte, if widest > 0 && widest != v0 && widest !in out then out + [widest] else out)
  }

  /** init: the state of a search before its first trial. */
  function Begin(m: Progress, ceiling: int): Progress {
    m.(out := Outcome([], None, None, false, None), ceiling := ceiling, measured := {})
  }

  lemma {:induction false} LadderHas(v0: int, widest: int, n: nat, v: int)
    requires n <= |SPLIT_VARS|
    ensures v in Ladder(v0, widest, n) <==> v in SPLIT_VARS[..n] && v != v0 && (widest == 0 || v <= widest)
  {
    if n > 0 {
      LadderHas(v0, widest, n - 1, v);
      var last := SPLIT_VARS[n - 1];
      assert SPLIT_VARS[..n] == SPLIT_VARS[..n - 1] + [last];
      assert v in SPLIT_VARS[..n] <==> v in SPLIT_VARS[..n - 1] || v == last;
    }
  }

  lemma {:induction false} LadderAscends(v0: int, widest: int, n: nat)
    requires n <= |SPLIT_VARS|
    ensures forall i, j :: 0 <= i < j < |Ladder(v0, widest, n)| ==> Ladder(v0, widest, n)[i] < Ladder(v0, widest, n)[j]
    ensures forall v :: v in Ladder(v0, widest, n) ==> exists k :: 0 <= k < n && v == SPLIT_VARS[k]
  {
    if n > 0 {
      LadderAscends(v0, widest, n - 1);
      var rest, last := Ladder(v0, widest, n - 1), SPLIT_VARS[n - 1];
      forall i | 0 <= i < |rest| ensures rest[i] < last {
        assert rest[i] in rest;
        var k :| 0 <= k < n - 1 && rest[i] == SPLIT_VARS[k];
      }
    }
  }

  lemma CandidatesPositive(v0: int, widest: int)
    requires widest >= 0
    ensures forall k :: 0 <= k < |SplitCandidates(v0, widest)| ==> SplitCandidates(v0, widest)[k] > 0
  {
    hide Ladder, Sort;
    var out, r := Ladder(v0, widest, |SPLIT_VARS|), SplitCandidates(v0, widest);
    var all := if widest > 0 && widest != v0 && widest !in out then out + [widest] else out;
    LadderAscends(v0, widest, |SPLIT_VARS|);
    SameMembers(r, all);
    forall k | 0 <= k < |r| ensures r[k] > 0 {
      assert r[k] in all;
      if r[k] in out {
        var i :| 0 <= i < |SPLIT_VARS| && r[k] == SPLIT_VARS[i];
        assert SPLIT_VARS[i] > 0;
      }
    }
  }

  /** The split phase, if anything was clean, and the final probe. */
  function Finish(u: Setup, m: Progress, v0: int, widest: int, goodR: Uint32): Progress
    requires v0 > 0 && widest >= 0 && goodR * v0 <= u.maxProduct < 0x8000_0000
  {
    if goodR == 0 then FinalProbe(u, m)
    else
      CandidatesPositive(v0, widest);
      MulSign(goodR, v0);
      var (m1, stop) := Splitting(u, m, goodR * v0, SplitCandidates(v0, widest));
      if stop then m1 else FinalProbe(u, m1)
  }

  /** The three phases. */
  function AfterInit(u: Setup, m: Progress, v0: int, widest: int): Progress
    requires v0 > 0 && widest >= 0 && 0 <= u.maxProduct < 0x8000_0000
  {
    var (m1, lastGoodR, firstBadR, stop) := Escalation(u, m, START.maxRepetitions, v0, 0, 0.0);
    if stop then m1
    else if firstBadR == 0 then Finish(u, m1, v0, widest, lastGoodR)
    else
      var (m2, goodR, badR, stop2) := Bisection(u, m1, lastGoodR, firstBadR, v0);
      MulMonotone(goodR, firstBadR, v0);
      if stop2 then m2 else Finish(u, m2, v0, widest, goodR)
  }

  /** Run, for an initial V of v0 and the given table width. */
  function RunSearch(u: Setup, m: Progress, v0: int, widest: int): Progress
    requires v0 > 0 && widest >= 0 && 0 <= u.maxProduct < 0x8000_0000
  {
    AfterInit(u, Begin(m, u.maxProduct + 1), v0, widest)
  }

  /** Measure. */
  function MeasureAll(u: Setup, m: Progress, settings: seq<Settings>): Progress {
    var (m1, stop) := Prescribed(u, Begin(m, MAX_INT), settings);
    if stop then m1 else FinalProbe(u, m1)
  }

  lemma CandidatesHave(v0: int, widest: int, v: int)
    requires widest >= 0
    ensures v in SplitCandidates(v0, widest) <==>
              v != v0 && ((v in SPLIT_VARS && (widest == 0 || v <= widest)) || (widest > 0 && v == widest))
  {
    hide Ladder, Sort;
    var out := Ladder(v0, widest, |SPLIT_VARS|);
    var all := if widest > 0 && widest != v0 && widest !in out then out + [widest] else out;
    LadderHas(v0, widest, |SPLIT_VARS|, v);
    LadderHas(v0, widest, |SPLIT_VARS|, widest);
    assert SPLIT_VARS[..|SPLIT_VARS|] == SPLIT_VARS;
    SameMembers(SplitCandidates(v0, widest), all);
  }

  lemma CandidatesAscend(v0: int, widest: int, i: nat, j: nat)
    requires widest >= 0 && i < j < |SplitCandidates(v0, widest)|
    ensures SplitCandidates(v0, widest)[i] < SplitCandidates(v0, widest)[j]
  {
    hide Ladder, Sort;
    var out := Ladder(v0, widest, |SPLIT_VARS|);
    var all := if widest > 0 && widest != v0 && widest !in out then out + [widest] else out;
    LadderAscends(v0, widest, |SPLIT_VARS|);
    SortUnique(IntLte, all);
    var r := SplitCandidates(v0, widest);
    assert r[i] != r[j] && IntLte(r[i], r[j]);
  }

  /** The candidates: the standard values no wider than the widest table, and the width
      itself, but never v0; each once, ascending. */
  lemma CandidatesAre(v0: int, widest: int, v: int)
    requires widest >= 0
    ensures v in SplitCandidates(v0, widest) <==>
              v != v0 && ((v in {5, 10, 20, 50} && (widest == 0 || v <= widest)) || (widest > 0 && v == widest))
    ensures forall i, j :: 0 <= i < j < |SplitCandidates(v0, widest)| ==>
              SplitCandidates(v0, widest)[i] < SplitCandidates(v0, widest)[j]
  {
    hide SplitCandidates;
    CandidatesHave(v0, widest, v);
    var r := SplitCandidates(v0, widest);
    forall i, j | 0 <= i < j < |r| ensures r[i] < r[j] {
      CandidatesAscend(v0, widest, i, j);
    }
  }
}
