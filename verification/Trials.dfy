/** Trials, their scores, and what must hold of a search at any time, as predicates on
    values (internal/search/search.go:45-98, 390-408). */
module Trials {
  import opened Sorting
  import opened Walk
  import opened Safety

  datatype Option<T> = None | Some(value: T)

  datatype Phase = Escalate | Bisect | Split | Try

  /** Why the whole run stopped for the agent's or the operator's sake. */
  datatype Stop = AgentRestarted(after: Settings) | AgentLost(after: Settings)
                | InterruptedDuring(s: Settings) | TransportError(s: Settings)

  /** Why a trial failed. */
  datatype Cause = RunFailed(failure: seq<Failure>) | NoRuns | AbortedBy(stop: Stop) | StressedBeforeRepeat(i: nat)
      | Interrupted

  datatype Trial = Trial(settings: Settings, phase: Phase, runs: seq<Result>, score: real, failure: Option<Cause>) {
    predicate OK() { failure.None? }
    function Product(): int { settings.Product() }
  }

  // ---------- The score ----------

  function AgentTime(pdus: seq<PDU>): nat {
    if pdus == [] then 0 else AgentTime(pdus[..|pdus| - 1]) + pdus[|pdus| - 1].rtt
  }

  /** Varbinds per second of agent time, times being in nanoseconds. */
  function Rate(res: Result): real {
    var d := AgentTime(res.pdus);
    if d == 0 then 0.0 else res.varbinds as real / (d as real / 1_000_000_000.0)
  }

  /** It is the sum of the round-trip times. */
  lemma {:induction false} AgentTimeSums(a: seq<PDU>, b: seq<PDU>)
    ensures AgentTime([]) == 0 && forall p: PDU :: AgentTime([p]) == p.rtt
    ensures AgentTime(a + b) == AgentTime(a) + AgentTime(b)
  {
    forall p: PDU ensures AgentTime([p]) == p.rtt {
      assert [p][..0] == [];
    }
    if b == [] {
      assert a + b == a;
    } else {
      AgentTimeSums(a, b[..|b| - 1]);
      assert (a + b)[..|a + b| - 1] == a + b[..|b| - 1];
    }
  }

  /** Rate times agent time is the number of varbinds; no time, no rate. */
  lemma RateTimesTime(res: Result)
    ensures var d := AgentTime(res.pdus);
            if d > 0 then Rate(res) * (d as real) == (res.varbinds as real) * 1_000_000_000.0 else Rate(res) == 0.0
  {
    var d, v := AgentTime(res.pdus) as real, res.varbinds as real;
    if d > 0.0 {
      var seconds := d / 1_000_000_000.0;
      assert v / seconds * seconds == v && seconds * 1_000_000_000.0 == d;
      assert Rate(res) * d == v / seconds * (seconds * 1_000_000_000.0) == v / seconds * seconds * 1_000_000_000.0;
    }
  }

  lemma Outweighs(x: real, y: real, s: real, t: real)
    requires 0.0 < s < t && x * s == y * t > 0.0
    ensures x > y
  {
    assert y > 0.0;
    assert y * s < y * t;
    assert (x - y) * s == x * s - y * s > 0.0;
  }

  /** Of two runs that collected the same, the faster has the higher rate. */
  lemma FasterIsHigher(a: Result, b: Result)
    requires a.varbinds == b.varbinds > 0 && 0 < AgentTime(a.pdus) < AgentTime(b.pdus)
    ensures Rate(a) > Rate(b)
  {
    RateTimesTime(a);
    RateTimesTime(b);
    var x, y, s, t := Rate(a), Rate(b), AgentTime(a.pdus) as real, AgentTime(b.pdus) as real;
    assert x * s == y * t > 0.0;
    Outweighs(x, y, s, t);
  }

  predicate RealLte(x: real, y: real) { x <= y }

  function Rates(runs: seq<Result>): (r: seq<real>)
    ensures |r| == |runs| && forall k :: 0 <= k < |runs| ==> r[k] == Rate(runs[k])
  {
    if runs == [] then [] else Rates(runs[..|runs| - 1]) + [Rate(runs[|runs| - 1])]
  }

  predicate AllClean(runs: seq<Result>) {
    forall k :: 0 <= k < |runs| ==> runs[k].failure == []
  }

  function FirstFailure(runs: seq<Result>): seq<Failure> {
    if runs == [] then [] else if runs[0].failure != [] then runs[0].failure else FirstFailure(runs[1..])
  }

  function Middle(rates: seq<real>): real
    requires rates != []
  {
    var sorted := Sort(RealLte, rates);
    SameMembers(sorted, rates);
    sorted[|sorted| / 2]
  }

  /** score: the first failing run fails the trial; clean runs score their median rate. */
  function ScoreOf(s: Settings, phase: Phase, runs: seq<Result>): Trial {
    var failure := FirstFailure(runs);
    if failure != [] then Trial(s, phase, runs, 0.0, Some(RunFailed(failure)))
    else if runs == [] then Trial(s, phase, runs, 0.0, Some(NoRuns))
    else Trial(s, phase, runs, Middle(Rates(runs)), None)
  }

  method Score(s: Settings, phase: Phase, runs: seq<Result>) returns (t: Trial)
    ensures t == ScoreOf(s, phase, runs)
  {
    var rates: seq<real> := [];
    assert runs[0..] == runs;
    for k := 0 to |runs|
      invariant rates == Rates(runs[..k]) && FirstFailure(runs[k..]) == FirstFailure(runs)
    {
      assert runs[k..][1..] == runs[k + 1..];
      if runs[k].failure != [] {
        return Trial(s, phase, runs, 0.0, Some(RunFailed(runs[k].failure)));
      }
      assert runs[..k + 1][..k] == runs[..k];
      rates := rates + [Rate(runs[k])];
    }
    assert runs[..|runs|] == runs;
    if |rates| == 0 {
      return Trial(s, phase, runs, 0.0, Some(NoRuns));
    }
    return Trial(s, phase, runs, Middle(rates), None);
  }

  lemma {:induction false} FirstFailureClean(runs: seq<Result>)
    ensures FirstFailure(runs) == [] <==> AllClean(runs)
  {
    if runs != [] {
      FirstFailureClean(runs[1..]);
      assert forall k :: 0 < k < |runs| ==> runs[k] == runs[1..][k - 1];
    }
  }

  /** The failure of a trial is that of its first run that failed. */
  lemma {:induction false} FirstFailureIs(runs: seq<Result>) returns (k: nat)
    requires FirstFailure(runs) != []
    ensures k < |runs| && FirstFailure(runs) == runs[k].failure && AllClean(runs[..k])
  {
    if runs[0].failure != [] {
      k := 0;
    } else {
      k := FirstFailureIs(runs[1..]);
      assert runs[..k + 1] == [runs[0]] + runs[1..][..k];
      k := k + 1;
    }
  }

  /** A trial is clean when it has runs and all of them are clean; it then scores the
      median of their rates, otherwise zero. */
  lemma ScoreMeaning(s: Settings, phase: Phase, runs: seq<Result>)
    ensures var t := ScoreOf(s, phase, runs);
            && t.settings == s && t.phase == phase && t.runs == runs
            && (t.OK() <==> runs != [] && AllClean(runs))
            && (if t.OK() then Median(RealLte, Rates(runs), t.score) else t.score == 0.0)
  {
    FirstFailureClean(runs);
    if runs != [] {
      SortMedian(RealLte, Rates(runs));
      SameMembers(Sort(RealLte, Rates(runs)), Rates(runs));
    }
  }

  /** A trial of one clean run scores the varbinds per second of agent time. */
  lemma SingleRunScore(s: Settings, phase: Phase, run: Result)
    requires run.failure == []
    ensures var t, d := ScoreOf(s, phase, [run]), AgentTime(run.pdus);
            && t.OK() && (d == 0 ==> t.score == 0.0)
            && t.score * (d as real) == if d > 0 then (run.varbinds as real) * 1_000_000_000.0 else 0.0
  {
    hide ScoreOf, Rate, Median;
    ScoreMeaning(s, phase, [run]);
    RateTimesTime(run);
    var x := ScoreOf(s, phase, [run]).score;
    MedianIn(RealLte, Rates([run]), x);
    assert x == Rates([run])[0] == Rate([run][0]);
  }

  /** The score of a clean trial is the upper median of its rates: at most half of them
      are below it, more than half are not above it. */
  lemma ScoreRanks(s: Settings, phase: Phase, runs: seq<Result>)
    requires ScoreOf(s, phase, runs).OK()
    ensures var x := ScoreOf(s, phase, runs).score;
            && (exists k :: 0 <= k < |runs| && x == Rate(runs[k]))
            && 2 * |set k: nat | k < |runs| && Rate(runs[k]) < x| <= |runs|
            && |runs| < 2 * |set k: nat | k < |runs| && Rate(runs[k]) <= x|
  {
    hide ScoreOf, Rate, Median;
    ScoreMeaning(s, phase, runs);
    var x, rates := ScoreOf(s, phase, runs).score, Rates(runs);
    MedianIn(RealLte, rates, x);
    MedianRanks(RealLte, rates, x);
    var k :| 0 <= k < |rates| && rates[k] == x;
    assert (set k: nat | k < |runs| && Rate(runs[k]) < x) == Below(RealLte, rates, x);
    assert (set k: nat | k < |runs| && Rate(runs[k]) <= x) == UpTo(RealLte, rates, x);
  }

  // ---------- What a search does, event by event ----------

  /** Probes and walks with the time at which their oracle was asked. */
  datatype Event =
    | Slept(d: nat)
    | Probed(v: Verdict, at: nat)
    | Walked(s: Settings, took: nat, at: nat)
    | Kept(t: Trial)
  {
    predicate Stress() { Probed? && v == Stressed }
  }

  /** The trials recorded so far. */
  function KeptTrials(trace: seq<Event>): seq<Trial> {
    if trace == [] then [] else
    KeptTrials(trace[..|trace| - 1]) + if trace[|trace| - 1].Kept? then [trace[|trace| - 1].t] else []
  }

  /** How long the last walk took. */
  function LastTook(trace: seq<Event>): nat {
    if trace == [] then 0
    else if trace[|trace| - 1].Walked? then trace[|trace| - 1].took
    else LastTook(trace[..|trace| - 1])
  }

  function LargestClean(trials: seq<Trial>): int {
    if trials == [] then 0 else
    var rest, t := LargestClean(trials[..|trials| - 1]), trials[|trials| - 1];
    if t.OK() && t.Product() > rest then t.Product() else rest
  }

  function Max(x: int, y: int): int { if x < y then y else x }
  function Min(x: int, y: int): int { if x < y then x else y }

  predicate Good(v: Verdict) { v == OK || v == Stressed }

  /** The constants of one search: minimal cooldown, product of the first trial, repeats,
      whether settings are prescribed, and the first product that must not be tried. */
  datatype Law = Law(minimum: nat, start: int, repeats: nat, prescribed: bool, limit: int)

  /** A walk at s may start after these events: it follows a cooldown of the prescribed
      length and then a good probe, no bad verdict was ever given, and its product is
      below the limit, below that of every trial recorded as failed, and, once the
      canary showed stress, not above what was clean by then or the first trial's. */
  ghost predicate SafeWalk(law: Law, before: seq<Event>, s: Settings) {
    var n := |before|;
    && n >= 2 && before[n - 1].Probed? && Good(before[n - 1].v)
    && before[n - 2] == Slept(Cooldown(law.minimum, LastTook(before)))
    && (forall k :: 0 <= k < n && before[k].Probed? ==> Good(before[k].v))
    && s.Product() < law.limit
    && (forall k :: 0 <= k < |KeptTrials(before)| && !KeptTrials(before)[k].OK() ==>
        s.Product() < KeptTrials(before)[k].Product())
    && (!law.prescribed ==> forall k :: 0 <= k < n && before[k].Stress() ==>
          s.Product() <= Max(LargestClean(KeptTrials(before[..k])), law.start))
  }

  ghost predicate SafeTrace(law: Law, trace: seq<Event>) {
    forall k :: 0 <= k < |trace| && trace[k].Walked? ==> SafeWalk(law, trace[..k], trace[k].s)
  }

  /** The state of a search between two steps. */
  datatype Core = Core(trials: seq<Trial>, ceiling: int, lastGood: int, prevRun: nat, lastSet: Settings,
                       measured: set<Settings>, trace: seq<Event>)

  ghost predicate Distinct(trials: seq<Trial>) {
    forall i, j :: 0 <= i < j < |trials| ==> trials[i].settings != trials[j].settings
  }

  /** Every trial is below all trials that failed before it. */
  ghost predicate Descending(trials: seq<Trial>) {
    forall i, j :: 0 <= i < j < |trials| && !trials[i].OK() ==> trials[j].Product() < trials[i].Product()
  }

  ghost predicate Complete(trials: seq<Trial>, repeats: nat) {
    forall i :: 0 <= i < |trials| && trials[i].OK() ==>
      |trials[i].runs| == repeats && AllClean(trials[i].runs) && Median(RealLte, Rates(trials[i].runs), trials[i].score)
  }

  /** Below the limit and below everything that failed. */
  ghost predicate Permitted(law: Law, s: Settings, trials: seq<Trial>) {
    s.Product() < law.limit &&
    forall i :: 0 <= i < |trials| && !trials[i].OK() ==> s.Product() < trials[i].Product()
  }

  /** What holds at any time, also after the search was stopped. */
  ghost predicate Lasting(law: Law, c: Core) {
    && SafeTrace(law, c.trace) && KeptTrials(c.trace) == c.trials
    && Distinct(c.trials) && Descending(c.trials) && Complete(c.trials, law.repeats)
    && forall i :: 0 <= i < |c.trials| ==> c.trials[i].settings in c.measured && c.trials[i].Product() < law.limit
  }

  ghost predicate CeilingHolds(law: Law, c: Core) {
    && c.ceiling <= law.limit
    && (forall i :: 0 <= i < |c.trials| && !c.trials[i].OK() ==> c.ceiling <= c.trials[i].Product())
    && (!law.prescribed ==> forall k :: 0 <= k < |c.trace| && c.trace[k].Stress() ==>
          c.ceiling <= Max(LargestClean(KeptTrials(c.trace[..k])), law.start) + 1)
  }

  /** What holds while the search goes on. */
  ghost predicate Going(law: Law, c: Core) {
    && Lasting(law, c) && CeilingHolds(law, c)
    && c.prevRun == LastTook(c.trace) && c.lastGood == LargestClean(c.trials)
    && (forall k :: 0 <= k < |c.trace| && c.trace[k].Probed? ==> Good(c.trace[k].v))
  }

  /** The last walk was one of the last recorded trial. */
  ghost predicate LastWalkedRecorded(c: Core) {
    c.trials != [] ==> c.lastSet == c.trials[|c.trials| - 1].settings
  }

  ghost predicate New(s: Settings, trials: seq<Trial>) {
    forall i :: 0 <= i < |trials| ==> trials[i].settings != s
  }

  // ---------- The steps keep it ----------

  function Then(c: Core, e: Event): Core { c.(trace := c.trace + [e]) }

  lemma TraceSnoc(law: Law, trace: seq<Event>, e: Event)
    requires SafeTrace(law, trace) && (e.Walked? ==> SafeWalk(law, trace, e.s))
    ensures SafeTrace(law, trace + [e])
    ensures KeptTrials(trace + [e]) == KeptTrials(trace) + if e.Kept? then [e.t] else []
    ensures LastTook(trace + [e]) == if e.Walked? then e.took else LastTook(trace)
  {
    var all := trace + [e];
    assert all[..|trace|] == trace;
    forall k | 0 <= k < |all| && all[k].Walked? ensures SafeWalk(law, all[..k], all[k].s) {
      if k < |trace| {
        assert all[..k] == trace[..k];
      }
    }
  }

  lemma QuietStep(law: Law, c: Core, e: Event)
    requires Lasting(law, c) && (e.Slept? || e.Probed?)
    ensures Lasting(law, Then(c, e))
  {
    TraceSnoc(law, c.trace, e);
  }

  /** Earlier events and what precedes them are those of the shorter trace. */
  lemma StressIn(trace: seq<Event>, e: Event)
    ensures forall k :: 0 <= k < |trace| ==> (trace + [e])[..k] == trace[..k] && (trace + [e])[k] == trace[k]
    ensures (trace + [e])[..|trace|] == trace
  {
  }

  lemma LastingOf(law: Law, c: Core)
    requires Lasting(law, c)
    ensures SafeTrace(law, c.trace) && KeptTrials(c.trace) == c.trials
  {
  }

  lemma SleepStep(law: Law, c: Core)
    requires Going(law, c)
    ensures Going(law, Then(c, Slept(Cooldown(law.minimum, c.prevRun))))
  {
    hide SafeTrace, Lasting, LargestClean, KeptTrials, LastTook;
    LastingOf(law, c);
    var e := Slept(Cooldown(law.minimum, c.prevRun));
    QuietStep(law, c, e);
    StressIn(c.trace, e);
    TraceSnoc(law, c.trace, e);
  }

  /** The ceiling after a verdict. */
  function Restrained(law: Law, c: Core, e: Event): Core {
    if e.Stress() && !law.prescribed then c.(ceiling := Min(c.ceiling, Max(c.lastGood, law.start) + 1)) else c
  }

  lemma LastingMoves(law: Law, c: Core, d: Core)
    requires d.trials == c.trials && d.trace == c.trace && d.measured == c.measured
    ensures Lasting(law, c) ==> Lasting(law, d)
  {
  }

  lemma MoreMeasured(law: Law, c: Core, d: Core)
    requires Going(law, c) && d == c.(measured := d.measured) && c.measured <= d.measured
    ensures Going(law, d)
  {
    hide SafeTrace, Distinct, Descending, Complete, KeptTrials, LastTook, LargestClean;
  }

  lemma ProbeCeiling(law: Law, c: Core, e: Event)
    requires e.Probed? && CeilingHolds(law, c) && c.lastGood == LargestClean(c.trials)
        && KeptTrials(c.trace) == c.trials
    ensures CeilingHolds(law, Restrained(law, Then(c, e), e))
  {
    hide LargestClean, KeptTrials;
    StressIn(c.trace, e);
  }

  lemma ProbeStep(law: Law, c: Core, e: Event)
    requires Going(law, c) && e.Probed? && Good(e.v)
    ensures Going(law, Restrained(law, Then(c, e), e))
  {
    hide SafeTrace, Lasting, CeilingHolds, LastTook, LargestClean, KeptTrials;
    LastingOf(law, c);
    QuietStep(law, c, e);
    LastingMoves(law, Then(c, e), Restrained(law, Then(c, e), e));
    ProbeCeiling(law, c, e);
    StressIn(c.trace, e);
    TraceSnoc(law, c.trace, e);
  }

  lemma BelowCeilingIsSafe(law: Law, c: Core, s: Settings)
    requires Going(law, c) && s.Product() < c.ceiling
    requires var n := |c.trace|;
             n >= 2 && c.trace[n - 1].Probed? && c.trace[n - 2] == Slept(Cooldown(law.minimum, LastTook(c.trace)))
    ensures SafeWalk(law, c.trace, s)
  {
    hide SafeTrace, Distinct, Descending, Complete;
  }

  /** After a cooldown and a good probe, a walk below the ceiling is safe. */
  lemma WalkStep(law: Law, c: Core, e: Event)
    requires Going(law, c) && e.Walked? && e.s.Product() < c.ceiling
    requires var n := |c.trace|;
             n >= 2 && c.trace[n - 1].Probed? && c.trace[n - 2] == Slept(Cooldown(law.minimum, LastTook(c.trace)))
    ensures Going(law, Then(c, e).(prevRun := e.took, lastSet := e.s))
  {
    hide SafeTrace, SafeWalk, Distinct, Descending, Complete;
    BelowCeilingIsSafe(law, c, e.s);
    TraceSnoc(law, c.trace, e);
    StressIn(c.trace, e);
  }

  /** The state after a cooldown and a good probe. */
  function Rested(law: Law, c: Core, e: Event): Core {
    Restrained(law, Then(Then(c, Slept(Cooldown(law.minimum, c.prevRun))), e), e)
  }

  lemma GoingLasts(law: Law, c: Core)
    requires Going(law, c)
    ensures Lasting(law, c) && c.prevRun == LastTook(c.trace)
  {
  }

  lemma LastTookSkips(trace: seq<Event>, d: nat, e: Event)
    requires e.Probed?
    ensures LastTook(trace + [Slept(d)] + [e]) == LastTook(trace)
  {
    assert (trace + [Slept(d)])[..|trace|] == trace;
    assert (trace + [Slept(d)] + [e])[..|trace| + 1] == trace + [Slept(d)];
  }

  lemma RestStep(law: Law, c: Core, e: Event, w: Event)
    requires Going(law, c) && e.Probed? && Good(e.v) && w.Walked?
    ensures Going(law, Rested(law, c, e))
    ensures w.s.Product() < Rested(law, c, e).ceiling ==>
              Going(law, Then(Rested(law, c, e), w).(prevRun := w.took, lastSet := w.s))
  {
    hide Going, LastTook;
    var d := Cooldown(law.minimum, c.prevRun);
    GoingLasts(law, c);
    SleepStep(law, c);
    ProbeStep(law, Then(c, Slept(d)), e);
    LastTookSkips(c.trace, d, e);
    if w.s.Product() < Rested(law, c, e).ceiling {
      WalkStep(law, Rested(law, c, e), w);
    }
  }

  /** The state with one more trial recorded. */
  function Keeping(c: Core, t: Trial): Core {
    Then(c, Kept(t)).(trials := c.trials + [t])
  }

  lemma KeepLasting(law: Law, c: Core, t: Trial)
    requires Lasting(law, c) && New(t.settings, c.trials) && Permitted(law, t.settings, c.trials)
    requires t.settings in c.measured
    requires Complete([t], law.repeats)
    ensures Lasting(law, Keeping(c, t))
  {
    TraceSnoc(law, c.trace, Kept(t));
    assert [t][0] == t;
  }

  /** What recording a measured trial does to ceiling and largest clean product. */
  function Judged(c: Core, t: Trial): Core {
    if t.OK() then c.(lastGood := Max(c.lastGood, t.Product())) else c.(ceiling := Min(c.ceiling, t.Product()))
  }

  lemma KeepCeiling(law: Law, c: Core, t: Trial, ceiling: int)
    requires CeilingHolds(law, c) && ceiling <= c.ceiling && (t.OK() || ceiling <= t.Product())
    ensures CeilingHolds(law, Keeping(c, t).(ceiling := ceiling))
  {
    StressIn(c.trace, Kept(t));
  }

  lemma LargestCleanSnoc(trials: seq<Trial>, t: Trial)
    ensures LargestClean(trials + [t])
         == if t.OK() && t.Product() > LargestClean(trials) then t.Product() else LargestClean(trials)
  {
    assert (trials + [t])[..|trials|] == trials;
  }

  lemma KeepTotals(law: Law, c: Core, t: Trial)
    requires Going(law, c) && t.Product() >= 0
    ensures LargestClean(c.trials + [t]) == if t.OK() then Max(c.lastGood, t.Product()) else c.lastGood
    ensures LastTook(Keeping(c, t).trace) == c.prevRun
    ensures var tr := Keeping(c, t).trace; forall k :: 0 <= k < |tr| && tr[k].Probed? ==> Good(tr[k].v)
  {
    hide Lasting, CeilingHolds, SafeTrace, KeptTrials, LargestClean, LastTook;
    LastingOf(law, c);
    LargestCleanSnoc(c.trials, t);
    TraceSnoc(law, c.trace, Kept(t));
    StressIn(c.trace, Kept(t));
  }

  lemma KeepGoing(law: Law, c: Core, t: Trial)
    requires Going(law, c) && New(t.settings, c.trials) && Permitted(law, t.settings, c.trials)
    requires t.settings in c.measured
    requires Complete([t], law.repeats) && t.Product() >= 0
    ensures Going(law, Judged(Keeping(c, t), t))
  {
    hide Lasting, LargestClean, LastTook, KeptTrials;
    KeepLasting(law, c, t);
    KeepCeiling(law, c, t, Judged(Keeping(c, t), t).ceiling);
    KeepTotals(law, c, t);
    LastingMoves(law, Keeping(c, t), Judged(Keeping(c, t), t));
  }

  /** A trial cut by stress is recorded as failed; the ceiling is already below it. */
  lemma KeepCut(law: Law, c: Core, t: Trial)
    requires Going(law, c) && New(t.settings, c.trials) && Permitted(law, t.settings, c.trials)
    requires t.settings in c.measured
    requires !t.OK() && t.Product() >= c.ceiling && t.Product() >= 0
    ensures Going(law, Keeping(c, t))
  {
    KeepLasting(law, c, t);
    KeepCeiling(law, c, t, c.ceiling);
    KeepTotals(law, c, t);
  }
}
