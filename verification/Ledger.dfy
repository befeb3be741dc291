/** Nothing that was measured goes unrecorded (internal/search/search.go:281-373): whatever
    ends a trial, the walks it made are in the outcome. */
module Ledger {
  import opened Walk
  import opened Safety
  import opened Trials
  import opened Machine
  import opened EverySearch
  import opened SearchSafety

  predicate CameBack(u: Setup, e: Event) {
    e.Walked? && !u.env.walk(e.at, e.s).failed
  }

  /** Later on a trial of these settings was recorded. */
  ghost predicate RecordedAfter(trace: seq<Event>, k: nat, s: Settings) {
    exists j :: k < j < |trace| && trace[j].Kept? && trace[j].t.settings == s
  }

  /** All walks that came back were recorded, but perhaps those at s. */
  ghost predicate AllBut(u: Setup, trace: seq<Event>, s: Option<Settings>) {
    forall k :: 0 <= k < |trace| && CameBack(u, trace[k]) ==>
      Some(trace[k].s) == s || RecordedAfter(trace, k, trace[k].s)
  }

  predicate Broke(m: Progress) {
    m.out.aborted.Some? && m.out.aborted.value.TransportError?
  }

  /** A search that a transport error ended may have left out the trial it was in. */
  ghost predicate Entered(u: Setup, m: Progress) {
    Broke(m) || AllBut(u, m.trace, None)
  }

  lemma RecordedOn(trace: seq<Event>, e: Event, k: nat, s: Settings)
    requires k < |trace| && (RecordedAfter(trace, k, s) || (e.Kept? && e.t.settings == s))
    ensures RecordedAfter(trace + [e], k, s)
  {
    var longer := trace + [e];
    if j :| k < j < |trace| && trace[j].Kept? && trace[j].t.settings == s {
      assert longer[j] == trace[j];
    } else {
      assert longer[|trace|] == e;
    }
  }

  /** What one more event leaves open: a walk its settings, a record none of its own. */
  lemma AllButOn(u: Setup, trace: seq<Event>, e: Event, s: Settings, ran: bool)
    requires AllBut(u, trace, if ran then Some(s) else None)
    ensures CameBack(u, e) && e.s == s ==> AllBut(u, trace + [e], Some(s))
    ensures e.Kept? && e.t.settings == s ==> AllBut(u, trace + [e], None)
    ensures !CameBack(u, e) ==> AllBut(u, trace + [e], if ran then Some(s) else None)
  {
    hide RecordedAfter;
    var longer := trace + [e];
    forall k | 0 <= k < |trace| && CameBack(u, longer[k])
      ensures longer[k] == trace[k]
      ensures Some(trace[k].s) == (if ran then Some(s) else None) || RecordedAfter(longer, k, trace[k].s)
      ensures e.Kept? && e.t.settings == s ==> RecordedAfter(longer, k, trace[k].s)
    {
      if RecordedAfter(trace, k, trace[k].s) || (e.Kept? && e.t.settings == s && trace[k].s == s) {
        RecordedOn(trace, e, k, trace[k].s);
      }
    }
  }

  lemma KeepIfEnters(u: Setup, m: Progress, s: Settings, phase: Phase, runs: seq<Result>, cause: Cause)
    requires AllBut(u, m.trace, if runs != [] then Some(s) else None)
    ensures AllBut(u, KeepIf(m, s, phase, runs, cause).trace, None)
  {
    hide AllBut;
    if runs != [] {
      AllButOn(u, m.trace, Kept(BrokenOff(s, phase, runs, cause)), s, true);
    }
  }

  lemma InterruptEnters(u: Setup, m: Progress, s: Settings, phase: Phase, runs: seq<Result>)
    requires AllBut(u, m.trace, if runs != [] then Some(s) else None)
    ensures var (m', yes) := Interrupt(u, m, s, phase, runs);
            if yes then AllBut(u, m'.trace, None) else m'.trace == m.trace
  {
    hide AllBut, KeepIf;
    var m1 := m.(now := m.now + 1);
    KeepIfEnters(u, m1.(out := m.out.(budgetLimited := Some(DurationUsed))), s, phase, runs, Interrupted);
    KeepIfEnters(u, m1.(out := m.out.(aborted := Some(InterruptedDuring(s)))), s, phase, runs, Interrupted);
  }

  lemma WalkOnceEnters(u: Setup, m: Progress, s: Settings, phase: Phase, runs: seq<Result>)
    requires AllBut(u, m.trace, if runs != [] then Some(s) else None)
    ensures var (m', step) := WalkOnce(u, m, s, phase, runs);
            if step.Ran? then AllBut(u, m'.trace, Some(s)) else Entered(u, m')
  {
    hide AllBut, Interrupt, Checked;
    var report := u.env.walk(m.now, s);
    var e := Walked(s, report.took, m.now);
    AllButOn(u, m.trace, e, s, runs != []);
    if report.failed {
      InterruptEnters(u, m.(now := m.now + 1, lastSet := s, prevRun := report.took, trace := m.trace + [e]), s, phase,
                      runs);
    }
  }

  lemma OnVerdictEnters(u: Setup, m: Progress, v: Verdict, s: Settings, phase: Phase, runs: seq<Result>)
    requires AllBut(u, m.trace, if runs != [] then Some(s) else None)
    ensures var (m', step) := OnVerdict(u, m, v, s, phase, runs);
            if step.Ran? then AllBut(u, m'.trace, Some(s)) else Entered(u, m')
  {
    hide AllBut, KeepIf, WalkOnce;
    var restarted, lost := AgentRestarted(m.lastSet), AgentLost(m.lastSet);
    KeepIfEnters(u, m.(out := m.out.(aborted := Some(restarted))), s, phase, runs, AbortedBy(restarted));
    KeepIfEnters(u, m.(out := m.out.(aborted := Some(lost))), s, phase, runs, AbortedBy(lost));
    var m1 := Heed(u, m, v, phase);
    KeepIfEnters(u, m1, s, phase, runs, StressedBeforeRepeat(|runs| + 1));
    WalkOnceEnters(u, m1, s, phase, runs);
  }

  lemma RepeatEnters(u: Setup, m: Progress, s: Settings, phase: Phase, runs: seq<Result>)
    requires AllBut(u, m.trace, if runs != [] then Some(s) else None)
    ensures var (m', step) := Repeat(u, m, s, phase, runs);
            if step.Ran? then AllBut(u, m'.trace, Some(s)) else Entered(u, m')
  {
    hide AllBut, Interrupt, OnVerdict;
    var slept := Sleep(u, m);
    AllButOn(u, m.trace, Slept(Cooldown(u.opts.cooldown, m.prevRun)), s, runs != []);
    InterruptEnters(u, slept, s, phase, runs);
    var (m1, interrupted) := Interrupt(u, slept, s, phase, runs);
    if !interrupted {
      var (m2, v) := Probe(u, m1);
      AllButOn(u, m1.trace, Probed(v, m1.now), s, runs != []);
      OnVerdictEnters(u, m2, v, s, phase, runs);
    }
  }

  lemma {:induction false} RepeatsEnter(u: Setup, m: Progress, s: Settings, phase: Phase, runs: seq<Result>)
    requires AllBut(u, m.trace, if runs != [] then Some(s) else None)
    ensures var (m', runs', scored, stop) := Repeats(u, m, s, phase, runs);
            if scored then AllBut(u, m'.trace, if runs' != [] then Some(s) else None) else Entered(u, m')
    decreases u.opts.repeats - |runs|
  {
    hide AllBut, Repeat;
    if |runs| < u.opts.repeats {
      RepeatEnters(u, m, s, phase, runs);
      var (m1, step) := Repeat(u, m, s, phase, runs);
      if step.Ran? && step.res.failure == [] {
        RepeatsEnter(u, m1, s, phase, runs + [step.res]);
      }
    }
  }

  lemma SettleEnters(u: Setup, m: Progress, t: Trial, ran: bool)
    requires AllBut(u, m.trace, if ran then Some(t.settings) else None)
    ensures AllBut(u, Settle(m, t).trace, None)
  {
    hide AllBut;
    AllButOn(u, m.trace, Kept(t), t.settings, ran);
  }

  lemma MeasureNewEnters(u: Setup, m: Progress, s: Settings, phase: Phase)
    requires AllBut(u, m.trace, None)
    ensures Entered(u, MeasureNew(u, m, s, phase).0)
  {
    hide AllBut, Repeats, ScoreOf, Settle;
    RepeatsEnter(u, m, s, phase, []);
    var (m1, runs, scored, stop) := Repeats(u, m, s, phase, []);
    if scored {
      ScoreMeaning(s, phase, runs);
      SettleEnters(u, m1, ScoreOf(s, phase, runs), runs != []);
    }
  }

  lemma MeasureEnters(u: Setup, m: Progress, s: Settings, phase: Phase)
    requires Entered(u, m) && Unstopped(m)
    ensures Entered(u, Measure(u, m, s, phase).0)
  {
    hide AllBut, MeasureNew, Interrupt, Exhausted;
    if s.Product() < m.ceiling && s !in m.measured {
      InterruptEnters(u, m, s, phase, []);
      var (m1, interrupted) := Interrupt(u, m, s, phase, []);
      if !interrupted && Exhausted(u, m1) == NotExhausted {
        MeasureNewEnters(u, m1.(now := m1.now + 1, measured := m1.measured + {s}), s, phase);
      }
    }
  }

  // ---------- Whole searches ----------

  lemma NotedEntered(u: Setup, m: Progress, note: Note)
    requires Entered(u, m)
    ensures Entered(u, Noted(m, note))
  {
    hide AllBut;
  }

  lemma KeptEntered(u: Setup)
    ensures KeptByTrials(u, s => true, m => Entered(u, m))
  {
    hide Entered, Measure;
    forall m, s, phase | Entered(u, m) && Unstopped(m) ensures Entered(u, Measure(u, m, s, phase).0) {
      MeasureEnters(u, m, s, phase);
    }
    forall m, note | Entered(u, m) ensures Entered(u, Noted(m, note)) {
      NotedEntered(u, m, note);
    }
  }

  lemma FinalProbeEnters(u: Setup, m: Progress)
    requires AllBut(u, m.trace, None)
    ensures AllBut(u, FinalProbe(u, m).trace, None)
  {
    hide AllBut, Classify, Invalidated;
    var (m1, v) := Probe(u, m.(now := m.now + 1));
    AllButOn(u, m.trace, Probed(v, m.now + 1), m.lastSet, false);
  }

  lemma EndEntered(u: Setup, m': Progress)
    requires Ends(u, m => Entered(u, m), m')
    ensures Entered(u, m')
  {
    hide AllBut, FinalProbe;
    if !(Entered(u, m') && !Unstopped(m')) {
      var m :| Entered(u, m) && Unstopped(m) && m' == FinalProbe(u, m);
      FinalProbeEnters(u, m);
    }
  }

  lemma BeginEntered(u: Setup, m: Progress, ceiling: int)
    requires m.trace == []
    ensures Entered(u, Begin(m, ceiling))
  {
  }

  /** In any run that no transport error ended, every walk that came back was recorded with a
      trial of its settings. */
  lemma RunEntered(u: Setup, m: Progress, v0: int, widest: int)
    requires m.trace == [] && v0 > 0 && widest >= 0 && 0 <= u.maxProduct < 0x8000_0000
    ensures Entered(u, RunSearch(u, m, v0, widest))
  {
    hide Entered, KeptByTrials, Ends, RunSearch;
    BeginEntered(u, m, u.maxProduct + 1);
    KeptEntered(u);
    SearchKept(u, s => true, m => Entered(u, m), m, v0, widest);
    EndEntered(u, RunSearch(u, m, v0, widest));
  }

  /** The same of prescribed trials. */
  lemma MeasureAllEntered(u: Setup, m: Progress, settings: seq<Settings>)
    requires m.trace == []
    ensures Entered(u, MeasureAll(u, m, settings))
  {
    hide Entered, KeptByTrials, Ends, MeasureAll;
    BeginEntered(u, m, MAX_INT);
    KeptEntered(u);
    MeasureAllKept(u, s => true, m => Entered(u, m), m, settings);
    EndEntered(u, MeasureAll(u, m, settings));
  }
}
