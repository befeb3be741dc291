/** What the flags of an outcome say is what happened (internal/search/search.go:281-347):
    stress is flagged exactly when a probe before a repeat showed it, a search is stopped
    for the reason it names and never without one, and nothing is asked of the agent
    once the context is done or the time is up. */
module Reasons {
  import opened Agent
  import opened Walk
  import opened Safety
  import opened Trials
  import opened Machine
  import opened EverySearch
  import opened SearchSafety

  // ---------- What a trace shows ----------

  /** Event k is a probe before a repeat that showed stress. */
  predicate StressAt(trace: seq<Event>, k: nat) {
    0 < k < |trace| && trace[k - 1].Slept? && trace[k].Stress()
  }

  ghost predicate StressSeen(trace: seq<Event>) {
    exists k :: StressAt(trace, k)
  }

  predicate Alarming(u: Setup, e: Event) {
    || (e.Probed? && !Good(e.v))
    || (e.Walked? && u.env.walk(e.at, e.s).failed)
  }

  /** No probe told of a restart or a loss and no walk erred. */
  ghost predicate NoAlarm(u: Setup, trace: seq<Event>) {
    forall k :: 0 <= k < |trace| ==> !Alarming(u, trace[k])
  }

  /** The walks at s so far. */
  ghost predicate Visited(trace: seq<Event>, s: Settings) {
    exists k :: 0 <= k < |trace| && trace[k].Walked? && trace[k].s == s
  }

  predicate InTime(u: Setup, elapsedAt: int) {
    u.maxDuration > 0 ==> elapsedAt >= 0 && u.env.elapsed(elapsedAt) < u.maxDuration
  }

  /** A trial that failed scores nothing, and one that was broken off says why: the event
      before it is the probe that told of stress, a restart or a loss, or the cooldown or walk
      at which it was interrupted. */
  predicate CauseFits(before: seq<Event>, t: Trial) {
    (t.failure.Some? ==> t.score == 0.0) &&
    match t.failure
    case Some(StressedBeforeRepeat(i)) =>
      i == |t.runs| + 1 && before != [] && before[|before| - 1].Stress()
    case Some(AbortedBy(AgentRestarted(_))) =>
      before != [] && before[|before| - 1].Probed? && before[|before| - 1].v == Restarted
    case Some(AbortedBy(AgentLost(_))) =>
      before != [] && before[|before| - 1].Probed? && before[|before| - 1].v == Lost
    case Some(AbortedBy(_)) => false
    case Some(Interrupted) =>
      before != [] && (before[|before| - 1].Slept? || before[|before| - 1].Walked?)
    case _ => true
  }

  /** The agent is only asked in order: the context was found live right before every probe,
      every walk comes right after a probe, and at the first one of a setting the time
      was not up right before; and what is recorded says what it was broken off for. */
  ghost predicate InOrder(u: Setup, before: seq<Event>, e: Event) {
    && (e.Probed? ==> e.at > 0 && u.env.ctx(e.at - 1) == Live)
    && (e.Walked? ==>
          && before != [] && before[|before| - 1].Probed? && before[|before| - 1].at + 1 == e.at
          && (!Visited(before, e.s) ==> InTime(u, e.at - 3)))
    && (e.Kept? ==> CauseFits(before, e.t))
  }

  ghost predicate AllInOrder(u: Setup, trace: seq<Event>) {
    forall k :: 0 <= k < |trace| ==> InOrder(u, trace[..k], trace[k])
  }

  /** The last probe or walk. */
  function LastAsked(trace: seq<Event>): Option<Event> {
    if trace == [] then None
    else if trace[|trace| - 1].Probed? || trace[|trace| - 1].Walked? then Some(trace[|trace| - 1])
    else LastAsked(trace[..|trace| - 1])
  }

  // ---------- What an outcome tells ----------

  /** Why it was stopped, its last question having been asked at now - 1. */
  ghost predicate Reason(u: Setup, m: Progress) {
    && m.now > 0
    && match m.out.aborted
       case Some(AgentRestarted(s)) =>
         LastAsked(m.trace).Some? && LastAsked(m.trace).value == Probed(Restarted, m.now - 1) && s == m.lastSet
       case Some(AgentLost(s)) =>
         LastAsked(m.trace).Some? && LastAsked(m.trace).value == Probed(Lost, m.now - 1) && s == m.lastSet
       case Some(InterruptedDuring(s)) => u.env.ctx(m.now - 1) == Canceled
       case Some(TransportError(s)) =>
         && u.env.ctx(m.now - 1) == Live && m.now > 1 && LastAsked(m.trace).Some?
         && var e := LastAsked(m.trace).value; e.Walked? && e.at == m.now - 2 && e.s == s && Alarming(u, e)
       case None =>
         match m.out.budgetLimited
         case Some(TrialsUsed) => 0 < u.maxTrials <= m.spent
         case Some(DurationUsed) =>
           u.env.ctx(m.now - 1) == DeadlineExceeded || 0 < u.maxDuration <= u.env.elapsed(m.now - 1)
         case None => false
  }

  predicate Awake(trace: seq<Event>) {
    trace == [] || !trace[|trace| - 1].Slept?
  }

  /** The settings of the last walk. */
  function LastWalk(trace: seq<Event>): Option<Settings> {
    if trace == [] then None
    else if trace[|trace| - 1].Walked? then Some(trace[|trace| - 1].s)
    else LastWalk(trace[..|trace| - 1])
  }

  /** Flags and bookkeeping are what the trace shows. */
  ghost predicate Honest(u: Setup, m: Progress) {
    && (m.out.stressed <==> StressSeen(m.trace)) && AllInOrder(u, m.trace)
    && (LastWalk(m.trace).Some? ==> m.lastSet == LastWalk(m.trace).value)
  }

  ghost predicate Told(u: Setup, m: Progress) {
    && Honest(u, m)
    && (if Unstopped(m) then NoAlarm(u, m.trace) && Awake(m.trace)
        else Reason(u, m) && (m.out.aborted.None? || m.out.budgetLimited.None?))
  }

  // ---------- One more event ----------

  lemma SeenOn(trace: seq<Event>, e: Event)
    ensures StressSeen(trace + [e]) <==> StressSeen(trace) || (!Awake(trace) && e.Stress())
  {
    var longer := trace + [e];
    forall k: nat | k < |trace| ensures StressAt(longer, k) <==> StressAt(trace, k) {
      assert longer[k] == trace[k];
    }
    if StressSeen(longer) {
      var k :| StressAt(longer, k);
      assert k == |trace| || StressAt(trace, k);
    }
    if StressSeen(trace) {
      var k :| StressAt(trace, k);
      assert StressAt(longer, k);
    }
    assert !Awake(trace) && e.Stress() ==> StressAt(longer, |trace|);
  }

  lemma OrderOn(u: Setup, trace: seq<Event>, e: Event)
    requires AllInOrder(u, trace) && InOrder(u, trace, e)
    ensures AllInOrder(u, trace + [e])
  {
    hide InOrder;
    var longer := trace + [e];
    forall k | 0 <= k < |longer| ensures InOrder(u, longer[..k], longer[k]) {
      assert longer[..k] == if k < |trace| then trace[..k] else trace;
    }
  }

  lemma CalmOn(u: Setup, trace: seq<Event>, e: Event)
    requires NoAlarm(u, trace) && !Alarming(u, e)
    ensures NoAlarm(u, trace + [e])
  {
  }

  lemma AskedOn(trace: seq<Event>, e: Event)
    ensures LastAsked(trace + [e]) == if e.Probed? || e.Walked? then Some(e) else LastAsked(trace)
    ensures LastWalk(trace + [e]) == if e.Walked? then Some(e.s) else LastWalk(trace)
  {
    assert (trace + [e])[..|trace|] == trace;
  }

  // ---------- The steps ----------

  /** Stopped with this reason, whether or not a trial is recorded for it. */
  lemma KeepIfTold(u: Setup, m: Progress, s: Settings, phase: Phase, runs: seq<Result>, cause: Cause)
    requires Honest(u, m)
    requires runs != [] ==> CauseFits(m.trace, BrokenOff(s, phase, runs, cause))
    ensures var m' := KeepIf(m, s, phase, runs, cause);
            && Honest(u, m')
            && (Reason(u, m) ==> Reason(u, m')) && (NoAlarm(u, m.trace) ==> NoAlarm(u, m'.trace))
            && (Awake(m.trace) ==> Awake(m'.trace))
  {
    hide StressSeen, AllInOrder, LastWalk, LastAsked;
    if runs != [] {
      var e := Kept(BrokenOff(s, phase, runs, cause));
      SeenOn(m.trace, e);
      OrderOn(u, m.trace, e);
      AskedOn(m.trace, e);
    }
  }

  /** Between the steps of a trial: on the way, and nothing has stopped it. */
  ghost predicate OnTheWay(u: Setup, m: Progress) {
    Honest(u, m) && Unstopped(m) && NoAlarm(u, m.trace)
  }

  lemma InterruptTold(u: Setup, m: Progress, s: Settings, phase: Phase, runs: seq<Result>)
    requires Honest(u, m) && Unstopped(m)
    requires runs != [] ==> m.trace != [] && (m.trace[|m.trace| - 1].Slept? || m.trace[|m.trace| - 1].Walked?)
    ensures var (m', yes) := Interrupt(u, m, s, phase, runs);
            && (yes <==> u.env.ctx(m.now) != Live)
            && (!yes ==> m' == m.(now := m.now + 1))
            && (yes ==> Told(u, m') && !Unstopped(m')
                        && (u.env.ctx(m.now) == Canceled <==> m'.out.aborted == Some(InterruptedDuring(s)))
                        && (u.env.ctx(m.now) == DeadlineExceeded <==> m'.out.budgetLimited == Some(DurationUsed)))
  {
    hide StressSeen, AllInOrder, LastWalk, LastAsked, KeepIf, NoAlarm, Awake;
    var m1 := m.(now := m.now + 1);
    var limited := m1.(out := m.out.(budgetLimited := Some(DurationUsed)));
    var aborted := m1.(out := m.out.(aborted := Some(InterruptedDuring(s))));
    KeepIfTold(u, limited, s, phase, runs, Interrupted);
    KeepIfTold(u, aborted, s, phase, runs, Interrupted);
    KeepIfOut(limited, s, phase, runs, Interrupted);
    KeepIfOut(aborted, s, phase, runs, Interrupted);
  }

  lemma WalkOnceTold(u: Setup, m: Progress, s: Settings, phase: Phase, runs: seq<Result>)
    requires OnTheWay(u, m) && m.trace != [] && m.now > 0
    requires var last := m.trace[|m.trace| - 1]; last.Probed? && last.at == m.now - 1
    requires Visited(m.trace, s) || InTime(u, m.now - 3)
    ensures var (m', step) := WalkOnce(u, m, s, phase, runs);
            && (step.Ran? ==> OnTheWay(u, m') && Awake(m'.trace) && Visited(m'.trace, s))
            && (step.Ended? ==> Told(u, m')) && !step.Cut?
  {
    hide StressSeen, AllInOrder, LastWalk, LastAsked, KeepIf, NoAlarm, Checked;
    var report := u.env.walk(m.now, s);
    var e := Walked(s, report.took, m.now);
    var m1 := m.(now := m.now + 1, lastSet := s, prevRun := report.took, trace := m.trace + [e]);
    SeenOn(m.trace, e);
    OrderOn(u, m.trace, e);
    AskedOn(m.trace, e);
    assert m1.trace[|m.trace|] == e;
    if !report.failed {
      CalmOn(u, m.trace, e);
    } else {
      InterruptTold(u, m1, s, phase, runs);
    }
  }

  lemma AbortTold(u: Setup, m: Progress, reason: Stop, s: Settings, phase: Phase, runs: seq<Result>)
    requires Honest(u, m) && Unstopped(m)
    requires Reason(u, m.(out := m.out.(aborted := Some(reason))))
    requires CauseFits(m.trace, BrokenOff(s, phase, runs, AbortedBy(reason)))
    ensures Told(u, Abort(m, reason, s, phase, runs))
  {
    hide StressSeen, AllInOrder, LastWalk, LastAsked, KeepIf, NoAlarm, Awake, Reason;
    var aborted := m.(out := m.out.(aborted := Some(reason)));
    KeepIfTold(u, aborted, s, phase, runs, AbortedBy(reason));
    KeepIfOut(aborted, s, phase, runs, AbortedBy(reason));
  }

  lemma VisitedOn(trace: seq<Event>, e: Event, s: Settings)
    ensures Visited(trace, s) ==> Visited(trace + [e], s)
  {
    if k :| 0 <= k < |trace| && trace[k].Walked? && trace[k].s == s {
      assert (trace + [e])[k] == trace[k];
    }
  }

  lemma OnVerdictTold(u: Setup, m: Progress, m2: Progress, v: Verdict, s: Settings, phase: Phase, runs: seq<Result>)
    requires OnTheWay(u, m) && !Awake(m.trace) && m.now > 0 && u.env.ctx(m.now - 1) == Live
    requires m2 == m.(now := m.now + 1, canary := m2.canary, trace := m.trace + [Probed(v, m.now)])
    requires Visited(m.trace, s) || InTime(u, m.now - 2)
    ensures var (m', step) := OnVerdict(u, m2, v, s, phase, runs);
            && (step.Ran? ==> OnTheWay(u, m') && Awake(m'.trace) && Visited(m'.trace, s))
            && (step.Ended? ==> Told(u, m')) && (step.Cut? ==> OnTheWay(u, m') && Awake(m'.trace))
  {
    hide StressSeen, AllInOrder, LastWalk, LastAsked, KeepIf, NoAlarm, Visited, WalkOnce, Abort;
    var e := Probed(v, m.now);
    SeenOn(m.trace, e);
    OrderOn(u, m.trace, e);
    AskedOn(m.trace, e);
    VisitedOn(m.trace, e, s);
    if Good(v) {
      CalmOn(u, m.trace, e);
      var m3 := Heed(u, m2, v, phase);
      if v == Stressed {
        KeepIfTold(u, m3, s, phase, runs, StressedBeforeRepeat(|runs| + 1));
      }
      KeepIfOut(m3, s, phase, runs, StressedBeforeRepeat(|runs| + 1));
      WalkOnceTold(u, m3, s, phase, runs);
    } else {
      AbortTold(u, m2, if v == Restarted then AgentRestarted(m2.lastSet) else AgentLost(m2.lastSet), s, phase, runs);
    }
  }

  lemma RepeatTold(u: Setup, m: Progress, s: Settings, phase: Phase, runs: seq<Result>)
    requires OnTheWay(u, m) && Awake(m.trace) && (Visited(m.trace, s) || InTime(u, m.now - 1))
    ensures var (m', step) := Repeat(u, m, s, phase, runs);
            && (step.Ran? ==> OnTheWay(u, m') && Awake(m'.trace) && Visited(m'.trace, s))
            && (step.Ended? ==> Told(u, m')) && (step.Cut? ==> OnTheWay(u, m') && Awake(m'.trace))
  {
    hide StressSeen, AllInOrder, LastWalk, LastAsked, NoAlarm, Visited, OnVerdict, Interrupt, Classify;
    var e := Slept(Cooldown(u.opts.cooldown, m.prevRun));
    var slept := Sleep(u, m);
    SeenOn(m.trace, e);
    OrderOn(u, m.trace, e);
    AskedOn(m.trace, e);
    CalmOn(u, m.trace, e);
    VisitedOn(m.trace, e, s);
    InterruptTold(u, slept, s, phase, runs);
    var (m1, interrupted) := Interrupt(u, slept, s, phase, runs);
    if !interrupted {
      var (m2, v) := Probe(u, m1);
      OnVerdictTold(u, m1, m2, v, s, phase, runs);
    }
  }

  lemma {:induction false} RepeatsTold(u: Setup, m: Progress, s: Settings, phase: Phase, runs: seq<Result>)
    requires OnTheWay(u, m) && Awake(m.trace) && (Visited(m.trace, s) || InTime(u, m.now - 1))
    ensures var (m', runs', scored, stop) := Repeats(u, m, s, phase, runs);
            if stop then Told(u, m') else OnTheWay(u, m') && Awake(m'.trace)
    decreases u.opts.repeats - |runs|
  {
    hide OnTheWay, Awake, Told, Repeat;
    if |runs| < u.opts.repeats {
      RepeatTold(u, m, s, phase, runs);
      var (m1, step) := Repeat(u, m, s, phase, runs);
      if step.Ran? && step.res.failure == [] {
        RepeatsTold(u, m1, s, phase, runs + [step.res]);
      }
    }
  }

  lemma SettleTold(u: Setup, m: Progress, t: Trial)
    requires OnTheWay(u, m) && Awake(m.trace) && CauseFits(m.trace, t)
    ensures Told(u, Settle(m, t))
  {
    hide StressSeen, AllInOrder, LastWalk, NoAlarm, LastAsked;
    SeenOn(m.trace, Kept(t));
    OrderOn(u, m.trace, Kept(t));
    AskedOn(m.trace, Kept(t));
    CalmOn(u, m.trace, Kept(t));
  }

  lemma ScoredFits(before: seq<Event>, s: Settings, phase: Phase, runs: seq<Result>)
    ensures CauseFits(before, ScoreOf(s, phase, runs))
  {
    hide FirstFailure, Middle;
  }

  lemma MeasureTold(u: Setup, m: Progress, s: Settings, phase: Phase)
    requires Told(u, m) && Unstopped(m)
    ensures Told(u, Measure(u, m, s, phase).0)
  {
    hide StressSeen, AllInOrder, LastWalk, NoAlarm, LastAsked, Repeats, ScoreOf, Settle, Interrupt;
    if s.Product() < m.ceiling && s !in m.measured {
      InterruptTold(u, m, s, phase, []);
      var (m1, interrupted) := Interrupt(u, m, s, phase, []);
      if !interrupted && Exhausted(u, m1) == NotExhausted {
        var m2 := m1.(now := m1.now + 1, measured := m1.measured + {s});
        RepeatsTold(u, m2, s, phase, []);
        var (m3, runs, scored, stop) := Repeats(u, m2, s, phase, []);
        RepeatsStop(u, m2, s, phase, []);
        if scored {
          ScoredFits(m3.trace, s, phase, runs);
          SettleTold(u, m3, ScoreOf(s, phase, runs));
        }
      }
    }
  }

  /** How a trial that is not skipped begins: a done context goes before a spent budget, and
      a limit on trials before one on time. */
  lemma StartTold(u: Setup, m: Progress, s: Settings, phase: Phase)
    requires Told(u, m) && Unstopped(m) && s.Product() < m.ceiling && s !in m.measured
    ensures var m', trialsUsed, c := Measure(u, m, s, phase).0, 0 < u.maxTrials <= m.spent, u.env.ctx(m.now);
            && (c == Canceled ==> m'.out.aborted == Some(InterruptedDuring(s)))
            && (c == DeadlineExceeded ==> m'.out.budgetLimited == Some(DurationUsed))
            && (c == Live && trialsUsed ==> m'.out.budgetLimited == Some(TrialsUsed))
            && (c == Live && !trialsUsed && 0 < u.maxDuration <= u.env.elapsed(m.now + 1) ==>
                  m'.out.budgetLimited == Some(DurationUsed))
            && (c != Live || trialsUsed || 0 < u.maxDuration <= u.env.elapsed(m.now + 1) ==>
                  m'.trace == m.trace && m'.out.trials == m.out.trials)
  {
    hide Told, MeasureNew;
  }

  // ---------- Whole searches ----------

  lemma NotedTold(u: Setup, m: Progress, note: Note)
    requires Told(u, m)
    ensures Told(u, Noted(m, note))
  {
    hide StressSeen, AllInOrder, LastWalk, NoAlarm, LastAsked;
  }

  lemma KeptTold(u: Setup)
    ensures KeptByTrials(u, s => true, m => Told(u, m))
  {
    hide Told, Measure;
    forall m, s, phase | Told(u, m) && Unstopped(m) ensures Told(u, Measure(u, m, s, phase).0) {
      MeasureTold(u, m, s, phase);
    }
    forall m, note | Told(u, m) ensures Told(u, Noted(m, note)) {
      NotedTold(u, m, note);
    }
  }

  /** After the final probe: the flag speaks of the probes before repeats only, and the
      reason may be what this probe told. */
  lemma FinalProbeTold(u: Setup, m: Progress)
    requires Told(u, m) && Unstopped(m)
    ensures Told(u, FinalProbe(u, m))
  {
    hide StressSeen, AllInOrder, LastWalk, NoAlarm, LastAsked, Classify, Invalidated;
    if u.env.ctx(m.now) == Live && m.out.trials != [] {
      var (m1, v) := Probe(u, m.(now := m.now + 1));
      var e := Probed(v, m.now + 1);
      SeenOn(m.trace, e);
      OrderOn(u, m.trace, e);
      AskedOn(m.trace, e);
      if Good(v) { CalmOn(u, m.trace, e); }
    }
  }

  lemma EndTold(u: Setup, m': Progress)
    requires Ends(u, m => Told(u, m), m')
    ensures Told(u, m')
  {
    hide Told, FinalProbe;
    if !(Told(u, m') && !Unstopped(m')) {
      var m :| Told(u, m) && Unstopped(m) && m' == FinalProbe(u, m);
      FinalProbeTold(u, m);
    }
  }

  lemma BeginTold(u: Setup, m: Progress, ceiling: int)
    requires m.trace == []
    ensures Told(u, Begin(m, ceiling))
  {
  }

  /** Any run, whatever canary, clock, context and agent do. */
  lemma RunTold(u: Setup, m: Progress, v0: int, widest: int)
    requires m.trace == [] && v0 > 0 && widest >= 0 && 0 <= u.maxProduct < 0x8000_0000
    ensures Told(u, RunSearch(u, m, v0, widest))
  {
    hide Told, KeptByTrials, Ends, RunSearch;
    BeginTold(u, m, u.maxProduct + 1);
    KeptTold(u);
    SearchKept(u, s => true, m => Told(u, m), m, v0, widest);
    EndTold(u, RunSearch(u, m, v0, widest));
  }

  /** The same of prescribed trials. */
  lemma MeasureAllTold(u: Setup, m: Progress, settings: seq<Settings>)
    requires m.trace == []
    ensures Told(u, MeasureAll(u, m, settings))
  {
    hide Told, KeptByTrials, Ends, MeasureAll;
    BeginTold(u, m, MAX_INT);
    KeptTold(u);
    MeasureAllKept(u, s => true, m => Told(u, m), m, settings);
    EndTold(u, MeasureAll(u, m, settings));
  }
}
