/** What every step of a search keeps, and what holds of every whole search. */
module SearchSafety {
  import opened Walk
  import opened Safety
  import opened Trials
  import opened Machine

  /** The constants of one search as its law: prescribed for --try, where the first
      forbidden product is the largest int. */
  function LawOf(u: Setup, prescribed: bool): Law {
    Law(u.opts.cooldown, u.startProduct, u.opts.repeats, prescribed, if prescribed then MAX_INT else u.maxProduct + 1)
  }

  /** The budget counts exactly the recorded trials, and is respected. */
  predicate Affordable(u: Setup, m: Progress) {
    m.spent == u.spentBefore + |m.out.trials| && (u.maxTrials > 0 ==> m.spent <= u.maxTrials)
  }

  predicate Unstopped(m: Progress) {
    m.out.aborted == None && m.out.budgetLimited == None
  }

  /** Between two trials of a search that goes on. */
  ghost predicate Ready(u: Setup, m: Progress, pre: bool) {
    && Going(LawOf(u, pre), CoreOf(m)) && LastWalkedRecorded(CoreOf(m))
    && Affordable(u, m) && Unstopped(m) && u.opts.repeats > 0
  }

  /** In the midst of measuring s. */
  ghost predicate Amid(u: Setup, m: Progress, s: Settings, pre: bool, ran: bool) {
    && Going(LawOf(u, pre), CoreOf(m)) && Unstopped(m) && u.opts.repeats > 0
    && Affordable(u, m) && (u.maxTrials > 0 ==> m.spent < u.maxTrials)
    && s in m.measured && New(s, m.out.trials) && Permitted(LawOf(u, pre), s, m.out.trials) && s.Product() >= 0
    && (if ran then m.lastSet == s else LastWalkedRecorded(CoreOf(m)))
  }

  /** Failed, but not by the verdict on its runs. */
  predicate BrokenOffBy(failure: Option<Cause>) {
    failure.Some? && !failure.value.RunFailed?
  }

  /** The trials are those before, or with one trial of s that was broken off. */
  ghost predicate MaybeFailed(before: seq<Trial>, after: seq<Trial>, s: Settings, phase: Phase) {
    after == before ||
    exists t: Trial :: t.settings == s && t.phase == phase && BrokenOffBy(t.failure) && after == before + [t]
  }

  /** What a step on s leaves alone. */
  ghost predicate Linked(m: Progress, m': Progress) {
    && m'.measured == m.measured && m'.out.note == m.out.note && (m.out.stressed ==> m'.out.stressed)
    && m'.now > m.now && m'.ceiling <= m.ceiling
  }

  /** A search that was stopped. */
  ghost predicate Stopped(u: Setup, m: Progress, pre: bool) {
    Lasting(LawOf(u, pre), CoreOf(m)) && Affordable(u, m) && !Unstopped(m)
  }

  lemma KeepIfLasting(u: Setup, m: Progress, s: Settings, phase: Phase, runs: seq<Result>, cause: Cause, pre: bool)
    requires Lasting(LawOf(u, pre), CoreOf(m)) && Affordable(u, m) && !cause.RunFailed?
    requires runs != [] ==> s in m.measured && New(s, m.out.trials) && Permitted(LawOf(u, pre), s, m.out.trials)
                            && (u.maxTrials > 0 ==> m.spent < u.maxTrials)
    ensures var m' := KeepIf(m, s, phase, runs, cause);
            && Lasting(LawOf(u, pre), CoreOf(m')) && Affordable(u, m')
            && MaybeFailed(m.out.trials, m'.out.trials, s, phase)
  {
    if runs != [] {
      var t := BrokenOff(s, phase, runs, cause);
      KeepLasting(LawOf(u, pre), CoreOf(m), t);
      assert CoreOf(Keep(m, t)) == Keeping(CoreOf(m), t);
    }
  }

  lemma SameTrials(trials: seq<Trial>, s: Settings, phase: Phase)
    ensures MaybeFailed(trials, trials, s, phase)
  {
  }

  /** Interrupting at any time leaves a lasting state, and nothing happens on a live context. */
  lemma InterruptKeeps(u: Setup, m: Progress, s: Settings, phase: Phase, runs: seq<Result>, pre: bool)
    requires Lasting(LawOf(u, pre), CoreOf(m)) && Affordable(u, m)
    requires runs != [] ==> s in m.measured && New(s, m.out.trials) && Permitted(LawOf(u, pre), s, m.out.trials)
                            && (u.maxTrials > 0 ==> m.spent < u.maxTrials)
    ensures var (m', yes) := Interrupt(u, m, s, phase, runs);
            && Linked(m, m') && (!yes ==> m' == m.(now := m.now + 1))
            && (yes ==> Stopped(u, m', pre) && MaybeFailed(m.out.trials, m'.out.trials, s, phase))
  {
    hide Lasting, MaybeFailed, New, Permitted;
    SameTrials(m.out.trials, s, phase);
    var m1 := m.(now := m.now + 1);
    match u.env.ctx(m.now)
    case Live =>
    case DeadlineExceeded =>
      var limited := m1.(out := m.out.(budgetLimited := Some(DurationUsed)));
      assert CoreOf(limited) == CoreOf(m);
      KeepIfLasting(u, limited, s, phase, runs, Interrupted, pre);
      assert Interrupt(u, m, s, phase, runs) == (KeepIf(limited, s, phase, runs, Interrupted), true);
    case Canceled =>
      var aborted := m1.(out := m.out.(aborted := Some(InterruptedDuring(s))));
      assert CoreOf(aborted) == CoreOf(m);
      KeepIfLasting(u, aborted, s, phase, runs, Interrupted, pre);
      assert Interrupt(u, m, s, phase, runs) == (KeepIf(aborted, s, phase, runs, Interrupted), true);
  }

  lemma AbortKeeps(u: Setup, m: Progress, reason: Stop, s: Settings, phase: Phase, runs: seq<Result>, pre: bool)
    requires Lasting(LawOf(u, pre), CoreOf(m)) && Affordable(u, m)
    requires runs != [] ==> s in m.measured && New(s, m.out.trials) && Permitted(LawOf(u, pre), s, m.out.trials)
                            && (u.maxTrials > 0 ==> m.spent < u.maxTrials)
    ensures var m' := Abort(m, reason, s, phase, runs);
            && Stopped(u, m', pre) && MaybeFailed(m.out.trials, m'.out.trials, s, phase)
            && m'.out.note == m.out.note
            && m'.measured == m.measured && m'.now == m.now && m'.ceiling == m.ceiling
            && m'.out.stressed == m.out.stressed
  {
    hide Lasting;
    var aborted := m.(out := m.out.(aborted := Some(reason)));
    assert CoreOf(aborted) == CoreOf(m);
    KeepIfLasting(u, aborted, s, phase, runs, AbortedBy(reason), pre);
  }

  lemma SleepKeeps(u: Setup, m: Progress, s: Settings, pre: bool, ran: bool)
    requires Amid(u, m, s, pre, ran)
    ensures Amid(u, Sleep(u, m), s, pre, ran) && Lasting(LawOf(u, pre), CoreOf(Sleep(u, m)))
    ensures CoreOf(Sleep(u, m)) == Then(CoreOf(m), Slept(Cooldown(u.opts.cooldown, m.prevRun)))
  {
    hide Going, Lasting, New, Permitted;
    SleepStep(LawOf(u, pre), CoreOf(m));
    GoingLasts(LawOf(u, pre), Then(CoreOf(m), Slept(Cooldown(u.opts.cooldown, m.prevRun))));
    assert CoreOf(Sleep(u, m)) == Then(CoreOf(m), Slept(Cooldown(u.opts.cooldown, m.prevRun)));
  }

  lemma ProbeKeeps(u: Setup, m: Progress, m1: Progress, pre: bool)
    requires Lasting(LawOf(u, pre), CoreOf(m)) && CoreOf(m1) == CoreOf(m)
    ensures var (m2, v) := Probe(u, m1);
            CoreOf(m2) == Then(CoreOf(m), Probed(v, m1.now)) && Lasting(LawOf(u, pre), CoreOf(m2))
  {
    hide Lasting;
    var (m2, v) := Probe(u, m1);
    assert CoreOf(m2) == Then(CoreOf(m), Probed(v, m1.now));
    QuietStep(LawOf(u, pre), CoreOf(m), Probed(v, m1.now));
  }

  /** After the cooldown and a good probe: in the midst of s still, and ready to walk. */
  lemma RestKeeps(u: Setup, m: Progress, m2: Progress, v: Verdict, at: nat, s: Settings, phase: Phase, ran: bool)
    requires var pre := phase == Try;
             Amid(u, m, s, pre, ran) && Good(v)
             && CoreOf(m2) == Then(CoreOf(Sleep(u, m)), Probed(v, at))
             && m2.out == m.out && m2.spent == m.spent
    ensures var pre := phase == Try;
            var m3 := Heed(u, m2, v, phase);
            Amid(u, m3, s, pre, ran) && CoreOf(m3) == Rested(LawOf(u, pre), CoreOf(m), Probed(v, at))
  {
    hide Going, Lasting;
    var law := LawOf(u, phase == Try);
    assert CoreOf(Sleep(u, m)) == Then(CoreOf(m), Slept(Cooldown(law.minimum, m.prevRun)));
    assert CoreOf(Heed(u, m2, v, phase)) == Rested(law, CoreOf(m), Probed(v, at));
    RestStep(law, CoreOf(m), Probed(v, at), Walked(s, 0, 0));
  }

  /** The ceiling stands, or stress has lowered it to what was clean or came first. */
  predicate Capped(u: Setup, m: Progress, m': Progress) {
    m'.ceiling == m.ceiling || (m'.out.stressed && m'.ceiling == Max(m.lastGood, u.startProduct) + 1)
  }

  /** A run at s as the search keeps it: a walk that did not err, checked. */
  ghost predicate Produced(u: Setup, s: Settings, res: Result) {
    exists k :: !u.env.walk(k, s).failed && res == Checked(u, u.env.walk(k, s).result)
  }

  /** What one repeat leaves behind. */
  ghost predicate Repeated(u: Setup, m: Progress, s: Settings, phase: Phase, runs: seq<Result>, m': Progress,
                           step: Step) {
    var pre := phase == Try;
    && Linked(m, m')
    && (step.Ran? ==>
          && Amid(u, m', s, pre, true) && m'.out.trials == m.out.trials && s.Product() < m'.ceiling
          && Produced(u, s, step.res) && (phase == Try || !m'.out.stressed ==> m'.ceiling == m.ceiling)
          && m'.lastGood == m.lastGood
          && Capped(u, m, m'))
    && (step.Cut? ==>
          && Capped(u, m, m') && Ready(u, m', pre) && m'.out.stressed && phase != Try
          && s.Product() > Max(m.lastGood, u.startProduct)
          && MaybeFailed(m.out.trials, m'.out.trials, s, phase))
    && (step.Ended? ==> Stopped(u, m', pre) && MaybeFailed(m.out.trials, m'.out.trials, s, phase))
  }

  lemma WalkOnceKeeps(u: Setup, m0: Progress, m: Progress, v: Verdict, at: nat, s: Settings, phase: Phase,
                      runs: seq<Result>)
    requires var pre := phase == Try;
             && Going(LawOf(u, pre), CoreOf(m0)) && Good(v)
             && CoreOf(m) == Rested(LawOf(u, pre), CoreOf(m0), Probed(v, at))
             && Amid(u, m, s, pre, runs != []) && s.Product() < m.ceiling
    ensures var (m', step) := WalkOnce(u, m, s, phase, runs); Repeated(u, m, s, phase, runs, m', step)
  {
    hide Going, Lasting, New, Permitted, LastWalkedRecorded, MaybeFailed;
    SameTrials(m.out.trials, s, phase);
    var pre := phase == Try;
    var report := u.env.walk(m.now, s);
    var e := Walked(s, report.took, m.now);
    var m1 := m.(now := m.now + 1, lastSet := s, prevRun := report.took, trace := m.trace + [e]);
    RestStep(LawOf(u, pre), CoreOf(m0), Probed(v, at), e);
    assert CoreOf(m1) == Then(CoreOf(m), e).(prevRun := report.took, lastSet := s);
    if report.failed {
      GoingLasts(LawOf(u, pre), CoreOf(m1));
      InterruptKeeps(u, m1, s, phase, runs, pre);
      var (m2, interrupted) := Interrupt(u, m1, s, phase, runs);
      var m3 := m2.(out := m2.out.(aborted := Some(TransportError(s))));
      assert !interrupted ==> CoreOf(m3) == CoreOf(m1);
    }
  }

  lemma CutKeeps(u: Setup, m: Progress, s: Settings, phase: Phase, runs: seq<Result>)
    requires Amid(u, m, s, phase == Try, runs != []) && s.Product() >= m.ceiling
    ensures var m' := KeepIf(m, s, phase, runs, StressedBeforeRepeat(|runs| + 1));
            && Ready(u, m', phase == Try) && MaybeFailed(m.out.trials, m'.out.trials, s, phase)
            && m'.ceiling == m.ceiling
  {
    if runs != [] {
      var t := BrokenOff(s, phase, runs, StressedBeforeRepeat(|runs| + 1));
      KeepCut(LawOf(u, phase == Try), CoreOf(m), t);
      assert CoreOf(Keep(m, t)) == Keeping(CoreOf(m), t);
    }
  }

  lemma OnVerdictKeeps(u: Setup, m: Progress, m2: Progress, v: Verdict, at: nat, s: Settings, phase: Phase,
                       runs: seq<Result>)
    requires var pre := phase == Try;
             && Amid(u, m, s, pre, runs != []) && CoreOf(m2) == Then(CoreOf(Sleep(u, m)), Probed(v, at))
             && Lasting(LawOf(u, pre), CoreOf(m2))
             && m2.out == m.out && m2.spent == m.spent && m2.now > m.now
    requires s.Product() < m.ceiling
    ensures var (m', step) := OnVerdict(u, m2, v, s, phase, runs); Repeated(u, m, s, phase, runs, m', step)
  {
    hide Going, Lasting, Ready, Stopped, MaybeFailed, New, Permitted, WalkOnce;
    var pre := phase == Try;
    if v == Restarted {
      AbortKeeps(u, m2, AgentRestarted(m2.lastSet), s, phase, runs, pre);
    } else if v == Lost {
      AbortKeeps(u, m2, AgentLost(m2.lastSet), s, phase, runs, pre);
    } else {
      RestKeeps(u, m, m2, v, at, s, phase, runs != []);
      var m3 := Heed(u, m2, v, phase);
      if v == Stressed && s.Product() >= m3.ceiling {
        CutKeeps(u, m3, s, phase, runs);
      } else {
        WalkOnceKeeps(u, m, m3, v, at, s, phase, runs);
      }
    }
  }

  lemma RepeatKeeps(u: Setup, m: Progress, s: Settings, phase: Phase, runs: seq<Result>)
    requires Amid(u, m, s, phase == Try, runs != []) && s.Product() < m.ceiling
    ensures var (m', step) := Repeat(u, m, s, phase, runs); Repeated(u, m, s, phase, runs, m', step)
  {
    hide Going, Lasting, Ready, MaybeFailed, Stopped;
    var pre := phase == Try;
    var slept := Sleep(u, m);
    SleepKeeps(u, m, s, pre, runs != []);
    InterruptKeeps(u, slept, s, phase, runs, pre);
    var (m1, interrupted) := Interrupt(u, slept, s, phase, runs);
    if !interrupted {
      assert CoreOf(m1) == CoreOf(slept);
      ProbeKeeps(u, slept, m1, pre);
      var (m2, v) := Probe(u, m1);
      OnVerdictKeeps(u, m, m2, v, m1.now, s, phase, runs);
      assert Repeat(u, m, s, phase, runs) == OnVerdict(u, m2, v, s, phase, runs);
    }
  }

  // ---------- One trial ----------

  /** How the repeats of a trial of s can come out. */
  ghost predicate TriedTo(u: Setup, m: Progress, s: Settings, phase: Phase, m': Progress, runs: seq<Result>,
                          scored: bool, stop: bool) {
    var pre := phase == Try;
    && m'.measured == m.measured && m'.out.note == m.out.note && (m.out.stressed ==> m'.out.stressed)
    && m'.ceiling <= m.ceiling
    && (if scored then
          && !stop && Amid(u, m', s, pre, runs != []) && m'.out.trials == m.out.trials && s.Product() < m'.ceiling
          && (pre || !m'.out.stressed ==> m'.ceiling == m.ceiling)
          && |runs| <= u.opts.repeats && (AllClean(runs) ==> |runs| == u.opts.repeats)
          && Capped(u, m, m')
          && forall k :: 0 <= k < |runs| ==> Produced(u, s, runs[k])
        else
          && MaybeFailed(m.out.trials, m'.out.trials, s, phase)
          && (if stop then Stopped(u, m', pre)
              else Ready(u, m', pre) && m'.out.stressed && phase != Try && s.Product() > Max(m.lastGood, u.startProduct)
                   && Capped(u, m, m')))
  }

  /** A repeat that ends the loop. */
  lemma TriedEnds(u: Setup, m: Progress, s: Settings, phase: Phase, runs: seq<Result>, m1: Progress, step: Step)
    requires Repeated(u, m, s, phase, runs, m1, step) && !step.Ran?
    ensures TriedTo(u, m, s, phase, m1, runs, false, step.Ended?)
  {
    hide Going, Lasting, Ready, Stopped, MaybeFailed;
  }

  /** A run that is scored at once. */
  lemma TriedScored(u: Setup, m: Progress, s: Settings, phase: Phase, runs: seq<Result>, m1: Progress, step: Step)
    requires Repeated(u, m, s, phase, runs, m1, step) && step.Ran? && step.res.failure != []
    requires |runs| < u.opts.repeats && forall k :: 0 <= k < |runs| ==> Produced(u, s, runs[k])
    ensures TriedTo(u, m, s, phase, m1, runs + [step.res], true, false)
  {
    hide Amid, Produced;
    assert (runs + [step.res])[|runs|] == step.res;
  }

  /** A run, and the repeats after it. */
  lemma TriedOn(u: Setup, m: Progress, s: Settings, phase: Phase, runs: seq<Result>, m1: Progress, step: Step,
                r: (Progress, seq<Result>, bool, bool))
    requires Repeated(u, m, s, phase, runs, m1, step) && step.Ran?
    requires TriedTo(u, m1, s, phase, r.0, r.1, r.2, r.3)
    ensures TriedTo(u, m, s, phase, r.0, r.1, r.2, r.3)
  {
    hide Amid, Ready, Stopped, MaybeFailed, Produced;
  }

  /** The loop over the repeats keeps the same, and what it hands to scoring are at most
      Repeats runs, clean but for the last. */
  lemma {:induction false} RepeatsKeep(u: Setup, m: Progress, s: Settings, phase: Phase, runs: seq<Result>)
    requires Amid(u, m, s, phase == Try, runs != []) && s.Product() < m.ceiling && u.opts.repeats > 0
    requires |runs| <= u.opts.repeats && AllClean(runs) && forall k :: 0 <= k < |runs| ==> Produced(u, s, runs[k])
    ensures var (m', runs', scored, stop) := Repeats(u, m, s, phase, runs);
            && TriedTo(u, m, s, phase, m', runs', scored, stop)
    decreases u.opts.repeats - |runs|
  {
    hide Amid, Produced, Repeat;
    if |runs| < u.opts.repeats {
      hide TriedTo;
      RepeatKeeps(u, m, s, phase, runs);
      var (m1, step) := Repeat(u, m, s, phase, runs);
      if !step.Ran? {
        TriedEnds(u, m, s, phase, runs, m1, step);
      } else if step.res.failure != [] {
        TriedScored(u, m, s, phase, runs, m1, step);
      } else {
        assert (runs + [step.res])[|runs|] == step.res;
        RepeatsKeep(u, m1, s, phase, runs + [step.res]);
        TriedOn(u, m, s, phase, runs, m1, step, Repeats(u, m1, s, phase, runs + [step.res]));
      }
    }
  }

  /** How a whole trial can come out: it stops the search; or it was skipped, being above
      the ceiling or measured before; or stress cut it; or it was recorded, with its
      score, and moved the ceiling or the largest clean product. */
  ghost predicate Tried(u: Setup, m: Progress, s: Settings, phase: Phase, m': Progress, t: Option<Trial>, stop: bool) {
    var pre := phase == Try;
    && m'.out.note == m.out.note && (m.out.stressed ==> m'.out.stressed)
    && m'.ceiling <= m.ceiling
    && m.measured <= m'.measured <= m.measured + {s}
    && (if stop then
          Stopped(u, m', pre) && t == None && MaybeFailed(m.out.trials, m'.out.trials, s, phase)
        else
          && Ready(u, m', pre)
          && (Capped(u, m, m') || (t.Some? && !t.value.OK() && m'.ceiling == s.Product()))
          && (t == None ==>
                || (m' == m && (s.Product() >= m.ceiling || s in m.measured))
                || (m'.out.stressed && phase != Try && s.Product() > Max(m.lastGood, u.startProduct) && s in m'.measured
                    && MaybeFailed(m.out.trials, m'.out.trials, s, phase)))
          && (t.Some? ==>
                && m'.out.trials == m.out.trials + [t.value]
                && t.value == ScoreOf(s, phase, t.value.runs) && t.value.runs != []
                && (forall k :: 0 <= k < |t.value.runs| ==> Produced(u, s, t.value.runs[k]))
                && s.Product() < m.ceiling && s !in m.measured && s in m'.measured
                && (pre || !m'.out.stressed ==> m'.ceiling == if t.value.OK() then m.ceiling else s.Product())))
  }

  lemma SettleKeeps(u: Setup, m: Progress, s: Settings, phase: Phase, runs: seq<Result>, pre: bool)
    requires Amid(u, m, s, pre, true) && s.Product() < m.ceiling
    requires |runs| <= u.opts.repeats && runs != [] && (AllClean(runs) ==> |runs| == u.opts.repeats)
    ensures var t := ScoreOf(s, phase, runs);
            var m' := Settle(m, t);
            && t.runs == runs && Ready(u, m', pre) && m'.out == m.out.(trials := m.out.trials + [t])
            && m'.measured == m.measured && m'.spent == m.spent + 1
            && m'.ceiling == if t.OK() then m.ceiling else s.Product()
  {
    hide Going, New, Permitted, FirstFailure, Rates, ScoreOf;
    var t := ScoreOf(s, phase, runs);
    ScoreMeaning(s, phase, runs);
    KeepGoing(LawOf(u, pre), CoreOf(m), t);
    assert CoreOf(Settle(m, t)) == Judged(Keeping(CoreOf(m), t), t);
  }

  lemma BelowCeiling(u: Setup, m: Progress, s: Settings, pre: bool)
    requires Ready(u, m, pre) && s.Product() < m.ceiling && s !in m.measured
    ensures New(s, m.out.trials) && Permitted(LawOf(u, pre), s, m.out.trials) && Lasting(LawOf(u, pre), CoreOf(m))
  {
    assert forall i :: 0 <= i < |m.out.trials| ==> m.out.trials[i].settings in m.measured;
  }

  lemma MeasuringKeeps(u: Setup, m: Progress, m': Progress, s: Settings, pre: bool)
    requires Ready(u, m, pre) && s.Product() < m.ceiling && s !in m.measured && s.Product() >= 0
    requires m' == m.(now := m'.now, measured := m.measured + {s}) && (u.maxTrials > 0 ==> m.spent < u.maxTrials)
    ensures Amid(u, m', s, pre, false)
  {
    hide Going, New, Permitted;
    BelowCeiling(u, m, s, pre);
    assert CoreOf(m') == CoreOf(m).(measured := m'.measured);
    MoreMeasured(LawOf(u, pre), CoreOf(m), CoreOf(m'));
  }

  lemma MeasureNewKeeps(u: Setup, m0: Progress, m: Progress, s: Settings, phase: Phase)
    requires Ready(u, m0, phase == Try) && s.Product() >= 0 && s.Product() < m0.ceiling && s !in m0.measured
    requires m == m0.(now := m.now, measured := m0.measured + {s}) && (u.maxTrials > 0 ==> m0.spent < u.maxTrials)
    requires u.opts.repeats > 0
    ensures var (m', t, stop) := MeasureNew(u, m, s, phase); Tried(u, m0, s, phase, m', t, stop)
  {
    hide Going, Lasting, Amid, Ready, Stopped, MaybeFailed, ScoreOf, Settle;
    var pre := phase == Try;
    MeasuringKeeps(u, m0, m, s, pre);
    assert AllClean([]);
    RepeatsKeep(u, m, s, phase, []);
    var (m1, runs, scored, stop) := Repeats(u, m, s, phase, []);
    if scored {
      SettleKeeps(u, m1, s, phase, runs, pre);
    }
  }

  /** Every trial, in every phase, keeps all invariants of the search. */
  lemma MeasureKeeps(u: Setup, m: Progress, s: Settings, phase: Phase)
    requires Ready(u, m, phase == Try) && s.Product() >= 0
    ensures var (m', t, stop) := Measure(u, m, s, phase); Tried(u, m, s, phase, m', t, stop)
  {
    hide Going, Lasting, MeasureNew;
    if s.Product() < m.ceiling && s !in m.measured {
      BelowCeiling(u, m, s, phase == Try);
      InterruptKeeps(u, m, s, phase, [], phase == Try);
      var (m1, interrupted) := Interrupt(u, m, s, phase, []);
      if !interrupted {
        var spent := Exhausted(u, m1);
        if spent != NotExhausted {
          var m2 := m1.(now := m1.now + 1,
               out := m1.out.(budgetLimited := Some(if spent == MaxTrials then TrialsUsed else DurationUsed)));
          assert CoreOf(m2) == CoreOf(m);
        } else {
          MeasureNewKeeps(u, m, m1.(now := m1.now + 1, measured := m1.measured + {s}), s, phase);
        }
      }
    }
  }
}
