/** How a search judges (internal/search/search.go:258-279, 308-373, 391-408): the runs of a
    trial are the walks made for it, its verdict is the verdict on these walks, and the
    canary's verdicts are those on its replies, one after the other. */
module Judgement {
  import opened Arithmetic
  import opened Agent
  import opened Walk
  import opened Safety
  import opened Trials
  import opened Machine
  import opened Workloads
  import opened EverySearch
  import SearchSafety
  import Guarantees

  // ---------- One run ----------

  /** More than the tolerated percentage of the ground truth is missing. */
  predicate TooFew(u: Setup, res: Result) {
    100.0 * (|Absent(u.refOIDs, res.oids)| as real) > u.opts.tolerance * (|u.refOIDs| as real)
  }

  /** The walk came back clean with enough of the ground truth. */
  predicate Acceptable(u: Setup, raw: Result) {
    raw.failure == [] && (u.refOIDs == [] || !TooFew(u, raw))
  }

  /** What is held against a walk: what failed it, or how much is missing from it. */
  function Grounds(u: Setup, raw: Result): (f: seq<Failure>)
    ensures f != []
  {
    if raw.failure != [] then raw.failure else [MissingOIDs(|Absent(u.refOIDs, raw.oids)|, |u.refOIDs|)]
  }

  lemma Scales(a: real, b: real, n: real)
    requires n > 0.0
    ensures a > b <==> a * n > b * n
  {
  }

  /** A run passes the check as it is exactly when its walk is acceptable. */
  lemma CheckedExactly(u: Setup, raw: Result)
    ensures Acceptable(u, raw) ==> Checked(u, raw) == raw
    ensures !Acceptable(u, raw) ==> Checked(u, raw) == raw.(failure := Grounds(u, raw))
  {
    MissingCounts(u.refOIDs, raw.oids);
    if u.refOIDs != [] {
      var n, hundred := |u.refOIDs| as real, 100.0 * (CountMissing(u.refOIDs, raw.oids) as real);
      assert n > 0.0 && hundred / n * n == hundred;
      Scales(hundred / n, u.opts.tolerance, n);
    }
  }

  // ---------- The walks of a search ----------

  /** All walks, in order. */
  function Walks(trace: seq<Event>): (ws: seq<Event>)
    ensures forall i :: 0 <= i < |ws| ==> ws[i].Walked?
  {
    if trace == [] then [] else
    Walks(trace[..|trace| - 1]) + if trace[|trace| - 1].Walked? then [trace[|trace| - 1]] else []
  }

  /** What a walk brought back, at the time it was made. */
  function Report(u: Setup, e: Event): WalkReport
    requires e.Walked?
  {
    u.env.walk(e.at, e.s)
  }

  /** A walk at s that did not err, as the run it is kept as. */
  predicate Brought(u: Setup, s: Settings, e: Event, run: Result) {
    e.Walked? && e.s == s && !Report(u, e).failed && run == Checked(u, Report(u, e).result)
  }

  predicate NoneAt(s: Settings, ws: seq<Event>) {
    forall e :: e in ws ==> e.Walked? && e.s != s
  }

  /** The runs are the last of these walks, in order, and all that were made at s. */
  ghost predicate Backed(u: Setup, s: Settings, ws: seq<Event>, runs: seq<Result>) {
    && |runs| <= |ws| && (forall i :: 0 <= i < |runs| ==> Brought(u, s, ws[|ws| - |runs| + i], runs[i]))
    && NoneAt(s, ws[..|ws| - |runs|])
  }

  /** Without a last walk that erred. */
  function Returned(u: Setup, ws: seq<Event>): seq<Event> {
    if ws != [] && ws[|ws| - 1].Walked? && Report(u, ws[|ws| - 1]).failed then ws[..|ws| - 1] else ws
  }

  ghost predicate AllAcceptable(u: Setup, runs: seq<Result>) {
    forall i :: 0 <= i < |runs| ==> Acceptable(u, runs[i])
  }

  /** A trial recorded after these walks has as its runs the last that returned, all that
      ever did at its settings. It is clean when all of them were acceptable, failed by
      its runs when exactly the last was not, on the grounds held against that one, and
      broken off otherwise. */
  ghost predicate FairlyJudged(u: Setup, ws: seq<Event>, t: Trial) {
    && Backed(u, t.settings, Returned(u, ws), t.runs)
    && match t.failure
       case None => t.runs != [] && AllAcceptable(u, t.runs)
       case Some(RunFailed(f)) =>
         && t.runs != [] && AllAcceptable(u, t.runs[..|t.runs| - 1])
         && Brought(u, t.settings, ws[|ws| - 1], t.runs[|t.runs| - 1])
         && var raw := Report(u, ws[|ws| - 1]).result; !Acceptable(u, raw) && f == Grounds(u, raw)
       case Some(_) => AllAcceptable(u, t.runs)
  }

  ghost predicate AllJudged(u: Setup, trace: seq<Event>) {
    forall k :: 0 <= k < |trace| && trace[k].Kept? ==> FairlyJudged(u, Walks(trace[..k]), trace[k].t)
  }

  // ---------- The probes of a search ----------

  /** How the probes were answered, in order. */
  function Replies(u: Setup, trace: seq<Event>): seq<ProbeReply> {
    if trace == [] then [] else
    Replies(u, trace[..|trace| - 1]) + if trace[|trace| - 1].Probed? then [u.env.probe(trace[|trace| - 1].at)] else []
  }

  /** Every verdict is that on the reply, given all replies before. */
  ghost predicate AllHeard(u: Setup, start: CanaryState, trace: seq<Event>) {
    forall k :: 0 <= k < |trace| && trace[k].Probed? ==>
      trace[k].v == Classify(After(start, u.baseline, Replies(u, trace[..k])), u.baseline, u.env.probe(trace[k].at)).1
  }

  predicate Asked(e: Event) { e.Probed? || e.Walked? }

  /** The oracles are asked at strictly increasing times. */
  ghost predicate Timely(trace: seq<Event>, now: nat) {
    && (forall i, j :: 0 <= i < j < |trace| && Asked(trace[i]) && Asked(trace[j]) ==> trace[i].at < trace[j].at)
    && (forall i :: 0 <= i < |trace| && Asked(trace[i]) ==> trace[i].at < now)
  }

  /** Walks are made at settings that were begun. */
  ghost predicate AllBegun(measured: set<Settings>, ws: seq<Event>) {
    forall e :: e in ws ==> e.Walked? && e.s in measured
  }

  /** The trace of a search that began with this canary. */
  ghost predicate Faithful(u: Setup, start: CanaryState, m: Progress) {
    && Timely(m.trace, m.now) && AllJudged(u, m.trace) && AllHeard(u, start, m.trace)
    && AllBegun(m.measured, Walks(m.trace)) && m.canary == After(start, u.baseline, Replies(u, m.trace))
  }

  // ---------- One more event ----------

  lemma Longer(u: Setup, trace: seq<Event>, e: Event)
    ensures Walks(trace + [e]) == Walks(trace) + if e.Walked? then [e] else []
    ensures Replies(u, trace + [e]) == Replies(u, trace) + if e.Probed? then [u.env.probe(e.at)] else []
    ensures (trace + [e])[..|trace|] == trace
    ensures forall k :: 0 <= k < |trace| ==> (trace + [e])[..k] == trace[..k] && (trace + [e])[k] == trace[k]
  {
    assert (trace + [e])[..|trace|] == trace;
  }

  lemma HeardLonger(start: CanaryState, baseline: nat, h: seq<ProbeReply>, r: ProbeReply)
    ensures After(start, baseline, h + [r]) == Classify(After(start, baseline, h), baseline, r).0
  {
    assert (h + [r])[..|h|] == h;
  }

  lemma JudgedOn(u: Setup, trace: seq<Event>, e: Event)
    requires AllJudged(u, trace) && (e.Kept? ==> FairlyJudged(u, Walks(trace), e.t))
    ensures AllJudged(u, trace + [e])
  {
    hide FairlyJudged, Walks;
    Longer(u, trace, e);
  }

  lemma HeardOn(u: Setup, start: CanaryState, trace: seq<Event>, e: Event)
    requires AllHeard(u, start, trace)
    requires e.Probed? ==>
               e.v == Classify(After(start, u.baseline, Replies(u, trace)), u.baseline, u.env.probe(e.at)).1
    ensures AllHeard(u, start, trace + [e])
  {
    hide Classify, After, Replies;
    Longer(u, trace, e);
  }

  lemma TimelyOn(trace: seq<Event>, now: nat, e: Event, later: nat)
    requires Timely(trace, now) && now <= later && (Asked(e) ==> now <= e.at < later)
    ensures Timely(trace + [e], later)
  {
    var longer := trace + [e];
    assert forall i :: 0 <= i < |trace| ==> longer[i] == trace[i];
  }

  /** The state after an event that is neither a probe nor unjudged. */
  lemma FaithfulOn(u: Setup, start: CanaryState, m: Progress, m': Progress, e: Event)
    requires Faithful(u, start, m) && m'.trace == m.trace + [e] && m'.canary == m.canary && !e.Probed?
    requires m.now <= m'.now && (e.Walked? ==> m.now == e.at && e.at < m'.now && e.s in m'.measured)
    requires m.measured <= m'.measured
    requires e.Kept? ==> FairlyJudged(u, Walks(m.trace), e.t)
    ensures Faithful(u, start, m') && Walks(m'.trace) == Walks(m.trace) + if e.Walked? then [e] else []
  {
    hide FairlyJudged, Walks, Replies, AllJudged, AllHeard, After, Timely;
    Longer(u, m.trace, e);
    TimelyOn(m.trace, m.now, e, m'.now);
    JudgedOn(u, m.trace, e);
    HeardOn(u, start, m.trace, e);
    assert Replies(u, m'.trace) == Replies(u, m.trace);
  }

  lemma FaithfulStill(u: Setup, start: CanaryState, m: Progress, m': Progress)
    requires Faithful(u, start, m) && m'.trace == m.trace && m'.canary == m.canary && m.now <= m'.now
    requires m.measured <= m'.measured
    ensures Faithful(u, start, m')
  {
    hide AllJudged, AllHeard, After;
  }

  // ---------- One repeat ----------

  /** In the midst of measuring s: faithful, and all runs so far are the last walks. */
  ghost predicate Midst(u: Setup, start: CanaryState, m: Progress, s: Settings, runs: seq<Result>) {
    Faithful(u, start, m) && s in m.measured && Backed(u, s, Walks(m.trace), runs) && AllClean(runs)
  }

  lemma CleanIsAcceptable(u: Setup, s: Settings, ws: seq<Event>, runs: seq<Result>, n: nat)
    requires Backed(u, s, ws, runs) && n <= |runs| && AllClean(runs[..n])
    ensures AllAcceptable(u, runs[..n])
  {
    hide Checked, Acceptable, Grounds;
    forall i | 0 <= i < n ensures Acceptable(u, runs[..n][i]) {
      assert Brought(u, s, ws[|ws| - |runs| + i], runs[i]) && runs[..n][i].failure == [];
      CheckedExactly(u, Report(u, ws[|ws| - |runs| + i]).result);
    }
  }

  lemma BackedReturned(u: Setup, s: Settings, ws: seq<Event>, runs: seq<Result>)
    requires Backed(u, s, ws, runs) && runs != []
    ensures Returned(u, ws) == ws
  {
    assert Brought(u, s, ws[|ws| - |runs| + (|runs| - 1)], runs[|runs| - 1]);
  }

  /** Recording a trial that was broken off. */
  lemma KeepIfFaithful(u: Setup, start: CanaryState, m: Progress, s: Settings, phase: Phase, runs: seq<Result>,
                       cause: Cause)
    requires Faithful(u, start, m) && Backed(u, s, Returned(u, Walks(m.trace)), runs) && AllClean(runs)
    requires !cause.RunFailed?
    ensures Faithful(u, start, KeepIf(m, s, phase, runs, cause))
    ensures Walks(KeepIf(m, s, phase, runs, cause).trace) == Walks(m.trace)
  {
    hide Faithful, Backed, Acceptable, Walks, AllClean, Returned;
    if runs != [] {
      assert runs[..|runs|] == runs;
      CleanIsAcceptable(u, s, Returned(u, Walks(m.trace)), runs, |runs|);
      var t := BrokenOff(s, phase, runs, cause);
      FaithfulOn(u, start, m, Keep(m, t), Kept(t));
    }
  }

  lemma InterruptFaithful(u: Setup, start: CanaryState, m: Progress, s: Settings, phase: Phase, runs: seq<Result>)
    requires Faithful(u, start, m) && Backed(u, s, Returned(u, Walks(m.trace)), runs) && AllClean(runs)
    ensures var (m', yes) := Interrupt(u, m, s, phase, runs);
            Faithful(u, start, m') && (!yes ==> m' == m.(now := m.now + 1))
  {
    hide Faithful, Backed, Walks, AllClean, Returned, KeepIf;
    var m1 := m.(now := m.now + 1);
    FaithfulStill(u, start, m, m1);
    match u.env.ctx(m.now)
    case Live =>
    case DeadlineExceeded =>
      var limited := m1.(out := m.out.(budgetLimited := Some(DurationUsed)));
      FaithfulStill(u, start, m, limited);
      KeepIfFaithful(u, start, limited, s, phase, runs, Interrupted);
    case Canceled =>
      var aborted := m1.(out := m.out.(aborted := Some(InterruptedDuring(s))));
      FaithfulStill(u, start, m, aborted);
      KeepIfFaithful(u, start, aborted, s, phase, runs, Interrupted);
  }

  lemma MidstReturned(u: Setup, start: CanaryState, m: Progress, s: Settings, runs: seq<Result>)
    requires Midst(u, start, m, s, runs)
    ensures Backed(u, s, Returned(u, Walks(m.trace)), runs)
  {
    hide Brought;
    if runs != [] {
      BackedReturned(u, s, Walks(m.trace), runs);
    }
  }

  lemma AbortFaithful(u: Setup, start: CanaryState, m: Progress, reason: Stop, s: Settings, phase: Phase,
                      runs: seq<Result>)
    requires Midst(u, start, m, s, runs)
    ensures Faithful(u, start, Abort(m, reason, s, phase, runs))
  {
    hide Faithful, Backed, Walks, AllClean, Returned, KeepIf;
    MidstReturned(u, start, m, s, runs);
    var aborted := m.(out := m.out.(aborted := Some(reason)));
    FaithfulStill(u, start, m, aborted);
    KeepIfFaithful(u, start, aborted, s, phase, runs, AbortedBy(reason));
  }

  lemma ProbeFaithful(u: Setup, start: CanaryState, m: Progress)
    requires Faithful(u, start, m)
    ensures var (m', v) := Probe(u, m);
            Faithful(u, start, m') && Walks(m'.trace) == Walks(m.trace) && m'.measured == m.measured
  {
    hide AllJudged, AllHeard, Walks, Replies, Classify, After, Timely;
    var (m', v) := Probe(u, m);
    var e := Probed(v, m.now);
    Longer(u, m.trace, e);
    TimelyOn(m.trace, m.now, e, m'.now);
    HeardLonger(start, u.baseline, Replies(u, m.trace), u.env.probe(m.now));
    JudgedOn(u, m.trace, e);
    HeardOn(u, start, m.trace, e);
  }

  lemma BackedOn(u: Setup, s: Settings, ws: seq<Event>, runs: seq<Result>, e: Event, run: Result)
    requires Backed(u, s, ws, runs) && Brought(u, s, e, run)
    ensures Backed(u, s, ws + [e], runs + [run])
  {
    hide Brought;
    assert (ws + [e])[..|ws| - |runs|] == ws[..|ws| - |runs|];
  }

  lemma ReturnedOn(u: Setup, ws: seq<Event>, e: Event)
    requires e.Walked? && Report(u, e).failed
    ensures Returned(u, ws + [e]) == ws
  {
    assert (ws + [e])[..|ws|] == ws;
  }

  lemma WalkOnceFaithful(u: Setup, start: CanaryState, m: Progress, s: Settings, phase: Phase, runs: seq<Result>)
    requires Midst(u, start, m, s, runs)
    ensures var (m', step) := WalkOnce(u, m, s, phase, runs);
            && Faithful(u, start, m')
            && (step.Ran? ==> m'.measured == m.measured && Backed(u, s, Walks(m'.trace), runs + [step.res]))
  {
    hide Faithful, Backed, Walks, AllClean, Returned, Checked;
    var report := u.env.walk(m.now, s);
    var e := Walked(s, report.took, m.now);
    var m1 := m.(now := m.now + 1, lastSet := s, prevRun := report.took, trace := m.trace + [e]);
    FaithfulOn(u, start, m, m1, e);
    if !report.failed {
      BackedOn(u, s, Walks(m.trace), runs, e, Checked(u, report.result));
    } else {
      ReturnedOn(u, Walks(m.trace), e);
      InterruptFaithful(u, start, m1, s, phase, runs);
      var (m2, interrupted) := Interrupt(u, m1, s, phase, runs);
      FaithfulStill(u, start, m2, m2.(out := m2.out.(aborted := Some(TransportError(s)))));
    }
  }

  lemma MidstStill(u: Setup, start: CanaryState, m: Progress, m': Progress, s: Settings, runs: seq<Result>)
    requires Midst(u, start, m, s, runs) && Faithful(u, start, m') && Walks(m'.trace) == Walks(m.trace)
    requires m'.measured == m.measured
    ensures Midst(u, start, m', s, runs)
  {
  }

  lemma OnVerdictFaithful(u: Setup, start: CanaryState, m: Progress, v: Verdict, s: Settings, phase: Phase,
                          runs: seq<Result>)
    requires Midst(u, start, m, s, runs)
    ensures var (m', step) := OnVerdict(u, m, v, s, phase, runs);
            && Faithful(u, start, m')
            && (step.Ran? ==> m'.measured == m.measured && Backed(u, s, Walks(m'.trace), runs + [step.res]))
  {
    hide Faithful, Backed, Walks, AllClean, KeepIf, Abort, WalkOnce;
    AbortFaithful(u, start, m, AgentRestarted(m.lastSet), s, phase, runs);
    AbortFaithful(u, start, m, AgentLost(m.lastSet), s, phase, runs);
    var m1 := Heed(u, m, v, phase);
    FaithfulStill(u, start, m, m1);
    MidstStill(u, start, m, m1, s, runs);
    MidstReturned(u, start, m1, s, runs);
    KeepIfFaithful(u, start, m1, s, phase, runs, StressedBeforeRepeat(|runs| + 1));
    WalkOnceFaithful(u, start, m1, s, phase, runs);
  }

  lemma RepeatFaithful(u: Setup, start: CanaryState, m: Progress, s: Settings, phase: Phase, runs: seq<Result>)
    requires Midst(u, start, m, s, runs)
    ensures var (m', step) := Repeat(u, m, s, phase, runs);
            && Faithful(u, start, m')
            && (step.Ran? ==> m'.measured == m.measured && Backed(u, s, Walks(m'.trace), runs + [step.res]))
  {
    hide Faithful, Backed, Walks, AllClean, OnVerdict, Probe;
    var slept := Sleep(u, m);
    FaithfulOn(u, start, m, slept, Slept(Cooldown(u.opts.cooldown, m.prevRun)));
    MidstStill(u, start, m, slept, s, runs);
    MidstReturned(u, start, slept, s, runs);
    InterruptFaithful(u, start, slept, s, phase, runs);
    var (m1, interrupted) := Interrupt(u, slept, s, phase, runs);
    if !interrupted {
      MidstStill(u, start, slept, m1, s, runs);
      ProbeFaithful(u, start, m1);
      var (m2, v) := Probe(u, m1);
      MidstStill(u, start, m1, m2, s, runs);
      OnVerdictFaithful(u, start, m2, v, s, phase, runs);
    }
  }

  // ---------- One trial ----------

  /** What is scored: the last walks, all clean but perhaps the last. */
  ghost predicate Scoreable(u: Setup, s: Settings, ws: seq<Event>, runs: seq<Result>) {
    Backed(u, s, ws, runs) && (runs != [] ==> AllClean(runs[..|runs| - 1]))
  }

  lemma {:induction false} RepeatsFaithful(u: Setup, start: CanaryState, m: Progress, s: Settings, phase: Phase,
                                           runs: seq<Result>)
    requires Midst(u, start, m, s, runs)
    ensures var (m', runs', scored, stop) := Repeats(u, m, s, phase, runs);
            Faithful(u, start, m') && (scored ==> Scoreable(u, s, Walks(m'.trace), runs'))
    decreases u.opts.repeats - |runs|
  {
    hide Faithful, Backed, Walks, Repeat;
    assert runs != [] ==> AllClean(runs[..|runs| - 1]);
    if |runs| < u.opts.repeats {
      RepeatFaithful(u, start, m, s, phase, runs);
      var (m1, step) := Repeat(u, m, s, phase, runs);
      if step.Ran? {
        assert (runs + [step.res])[..|runs|] == runs;
        if step.res.failure == [] {
          RepeatsFaithful(u, start, m1, s, phase, runs + [step.res]);
        }
      }
    }
  }

  lemma {:induction false} FirstFailureLast(runs: seq<Result>)
    requires runs != [] && AllClean(runs[..|runs| - 1])
    ensures FirstFailure(runs) == runs[|runs| - 1].failure
  {
    if |runs| > 1 {
      assert runs[0] == runs[..|runs| - 1][0];
      assert runs[1..][..|runs| - 2] == runs[..|runs| - 1][1..];
      FirstFailureLast(runs[1..]);
    } else {
      assert FirstFailure(runs[1..]) == [];
    }
  }

  lemma CleanFairly(u: Setup, s: Settings, ws: seq<Event>, runs: seq<Result>)
    requires Backed(u, s, ws, runs) && runs != [] && AllClean(runs)
    ensures AllAcceptable(u, runs)
  {
    hide Backed, Acceptable, AllClean;
    assert runs[..|runs|] == runs;
    CleanIsAcceptable(u, s, ws, runs, |runs|);
  }

  /** A last run that failed was not acceptable, on the grounds it was recorded with. */
  lemma FailedFairly(u: Setup, s: Settings, ws: seq<Event>, runs: seq<Result>)
    requires Scoreable(u, s, ws, runs) && runs != [] && runs[|runs| - 1].failure != []
    ensures AllAcceptable(u, runs[..|runs| - 1])
    ensures ws != [] && Brought(u, s, ws[|ws| - 1], runs[|runs| - 1])
    ensures var raw := Report(u, ws[|ws| - 1]).result;
            !Acceptable(u, raw) && FirstFailure(runs) == Grounds(u, raw)
  {
    hide Checked, TooFew, Grounds, AllClean;
    var n := |runs| - 1;
    FirstFailureLast(runs);
    CleanIsAcceptable(u, s, ws, runs, n);
    assert Brought(u, s, ws[|ws| - |runs| + n], runs[n]);
    CheckedExactly(u, Report(u, ws[|ws| - 1]).result);
  }

  lemma NoneUnacceptable(u: Setup)
    ensures AllAcceptable(u, [])
  {
  }

  lemma NoneReturned(u: Setup, s: Settings, ws: seq<Event>)
    requires Backed(u, s, ws, [])
    ensures Backed(u, s, Returned(u, ws), [])
  {
    assert ws[..|ws|] == ws;
    var r := Returned(u, ws);
    assert forall e :: e in r ==> e in ws;
  }

  lemma NoRunsYet(u: Setup, m: Progress, s: Settings)
    requires AllBegun(m.measured, Walks(m.trace)) && s !in m.measured
    ensures Backed(u, s, Walks(m.trace), []) && Backed(u, s, Returned(u, Walks(m.trace)), []) && AllClean([])
  {
    NoneReturned(u, s, Walks(m.trace));
  }

  lemma ScoredFairly(u: Setup, s: Settings, phase: Phase, ws: seq<Event>, runs: seq<Result>)
    requires Scoreable(u, s, ws, runs)
    ensures FairlyJudged(u, ws, ScoreOf(s, phase, runs))
  {
    hide Brought, Acceptable, Grounds, AllAcceptable, AllClean, Backed;
    ScoreMeaning(s, phase, runs);
    if runs == [] {
      NoneReturned(u, s, ws);
      NoneUnacceptable(u);
    } else {
      BackedReturned(u, s, ws, runs);
      FirstFailureLast(runs);
      if runs[|runs| - 1].failure == [] {
        CleanFairly(u, s, ws, runs);
      } else {
        FailedFairly(u, s, ws, runs);
      }
    }
  }

  lemma BegunOf(u: Setup, start: CanaryState, m: Progress)
    requires Faithful(u, start, m)
    ensures AllBegun(m.measured, Walks(m.trace))
  {
  }

  /** Every trial in every phase is recorded with its own walks and judged by them. */
  lemma MeasureFaithful(u: Setup, start: CanaryState, m: Progress, s: Settings, phase: Phase)
    requires Faithful(u, start, m)
    ensures Faithful(u, start, Measure(u, m, s, phase).0)
  {
    hide Faithful, Walks, Repeats, ScoreOf, FairlyJudged;
    if s.Product() < m.ceiling && s !in m.measured {
      BegunOf(u, start, m);
      NoRunsYet(u, m, s);
      InterruptFaithful(u, start, m, s, phase, []);
      var (m1, interrupted) := Interrupt(u, m, s, phase, []);
      if !interrupted {
        var limited := m1.(now := m1.now + 1, out := Measure(u, m, s, phase).0.out);
        FaithfulStill(u, start, m1, limited);
        var m2 := m1.(now := m1.now + 1, measured := m1.measured + {s});
        FaithfulStill(u, start, m1, m2);
        RepeatsFaithful(u, start, m2, s, phase, []);
        var (m3, runs, scored, stop) := Repeats(u, m2, s, phase, []);
        if scored {
          ScoredFairly(u, s, phase, Walks(m3.trace), runs);
          var t := ScoreOf(s, phase, runs);
          FaithfulOn(u, start, m3, Settle(m3, t), Kept(t));
        }
      }
    }
  }

  // ---------- The final probe ----------

  lemma FinalProbeFaithful(u: Setup, start: CanaryState, m: Progress)
    requires Faithful(u, start, m)
    ensures Faithful(u, start, FinalProbe(u, m))
  {
    hide Faithful, Probe, Invalidated;
    var m0 := m.(now := m.now + 1);
    FaithfulStill(u, start, m, m0);
    if u.env.ctx(m.now) == Live && m.out.trials != [] {
      ProbeFaithful(u, start, m0);
      var (m1, v) := Probe(u, m0);
      FaithfulStill(u, start, m1, FinalProbe(u, m));
    }
  }

  /** When the final probe fails the last trial: exactly when there is one, the context is
      live, and this probe and the one before it went unanswered or the uptime fell below the
      last one seen. */
  lemma FinalProbeExactly(u: Setup, start: CanaryState, m: Progress)
    requires Faithful(u, start, m) && start.lost == 0 && SearchSafety.Unstopped(m)
    ensures var h, r := Replies(u, m.trace), u.env.probe(m.now + 1);
            var last := LastSeen(start, h);
            FinalProbe(u, m).out.aborted.Some? <==>
              && u.env.ctx(m.now) == Live && m.out.trials != []
              && (|| (r.Unanswered? && h != [] && h[|h| - 1].Unanswered?)
                  || (r.Answer? && last.seen && Uptime(r.sample) < last.lastUptime))
  {
    hide AllJudged, AllHeard, Timely, Replies, After, LastSeen;
    VerdictOverHistory(start, u.baseline, Replies(u, m.trace), u.env.probe(m.now + 1));
  }

  /** If it does, it fails that trial alone, and nothing else ever changes. */
  lemma FinalProbeFailsLast(u: Setup, m: Progress)
    requires SearchSafety.Unstopped(m)
    requires Distinct(m.out.trials) && LastWalkedRecorded(CoreOf(m))
    ensures var m', n := FinalProbe(u, m), |m.out.trials| - 1;
            match m'.out.aborted
            case None => m'.out == m.out
            case Some(reason) =>
              n >= 0 &&
              var failed := m.out.trials[n].(failure := Some(AbortedBy(reason)), score := 0.0);
              m'.out == m.out.(aborted := Some(reason), trials := m.out.trials[..n] + [failed])
  {
    var m', before := FinalProbe(u, m), m.out.trials;
    if m'.out.aborted.Some? {
      var failed := before[|before| - 1].(failure := Some(AbortedBy(m'.out.aborted.value)), score := 0.0);
      assert m'.out.trials == before[..|before| - 1] + [failed];
    }
  }

  /** A loss caused by the last trial goes unnoticed when the probe before it was answered:
      the final probe goes unanswered and the outcome stays as it was. */
  lemma FinalLossUnnoticed(u: Setup, start: CanaryState, m: Progress)
    requires Faithful(u, start, m) && start.lost == 0 && u.env.ctx(m.now) == Live && m.out.trials != []
    requires var h := Replies(u, m.trace); h != [] && h[|h| - 1].Answer?
    requires u.env.probe(m.now + 1).Unanswered?
    ensures FinalProbe(u, m).out == m.out
  {
    hide AllJudged, AllHeard, Timely, Replies, After, LastSeen;
    VerdictOverHistory(start, u.baseline, Replies(u, m.trace), u.env.probe(m.now + 1));
  }

  // ---------- Whole searches ----------

  lemma NotedFaithful(u: Setup, start: CanaryState, m: Progress)
    requires Faithful(u, start, m)
    ensures forall note :: Faithful(u, start, Noted(m, note))
  {
    hide AllJudged, AllHeard, After;
  }

  lemma BeginFaithful(u: Setup, m: Progress, ceiling: int)
    requires m.trace == []
    ensures Faithful(u, m.canary, Begin(m, ceiling))
  {
  }

  lemma KeptFaithful(u: Setup, start: CanaryState)
    ensures KeptByTrials(u, s => true, m => Faithful(u, start, m))
  {
    hide Faithful, Measure;
    forall m, s, phase | Faithful(u, start, m) ensures Faithful(u, start, Measure(u, m, s, phase).0) {
      MeasureFaithful(u, start, m, s, phase);
    }
    forall m, note | Faithful(u, start, m) ensures Faithful(u, start, Noted(m, note)) {
      NotedFaithful(u, start, m);
    }
  }

  lemma EndFaithful(u: Setup, start: CanaryState, m': Progress)
    requires Ends(u, m => Faithful(u, start, m), m')
    ensures Faithful(u, start, m')
  {
    hide Faithful, FinalProbe;
    if !(Faithful(u, start, m') && !SearchSafety.Unstopped(m')) {
      var m :| Faithful(u, start, m) && SearchSafety.Unstopped(m) && m' == FinalProbe(u, m);
      FinalProbeFaithful(u, start, m);
    }
  }

  /** The trace of any search, stopped or not: every trial was recorded with the very walks
      made for it and judged by them, and the canary's verdicts are those on its replies.
      In particular no clean trial missed more than the tolerated percentage. */
  lemma RunFaithful(u: Setup, m: Progress, v0: int, widest: int)
    requires m.trace == [] && v0 > 0 && widest >= 0 && 0 <= u.maxProduct < 0x8000_0000
    ensures Faithful(u, m.canary, RunSearch(u, m, v0, widest))
  {
    hide Faithful, KeptByTrials, Ends, RunSearch;
    BeginFaithful(u, m, u.maxProduct + 1);
    KeptFaithful(u, m.canary);
    SearchKept(u, s => true, m' => Faithful(u, m.canary, m'), m, v0, widest);
    EndFaithful(u, m.canary, RunSearch(u, m, v0, widest));
  }

  /** The same of prescribed trials. */
  lemma MeasureAllFaithful(u: Setup, m: Progress, settings: seq<Settings>)
    requires m.trace == []
    ensures Faithful(u, m.canary, MeasureAll(u, m, settings))
  {
    hide Faithful, KeptByTrials, Ends, MeasureAll;
    BeginFaithful(u, m, MAX_INT);
    KeptFaithful(u, m.canary);
    MeasureAllKept(u, s => true, m' => Faithful(u, m.canary, m'), m, settings);
    EndFaithful(u, m.canary, MeasureAll(u, m, settings));
  }

  // ---------- Outcomes ----------

  ghost predicate Recorded(u: Setup, trace: seq<Event>, k: nat, t: Trial)
    requires k < |trace| && trace[k].Kept?
  {
    && FairlyJudged(u, Walks(trace[..k]), trace[k].t)
    && trace[k].t.settings == t.settings && trace[k].t.runs == t.runs && (t.OK() ==> trace[k].t == t)
  }

  /** The trial was recorded with these runs and fairly judged by them; it is clean only if
      it was so judged. */
  ghost predicate JudgedIn(u: Setup, trace: seq<Event>, t: Trial) {
    exists k :: 0 <= k < |trace| && trace[k].Kept? && Recorded(u, trace, k, t)
  }

  lemma {:induction false} KeptAt(trace: seq<Event>, i: nat) returns (k: nat)
    requires i < |KeptTrials(trace)|
    ensures k < |trace| && trace[k].Kept? && trace[k].t == KeptTrials(trace)[i]
  {
    var n := |trace| - 1;
    if i < |KeptTrials(trace[..n])| {
      k := KeptAt(trace[..n], i);
    } else {
      k := n;
    }
  }

  /** Every trial in the outcome of a search is judged by the walks made for it; the final
      probe can turn a clean one into a failed one only. */
  lemma OutcomeJudged(u: Setup, start: CanaryState, m: Progress, pre: bool)
    requires Faithful(u, start, m) && Guarantees.Sound(u, m, pre)
    ensures forall t :: t in m.out.trials ==> JudgedIn(u, m.trace, t)
  {
    hide FairlyJudged, AllHeard, Timely, KeptTrials, SafeTrace, Distinct, Descending, Complete;
    forall t | t in m.out.trials ensures JudgedIn(u, m.trace, t) {
      var i :| 0 <= i < |m.out.trials| && m.out.trials[i] == t;
      var k := KeptAt(m.trace, i);
      assert Recorded(u, m.trace, k, t);
    }
  }
}
