/** What holds of every whole search (internal/search/search.go:131-219), whatever the
    agent, the canary, the clock and the context do. */
module Guarantees {
  import opened Arithmetic
  import opened Agent
  import opened Walk
  import Run
  import opened Trials
  import opened Machine
  import opened SearchSafety
  import opened SearchRuns
  import opened Workloads
  import Accounting

  /** A search that has not run before: a Runner is used once. */
  predicate Unused(u: Setup, m: Progress) {
    && m.lastGood == 0 && m.prevRun == 0 && m.trace == [] && m.spent == u.spentBefore
    && (u.maxTrials > 0 ==> m.spent <= u.maxTrials) && u.opts.repeats > 0
  }

  /** The final probe may only turn the last trial into a failed one. */
  ghost predicate Amended(before: seq<Trial>, after: seq<Trial>) {
    && |after| == |before|
    && (forall i :: 0 <= i < |after| - 1 ==> after[i] == before[i])
    && (after != [] ==>
          var a, b := after[|after| - 1], before[|before| - 1];
          a == b || (!a.OK() && a.settings == b.settings && a.phase == b.phase && a.runs == b.runs))
  }

  /** Every walk was safe when it started; the outcome lists what was recorded, each
      setting once, below the limit and all that failed before it, clean ones with all repeats;
      the budget counts exactly these. */
  ghost predicate Sound(u: Setup, m: Progress, pre: bool) {
    && SafeTrace(LawOf(u, pre), m.trace) && Amended(KeptTrials(m.trace), m.out.trials)
    && Distinct(m.out.trials) && Descending(m.out.trials) && Complete(m.out.trials, u.opts.repeats)
    && Affordable(u, m)
    && forall i :: 0 <= i < |m.out.trials| ==> m.out.trials[i].Product() < LawOf(u, pre).limit
  }

  /** Everything clean is below everything that failed while climbing. */
  ghost predicate Peaked(trials: seq<Trial>) {
    forall i, j | 0 <= i < |trials| && 0 <= j < |trials| && trials[i].OK() && !trials[j].OK() ::
      Climbing(trials[j].phase) ==> trials[i].Product() < trials[j].Product()
  }

  /** First n climbing trials at V = v0; then splits of at most the largest product clean
      by then, each at a V never measured before. */
  ghost predicate Phased(trials: seq<Trial>, v0: int, n: nat) {
    && n <= |trials| && AllClimbing(trials[..n])
    && (forall i :: 0 <= i < n ==> trials[i].settings.maxVarsPerPDU == v0)
    && SplitsFrom(trials, n, LargestClean(trials[..n]))
  }

  ghost predicate Ended(u: Setup, m: Progress, v0: int) {
    Sound(u, m, false) && Peaked(m.out.trials) && exists n :: Phased(m.out.trials, v0, n)
  }

  lemma EndedSound(u: Setup, m: Progress, v0: int)
    requires Ended(u, m, v0)
    ensures Sound(u, m, false)
  {
  }

  // ---------- The final probe ----------

  lemma LastOnly(m: Progress, reason: Stop)
    requires Distinct(m.out.trials) && LastWalkedRecorded(CoreOf(m))
    ensures Amended(m.out.trials, Invalidate(m, reason).out.trials)
  {
  }

  lemma AmendedSelf(trials: seq<Trial>)
    ensures Amended(trials, trials)
  {
  }

  lemma SameLast(c: Core, d: Core)
    requires LastWalkedRecorded(c) && d.trials == c.trials && d.lastSet == c.lastSet
    ensures LastWalkedRecorded(d)
  {
  }

  lemma FinalProbeAmends(u: Setup, m: Progress, pre: bool)
    requires SafeTrace(LawOf(u, pre), m.trace) && Distinct(m.out.trials) && LastWalkedRecorded(CoreOf(m))
        && Unstopped(m)
    ensures var m' := FinalProbe(u, m);
            && Amended(m.out.trials, m'.out.trials) && m'.spent == m.spent
            && SafeTrace(LawOf(u, pre), m'.trace) && KeptTrials(m'.trace) == KeptTrials(m.trace)
            && m'.out.note == m.out.note && m'.out.stressed == m.out.stressed
            && (Unstopped(m') ==> m'.out == m.out)
  {
    hide SafeTrace, Distinct, Amended, Invalidated, KeptTrials, LastWalkedRecorded;
    AmendedSelf(m.out.trials);
    if u.env.ctx(m.now) == Live && m.out.trials != [] {
      var (m1, v) := Probe(u, m.(now := m.now + 1));
      TraceSnoc(LawOf(u, pre), m.trace, Probed(v, m.now + 1));
      assert LastWalkedRecorded(CoreOf(m1)) by { SameLast(CoreOf(m), CoreOf(m1)); }
      LastOnly(m1, AgentRestarted(m1.lastSet));
      LastOnly(m1, AgentLost(m1.lastSet));
    }
  }

  lemma AmendedBelow(before: seq<Trial>, after: seq<Trial>, limit: int)
    requires Amended(before, after) && forall i :: 0 <= i < |before| ==> before[i].Product() < limit
    ensures forall i :: 0 <= i < |after| ==> after[i].Product() < limit
  {
  }

  lemma AmendedLength(before: seq<Trial>, after: seq<Trial>)
    requires Amended(before, after)
    ensures |before| == |after|
  {
  }

  lemma AmendedAt(before: seq<Trial>, after: seq<Trial>, i: nat)
    requires Amended(before, after) && i < |after|
    ensures |before| == |after| && after[i].settings == before[i].settings
    ensures after[i] == before[i] || (!after[i].OK() && i == |after| - 1)
  {
  }

  lemma AmendedKeeps(before: seq<Trial>, after: seq<Trial>, repeats: nat)
    requires Amended(before, after) && Distinct(before) && Descending(before) && Complete(before, repeats)
    ensures Distinct(after) && Descending(after) && Complete(after, repeats)
  {
    hide Amended;
    forall i | 0 <= i < |after|
      ensures |before| == |after| && after[i].settings == before[i].settings
      ensures after[i] == before[i] || (!after[i].OK() && i == |after| - 1)
    {
      AmendedAt(before, after, i);
    }
  }

  lemma FinalProbeKeeps(u: Setup, m: Progress, pre: bool)
    requires Ready(u, m, pre)
    ensures var m' := FinalProbe(u, m);
            && Sound(u, m', pre) && Amended(m.out.trials, m'.out.trials)
            && m'.out.note == m.out.note && m'.out.stressed == m.out.stressed
            && (Unstopped(m') ==> m'.out == m.out)
  {
    hide SafeTrace, Distinct, Descending, Complete, Amended, FinalProbe, CeilingHolds;
    FinalProbeAmends(u, m, pre);
    AmendedKeeps(m.out.trials, FinalProbe(u, m).out.trials, u.opts.repeats);
    AmendedLength(m.out.trials, FinalProbe(u, m).out.trials);
    AmendedBelow(m.out.trials, FinalProbe(u, m).out.trials, LawOf(u, pre).limit);
  }

  lemma RisingPeaks(before: seq<Trial>, after: seq<Trial>)
    requires Rising(before) && Descending(after) && Amended(before, after)
    ensures Peaked(after)
  {
  }

  lemma AmendedPhased(before: seq<Trial>, after: seq<Trial>, v0: int, n: nat)
    requires Phased(before, v0, n) && Amended(before, after)
    ensures Phased(after, v0, n) || Phased(after, v0, |after|)
  {
    if n < |after| {
      assert after[..n] == before[..n];
      assert Phased(after, v0, n);
    } else {
      assert Phased(after, v0, |after|);
    }
  }

  // ---------- Run ----------

  lemma BeginReady(u: Setup, m: Progress, pre: bool)
    requires Unused(u, m)
    ensures Ready(u, Begin(m, LawOf(u, pre).limit), pre)
  {
  }

  lemma OneV(u: Setup, m: Progress, v0: int)
    requires Lasting(LawOf(u, false), CoreOf(m)) && OnlyV(m, v0)
    ensures Phased(m.out.trials, v0, |m.out.trials|)
  {
    assert m.out.trials[..|m.out.trials|] == m.out.trials;
  }

  /** A search that is stopped, while climbing or splitting. */
  lemma StoppedEnds(u: Setup, m: Progress, v0: int, n: nat)
    requires Stopped(u, m, false) && Rising(m.out.trials) && Phased(m.out.trials, v0, n)
    ensures Ended(u, m, v0)
  {
    hide SafeTrace, Complete, Rising, Phased;
    AmendedSelf(m.out.trials);
    RisingPeaks(m.out.trials, m.out.trials);
  }

  /** A search that comes to its end. */
  lemma ProbedEnds(u: Setup, m: Progress, v0: int, n: nat)
    requires Ready(u, m, false) && Rising(m.out.trials) && Phased(m.out.trials, v0, n)
    ensures Ended(u, FinalProbe(u, m), v0)
  {
    hide Ready, Rising, Phased, FinalProbe, Amended, SafeTrace, Distinct, Descending, Complete;
    FinalProbeKeeps(u, m, false);
    RisingPeaks(m.out.trials, FinalProbe(u, m).out.trials);
    AmendedPhased(m.out.trials, FinalProbe(u, m).out.trials, v0, n);
  }

  lemma CandidatesUntried(m: Progress, v0: int, widest: int)
    requires OnlyV(m, v0) && widest >= 0
    ensures Untried(m, SplitCandidates(v0, widest))
  {
    CandidatesAre(v0, widest, v0);
  }

  lemma SplitPhased(m: Progress, m': Progress, v0: int, product: nat)
    requires Phased(m.out.trials, v0, |m.out.trials|) && product == LargestClean(m.out.trials)
    requires |m.out.trials| <= |m'.out.trials| && m.out.trials == m'.out.trials[..|m.out.trials|]
    requires SplitsFrom(m'.out.trials, |m.out.trials|, product)
    ensures Phased(m'.out.trials, v0, |m.out.trials|)
  {
    hide SplitsFrom, LargestClean;
    var n := |m.out.trials|;
    assert m.out.trials[..n] == m.out.trials;
    assert forall i :: 0 <= i < n ==> m'.out.trials[i] == m'.out.trials[..n][i] == m.out.trials[i];
  }

  lemma ReadyLasts(u: Setup, m: Progress, pre: bool)
    requires Ready(u, m, pre)
    ensures Lasting(LawOf(u, pre), CoreOf(m)) && m.lastGood == LargestClean(m.out.trials)
  {
  }

  lemma StoppedIs(u: Setup, m: Progress)
    requires Stopped(u, m, false)
    ensures !Unstopped(m) && Lasting(LawOf(u, false), CoreOf(m))
  {
  }

  lemma FinishEnds(u: Setup, m: Progress, v0: int, widest: int, goodR: Uint32)
    requires Ready(u, m, false) && Rising(m.out.trials) && OnlyV(m, v0) && m.lastGood == goodR * v0
    requires v0 > 0 && widest >= 0 && goodR * v0 <= u.maxProduct < 0x8000_0000
    ensures var m' := Finish(u, m, v0, widest, goodR);
            && Ended(u, m', v0) && |m'.out.trials| >= |m.out.trials|
            && (m.out.stressed ==> m'.out.stressed) && m'.out.note == m.out.note
            && (Unstopped(m') ==> LargestClean(m'.out.trials) == goodR * v0)
  {
    hide Ready, Stopped, Rising, OnlyV, Phased, FinalProbe, Splitting, Ended, Untried, SplitsFrom, Lasting, Sound,
         Amended;
    ReadyLasts(u, m, false);
    OneV(u, m, v0);
    if goodR == 0 {
      FinalProbeKeeps(u, m, false);
      AmendedLength(m.out.trials, FinalProbe(u, m).out.trials);
      ProbedEnds(u, m, v0, |m.out.trials|);
    } else {
      var vs := SplitCandidates(v0, widest);
      CandidatesPositive(v0, widest);
      CandidatesUntried(m, v0, widest);
      MulSign(goodR, v0);
      SplittingKeeps(u, m, goodR * v0, vs);
      var (m1, stop) := Splitting(u, m, goodR * v0, vs);
      SplitPhased(m, m1, v0, goodR * v0);
      if stop {
        StoppedEnds(u, m1, v0, |m.out.trials|);
        StoppedIs(u, m1);
      } else {
        ReadyLasts(u, m1, false);
        FinalProbeKeeps(u, m1, false);
        AmendedLength(m1.out.trials, FinalProbe(u, m1).out.trials);
        ProbedEnds(u, m1, v0, |m.out.trials|);
      }
    }
  }

  lemma BeginRung(u: Setup, m: Progress, v0: int)
    requires Unused(u, m) && v0 > 0 && 0 <= u.maxProduct
    ensures Rung(u, v0, Begin(m, u.maxProduct + 1), 0)
  {
    BeginReady(u, m, false);
  }

  /** How a search ends when an agent sustains exactly the products below K at V = v0. */
  ghost predicate Located(u: Setup, m: Progress, v0: int, K: int) {
    exists g: nat :: LargestClean(m.out.trials) == g * v0 && g * v0 < K <= (g + Max(1, g / 10)) * v0
  }

  lemma LocatedAt(u: Setup, m: Progress, v0: int, K: int, g: nat, bad: nat)
    requires LargestClean(m.out.trials) == g * v0 && g * v0 < K <= bad * v0 && bad - g <= Max(1, g / 10) && v0 > 0
    ensures Located(u, m, v0, K)
  {
    MulMonotone(bad, g + Max(1, g / 10), v0);
  }

  /** Run, whatever happens: every guardrail holds, and it ends with a peak below all
      failures of the climb. A quiet climb that ended in a failure has located the
      threshold to a tenth. */
  lemma RunKeeps(u: Setup, m: Progress, v0: int, widest: int)
    requires Unused(u, m) && v0 > 0 && widest >= 0 && 0 <= u.maxProduct < 0x8000_0000
    ensures var m' := RunSearch(u, m, v0, widest);
            && Ended(u, m', v0)
            && (Unstopped(m') && !m'.out.stressed && m'.out.note.Some? && m'.out.note.value.FailedThenBisect? ==>
                  forall K :: K > 0 && Threshold(u, v0, K) ==> Located(u, m', v0, K))
  {
    hide Ready, Stopped, Rising, OnlyV, Phased, Escalation, Bisection, Finish, Ended, Threshold, Climbed, Lasting,
         Located;
    BeginRung(u, m, v0);
    var m0 := Begin(m, u.maxProduct + 1);
    EscalationKeeps(u, m0, START.maxRepetitions, v0, 0, 0.0);
    var (m1, lastGoodR, firstBadR, stop) := Escalation(u, m0, START.maxRepetitions, v0, 0, 0.0);
    if stop {
      StoppedIs(u, m1);
      OneV(u, m1, v0);
      StoppedEnds(u, m1, v0, |m1.out.trials|);
    } else if firstBadR == 0 {
      FinishEnds(u, m1, v0, widest, lastGoodR);
    } else {
      BisectionKeeps(u, m1, lastGoodR, firstBadR, v0);
      var (m2, goodR, badR, stop2) := Bisection(u, m1, lastGoodR, firstBadR, v0);
      if stop2 {
        StoppedIs(u, m2);
        OneV(u, m2, v0);
        StoppedEnds(u, m2, v0, |m2.out.trials|);
      } else {
        MulMonotone(goodR, firstBadR, v0);
        FinishEnds(u, m2, v0, widest, goodR);
        var m' := Finish(u, m2, v0, widest, goodR);
        forall K | K > 0 && Threshold(u, v0, K) && Unstopped(m') && !m'.out.stressed ensures Located(u, m', v0, K) {
          LocatedAt(u, m', v0, K, goodR, badR);
        }
      }
    }
  }

  /** Within the limit on products, a search that nothing stopped has measured something:
      stress alone never skips the first trial. */
  lemma RunMeasures(u: Setup, m: Progress, v0: int, widest: int)
    requires Unused(u, m) && v0 > 0 && widest >= 0 && 0 <= u.maxProduct < 0x8000_0000
    requires u.startProduct == START.maxRepetitions * v0 <= u.maxProduct
    ensures var m' := RunSearch(u, m, v0, widest); Unstopped(m') ==> m'.out.trials != []
  {
    hide Ready, Stopped, Rising, OnlyV, Finish, Bisection, Measure, Ended, Threshold, Climbed, Lasting;
    BeginRung(u, m, v0);
    var m0 := Begin(m, u.maxProduct + 1);
    EscalationKeeps(u, m0, START.maxRepetitions, v0, 0, 0.0);
    FirstTrialMeasured(u, m0, v0);
    var (m1, lastGoodR, firstBadR, stop) := Escalation(u, m0, START.maxRepetitions, v0, 0, 0.0);
    if stop {
      StoppedIs(u, m1);
    } else if firstBadR == 0 {
      FinishEnds(u, m1, v0, widest, lastGoodR);
    } else {
      BisectionKeeps(u, m1, lastGoodR, firstBadR, v0);
      var (m2, goodR, badR, stop2) := Bisection(u, m1, lastGoodR, firstBadR, v0);
      if stop2 {
        StoppedIs(u, m2);
      } else {
        MulMonotone(goodR, firstBadR, v0);
        FinishEnds(u, m2, v0, widest, goodR);
      }
    }
  }

  /** If the first product is above the limit, a limit of zero included, the search ends
      before its first trial, saying so. */
  lemma NothingWithin(u: Setup, m: Progress, v0: int, widest: int)
    requires v0 > 0 && widest >= 0 && 0 <= u.maxProduct < 0x8000_0000 && START.maxRepetitions * v0 > u.maxProduct
    ensures var m' := RunSearch(u, m, v0, widest);
            && m'.out.trials == [] && Unstopped(m') && m'.trace == m.trace
            && m'.out.note == Some(ExceedsMaxProduct(Settings(START.maxRepetitions, v0)))
  {
  }

  /** A search that nothing stopped has measured something exactly when the first product
      is within the limit. A limit of zero is no exception: it is not unlimited. */
  lemma RunMeasuresExactly(u: Setup, m: Progress, v0: int, widest: int)
    requires Unused(u, m) && v0 > 0 && widest >= 0 && 0 <= u.maxProduct < 0x8000_0000
    requires u.startProduct == START.maxRepetitions * v0
    ensures var m' := RunSearch(u, m, v0, widest);
            Unstopped(m') ==> (m'.out.trials != [] <==> u.startProduct <= u.maxProduct)
    ensures u.maxProduct == 0 ==> RunSearch(u, m, v0, widest).out.trials == []
  {
    if u.startProduct <= u.maxProduct {
      RunMeasures(u, m, v0, widest);
    } else {
      NothingWithin(u, m, v0, widest);
    }
  }

  /** At request level: no GetBulk or Get of a search asks for more than MaxProduct
      varbinds, and each asks for fewer than every product that had failed by then. */
  lemma RequestsBelowFailures(u: Setup, trace: seq<Event>, k: nat, tr: Transport, w: Workload, len: nat, p: nat, i: nat)
    requires SafeTrace(LawOf(u, false), trace) && k < |trace| && trace[k].Walked?
    requires SaneAgent(tr, len) && Run.SaneWorkload(w, len)
    requires var pdus := Run.RunWalk(tr, w, trace[k].s, len).0.pdus; p < |pdus|
    ensures var pdus := Run.RunWalk(tr, w, trace[k].s, len).0.pdus;
            var before := KeptTrials(trace[..k]);
            && pdus[p].requested <= u.maxProduct
            && (i < |before| && !before[i].OK() ==> pdus[p].requested < before[i].Product())
  {
    Accounting.RequestsWithinProduct(tr, w, trace[k].s, len, p);
    assert SafeWalk(LawOf(u, false), trace[..k], trace[k].s);
  }

  // ---------- Measure ----------

  predicate FailedEarlier(t: Trial, s: Settings, earlier: seq<Settings>) {
    !t.OK() && t.settings in earlier && t.Product() <= s.Product()
  }

  /** A prescribed setting was measured, or is not below the product of an earlier one that
      failed. */
  ghost predicate Met(trials: seq<Trial>, s: Settings, earlier: seq<Settings>) {
    || (exists i :: 0 <= i < |trials| && trials[i].settings == s)
    || (exists i :: 0 <= i < |trials| && FailedEarlier(trials[i], s, earlier))
    || s.Product() >= 0x7FFF_FFFF_FFFF_FFFF
  }

  /** Each of the first n settings, given those before it. */
  ghost predicate AllMet(trials: seq<Trial>, settings: seq<Settings>, n: nat)
    requires n <= |settings|
  {
    forall k :: 0 <= k < n ==> Met(trials, settings[k], settings[..k])
  }

  /** Prescribed settings move the ceiling by failing only, and all that was begun is
      recorded. */
  ghost predicate Unvetoed(m: Progress, earlier: seq<Settings>) {
    && (m.ceiling == MAX_INT ||
        exists i :: 0 <= i < |m.out.trials| && !m.out.trials[i].OK() && m.out.trials[i].Product() == m.ceiling)
    && (forall s :: s in m.measured ==> exists i :: 0 <= i < |m.out.trials| && m.out.trials[i].settings == s)
    && (forall i :: 0 <= i < |m.out.trials| ==> m.out.trials[i].phase == Try && m.out.trials[i].settings in earlier)
  }

  lemma MetBefore(before: seq<Trial>, t: Trial, s: Settings, earlier: seq<Settings>)
    requires Met(before, s, earlier)
    ensures Met(before + [t], s, earlier)
  {
    var after := before + [t];
    assert forall i :: 0 <= i < |before| ==> after[i] == before[i];
  }

  lemma UnvetoedSnoc(m: Progress, m': Progress, t: Trial, earlier: seq<Settings>)
    requires Unvetoed(m, earlier) && t.phase == Try && m'.out.trials == m.out.trials + [t]
    requires m'.measured <= m.measured + {t.settings} && m'.ceiling == if t.OK() then m.ceiling else t.Product()
    ensures Unvetoed(m', earlier + [t.settings]) && Met(m'.out.trials, t.settings, earlier)
  {
    var before, after := m.out.trials, m'.out.trials;
    assert forall i :: 0 <= i < |before| ==> after[i] == before[i];
    assert after[|before|] == t;
  }

  /** A setting that is passed over. */
  lemma UnvetoedSkip(m: Progress, s: Settings, earlier: seq<Settings>)
    requires Unvetoed(m, earlier) && (s.Product() >= m.ceiling || s in m.measured)
    ensures Unvetoed(m, earlier + [s]) && Met(m.out.trials, s, earlier)
  {
    if s !in m.measured && m.ceiling != MAX_INT {
      var i :| 0 <= i < |m.out.trials| && !m.out.trials[i].OK() && m.out.trials[i].Product() == m.ceiling;
      assert FailedEarlier(m.out.trials[i], s, earlier);
    }
  }

  lemma AllTried(m: Progress, earlier: seq<Settings>)
    requires Unvetoed(m, earlier)
    ensures forall i :: 0 <= i < |m.out.trials| ==> m.out.trials[i].phase == Try
  {
  }

  /** No veto: a prescribed setting is skipped only when it was measured already or is
      not below one that failed before, and it is cut only by the end of the search. */
  lemma TryStep(u: Setup, m: Progress, s: Settings, earlier: seq<Settings>)
    requires Ready(u, m, true) && Unvetoed(m, earlier) && s.Product() >= 0
    ensures var (m1, t, stop) := Measure(u, m, s, Try);
            && (forall i :: 0 <= i < |m1.out.trials| ==> m1.out.trials[i].phase == Try)
            && (if stop then Stopped(u, m1, true)
                else Ready(u, m1, true) && Unvetoed(m1, earlier + [s]) && Met(m1.out.trials, s, earlier))
            && (m1.out.trials == m.out.trials || exists x: Trial :: m1.out.trials == m.out.trials + [x])
  {
    hide Ready, Stopped, Measure, AllClean, Met, Unvetoed;
    MeasureKeeps(u, m, s, Try);
    var (m1, t, stop) := Measure(u, m, s, Try);
    AllTried(m, earlier);
    if t.Some? {
      ScoreMeaning(s, Try, t.value.runs);
      UnvetoedSnoc(m, m1, t.value, earlier);
      AllTried(m1, earlier + [s]);
    } else if !stop {
      UnvetoedSkip(m, s, earlier);
    }
  }

  lemma AllMetOn(before: seq<Trial>, after: seq<Trial>, settings: seq<Settings>, n: nat)
    requires n < |settings| && AllMet(before, settings, n) && Met(after, settings[n], settings[..n])
    requires after == before || exists x: Trial :: after == before + [x]
    ensures AllMet(after, settings, n + 1)
  {
    hide Met;
    if after != before {
      var x: Trial :| after == before + [x];
      forall k | 0 <= k < n ensures Met(after, settings[k], settings[..k]) {
        MetBefore(before, x, settings[k], settings[..k]);
      }
    }
  }

  /** From the n-th setting on. */
  lemma {:induction false} PrescribedKeeps(u: Setup, m: Progress, settings: seq<Settings>, n: nat)
    requires n <= |settings| && Ready(u, m, true) && Unvetoed(m, settings[..n])
    requires AllMet(m.out.trials, settings, n) && forall k :: 0 <= k < |settings| ==> settings[k].Product() >= 0
    ensures var (m', stop) := Prescribed(u, m, settings[n..]);
            && (forall i :: 0 <= i < |m'.out.trials| ==> m'.out.trials[i].phase == Try)
            && (if stop then Stopped(u, m', true)
                else Ready(u, m', true) && AllMet(m'.out.trials, settings, |settings|))
    decreases |settings| - n
  {
    hide Ready, Stopped, Measure, AllMet, Met, Unvetoed;
    AllTried(m, settings[..n]);
    if n < |settings| {
      var s := settings[n];
      assert settings[n..][0] == s && settings[n..][1..] == settings[n + 1..];
      assert settings[..n] + [s] == settings[..n + 1];
      TryStep(u, m, s, settings[..n]);
      var (m1, t, stop) := Measure(u, m, s, Try);
      if !stop {
        AllMetOn(m.out.trials, m1.out.trials, settings, n);
        PrescribedKeeps(u, m1, settings, n + 1);
      }
    }
  }

  lemma StoppedTry(u: Setup, m: Progress)
    requires Stopped(u, m, true)
    ensures !Unstopped(m) && Sound(u, m, true)
  {
    AmendedSelf(m.out.trials);
  }

  /** Measure, whatever happens: the same guardrails, only prescribed trials, and, unless
      stopped, none of the settings vetoed by stress. */
  lemma MeasureAllKeeps(u: Setup, m: Progress, settings: seq<Settings>)
    requires Unused(u, m) && forall k :: 0 <= k < |settings| ==> settings[k].Product() >= 0
    ensures var m' := MeasureAll(u, m, settings);
            && Sound(u, m', true) && (forall i :: 0 <= i < |m'.out.trials| ==> m'.out.trials[i].phase == Try)
            && (Unstopped(m') ==> AllMet(m'.out.trials, settings, |settings|))
  {
    hide Ready, Stopped, Prescribed, Met, FinalProbe, Sound;
    BeginReady(u, m, true);
    var m0 := Begin(m, MAX_INT);
    assert settings[0..] == settings;
    PrescribedKeeps(u, m0, settings, 0);
    var (m1, stop) := Prescribed(u, m0, settings);
    if stop {
      StoppedTry(u, m1);
    } else {
      FinalProbeKeeps(u, m1, true);
    }
  }
}
