/** The choice of a setting (internal/report/report.go:77-161, internal/search/search.go:66-76),
    and what a whole search and the choice guarantee together. */
module Report {
  import opened Walk
  import opened Trials
  import Machine
  import Search
  import SearchRuns
  import SearchSafety
  import Guarantees

  // ---------- The best trial ----------

  function LargestPDU(pdus: seq<PDU>): nat {
    if pdus == [] then 0 else
    var rest, n := LargestPDU(pdus[..|pdus| - 1]), pdus[|pdus| - 1].bytes;
    if rest < n then n else rest
  }

  /** The largest response of any run. */
  function MaxBytes(runs: seq<Result>): nat {
    if runs == [] then 0 else
    var rest, n := MaxBytes(runs[..|runs| - 1]), LargestPDU(runs[|runs| - 1].pdus);
    if rest < n then n else rest
  }

  method ComputeMaxBytes(t: Trial) returns (n: nat)
    ensures n == MaxBytes(t.runs)
  {
    n := 0;
    for k := 0 to |t.runs|
      invariant n == MaxBytes(t.runs[..k])
    {
      assert t.runs[..k + 1][..k] == t.runs[..k];
      var pdus := t.runs[k].pdus;
      for i := 0 to |pdus|
        invariant n == if MaxBytes(t.runs[..k]) < LargestPDU(pdus[..i]) then LargestPDU(pdus[..i])
            else MaxBytes(t.runs[..k])
      {
        assert pdus[..i + 1][..i] == pdus[..i];
        n := if n < pdus[i].bytes then pdus[i].bytes else n;
      }
      assert pdus[..|pdus|] == pdus;
    }
    assert t.runs[..|t.runs|] == t.runs;
  }

  lemma {:induction false} LargestPDUBounds(pdus: seq<PDU>, limit: int)
    ensures limit >= 0 ==> (LargestPDU(pdus) <= limit <==> forall i :: 0 <= i < |pdus| ==> pdus[i].bytes <= limit)
  {
    if pdus != [] {
      LargestPDUBounds(pdus[..|pdus| - 1], limit);
      assert pdus == pdus[..|pdus| - 1] + [pdus[|pdus| - 1]];
    }
  }

  /** The largest response fits a datagram exactly when every response does. */
  lemma {:induction false} MaxBytesBounds(runs: seq<Result>, limit: nat)
    ensures MaxBytes(runs) <= limit <==>
              forall k, i :: 0 <= k < |runs| && 0 <= i < |runs[k].pdus| ==> runs[k].pdus[i].bytes <= limit
  {
    if runs != [] {
      MaxBytesBounds(runs[..|runs| - 1], limit);
      LargestPDUBounds(runs[|runs| - 1].pdus, limit);
      assert runs == runs[..|runs| - 1] + [runs[|runs| - 1]];
    }
  }

  /** Clean, and within the limit on response sizes if there is one. */
  predicate Eligible(t: Trial, limit: Option<int>) {
    t.OK() && (limit.Some? ==> MaxBytes(t.runs) <= limit.value)
  }

  /** The first of the eligible trials with the highest score. */
  ghost predicate Best(trials: seq<Trial>, limit: Option<int>, best: Option<nat>) {
    match best
    case None => forall k :: 0 <= k < |trials| ==> !Eligible(trials[k], limit)
    case Some(i) =>
      && i < |trials| && Eligible(trials[i], limit)
      && forall k :: 0 <= k < |trials| && Eligible(trials[k], limit) ==>
           trials[k].score <= trials[i].score && (k < i ==> trials[k].score < trials[i].score)
  }

  /** Outcome.Peak, as an index. */
  method Peak(trials: seq<Trial>) returns (best: Option<nat>)
    ensures Best(trials, None, best)
  {
    best := None;
    for i := 0 to |trials|
      invariant best.Some? ==> best.value < i
      invariant Best(trials[..i], None, best)
    {
      if trials[i].OK() && (best.None? || trials[i].score > trials[best.value].score) {
        best := Some(i);
      }
    }
    assert trials[..|trials|] == trials;
  }

  method BestWithin(trials: seq<Trial>, limit: int) returns (best: Option<nat>)
    ensures Best(trials, Some(limit), best)
  {
    hide MaxBytes;
    best := None;
    for i := 0 to |trials|
      invariant best.Some? ==> best.value < i
      invariant Best(trials[..i], Some(limit), best)
    {
      var bytes := ComputeMaxBytes(trials[i]);
      if trials[i].OK() && bytes <= limit && (best.None? || trials[i].score > trials[best.value].score) {
        best := Some(i);
      }
    }
    assert trials[..|trials|] == trials;
  }

  // ---------- The recommendation ----------

  ghost predicate Requested(trials: seq<Trial>) {
    trials != [] && forall i :: 0 <= i < |trials| ==> trials[i].phase == Try
  }

  method AllRequested(trials: seq<Trial>) returns (yes: bool)
    ensures yes <==> Requested(trials)
  {
    for i := 0 to |trials|
      invariant forall k :: 0 <= k < i ==> trials[k].phase == Try
    {
      if trials[i].phase != Try {
        return false;
      }
    }
    return |trials| > 0;
  }

  datatype Reason = BestRequested | DefaultPeak | Headroom | NothingBelow

  datatype Recommendation = Recommendation(settings: Settings, peak: Settings, maxBytes: nat, fragmented: bool,
                                           reason: Reason)

  /** Eligible and strictly below the product of the peak. */
  predicate Smaller(t: Trial, peak: Trial, limit: int) {
    Eligible(t, Some(limit)) && t.Product() < peak.Product()
  }

  predicate Above(a: Trial, b: Trial) {
    a.Product() > b.Product() || (a.Product() == b.Product() && a.score > b.score)
  }

  /** The first of the trials under the peak with the largest product, the score
      breaking ties. */
  ghost predicate Below(trials: seq<Trial>, peak: Trial, limit: int, below: Option<nat>) {
    match below
    case None => forall k :: 0 <= k < |trials| ==> !Smaller(trials[k], peak, limit)
    case Some(i) =>
      && i < |trials| && Smaller(trials[i], peak, limit)
      && forall k :: 0 <= k < |trials| && Smaller(trials[k], peak, limit) ==>
           !Above(trials[k], trials[i]) && (k < i ==> Above(trials[i], trials[k]))
  }

  method LargestBelow(trials: seq<Trial>, peak: Trial, limit: int) returns (below: Option<nat>)
    ensures Below(trials, peak, limit, below)
  {
    hide MaxBytes;
    below := None;
    for i := 0 to |trials|
      invariant below.Some? ==> below.value < i
      invariant Below(trials[..i], peak, limit, below)
    {
      var t, bytes := trials[i], 0;
      bytes := ComputeMaxBytes(t);
      if !(!t.OK() || t.Product() >= peak.Product() || bytes > limit) {
        if below.None? || t.Product() > trials[below.value].Product()
           || (t.Product() == trials[below.value].Product() && t.score > trials[below.value].score) {
          below := Some(i);
        }
      }
    }
    assert trials[..|trials|] == trials;
  }

  /** What a recommendation says: the peak p is the best trial within the limit, or, when
      nothing fits, the best of all; the chosen trial c is the largest below the peak, when
      there is any and neither prescribed settings nor a default peak forbid the step. */
  ghost predicate Advised(trials: seq<Trial>, limit: int, rec: Recommendation, p: nat, c: nat) {
    && p < |trials| && c < |trials| && trials[p].OK() && trials[c].OK()
    && rec.settings == trials[c].settings && rec.peak == trials[p].settings && rec.maxBytes == MaxBytes(trials[c].runs)
    && (rec.fragmented <==> forall k :: 0 <= k < |trials| && trials[k].OK() ==> MaxBytes(trials[k].runs) > limit)
    && Best(trials, if rec.fragmented then None else Some(limit), Some(p))
    && (rec.reason == BestRequested <==> Requested(trials))
    && (rec.reason == DefaultPeak <==> !Requested(trials) && trials[p].settings == Settings(2, 10))
    && (rec.reason == Headroom ==> Below(trials, trials[p], limit, Some(c)))
    && (rec.reason == NothingBelow ==> Below(trials, trials[p], limit, None))
    && (rec.reason != Headroom ==> c == p)
  }

  /** recommend. */
  method Recommend(trials: seq<Trial>, limit: int) returns (rec: Option<Recommendation>, ghost p: nat, ghost c: nat)
    ensures rec.None? <==> forall k :: 0 <= k < |trials| ==> !trials[k].OK()
    ensures rec.Some? ==> Advised(trials, limit, rec.value, p, c)
  {
    p, c := 0, 0;
    var fragmented := false;
    var best := BestWithin(trials, limit);
    if best.None? {
      best := Peak(trials);
      fragmented := true;
    }
    if best.None? {
      return None, 0, 0;
    }
    var peak, chosen := best.value, best.value;
    var reason: Reason;
    var requested := AllRequested(trials);
    if requested {
      reason := BestRequested;
    } else if trials[peak].settings == Machine.START {
      reason := DefaultPeak;
    } else {
      var below := LargestBelow(trials, trials[peak], limit);
      if below.Some? {
        chosen := below.value;
        reason := Headroom;
      } else {
        reason := NothingBelow;
      }
    }
    var bytes := ComputeMaxBytes(trials[chosen]);
    return Some(Recommendation(trials[chosen].settings, trials[peak].settings, bytes, fragmented, reason)), peak,
        chosen;
  }

  /** The advice is unique, and an oversized one is the peak itself. */
  lemma AdviceUnique(trials: seq<Trial>, limit: int, r1: Recommendation, p1: nat, c1: nat, r2: Recommendation,
                     p2: nat, c2: nat)
    requires Advised(trials, limit, r1, p1, c1) && Advised(trials, limit, r2, p2, c2)
    ensures p1 == p2 && c1 == c2 && r1 == r2
    ensures r1.fragmented ==> c1 == p1
  {
  }

  // ---------- Search and recommendation together ----------

  /** Strictly below every product that failed while climbing. */
  ghost predicate BelowFailures(trials: seq<Trial>, s: Settings) {
    forall j :: 0 <= j < |trials| && !trials[j].OK() && SearchRuns.Climbing(trials[j].phase) ==>
      s.Product() < trials[j].Product()
  }

  /** On the outcome of a search the recommended product is strictly below everything that
      failed while climbing, whichever way the recommendation was reached. */
  lemma AdviceBelowFailures(trials: seq<Trial>, limit: int, rec: Recommendation, p: nat, c: nat)
    requires Guarantees.Peaked(trials) && Advised(trials, limit, rec, p, c)
    ensures BelowFailures(trials, rec.settings) && BelowFailures(trials, rec.peak)
  {
  }

  lemma AdviceWithin(r: Search.Runner, limit: int, rec: Recommendation, p: nat, c: nat)
    requires Guarantees.Ended(r.Given(), r.State(), Search.InitialV(r.workload))
    requires Advised(r.out.trials, limit, rec, p, c)
    ensures BelowFailures(r.out.trials, rec.settings) && rec.settings.Product() <= r.budget.maxProduct
  {
    hide Best, Below, SafeTrace;
    AdviceBelowFailures(r.out.trials, limit, rec, p, c);
    assert r.out.trials[c].Product() < SearchSafety.LawOf(r.Given(), false).limit;
  }

  /** A whole run of the program: search, then recommend. */
  method Tune(r: Search.Runner, limit: int) returns (rec: Option<Recommendation>)
    requires r.lastGood == 0 && r.prevRun == 0 && r.trace == [] && r.opts.repeats > 0
    requires r.budget.maxTrials > 0 ==> r.budget.trials <= r.budget.maxTrials
    requires r.budget.maxProduct < 0x8000_0000
    modifies r, r.canary, r.budget
    ensures rec.None? <==> forall k :: 0 <= k < |r.out.trials| ==> !r.out.trials[k].OK()
    ensures rec.Some? ==>
              && (exists p, c :: Advised(r.out.trials, limit, rec.value, p, c))
              && rec.value.settings.Product() <= r.budget.maxProduct && BelowFailures(r.out.trials, rec.value.settings)
  {
    hide Advised, BelowFailures, Guarantees.Ended;
    var outcome := r.Run();
    ghost var p, c;
    rec, p, c := Recommend(outcome.trials, limit);
    if rec.Some? {
      AdviceWithin(r, limit, rec.value, p, c);
    }
  }
}
