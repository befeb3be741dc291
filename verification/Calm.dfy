/** A calm world, in which nothing but the agent's limit decides a search: it is neither
    stopped nor stressed, and so finds that limit, unless scores stop growing first. */
module Calm {
  import opened Oid
  import opened Agent
  import opened Walk
  import opened Workloads
  import opened Agreement
  import opened Safety
  import opened Trials
  import opened Machine
  import opened EverySearch
  import opened SearchSafety
  import SearchRuns
  import Guarantees
  import Inventory
  import Shape
  import Reasons
  import Climb
  import Sustained
  import Capped

  predicate Unhurried(u: Setup, r: ProbeReply)
    requires r.Answer?
  {
    r.retries > 0 || r.rtt <= 10_000_000 || r.rtt <= 3 * u.baseline
  }

  /** The context stays live, no budget but that on products is set, every probe is answered
      in time or after a retransmission, the uptime never falls, and no walk errs. */
  ghost predicate CalmWorld(u: Setup) {
    && (forall k :: u.env.ctx(k) == Live) && u.maxTrials == 0 && u.maxDuration == 0
    && (forall k :: u.env.probe(k).Answer? && Unhurried(u, u.env.probe(k)))
    && (forall j, k :: j <= k ==> Uptime(u.env.probe(j).sample) <= Uptime(u.env.probe(k).sample))
    && (forall k, s :: Positive(s) ==> !u.env.walk(k, s).failed)
  }

  ghost predicate Undisturbed(u: Setup, m: Progress) {
    && Unstopped(m) && !m.out.stressed && m.canary.lost == 0
    && (m.canary.seen ==> forall k :: m.now <= k && u.env.probe(k).Answer? ==>
          m.canary.lastUptime <= Uptime(u.env.probe(k).sample))
  }

  lemma CalmRepeat(u: Setup, m: Progress, s: Settings, phase: Phase, runs: seq<Result>)
    requires CalmWorld(u) && Undisturbed(u, m) && Positive(s)
    ensures var (m', step) := Repeat(u, m, s, phase, runs); step.Ran? && Undisturbed(u, m')
  {
    hide Checked;
    var slept := Sleep(u, m);
    assert Interrupt(u, slept, s, phase, runs) == (slept.(now := m.now + 1), false);
    var r := u.env.probe(m.now + 1);
    assert Unhurried(u, r);
  }

  lemma {:induction false} CalmRepeats(u: Setup, m: Progress, s: Settings, phase: Phase, runs: seq<Result>)
    requires CalmWorld(u) && Undisturbed(u, m) && Positive(s)
    ensures var (m', runs', scored, stop) := Repeats(u, m, s, phase, runs); scored && !stop && Undisturbed(u, m')
    decreases u.opts.repeats - |runs|
  {
    hide CalmWorld, Undisturbed, Repeat;
    if |runs| < u.opts.repeats {
      CalmRepeat(u, m, s, phase, runs);
      var (m1, step) := Repeat(u, m, s, phase, runs);
      if step.res.failure == [] {
        CalmRepeats(u, m1, s, phase, runs + [step.res]);
      }
    }
  }

  lemma CalmTrial(u: Setup, m: Progress, s: Settings, phase: Phase)
    requires CalmWorld(u) && Undisturbed(u, m) && Positive(s)
    ensures Undisturbed(u, Measure(u, m, s, phase).0)
  {
    hide Repeats, ScoreOf;
    if s.Product() < m.ceiling && s !in m.measured {
      var m1 := m.(now := m.now + 2, measured := m.measured + {s});
      assert Interrupt(u, m, s, phase, []) == (m.(now := m.now + 1), false);
      CalmRepeats(u, m1, s, phase, []);
    }
  }

  lemma CalmNoted(u: Setup, m: Progress, note: Note)
    requires Undisturbed(u, m)
    ensures Undisturbed(u, Noted(m, note))
  {
  }

  lemma CalmEnd(u: Setup, m: Progress)
    ensures Undisturbed(u, m) ==> Unstopped(m) && !m.out.stressed
  {
  }

  lemma CalmProbe(u: Setup, m: Progress)
    requires CalmWorld(u) && Undisturbed(u, m)
    ensures var m' := FinalProbe(u, m); Unstopped(m') && !m'.out.stressed
  {
  }

  /** Such a search is neither stopped nor stressed. */
  lemma CalmSearch(u: Setup, m: Progress, v0: int, widest: int)
    requires CalmWorld(u) && Undisturbed(u, Begin(m, u.maxProduct + 1))
    requires v0 > 0 && widest >= 0 && 0 <= u.maxProduct < 0x8000_0000
    ensures var m' := RunSearch(u, m, v0, widest); Unstopped(m') && !m'.out.stressed
  {
    hide CalmWorld, Undisturbed, Measure, RunSearch, FinalProbe;
    var I := (x: Progress) => Undisturbed(u, x);
    forall x, s, phase | Positive(s) && I(x) && Unstopped(x) ensures I(Measure(u, x, s, phase).0) {
      CalmTrial(u, x, s, phase);
    }
    forall x, note | I(x) ensures I(Noted(x, note)) {
      CalmNoted(u, x, note);
    }
    SearchKept(u, s => Positive(s), I, m, v0, widest);
    var m' := RunSearch(u, m, v0, widest);
    CalmEnd(u, m');
    if x :| I(x) && Unstopped(x) && m' == FinalProbe(u, x) {
      CalmProbe(u, x);
    }
  }

  /** Why escalation ended in a calm search: it reached the limit on products with all clean,
      its scores stopped growing, or a trial failed. */
  ghost predicate CalmlyExplained(u: Setup, m: Progress) {
    m.out.note.Some? &&
    (m.out.note.value.ExceedsMaxProduct? || m.out.note.value.Plateau? || m.out.note.value.FailedThenBisect?)
  }

  lemma NoStress(u: Setup, m: Progress)
    requires Reasons.Told(u, m) && !m.out.stressed
    ensures !Reasons.StressSeen(m.trace)
  {
  }

  lemma CalmNote(u: Setup, m: Progress, v0: int, widest: int)
    requires CalmWorld(u) && Undisturbed(u, Begin(m, u.maxProduct + 1))
    requires Guarantees.Unused(u, m) && v0 > 0 && widest >= 0 && 0 <= u.maxProduct < 0x8000_0000
    ensures var m' := RunSearch(u, m, v0, widest);
            Unstopped(m') && !m'.out.stressed && CalmlyExplained(u, m')
  {
    hide RunSearch, CalmWorld, Undisturbed, SplitCandidates, Climb.Rungs, Climb.Halves;
    CalmSearch(u, m, v0, widest);
    Shape.RunShape(u, m, v0, widest);
    Reasons.RunTold(u, m, v0, widest);
    var m' := RunSearch(u, m, v0, widest);
    var a: nat, b: nat :|
      Shape.Shaped(m'.out.trials, v0, u.opts.plateauGain, SplitCandidates(v0, widest), a, b)
      && Climb.Explained(u, m', m'.out.trials[..a], 2, v0, None);
    NoStress(u, m');
  }

  /** In a calm world, against an agent that refuses requests above a limit, the search over
      the inferred workload either stops climbing for want of gain or of products to try, or
      ends with a largest clean product at most that limit and within a tenth of R of it. */
  lemma CalmSearchLocatesLimit(u: Setup, m: Progress, next: Successor, stored: set<Arcs>, inv: Inventory.Inventory,
                               w: Workload, len: nat, cap: nat, v0: int)
    requires CalmWorld(u) && Undisturbed(u, Begin(m, u.maxProduct + 1))
    requires SaneSuccessor(next, len) && Misordering(next, stored) && Inferred(next, inv, w, len)
    requires Sustained.WalksAgent(u.env, w, next, len, cap) && 0 < v0 <= Width(w.tables)
    requires u.refOIDs == GroundTruth(inv.subtrees, w) && u.opts.tolerance >= 0.0
    requires Guarantees.Unused(u, m) && 0 <= u.maxProduct < 0x8000_0000
    ensures var m' := RunSearch(u, m, v0, Width(w.tables));
            && CalmlyExplained(u, m')
            && (m'.out.note.value.FailedThenBisect? ==>
                  exists g: nat :: LargestClean(m'.out.trials) == g * v0 && g * v0 <= cap < (g + Max(1, g / 10)) * v0)
  {
    hide RunSearch, CalmWorld, Undisturbed, Misordering, Inferred, Sustained.WalksAgent;
    CalmNote(u, m, v0, Width(w.tables));
    Sustained.SearchLocatesLimit(u, m, next, stored, inv, w, len, cap, v0);
  }

  /** The same of a cap on rows. */
  lemma CalmSearchLocatesRows(u: Setup, m: Progress, next: Successor, stored: set<Arcs>, inv: Inventory.Inventory,
                              w: Workload, len: nat, rows: nat, c: Arcs, v0: int)
    requires CalmWorld(u) && Undisturbed(u, Begin(m, u.maxProduct + 1))
    requires SaneSuccessor(next, len) && Misordering(next, stored) && Inferred(next, inv, w, len)
    requires Capped.WalksCapped(u.env, w, next, len, rows) && rows > 0 && v0 > 0
    requires c in AllColumns(w.tables) && Capped.Deep(next, c, rows)
    requires u.refOIDs == GroundTruth(inv.subtrees, w) && u.opts.tolerance >= 0.0
    requires Guarantees.Unused(u, m) && 0 <= u.maxProduct < 0x8000_0000
    ensures var m' := RunSearch(u, m, v0, Width(w.tables));
            && CalmlyExplained(u, m')
            && (m'.out.note.value.FailedThenBisect? ==>
                  exists g: nat :: LargestClean(m'.out.trials) == g * v0 && g <= rows < g + Max(1, g / 10))
  {
    hide RunSearch, CalmWorld, Undisturbed, Misordering, Inferred, Capped.WalksCapped, Capped.Deep;
    CalmNote(u, m, v0, Width(w.tables));
    Capped.SearchLocatesRows(u, m, next, stored, inv, w, len, rows, c, v0);
  }
}
