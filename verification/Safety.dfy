/** The guardrails of a run (internal/safety/safety.go): canary, budgets, cooldown. */
module Safety {
  import opened Agent
  import opened Sorting

  datatype Verdict = OK | Stressed | Restarted | Lost

  const STRESS_FACTOR := 3
  /** 10 ms in nanoseconds. */
  const STRESS_FLOOR := 10_000_000
  const BASELINE_PROBES := 5

  /** The value of the first varbind of an answered probe, by its Go type. */
  datatype Sample = NoVarbind | Unsigned32(u: Uint32) | Unsigned(n: nat) | Signed(i: int) | OtherType

  datatype ProbeReply = Unanswered | Answer(sample: Sample, rtt: nat, retries: nat)

  /** Conversions to uint32 keep the low 32 bits. */
  function Uptime(s: Sample): (t: Uint32)
    ensures s.Unsigned32? ==> t == s.u
    ensures s.Unsigned? ==> (s.n - t) % 0x1_0000_0000 == 0
    ensures s.Signed? ==> (s.i - t) % 0x1_0000_0000 == 0
    ensures s.NoVarbind? || s.OtherType? ==> t == 0
  {
    match s
    case Unsigned32(u) => u
    case Unsigned(n) => n % 0x1_0000_0000
    case Signed(i) => i % 0x1_0000_0000
    case _ => 0
  }

  datatype CanaryState = CanaryState(lastUptime: Uint32, seen: bool, lost: nat)

  /** What one probe does to the state and what it says. */
  function Classify(c: CanaryState, baseline: nat, r: ProbeReply): (CanaryState, Verdict) {
    match r
    case Unanswered => (c.(lost := c.lost + 1), if c.lost + 1 >= 2 then Lost else OK)
    case Answer(sample, rtt, retries) =>
      var c' := CanaryState(Uptime(sample), true, 0);
      (c', if c.seen && Uptime(sample) < c.lastUptime then Restarted
           else if retries > 0 then OK
           else if rtt > STRESS_FACTOR * baseline && rtt > STRESS_FLOOR then Stressed
           else OK)
  }

  class Canary {
    const baseline: nat
    var lastUptime: Uint32
    var seen: bool
    var lost: nat

    ghost function State(): CanaryState
      reads this
    {
      CanaryState(lastUptime, seen, lost)
    }

    constructor (baseline: nat, lastUptime: Uint32, seen: bool)
      ensures this.baseline == baseline && State() == CanaryState(lastUptime, seen, 0)
    {
      this.baseline, this.lastUptime, this.seen, lost := baseline, lastUptime, seen, 0;
    }

    method NoteUptime(s: Sample)
      modifies `lastUptime, `seen
      ensures lastUptime == Uptime(s) && seen
    {
      lastUptime, seen := Uptime(s), true;
    }

    /** Probe, given how the agent answered. */
    method Probe(r: ProbeReply) returns (v: Verdict)
      modifies this
      ensures (State(), v) == Classify(old(State()), baseline, r)
    {
      if r.Unanswered? {
        lost := lost + 1;
        if lost >= 2 {
          return Lost;
        }
        return OK;
      }
      lost := 0;
      if seen && Uptime(r.sample) < lastUptime {
        NoteUptime(r.sample);
        return Restarted;
      }
      NoteUptime(r.sample);
      if r.retries > 0 {
        return OK;
      }
      if r.rtt > STRESS_FACTOR * baseline && r.rtt > STRESS_FLOOR {
        return Stressed;
      }
      return OK;
    }
  }

  // ---------- Verdicts over whole histories ----------

  /** The state after probing with these replies, from a freshly made canary. */
  function After(start: CanaryState, baseline: nat, h: seq<ProbeReply>): CanaryState {
    if h == [] then start else Classify(After(start, baseline, h[..|h| - 1]), baseline, h[|h| - 1]).0
  }

  /** The uptime of the last answered probe, if any. */
  function LastSeen(start: CanaryState, h: seq<ProbeReply>): CanaryState {
    if h == [] then start
    else if h[|h| - 1].Answer? then CanaryState(Uptime(h[|h| - 1].sample), true, 0)
    else LastSeen(start, h[..|h| - 1])
  }

  lemma {:induction false} AfterHistory(start: CanaryState, baseline: nat, h: seq<ProbeReply>)
    requires start.lost == 0
    ensures var c := After(start, baseline, h);
            && (c.lost > 0 <==> h != [] && h[|h| - 1].Unanswered?)
            && c.seen == LastSeen(start, h).seen && c.lastUptime == LastSeen(start, h).lastUptime
  {
    if h != [] {
      AfterHistory(start, baseline, h[..|h| - 1]);
    }
  }

  /** Over any history of probes: the next verdict is Lost exactly when this probe and
      the one before it went unanswered, Restarted exactly when the uptime fell below
      that of the last answered probe, however many went unanswered in between, and Stressed
      exactly when, neither being so, the answer came without retransmission after more
      than 10 ms and three times the baseline. */
  lemma {:induction false} VerdictOverHistory(start: CanaryState, baseline: nat, h: seq<ProbeReply>, r: ProbeReply)
    requires start.lost == 0
    ensures var v := Classify(After(start, baseline, h), baseline, r).1;
            var last := LastSeen(start, h);
            && (v == Lost <==> r.Unanswered? && h != [] && h[|h| - 1].Unanswered?)
            && (v == Restarted <==> r.Answer? && last.seen && Uptime(r.sample) < last.lastUptime)
            && (v == Stressed <==>
                  && r.Answer? && !(last.seen && Uptime(r.sample) < last.lastUptime)
                  && r.retries == 0 && r.rtt > 10_000_000 && r.rtt > 3 * baseline)
  {
    AfterHistory(start, baseline, h);
  }

  // ---------- Making a canary ----------

  predicate NatLte(x: nat, y: nat) { x <= y }

  function AnswerTimes(replies: seq<ProbeReply>): seq<nat> {
    if replies == [] then [] else
    var r := replies[|replies| - 1];
    AnswerTimes(replies[..|replies| - 1]) + if r.Answer? then [r.rtt] else []
  }

  /** The probes that were answered within d. */
  function AnsweredWithin(replies: seq<ProbeReply>, d: nat): set<nat> {
    set k: nat | k < |replies| && replies[k].Answer? && replies[k].rtt <= d
  }

  function AnsweredBefore(replies: seq<ProbeReply>, d: nat): set<nat> {
    set k: nat | k < |replies| && replies[k].Answer? && replies[k].rtt < d
  }

  function AnsweredAll(replies: seq<ProbeReply>): set<nat> {
    set k: nat | k < |replies| && replies[k].Answer?
  }

  lemma AnsweredSnoc(h: seq<ProbeReply>)
    requires h != []
    ensures |AnsweredAll(h)| == |AnsweredAll(h[..|h| - 1])| + if h[|h| - 1].Answer? then 1 else 0
  {
    var n := |h| - 1;
    assert AnsweredAll(h) == AnsweredAll(h[..n]) + if h[n].Answer? then {n} else {};
  }

  lemma AnsweredBeforeSnoc(h: seq<ProbeReply>, d: nat)
    requires h != []
    ensures var r := h[|h| - 1];
            |AnsweredBefore(h, d)| == |AnsweredBefore(h[..|h| - 1], d)| + if r.Answer? && r.rtt < d then 1 else 0
  {
    var n := |h| - 1;
    assert AnsweredBefore(h, d) == AnsweredBefore(h[..n], d) + if h[n].Answer? && h[n].rtt < d then {n} else {};
  }

  lemma AnsweredWithinSnoc(h: seq<ProbeReply>, d: nat)
    requires h != []
    ensures var r := h[|h| - 1];
            |AnsweredWithin(h, d)| == |AnsweredWithin(h[..|h| - 1], d)| + if r.Answer? && r.rtt <= d then 1 else 0
  {
    var n := |h| - 1;
    assert AnsweredWithin(h, d) == AnsweredWithin(h[..n], d) + if h[n].Answer? && h[n].rtt <= d then {n} else {};
  }

  lemma {:induction false} AnswerTimesCount(replies: seq<ProbeReply>, d: nat)
    ensures |AnswerTimes(replies)| == |AnsweredAll(replies)|
    ensures |Below(NatLte, AnswerTimes(replies), d)| == |AnsweredBefore(replies, d)|
    ensures |UpTo(NatLte, AnswerTimes(replies), d)| == |AnsweredWithin(replies, d)|
  {
    if replies == [] {
      assert AnsweredAll(replies) == {} && AnsweredBefore(replies, d) == {} && AnsweredWithin(replies, d) == {};
      assert Below(NatLte, [], d) == {} && UpTo(NatLte, [], d) == {};
    } else {
      hide Below, UpTo, AnsweredAll, AnsweredBefore, AnsweredWithin;
      var n, times := |replies| - 1, AnswerTimes(replies);
      AnswerTimesCount(replies[..n], d);
      AnsweredSnoc(replies);
      AnsweredBeforeSnoc(replies, d);
      AnsweredWithinSnoc(replies, d);
      if replies[n].Answer? {
        assert times[..|times| - 1] == AnswerTimes(replies[..n]);
        BelowSnoc(NatLte, times, d);
        UpToSnoc(NatLte, times, d);
      } else {
        assert times == AnswerTimes(replies[..n]);
      }
    }
  }

  /** What the baseline means: at most half of the answered probes were faster, more than
      half were not slower. */
  lemma BaselineRanks(replies: seq<ProbeReply>, baseline: nat)
    requires Median(NatLte, AnswerTimes(replies), baseline)
    ensures 2 * |AnsweredBefore(replies, baseline)| <= |AnsweredAll(replies)| < 2 * |AnsweredWithin(replies, baseline)|
  {
    hide Median, AnswerTimes, Below, UpTo, AnsweredAll, AnsweredBefore, AnsweredWithin;
    AnswerTimesCount(replies, baseline);
    MedianRanks(NatLte, AnswerTimes(replies), baseline);
  }

  lemma NoneSeen(start: CanaryState)
    ensures LastSeen(start, []) == start && AnswerTimes([]) == []
  {
  }

  lemma SeenSnoc(start: CanaryState, h: seq<ProbeReply>, k: nat)
    requires k < |h|
    ensures LastSeen(start, h[..k + 1])
         == if h[k].Answer? then CanaryState(Uptime(h[k].sample), true, 0) else LastSeen(start, h[..k])
    ensures AnswerTimes(h[..k + 1]) == AnswerTimes(h[..k]) + if h[k].Answer? then [h[k].rtt] else []
  {
    assert h[..k + 1][..k] == h[..k];
  }

  /** The replies to the first five probes. */
  ghost function BaselineReplies(probe: nat -> ProbeReply): (replies: seq<ProbeReply>)
    ensures |replies| == 5 && forall k :: 0 <= k < 5 ==> replies[k] == probe(k)
  {
    seq(5, k requires 0 <= k < 5 => probe(k))
  }

  /** NewCanary, given how probes are answered: none if none of the baseline probes was, else
      one whose baseline is the median answer time, not lost, and which has seen the last
      answered uptime. */
  method NewCanary(probe: nat -> ProbeReply) returns (c: Canary?)
    ensures c == null <==> forall k :: 0 <= k < 5 ==> probe(k).Unanswered?
    ensures c != null ==> fresh(c) && c.State() == LastSeen(CanaryState(0, false, 0), BaselineReplies(probe))
    ensures c != null ==> Median(NatLte, AnswerTimes(BaselineReplies(probe)), c.baseline)
  {
    ghost var replies := BaselineReplies(probe);
    hide Median, Sort, Uptime, LastSeen, AnswerTimes;
    NoneSeen(CanaryState(0, false, 0));
    var rtts: seq<nat> := [];
    var lastUptime: Uint32, seen := 0, false;
    for k := 0 to BASELINE_PROBES
      invariant CanaryState(lastUptime, seen, 0) == LastSeen(CanaryState(0, false, 0), replies[..k])
      invariant rtts == AnswerTimes(replies[..k])
      invariant rtts == [] <==> forall m :: 0 <= m < k ==> probe(m).Unanswered?
    {
      SeenSnoc(CanaryState(0, false, 0), replies, k);
      var r := probe(k);
      if r.Answer? {
        rtts := rtts + [r.rtt];
        lastUptime, seen := Uptime(r.sample), true;
      }
    }
    assert replies[..5] == replies;
    if |rtts| == 0 {
      return null;
    }
    SortMedian(NatLte, rtts);
    var sorted := Sort(NatLte, rtts);
    c := new Canary(sorted[|sorted| / 2], lastUptime, seen);
  }

  // ---------- Budgets ----------

  datatype Exhaustion = NotExhausted | MaxTrials | MaxDuration

  /** Tracker; time since Start is an oracle. Zero means unlimited, except MaxProduct. */
  class Tracker {
    const maxDuration: nat
    const maxTrials: nat
    const maxProduct: nat
    var trials: nat

    constructor (maxDuration: nat, maxTrials: nat, maxProduct: nat)
      ensures this.maxDuration == maxDuration && this.maxTrials == maxTrials && this.maxProduct == maxProduct
          && trials == 0
    {
      this.maxDuration, this.maxTrials, this.maxProduct, trials := maxDuration, maxTrials, maxProduct, 0;
    }

    method NoteTrial()
      modifies this
      ensures trials == old(trials) + 1
    {
      trials := trials + 1;
    }

    function Exhausted(elapsed: nat): (e: Exhaustion)
      reads this
      ensures e == MaxTrials <==> 0 < maxTrials <= trials
      ensures e == MaxDuration <==> 0 < maxDuration <= elapsed && !(0 < maxTrials <= trials)
    {
      if maxTrials > 0 && trials >= maxTrials then MaxTrials
      else if maxDuration > 0 && elapsed >= maxDuration then MaxDuration
      else NotExhausted
    }
  }

  /** The pause before the next burst of requests. */
  function Cooldown(minimum: nat, previous: nat): (d: nat)
    ensures d >= minimum && d >= previous && (d == minimum || d == previous)
  {
    if minimum < previous then previous else minimum
  }
}
