/** What the walks guarantee against the simulated agent, whatever its caps. */
module SimAgreement {
  import opened Oid
  import opened Agent
  import opened Reference
  import opened Sim
  import opened Workloads
  import opened Walk
  import opened Run
  import opened Completeness
  import opened Agreement

  /** Without quirks the simulator is an ordered agent. */
  lemma SimOrdered(cfg: Config, stored: set<Arcs>)
    requires cfg.loopOID == [] && cfg.misorder == map[]
    ensures Ordered(NextOf(cfg, stored), stored)
  {
    forall c ensures TrueAnswer(stored, c, NextOf(cfg, stored)(c)) {
      TrueNextIsTrue(stored, c);
    }
  }

  /** A loop goes before a misordering, both before the table, and the end of the MIB names the
      cursor. */
  lemma SimQuirks(cfg: Config, stored: set<Arcs>, c: Arcs)
    ensures var vb := NextOf(cfg, stored)(c);
            if c == cfg.loopOID != [] then vb == Varbind(c, Data)
            else if c in cfg.misorder then vb == Varbind(cfg.misorder[c], Data)
            else TrueAnswer(stored, c, vb) && (vb.value.EndOfMibView? ==> vb.oid == c)
  {
    TrueNextIsTrue(stored, c);
  }

  /** Its quirks are within what trial and reference agree on, as long as they sit at
      stored instances and answer backwards. */
  lemma SimMisordering(cfg: Config, stored: set<Arcs>)
    requires cfg.loopOID != [] ==> cfg.loopOID in stored
    requires forall c :: c in cfg.misorder ==> c in stored && !Less(c, cfg.misorder[c])
    ensures Misordering(NextOf(cfg, stored), stored)
  {
    forall c ensures TrueAnswer(stored, c, NextOf(cfg, stored)(c)) ||
                     (c in stored && !NextOf(cfg, stored)(c).value.EndOfMibView?
                         && !Less(c, NextOf(cfg, stored)(c).oid)) {
      TrueNextIsTrue(stored, c);
      LessTotal(c, c);
    }
  }

  lemma SimSane(cfg: Config, stored: set<Arcs>, len: nat)
    requires forall o :: o in stored ==> Sane(o, len)
    requires Sane(cfg.loopOID, len) && forall c :: c in cfg.misorder ==> Sane(cfg.misorder[c], len)
    ensures SaneSuccessor(NextOf(cfg, stored), len)
  {
    forall c ensures SaneVarbind(NextOf(cfg, stored)(c), len) {
      TrueNextIsTrue(stored, c);
    }
  }

  /** The clause for one request: refused above the tooBig limit, or else answered. */
  ghost predicate Serves(cfg: Config, values: map<Arcs, nat>, oids: seq<Arcs>, reps: Uint32, r: Reply) {
    if 0 < cfg.errorAbove < |oids| * reps then r.status == AgentError
    else r.status == Answered && BulkVarbinds(cfg, values, oids, reps, r.varbinds)
  }

  /** SimAgent.GetBulk serves every request, as long as no response takes too long. */
  method Answer(a: SimAgent, oids: seq<Arcs>, reps: Uint32, rtt: nat -> nat, timeout: nat) returns (r: Reply)
    requires a.Valid() && forall n :: rtt(n) <= timeout
    modifies a
    ensures a.Valid() && a.values == old(a.values) && Serves(a.cfg, a.values, oids, reps, r)
  {
    r := a.GetBulk(oids, reps, rtt, timeout);
  }

  /** Without a byte cap, a reply is as long as the row cap allows. */
  lemma UncappedBytes(cfg: Config, values: map<Arcs, nat>, oids: seq<Arcs>, reps: Uint32, r: Reply)
    requires Serves(cfg, values, oids, reps, r) && !(0 < cfg.errorAbove < |oids| * reps)
    requires cfg.maxBytes == 0 && oids != [] && reps > 0
    ensures PrefixReply(NextOf(cfg, values.Keys), oids, r) && |r.varbinds| == |oids| * RowLimit(cfg, reps)
  {
    hide RowMajor, Encoded, EncodedSize;
    RowFits(0, RowLimit(cfg, reps), |oids|);
  }

  /** A transport to such an agent whose table does not change. */
  ghost predicate ServesAll(tr: Transport, cfg: Config, values: map<Arcs, nat>, len: nat) {
    && (forall k, oids, reps :: Proper(oids, reps, len) ==> Serves(cfg, values, oids, reps, tr.bulk(k, oids, reps)))
    && (forall k, oids :: tr.get(k, oids).status.Answered?)
    && (forall k :: !tr.cancelled(k))
  }

  /** The byte cap leaves room for one varbind. */
  ghost predicate RoomForOne(cfg: Config, values: map<Arcs, nat>, len: nat) {
    cfg.maxBytes > 0 ==>
      forall c: Arcs :: |c| <= len ==> EncodedSize(values, NextOf(cfg, values.Keys)(c)) <= cfg.maxBytes
  }

  /** Whatever its row and byte caps, a simulator with room for one varbind is an agent
      without memory that cuts its replies. */
  lemma SimMemoryless(tr: Transport, cfg: Config, values: map<Arcs, nat>, len: nat)
    requires ServesAll(tr, cfg, values, len) && RoomForOne(cfg, values, len) && cfg.errorAbove == 0
    ensures Memoryless(tr, NextOf(cfg, values.Keys), len)
  {
    var next := NextOf(cfg, values.Keys);
    forall k, oids, reps | Proper(oids, reps, len) ensures PrefixReply(next, oids, tr.bulk(k, oids, reps)) {
      var vbs := tr.bulk(k, oids, reps).varbinds;
      assert BulkVarbinds(cfg, values, oids, reps, vbs);
      RowFits(0, RowLimit(cfg, reps), |oids|);
      assert Encoded(values, []) == 0;
      assert |oids[0]| <= len;
    }
  }

  /** A run against the simulator collects exactly what is stored strictly under its
      columns, each once, ascending per column, whatever the caps, R and V. */
  lemma RunAgainstSim(tr: Transport, cfg: Config, values: map<Arcs, nat>, w: Workload, s: Settings, len: nat, o: Arcs)
    requires ServesAll(tr, cfg, values, len) && RoomForOne(cfg, values, len) && SaneAgent(tr, len)
    requires cfg.errorAbove == 0 && cfg.loopOID == [] && cfg.misorder == map[] && forall k :: k in values ==>
        Sane(k, len)
    requires SaneWorkload(w, len) && Valid(s) && NonNested(AllColumns(w.tables))
    ensures var (res, end) := RunWalk(tr, w, s, len);
            && end == Complete
            && multiset(res.oids)[o] ==
               (if o in values && exists c :: c in AllColumns(w.tables) && c <= o && c != o then 1 else 0)
            && forall c :: c in AllColumns(w.tables) ==> Ascending(Under(c, res.oids))
  {
    var next := NextOf(cfg, values.Keys);
    SimOrdered(cfg, values.Keys);
    SimSane(cfg, values.Keys, len);
    SimMemoryless(tr, cfg, values, len);
    RunCollectsExactly(next, values.Keys, tr, w, s, len, o);
  }
}
