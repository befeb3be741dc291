/** The request contract toward an SNMP agent (internal/agent/agent.go). Replies,
    round-trip times and the state of the context are oracles: functions of how many
    requests were sent before. "For every agent" is "for every such function". */
module Agent {
  import opened Oid

  type Uint32 = x: int | 0 <= x <= 0xFFFF_FFFF

  datatype Value = Data | EndOfMibView | NoSuchObject | NoSuchInstance

  datatype Varbind = Varbind(oid: Arcs, value: Value)

  /** nil, ErrTimeout, ErrAgent, or any other transport error. */
  datatype Status = Answered | Timeout | AgentError | Broken

  datatype Reply = Reply(status: Status, varbinds: seq<Varbind>, rtt: nat, bytes: nat, retries: nat)

  datatype Transport = Transport(
    bulk: (nat, seq<Arcs>, Uint32) -> Reply,
    get: (nat, seq<Arcs>) -> Reply,
    cancelled: nat -> bool)

  /** At most len arcs, none of them the largest uint32. Section 3.5 of RFC 2578
      allows 128 sub-identifiers; the largest arc cannot be skipped past. */
  ghost predicate Sane(o: Arcs, len: nat) {
    |o| <= len && forall i :: 0 <= i < |o| ==> o[i] < MAX_ARC
  }

  /** The name of an end-of-MIB answer is never followed, so it may be anything. */
  ghost predicate SaneVarbind(vb: Varbind, len: nat) {
    vb.value.EndOfMibView? || Sane(vb.oid, len)
  }

  ghost predicate SaneReply(r: Reply, len: nat) {
    forall k :: 0 <= k < |r.varbinds| ==> SaneVarbind(r.varbinds[k], len)
  }

  /** Replies may otherwise be arbitrary. */
  ghost predicate SaneAgent(tr: Transport, len: nat) {
    forall k, oids, reps :: SaneReply(tr.bulk(k, oids, reps), len)
  }

  // ---------- Agents without memory ----------

  /** What a GetNext on a cursor answers. */
  type Successor = Arcs -> Varbind

  ghost predicate SaneSuccessor(next: Successor, len: nat) {
    forall c :: SaneVarbind(next(c), len)
  }

  /** The name varbind k answers: row 0 the cursors, row r + 1 the names of row r. */
  function Asked(cursors: seq<Arcs>, vbs: seq<Varbind>, k: nat): Arcs
    requires cursors != [] && k < |vbs|
  {
    if k < |cursors| then cursors[k] else vbs[k - |cursors|].oid
  }

  /** The varbinds are a prefix, row by row, of the matrix of iterated successors
      (section 4.2.3 of RFC 3416). */
  ghost predicate RowMajor(next: Successor, cursors: seq<Arcs>, vbs: seq<Varbind>)
    requires cursors != []
  {
    forall k :: 0 <= k < |vbs| ==> vbs[k] == next(Asked(cursors, vbs, k))
  }

  ghost predicate PrefixReply(next: Successor, oids: seq<Arcs>, r: Reply)
    requires oids != []
  {
    r.status.Answered? && r.varbinds != [] && RowMajor(next, oids, r.varbinds)
  }

  /** A request an agent has to answer: some cursors of bounded length, some rows. */
  ghost predicate Proper(oids: seq<Arcs>, reps: Uint32, len: nat) {
    oids != [] && reps > 0 && forall i :: 0 <= i < |oids| ==> |oids[i]| <= len
  }

  /** Every GetBulk is answered by some non-empty prefix, cut wherever the agent
      likes, every Get is answered, and nobody cancels. */
  ghost predicate Memoryless(tr: Transport, next: Successor, len: nat) {
    && (forall k, oids, reps :: Proper(oids, reps, len) ==> PrefixReply(next, oids, tr.bulk(k, oids, reps)))
    && (forall k, oids :: tr.get(k, oids).status.Answered?)
    && (forall k :: !tr.cancelled(k))
  }
}
