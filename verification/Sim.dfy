/** The in-memory agent of the tests (internal/agent/sim/sim.go): an executable
    specification of GetBulk with a cached sorted index and row and byte caps. */
module Sim {
  import opened Oid
  import opened Agent
  import opened Reference
  import opened Sorting
  import opened Arithmetic

  // ---------- What it is to answer ----------

  /** The caps and quirks of an agent, zero or empty meaning none, and the retransmissions it
      reports. */
  datatype Config = Config(maxRows: nat, maxBytes: nat, errorAbove: nat, loopOID: Arcs, misorder: map<Arcs, Arcs>,
                           retries: nat)

  /** The least stored OID above c, or the end of the MIB under the name c. */
  ghost function TrueNext(stored: set<Arcs>, c: Arcs): Varbind {
    if o: Arcs :| IsNext(stored, c, o) then Varbind(o, Data) else Varbind(c, EndOfMibView)
  }

  ghost function NextOf(cfg: Config, stored: set<Arcs>): Successor {
    c => if cfg.loopOID != [] && c == cfg.loopOID then Varbind(c, Data)
         else if c in cfg.misorder then Varbind(cfg.misorder[c], Data)
         else TrueNext(stored, c)
  }

  lemma {:induction false} LeastExists(stored: set<Arcs>, c: Arcs)
    ensures (exists o :: IsNext(stored, c, o)) || forall k :: k in stored ==> !Less(c, k)
  {
    if stored != {} {
      var x :| x in stored;
      var rest := stored - {x};
      LeastExists(rest, c);
      if o :| IsNext(rest, c, o) {
        LessTotal(x, o);
        if Less(c, x) && Less(x, o) {
          forall k | k in stored && Less(c, k) ensures k == x || Less(x, k) {
            if k != x && k != o { LessTransitive(x, o, k); }
          }
          assert IsNext(stored, c, x);
        } else {
          assert IsNext(stored, c, o);
        }
      } else if Less(c, x) {
        assert IsNext(stored, c, x);
      }
    }
  }

  lemma NextUnique(stored: set<Arcs>, c: Arcs, o: Arcs, o': Arcs)
    requires IsNext(stored, c, o) && IsNext(stored, c, o')
    ensures o == o'
  {
    LessTotal(o, o');
  }

  lemma TrueNextIsTrue(stored: set<Arcs>, c: Arcs)
    ensures TrueAnswer(stored, c, TrueNext(stored, c))
  {
    LeastExists(stored, c);
  }

  // ---------- The agent ----------

  predicate ArcsLte(a: Arcs, b: Arcs) { !Less(b, a) }

  lemma ArcsLteTotal()
    ensures TotalOrder(ArcsLte)
  {
    forall x, y ensures ArcsLte(x, y) || ArcsLte(y, x) {
      LessTotal(x, y);
    }
    forall x, y, z | ArcsLte(x, y) && ArcsLte(y, z) ensures ArcsLte(x, z) {
      LessTotal(x, y);
      LessTotal(y, z);
      if Less(z, x) {
        if x != y { LessTransitive(z, x, y); }
        LessTotal(z, y);
      }
    }
  }

  /** encodedSize, given the sizes of the stored values: headers, one byte per arc, and
      the value; 6 for whatever is not stored. */
  function EncodedSize(values: map<Arcs, nat>, vb: Varbind): nat {
    4 + |vb.oid| + if vb.value.Data? && vb.oid in values then values[vb.oid] else 6
  }

  function Encoded(values: map<Arcs, nat>, vbs: seq<Varbind>): nat {
    if vbs == [] then 0 else Encoded(values, vbs[..|vbs| - 1]) + EncodedSize(values, vbs[|vbs| - 1])
  }

  /** The name the varbind after vbs would answer. */
  function NextAsked(oids: seq<Arcs>, vbs: seq<Varbind>): Arcs
    requires oids != []
  {
    if |vbs| < |oids| then oids[|vbs|] else vbs[|vbs| - |oids|].oid
  }

  function RowLimit(cfg: Config, reps: Uint32): nat {
    if 0 < cfg.maxRows < reps then cfg.maxRows else reps
  }

  /** A reply as section 4.2.3 of RFC 3416 has it: a prefix of the row-major matrix of
      iterated successors, whole up to the row cap unless the next varbind would exceed
      the byte cap; nothing for a request without names. */
  ghost predicate BulkVarbinds(cfg: Config, values: map<Arcs, nat>, oids: seq<Arcs>, reps: Uint32, vbs: seq<Varbind>)
  {
    if oids == [] then vbs == [] else
    var next := NextOf(cfg, values.Keys);
    var full := RowLimit(cfg, reps) * |oids|;
    && RowMajor(next, oids, vbs) && |vbs| <= full
    && (cfg.maxBytes > 0 ==> Encoded(values, vbs) <= cfg.maxBytes)
    && (|vbs| < full ==>
          cfg.maxBytes > 0 && Encoded(values, vbs) + EncodedSize(values, next(NextAsked(oids, vbs))) > cfg.maxBytes)
  }

  /** n arcs and a stored value of z bytes; what is not stored takes 6. */
  predicate SizedAs(values: map<Arcs, nat>, vb: Varbind, n: nat, z: nat) {
    |vb.oid| == n && z == if vb.value.Data? && vb.oid in values then values[vb.oid] else 6
  }

  /** Varbinds of OIDs of n arcs whose values take z bytes take 4 + n + z bytes each. */
  lemma {:induction false} EncodedUniform(values: map<Arcs, nat>, vbs: seq<Varbind>, n: nat, z: nat)
    requires forall k :: 0 <= k < |vbs| ==> SizedAs(values, vbs[k], n, z)
    ensures Encoded(values, vbs) == |vbs| * (4 + n + z)
  {
    if vbs != [] {
      EncodedUniform(values, vbs[..|vbs| - 1], n, z);
    }
  }

  lemma FitsExactly(k: nat, e: nat, b: nat)
    requires e > 0 && k * e <= b < k * e + e
    ensures b / e == k
  {
    DivMod(b, e, k, b - k * e);
  }

  lemma AtLeast(k: nat, e: nat, b: nat)
    requires e > 0 && k * e <= b
    ensures b / e >= k
  {
    var q := b / e;
    assert b == q * e + b % e;
    if q < k { MulMonotone(q + 1, k, e); }
  }

  /** If the varbinds of a reply and the one that would come next are of one size, a byte cap
      cuts it after as many as fit, wherever in a row that is. */
  lemma ByteCapCuts(cfg: Config, values: map<Arcs, nat>, oids: seq<Arcs>, reps: Uint32, vbs: seq<Varbind>, n: nat,
                    z: nat)
    requires oids != [] && cfg.maxBytes > 0 && BulkVarbinds(cfg, values, oids, reps, vbs)
    requires forall k :: 0 <= k < |vbs| ==> SizedAs(values, vbs[k], n, z)
    requires SizedAs(values, NextOf(cfg, values.Keys)(NextAsked(oids, vbs)), n, z)
    ensures var full, fit := RowLimit(cfg, reps) * |oids|, cfg.maxBytes / (4 + n + z);
            |vbs| == if fit < full then fit else full
  {
    hide RowMajor, NextOf, NextAsked, Encoded;
    var e := 4 + n + z;
    EncodedUniform(values, vbs, n, z);
    if |vbs| < RowLimit(cfg, reps) * |oids| {
      FitsExactly(|vbs|, e, cfg.maxBytes);
    } else {
      AtLeast(|vbs|, e, cfg.maxBytes);
    }
  }

  /** What holds of the varbinds of a reply and their size throughout. */
  ghost predicate Answering(cfg: Config, values: map<Arcs, nat>, oids: seq<Arcs>, vbs: seq<Varbind>, bytes: nat)
    requires oids != []
  {
    && RowMajor(NextOf(cfg, values.Keys), oids, vbs)
    && bytes == Encoded(values, vbs) && (cfg.maxBytes > 0 ==> bytes <= cfg.maxBytes)
  }

  ghost predicate CapReached(cfg: Config, values: map<Arcs, nat>, oids: seq<Arcs>, vbs: seq<Varbind>, bytes: nat)
    requires oids != []
  {
    cfg.maxBytes > 0 && bytes + EncodedSize(values, NextOf(cfg, values.Keys)(NextAsked(oids, vbs))) > cfg.maxBytes
  }

  /** The cursors while a row is answered: those before i have moved to this row, which
      starts at varbind base, the others are still at the row before. */
  ghost predicate AtRow(cursors: seq<Arcs>, oids: seq<Arcs>, vbs: seq<Varbind>, base: nat, i: nat) {
    && |cursors| == |oids| && i <= |oids| && |vbs| == base + i
    && (base == 0 || base >= |oids|)
    && (forall j :: 0 <= j < i ==> cursors[j] == vbs[base + j].oid)
    && (forall j :: i <= j < |oids| ==> cursors[j] == if base == 0 then oids[j] else vbs[base - |oids| + j].oid)
  }

  lemma RowsBegin(cfg: Config, values: map<Arcs, nat>, oids: seq<Arcs>)
    requires oids != []
    ensures AtRow(oids, oids, [], 0, 0) && Answering(cfg, values, oids, [], 0)
  {
  }

  lemma BulkCapped(cfg: Config, values: map<Arcs, nat>, oids: seq<Arcs>, reps: Uint32, vbs: seq<Varbind>, bytes: nat)
    requires oids != [] && Answering(cfg, values, oids, vbs, bytes) && CapReached(cfg, values, oids, vbs, bytes)
    requires |vbs| <= RowLimit(cfg, reps) * |oids|
    ensures BulkVarbinds(cfg, values, oids, reps, vbs)
  {
  }

  lemma BulkWhole(cfg: Config, values: map<Arcs, nat>, oids: seq<Arcs>, reps: Uint32, cursors: seq<Arcs>,
                  vbs: seq<Varbind>, bytes: nat, base: nat)
    requires oids != [] && Answering(cfg, values, oids, vbs, bytes) && AtRow(cursors, oids, vbs, base, 0)
    requires base == RowLimit(cfg, reps) * |oids|
    ensures BulkVarbinds(cfg, values, oids, reps, vbs)
  {
  }

  lemma RowAsks(cursors: seq<Arcs>, oids: seq<Arcs>, vbs: seq<Varbind>, base: nat, i: nat)
    requires AtRow(cursors, oids, vbs, base, i) && i < |oids|
    ensures cursors[i] == NextAsked(oids, vbs)
  {
  }

  lemma RowStep(cursors: seq<Arcs>, oids: seq<Arcs>, vbs: seq<Varbind>, base: nat, i: nat, vb: Varbind)
    requires AtRow(cursors, oids, vbs, base, i) && i < |oids|
    ensures AtRow(cursors[i := vb.oid], oids, vbs + [vb], base, i + 1)
  {
  }

  lemma RowMajorSnoc(next: Successor, oids: seq<Arcs>, vbs: seq<Varbind>, vb: Varbind)
    requires oids != [] && RowMajor(next, oids, vbs) && vb == next(NextAsked(oids, vbs))
    ensures RowMajor(next, oids, vbs + [vb])
  {
    var all := vbs + [vb];
    forall k | 0 <= k < |all| ensures all[k] == next(Asked(oids, all, k)) {
      if k < |vbs| {
        assert Asked(oids, all, k) == Asked(oids, vbs, k);
      }
    }
  }

  lemma AnsweringStep(cfg: Config, values: map<Arcs, nat>, oids: seq<Arcs>, vbs: seq<Varbind>, bytes: nat, vb: Varbind)
    requires oids != [] && Answering(cfg, values, oids, vbs, bytes)
    requires vb == NextOf(cfg, values.Keys)(NextAsked(oids, vbs))
    requires cfg.maxBytes > 0 ==> bytes + EncodedSize(values, vb) <= cfg.maxBytes
    ensures Answering(cfg, values, oids, vbs + [vb], bytes + EncodedSize(values, vb))
  {
    RowMajorSnoc(NextOf(cfg, values.Keys), oids, vbs, vb);
    assert (vbs + [vb])[..|vbs|] == vbs;
  }

  lemma RowDone(cursors: seq<Arcs>, oids: seq<Arcs>, vbs: seq<Varbind>, base: nat)
    requires AtRow(cursors, oids, vbs, base, |oids|)
    ensures AtRow(cursors, oids, vbs, base + |oids|, 0)
  {
  }

  /** What the search of an ascending list of the stored OIDs finds. */
  lemma FoundIsNext(stored: set<Arcs>, keys: seq<Arcs>, c: Arcs, i: nat)
    requires Ascending(keys) && (forall o :: o in keys <==> o in stored) && i <= |keys|
    requires forall k :: 0 <= k < i ==> !Less(c, keys[k])
    requires forall k :: i <= k < |keys| ==> Less(c, keys[k])
    ensures TrueNext(stored, c) == if i == |keys| then Varbind(c, EndOfMibView) else Varbind(keys[i], Data)
  {
    TrueNextIsTrue(stored, c);
    if i < |keys| {
      assert keys[i] in keys;
      forall k | k in stored && Less(c, k) ensures k == keys[i] || Less(keys[i], k) {
        var m :| 0 <= m < |keys| && keys[m] == k;
      }
      assert IsNext(stored, c, keys[i]);
      NextUnique(stored, c, keys[i], TrueNext(stored, c).oid);
    }
  }

  lemma RowFits(r: nat, rows: nat, width: nat)
    requires r < rows
    ensures r * width + width <= rows * width && (r + 1) * width == r * width + width
    ensures r > 0 ==> r * width >= width
  {
    assert (r + 1) * width <= rows * width;
  }

  lemma SortedAscending(s: seq<Arcs>)
    requires SortedBy(ArcsLte, s) && Unique(s)
    ensures Ascending(s)
  {
    forall i, j | 0 <= i < j < |s| ensures Less(s[i], s[j]) {
      assert ArcsLte(s[i], s[j]);
      LessTotal(s[i], s[j]);
    }
  }

  class SimAgent {
    const cfg: Config
    /** Encoded size of a stored value: 2 + length for strings and bytes, 6 for others. */
    var values: map<Arcs, nat>
    var keys: seq<Arcs>
    var arcs: seq<Arcs>
    var indexed: bool
    var requests: nat

    ghost predicate Valid()
      reads this
    {
      && Unique(keys) && (forall o :: o in keys <==> o in values)
      && (indexed ==> arcs == keys && Ascending(arcs))
      && (!indexed ==> arcs == [])
    }

    constructor (cfg: Config)
      ensures Valid() && this.cfg == cfg && values == map[] && requests == 0
    {
      this.cfg, values, keys, arcs, indexed, requests := cfg, map[], [], [], false, 0;
    }

    /** A new OID invalidates the index; a new value for a known one does not. */
    method Set(o: Arcs, size: nat)
      requires Valid()
      modifies this
      ensures Valid() && values == old(values)[o := size] && requests == old(requests)
      ensures o in old(values) ==> indexed == old(indexed)
    {
      if o !in values {
        keys, arcs, indexed := keys + [o], [], false;
      }
      values := values[o := size];
    }

    /** beginLocked: sorts the keys and rebuilds the index when it is stale. */
    method Begin()
      requires Valid()
      modifies `keys, `arcs, `indexed
      ensures Valid() && (indexed || keys == [])
    {
      if indexed || |keys| == 0 {
        return;
      }
      ghost var was := keys;
      keys := Sort(ArcsLte, keys);
      ArcsLteTotal();
      SortUnique(ArcsLte, was);
      SameMembers(keys, was);
      SortedAscending(keys);
      arcs, indexed := keys, true;
    }

    /** sort.Search over the index: the first position whose OID is above c. */
    method Search(c: Arcs) returns (i: nat)
      requires Valid() && (indexed || keys == [])
      ensures i <= |arcs| == |keys|
      ensures forall k :: 0 <= k < i ==> !Less(c, arcs[k])
      ensures forall k :: i <= k < |arcs| ==> Less(c, arcs[k])
    {
      i := 0;
      var j := |arcs|;
      while i < j
        invariant 0 <= i <= j <= |arcs|
        invariant forall k :: 0 <= k < i ==> !Less(c, arcs[k])
        invariant forall k :: j <= k < |arcs| ==> Less(c, arcs[k])
      {
        var h := (i + j) / 2;
        var above := CompareArcs(arcs[h], c);
        LessTotal(arcs[h], c);
        if above <= 0 {
          forall k | 0 <= k <= h ensures !Less(c, arcs[k]) {
            if k < h && Less(c, arcs[k]) { LessTransitive(c, arcs[k], arcs[h]); }
          }
          i := h + 1;
        } else {
          forall k | h <= k < |arcs| ensures Less(c, arcs[k]) {
            if h < k { LessTransitive(c, arcs[h], arcs[k]); }
          }
          j := h;
        }
      }
    }

    /** nextLocked: whatever was stored in whatever order, the index answers with the
        least stored OID strictly above the cursor. */
    method Next(c: Arcs) returns (vb: Varbind)
      requires Valid() && (indexed || keys == [])
      ensures vb == NextOf(cfg, values.Keys)(c)
    {
      if cfg.loopOID != [] && c == cfg.loopOID {
        return Varbind(cfg.loopOID, Data);
      }
      if c in cfg.misorder {
        return Varbind(cfg.misorder[c], Data);
      }
      var i := Search(c);
      FoundIsNext(values.Keys, keys, c, i);
      if i == |keys| {
        return Varbind(c, EndOfMibView);
      }
      return Varbind(keys[i], Data);
    }

    /** The inner loop of GetBulk: one row, or as much of it as fits. */
    method Row(oids: seq<Arcs>, cursors: array<Arcs>, vbs0: seq<Varbind>, bytes0: nat, ghost base: nat)
      returns (vbs: seq<Varbind>, bytes: nat, capped: bool)
      requires Valid() && (indexed || keys == []) && oids != []
      requires Answering(cfg, values, oids, vbs0, bytes0) && AtRow(cursors[..], oids, vbs0, base, 0)
      modifies cursors
      ensures Answering(cfg, values, oids, vbs, bytes)
      ensures if capped then |vbs| < base + |oids| && CapReached(cfg, values, oids, vbs, bytes)
              else AtRow(cursors[..], oids, vbs, base + |oids|, 0)
    {
      hide Answering, EncodedSize, NextOf;
      vbs, bytes, capped := vbs0, bytes0, false;
      for i := 0 to |oids|
        invariant AtRow(cursors[..], oids, vbs, base, i) && Answering(cfg, values, oids, vbs, bytes)
      {
        ghost var before := cursors[..];
        RowAsks(before, oids, vbs, base, i);
        var vb := Next(cursors[i]);
        if cfg.maxBytes > 0 && bytes + EncodedSize(values, vb) > cfg.maxBytes {
          return vbs, bytes, true;
        }
        RowStep(before, oids, vbs, base, i, vb);
        AnsweringStep(cfg, values, oids, vbs, bytes, vb);
        cursors[i] := vb.oid;
        bytes := bytes + EncodedSize(values, vb);
        vbs := vbs + [vb];
        assert cursors[..] == before[i := vb.oid];
      }
      RowDone(cursors[..], oids, vbs, base);
    }

    /** The loops of GetBulk over rows and repeaters. */
    method Rows(oids: seq<Arcs>, reps: Uint32) returns (vbs: seq<Varbind>)
      requires Valid() && (indexed || keys == []) && oids != []
      ensures BulkVarbinds(cfg, values, oids, reps, vbs)
    {
      hide Answering, AtRow, BulkVarbinds, CapReached;
      var cursors := new Arcs[|oids|](i requires 0 <= i < |oids| => oids[i]);
      assert cursors[..] == oids;
      RowsBegin(cfg, values, oids);
      var bytes, capped, r := 0, false, 0;
      ghost var base := 0;
      vbs := [];
      while r < reps
        invariant 0 <= r <= RowLimit(cfg, reps) && base == r * |oids|
        invariant AtRow(cursors[..], oids, vbs, base, 0) && Answering(cfg, values, oids, vbs, bytes)
        invariant fresh(cursors)
      {
        if cfg.maxRows > 0 && r >= cfg.maxRows {
          break;
        }
        RowFits(r, RowLimit(cfg, reps), |oids|);
        vbs, bytes, capped := Row(oids, cursors, vbs, bytes, base);
        if capped {
          BulkCapped(cfg, values, oids, reps, vbs, bytes);
          return;
        }
        r, base := r + 1, base + |oids|;
      }
      BulkWhole(cfg, values, oids, reps, cursors[..], vbs, bytes, base);
    }

    /** GetBulk, with the time a response of n varbinds takes and the client's timeout. */
    method GetBulk(oids: seq<Arcs>, reps: Uint32, rtt: nat -> nat, timeout: nat) returns (reply: Reply)
      requires Valid()
      modifies this
      ensures Valid() && values == old(values) && requests == old(requests) + 1
      ensures 0 < cfg.errorAbove < |oids| * reps <==> reply.status == AgentError
      ensures reply.status == Answered ==>
                && BulkVarbinds(cfg, values, oids, reps, reply.varbinds)
                && reply.bytes == Encoded(values, reply.varbinds)
                && reply.rtt == rtt(|reply.varbinds|) <= timeout
      ensures reply.status == Timeout ==> exists vbs ::
          BulkVarbinds(cfg, values, oids, reps, vbs) && rtt(|vbs|) > timeout
      ensures reply.status == AgentError ==> reply.rtt == rtt(0)
      ensures reply.status == Timeout ==> reply.rtt == 0
      ensures reply.status != Broken && (reply.status != Answered ==> reply.varbinds == [] && reply.bytes == 0)
      ensures reply.retries == cfg.retries
    {
      Begin();
      requests := requests + 1;
      if cfg.errorAbove > 0 && |oids| * reps > cfg.errorAbove {
        return Reply(AgentError, [], rtt(0), 0, cfg.retries);
      }
      var vbs: seq<Varbind> := [];
      if |oids| > 0 { // without names every row is empty
        vbs := Rows(oids, reps);
      }
      if rtt(|vbs|) > timeout {
        return Reply(Timeout, [], 0, 0, cfg.retries);
      }
      var size := 0;
      for k := 0 to |vbs|
        invariant size == Encoded(values, vbs[..k])
      {
        assert vbs[..k + 1][..k] == vbs[..k];
        size := size + EncodedSize(values, vbs[k]);
      }
      assert vbs[..|vbs|] == vbs;
      return Reply(Answered, vbs, rtt(|vbs|), size, cfg.retries);
    }
  }
}
