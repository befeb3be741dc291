/** One column of a walk and what a single varbind does to it
    (internal/walk/walk.go:205-225), with the order facts the walks rest on. */
module Column {
  import opened Oid
  import opened Agent

  /** A column under way; `got` is what was collected for it so far. */
  datatype Col = Col(oid: Arcs, cursor: Arcs, jumped: bool, finished: bool, got: seq<Arcs>)

  predicate Accepts(c: Col, vb: Varbind) {
    !c.finished && !c.jumped && !vb.value.EndOfMibView? && c.oid <= vb.oid && Less(c.cursor, vb.oid)
  }

  predicate Skips(c: Col, vb: Varbind) {
    !c.finished && !c.jumped && !vb.value.EndOfMibView? && c.oid <= vb.oid && !Less(c.cursor, vb.oid)
  }

  function Absorb(c: Col, vb: Varbind): (c': Col)
    requires c.cursor != []
    ensures c'.cursor != []
  {
    if c.finished || c.jumped then c
    else if vb.value.EndOfMibView? || !(c.oid <= vb.oid) then c.(finished := true)
    else if !Less(c.cursor, vb.oid) then
      var target := SkipTarget(c.cursor, vb.oid);
      c.(cursor := target, jumped := true, finished := !(c.oid <= target))
    else c.(cursor := vb.oid, got := c.got + [vb.oid])
  }

  /** The cursor is in the column and within the length bound. */
  ghost predicate Placed(c: Col, len: nat) {
    c.oid != [] && Sane(c.oid, len) && c.oid <= c.cursor && |c.cursor| <= len
  }

  ghost predicate Forward(c: Col, c': Col, len: nat) {
    c'.oid == c.oid && (c'.finished || (Placed(c', len) && (c'.cursor == c.cursor || Less(c.cursor, c'.cursor))))
  }

  /** A skip inside a column always moves forward: the shared prefix reaches the
      column at least, and its arcs are arcs of a sane answer. */
  lemma {:induction false} SkipAdvances(col: Arcs, cursor: Arcs, answer: Arcs, len: nat)
    requires col != [] && col <= cursor && col <= answer && Sane(answer, len)
    ensures Shared(cursor, answer) >= |col|
    ensures cursor[Shared(cursor, answer) - 1] < MAX_ARC
    ensures Less(cursor, SkipTarget(cursor, answer)) && |SkipTarget(cursor, answer)| <= |cursor|
  {
    var n := Shared(cursor, answer);
    assert forall k :: 0 <= k < |col| ==> cursor[k] == col[k] == answer[k];
    assert cursor[..n][n - 1] == answer[..n][n - 1];
    SkipTargetAdvancesIff(cursor, answer);
  }

  /** One varbind never moves a column back, and always moves it on or ends it
      unless the column ignores it. */
  lemma AbsorbForward(c: Col, vb: Varbind, len: nat)
    requires c.finished || Placed(c, len)
    requires c.cursor != [] && SaneVarbind(vb, len)
    ensures Forward(c, Absorb(c, vb), len)
    ensures !c.finished && !c.jumped ==>
              Absorb(c, vb).finished || Less(c.cursor, Absorb(c, vb).cursor)
  {
    if Skips(c, vb) {
      SkipAdvances(c.oid, c.cursor, vb.oid, len);
    }
  }

  // ---------- The reference: one cursor, one GetNext at a time ----------

  /** What a plain GetNext walk of one column collects from a cursor on. */
  ghost function NextWalk(next: Successor, col: Arcs, cursor: Arcs, len: nat): seq<Arcs>
    requires SaneSuccessor(next, len)
    requires col != [] && col <= cursor && |cursor| <= len
    decreases Left(cursor, len)
  {
    var vb := next(cursor);
    assert SaneVarbind(vb, len);
    if vb.value.EndOfMibView? || !(col <= vb.oid) then []
    else if Less(cursor, vb.oid) then
      RankMonotone(cursor, vb.oid, len);
      [vb.oid] + NextWalk(next, col, vb.oid, len)
    else
      var target := SkipTarget(cursor, vb.oid);
      SkipAdvances(col, cursor, vb.oid, len);
      RankMonotone(cursor, target, len);
      if col <= target then NextWalk(next, col, target, len) else []
  }

  /** The prefixes such a walk skips, those that misordered answers share with the cursor. */
  ghost function SkippedBy(next: Successor, col: Arcs, cursor: Arcs, len: nat): seq<Arcs>
    requires SaneSuccessor(next, len)
    requires col != [] && col <= cursor && |cursor| <= len
    decreases Left(cursor, len)
  {
    var vb := next(cursor);
    assert SaneVarbind(vb, len);
    if vb.value.EndOfMibView? || !(col <= vb.oid) then []
    else if Less(cursor, vb.oid) then
      RankMonotone(cursor, vb.oid, len);
      SkippedBy(next, col, vb.oid, len)
    else
      var target := SkipTarget(cursor, vb.oid);
      SkipAdvances(col, cursor, vb.oid, len);
      RankMonotone(cursor, target, len);
      [cursor[..Kept(cursor, vb.oid)]] + if col <= target then SkippedBy(next, col, target, len) else []
  }

  /** Everything a column will have collected if it is walked to its end. */
  ghost function Destiny(next: Successor, c: Col, len: nat): seq<Arcs>
    requires SaneSuccessor(next, len) && (c.finished || Placed(c, len))
  {
    c.got + if c.finished then [] else NextWalk(next, c.oid, c.cursor, len)
  }

  /** A column that takes the successor of its cursor keeps its destiny. */
  lemma AbsorbKeepsDestiny(next: Successor, c: Col, vb: Varbind, len: nat)
    requires SaneSuccessor(next, len) && c.cursor != []
    requires c.finished || Placed(c, len)
    requires !c.finished && !c.jumped ==> vb == next(c.cursor)
    requires SaneVarbind(vb, len)
    ensures Forward(c, Absorb(c, vb), len)
    ensures Destiny(next, Absorb(c, vb), len) == Destiny(next, c, len)
  {
    AbsorbForward(c, vb, len);
    if Accepts(c, vb) {
      var rest := NextWalk(next, c.oid, vb.oid, len);
      assert NextWalk(next, c.oid, c.cursor, len) == [vb.oid] + rest;
      assert c.got + [vb.oid] + rest == c.got + ([vb.oid] + rest);
    } else if Skips(c, vb) {
      var target := SkipTarget(c.cursor, vb.oid);
      assert Absorb(c, vb) == c.(cursor := target, jumped := true, finished := !(c.oid <= target));
    } else {
      assert Absorb(c, vb) == if c.finished || c.jumped then c else c.(finished := true);
    }
  }
}
