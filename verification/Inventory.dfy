/** The conservative reference walk (internal/inventory/inventory.go). */
module Inventory {
  import opened Oid
  import opened Agent
  import opened Column
  import opened Reference
  import opened Sorting

  const REFERENCE_REPETITIONS: Uint32 := 10

  datatype Subtree = Subtree(root: Arcs, oids: seq<Arcs>, bytes: nat, columns: seq<Arc>, skipped: seq<Arcs>,
                             partial: bool) {
    predicate IsTable() { columns != [] }
  }

  datatype Inventory = Inventory(subtrees: seq<Subtree>, partial: bool, pdus: nat)

  // ---------- The column structure ----------

  /** root.1.column.index, and deeper. */
  predicate TableShaped(root: Arcs, oids: seq<Arcs>) {
    oids != [] && forall k :: 0 <= k < |oids| ==> |oids[k]| >= |root| + 3 && oids[k][|root|] == 1
  }

  ghost predicate Columns(root: Arcs, oids: seq<Arcs>, cols: seq<Arc>) {
    if TableShaped(root, oids) then
      && (forall i, j :: 0 <= i < j < |cols| ==> cols[i] < cols[j])
      && (forall c :: c in cols <==> exists k :: 0 <= k < |oids| && oids[k][|root| + 1] == c)
    else
      cols == []
  }

  predicate Lte(x: Arc, y: Arc) { x <= y }

  /** The columns of a table-shaped subtree are its distinct column arcs in ascending
      order; any other subtree has none. */
  method InferColumns(root: Arcs, oids: seq<Arcs>) returns (cols: seq<Arc>)
    ensures Columns(root, oids, cols)
  {
    if |oids| == 0 {
      return [];
    }
    var depth := |root|;
    cols := [];
    for k := 0 to |oids|
      invariant forall m :: 0 <= m < k ==> |oids[m]| >= depth + 3 && oids[m][depth] == 1
      invariant Unique(cols)
      invariant forall c :: c in cols <==> exists m :: 0 <= m < k && oids[m][depth + 1] == c
    {
      var arcs := oids[k];
      if |arcs| < depth + 3 || arcs[depth] != 1 {
        return [];
      }
      var c := arcs[depth + 1];
      if c !in cols {
        cols := cols + [c];
      }
    }
    var sorted := Sort(Lte, cols);
    SortUnique(Lte, cols);
    SameMembers(sorted, cols);
    assert forall i, j :: 0 <= i < j < |sorted| ==> Lte(sorted[i], sorted[j]) && sorted[i] != sorted[j];
    cols := sorted;
  }

  // ---------- The walk of one root ----------

  /** The OID one arc shorter, when given a skip target: its last arc one less, as a
      uint32. */
  function ParentOf(o: Arcs): Arcs {
    if o == [] then o else o[..|o| - 1] + [if o[|o| - 1] == 0 then MAX_ARC else o[|o| - 1] - 1]
  }

  /** What is recorded as skipped is the prefix the request and the answer share. */
  lemma SkippedIsSharedPrefix(request: Arcs, answer: Arcs)
    requires request != []
    ensures ParentOf(SkipTarget(request, answer)) == request[..Kept(request, answer)]
  {
    var n := Kept(request, answer);
    assert request[..n] == request[..n - 1] + [request[n - 1]];
  }

  /** Varbind k, answering the cursor, ends the subtree. */
  predicate Ends(root: Arcs, cursor: Arcs, vb: Varbind) {
    vb.value.EndOfMibView? || !(root <= vb.oid) ||
    (cursor != [] && !Less(cursor, vb.oid) && !(root <= SkipTarget(cursor, vb.oid)))
  }

  /** What one answered request leaves behind. */
  datatype Collected = Collected(oids: seq<Arcs>, skipped: seq<Arcs>, cursor: Arcs, done: bool)

  function Collect(root: Arcs, cursor: Arcs, vbs: seq<Varbind>, oids: seq<Arcs>, skipped: seq<Arcs>): (s: Collected)
    requires root != [] && root <= cursor
    ensures |s.oids| >= |oids| && (!s.done ==> root <= s.cursor)
    decreases |vbs|
  {
    if vbs == [] then Collected(oids, skipped, cursor, false)
    else
      var vb := vbs[0];
      if vb.value.EndOfMibView? || !(root <= vb.oid) then Collected(oids, skipped, cursor, true)
      else if Less(cursor, vb.oid) then Collect(root, vb.oid, vbs[1..], oids + [vb.oid], skipped)
      else
        var target := SkipTarget(cursor, vb.oid);
        Collected(oids, skipped + [ParentOf(target)], target, !(root <= target))
  }

  /** The inner loop on a reply that is not empty. */
  method CollectReply(root: Arcs, cursor0: Arcs, vbs: seq<Varbind>, oids0: seq<Arcs>,
                      skipped0: seq<Arcs>) returns (s: Collected)
    requires root != [] && root <= cursor0
    ensures s == Collect(root, cursor0, vbs, oids0, skipped0)
  {
    var oids, skipped, cursor, done := oids0, skipped0, cursor0, false;
    var k := 0;
    while k < |vbs|
      invariant 0 <= k <= |vbs| && root <= cursor && !done
      invariant Collect(root, cursor, vbs[k..], oids, skipped) == Collect(root, cursor0, vbs, oids0, skipped0)
      decreases |vbs| - k
    {
      var vb := vbs[k];
      assert vbs[k..][1..] == vbs[k + 1..];
      if vb.value.EndOfMibView? || !(root <= vb.oid) {
        return Collected(oids, skipped, cursor, true);
      }
      var c := CompareArcs(vb.oid, cursor);
      LessTotal(vb.oid, cursor);
      if c <= 0 {
        var target := ComputeSkipTarget(cursor, vb.oid);
        if !(root <= target) {
          done := true;
        }
        return Collected(oids, skipped + [ParentOf(target)], target, done);
      }
      oids := oids + [vb.oid];
      cursor := vb.oid;
      k := k + 1;
    }
    return Collected(oids, skipped, cursor, done);
  }

  /** Some varbind of the reply ends the subtree, every earlier one being collected:
      the end of the MIB, an answer outside the root, or a skip out of it. */
  ghost predicate EndedBy(root: Arcs, cursor: Arcs, vbs: seq<Varbind>)
    decreases |vbs|
  {
    vbs != [] &&
    (Ends(root, cursor, vbs[0]) || (Less(cursor, vbs[0].oid) && EndedBy(root, vbs[0].oid, vbs[1..])))
  }

  ghost predicate InOrder(root: Arcs, cursor: Arcs, oids: seq<Arcs>) {
    && Ascending(oids)
    && forall o :: o in oids ==> root <= o && (o == cursor || Less(o, cursor))
  }

  lemma InOrderSnoc(root: Arcs, cursor: Arcs, oids: seq<Arcs>, o: Arcs)
    requires InOrder(root, cursor, oids) && Less(cursor, o) && root <= o
    ensures InOrder(root, o, oids + [o])
  {
    forall x | x in oids ensures Less(x, o) {
      if x != cursor { LessTransitive(x, cursor, o); }
    }
    assert forall i :: 0 <= i < |oids| ==> oids[i] in oids;
  }

  lemma InOrderSkip(root: Arcs, cursor: Arcs, oids: seq<Arcs>, target: Arcs)
    requires InOrder(root, cursor, oids) && Less(cursor, target)
    ensures InOrder(root, target, oids)
  {
    forall x | x in oids ensures Less(x, target) {
      if x != cursor { LessTransitive(x, cursor, target); }
    }
  }

  /** Whatever an agent replies, the collected OIDs stay in order and under the root,
      the walk moves forward or is over, and it is over only for a reason. */
  lemma {:induction false} CollectMoves(root: Arcs, cursor: Arcs, vbs: seq<Varbind>, oids: seq<Arcs>,
                                        skipped: seq<Arcs>, len: nat)
    requires root != [] && root <= cursor && |cursor| <= len && InOrder(root, cursor, oids)
    requires forall k :: 0 <= k < |vbs| ==> SaneVarbind(vbs[k], len)
    ensures var s := Collect(root, cursor, vbs, oids, skipped);
            && InOrder(root, s.cursor, s.oids) && |s.oids| <= |oids| + |vbs|
            && (s.done ==> EndedBy(root, cursor, vbs))
            && (!s.done ==> root <= s.cursor && |s.cursor| <= len && Left(s.cursor, len) <= Left(cursor, len))
            && (!s.done && vbs != [] ==> Left(s.cursor, len) < Left(cursor, len))
    decreases |vbs|
  {
    if vbs != [] {
      var vb := vbs[0];
      assert SaneVarbind(vb, len);
      if vb.value.EndOfMibView? || !(root <= vb.oid) {
      } else if Less(cursor, vb.oid) {
        RankMonotone(cursor, vb.oid, len);
        InOrderSnoc(root, cursor, oids, vb.oid);
        CollectMoves(root, vb.oid, vbs[1..], oids + [vb.oid], skipped, len);
      } else {
        var target := SkipTarget(cursor, vb.oid);
        SkipAdvances(root, cursor, vb.oid, len);
        RankMonotone(cursor, target, len);
        InOrderSkip(root, cursor, oids, target);
      }
    }
  }

  /** Against an agent without memory, what is collected plus what lies ahead is what
      lay ahead before: the reference walk is a plain GetNext walk too. */
  lemma {:induction false} CollectFollows(next: Successor, root: Arcs, cursor: Arcs, vbs: seq<Varbind>,
                                          oids: seq<Arcs>, skipped: seq<Arcs>, len: nat)
    requires SaneSuccessor(next, len) && RowMajor(next, [cursor], vbs)
    requires root != [] && root <= cursor && |cursor| <= len
    ensures var s := Collect(root, cursor, vbs, oids, skipped);
            && (!s.done ==> root <= s.cursor && |s.cursor| <= len)
            && s.oids + (if s.done then [] else NextWalk(next, root, s.cursor, len))
               == oids + NextWalk(next, root, cursor, len)
            && s.skipped + (if s.done then [] else SkippedBy(next, root, s.cursor, len))
               == skipped + SkippedBy(next, root, cursor, len)
    decreases |vbs|
  {
    if vbs != [] {
      var vb := vbs[0];
      assert Asked([cursor], vbs, 0) == cursor;
      assert SaneVarbind(vb, len);
      if vb.value.EndOfMibView? || !(root <= vb.oid) {
      } else if Less(cursor, vb.oid) {
        assert RowMajor(next, [vb.oid], vbs[1..]) by {
          forall k | 0 <= k < |vbs[1..]| ensures vbs[1..][k] == next(Asked([vb.oid], vbs[1..], k)) {
            assert Asked([cursor], vbs, k + 1) == Asked([vb.oid], vbs[1..], k);
          }
        }
        CollectFollows(next, root, vb.oid, vbs[1..], oids + [vb.oid], skipped, len);
        Assoc(oids, [vb.oid], NextWalk(next, root, vb.oid, len));
      } else {
        var target := SkipTarget(cursor, vb.oid);
        SkipAdvances(root, cursor, vb.oid, len);
        SkippedIsSharedPrefix(cursor, vb.oid);
        Assoc(skipped, [ParentOf(target)], if root <= target then SkippedBy(next, root, target, len) else []);
      }
    }
  }

  // ---------- The walk of one root, request by request ----------

  /** The loop variables of the walk of one root. */
  datatype Survey = Survey(st: Subtree, cursor: Arcs, done: bool, sent: nat, answered: nat, total: nat, failed: bool) {
    predicate Over() { done || st.partial || failed }
  }

  ghost predicate Underway(s: Survey, len: nat) {
    && s.st.root != [] && InOrder(s.st.root, s.cursor, s.st.oids)
    && (!s.done ==> s.st.root <= s.cursor && |s.cursor| <= len)
  }

  function Absorbed(s: Survey, r: Reply): Survey
    requires s.st.root != [] && s.st.root <= s.cursor
  {
    var c := Collect(s.st.root, s.cursor, r.varbinds, s.st.oids, s.st.skipped);
    s.(st := s.st.(oids := c.oids, skipped := c.skipped, bytes := s.st.bytes + r.bytes),
       cursor := c.cursor, done := c.done || r.varbinds == [], answered := s.answered + 1,
       total := s.total + (|c.oids| - |s.st.oids|))
  }

  /** One pass of the loop. */
  function Pass(tr: Transport, maxOIDs: nat, s: Survey): Survey
    requires s.st.root != [] && s.st.root <= s.cursor
  {
    if 0 < maxOIDs <= s.total || tr.cancelled(s.sent) then s.(st := s.st.(partial := true))
    else
      var r := tr.bulk(s.sent, [s.cursor], REFERENCE_REPETITIONS);
      var s1 := s.(sent := s.sent + 1);
      if r.status.Answered? then Absorbed(s1, r)
      else if tr.cancelled(s1.sent) then s1.(st := s.st.(partial := true))
      else s1.(failed := true)
  }

  /** The subtree was walked to its end: request k, at cursor c, was answered by
      nothing or by something that ends the subtree. */
  ghost predicate EndedAt(tr: Transport, root: Arcs, k: nat, c: Arcs) {
    var r := tr.bulk(k, [c], REFERENCE_REPETITIONS);
    r.status.Answered? && (r.varbinds == [] || EndedBy(root, c, r.varbinds))
  }

  /** Out of OIDs or of time. */
  ghost predicate Spent(tr: Transport, maxOIDs: nat, s: Survey) {
    0 < maxOIDs <= s.total || tr.cancelled(s.sent)
  }

  /** Why the loop is over, its last request having asked at c: that request was answered
      by what ends the subtree, or budget or context ended it, or the request failed. */
  ghost predicate Closed(tr: Transport, maxOIDs: nat, c: Arcs, s: Survey) {
    if s.st.partial then !s.done && !s.failed && Spent(tr, maxOIDs, s)
    else
      && s.sent > 0 && s.done != s.failed
      && (s.done ==> EndedAt(tr, s.st.root, s.sent - 1, c))
      && (s.failed ==> !tr.bulk(s.sent - 1, [c], REFERENCE_REPETITIONS).status.Answered? && !tr.cancelled(s.sent))
  }

  lemma PassMoves(tr: Transport, maxOIDs: nat, s: Survey, len: nat)
    requires SaneAgent(tr, len) && Underway(s, len) && !s.Over()
    ensures var s' := Pass(tr, maxOIDs, s);
            && Underway(s', len) && s'.st.root == s.st.root && s'.st.columns == s.st.columns
            && s'.total == s.total + |s'.st.oids| - |s.st.oids|
            && (!s'.Over() ==> Left(s'.cursor, len) < Left(s.cursor, len))
            && (s'.Over() ==> Closed(tr, maxOIDs, s.cursor, s'))
  {
    hide InOrder, Collect, EndedBy;
    var r := tr.bulk(s.sent, [s.cursor], REFERENCE_REPETITIONS);
    assert SaneReply(r, len);
    CollectMoves(s.st.root, s.cursor, r.varbinds, s.st.oids, s.st.skipped, len);
  }

  /** At most as many OIDs over the budget as one reply less one has varbinds. */
  predicate WithinBudget(maxOIDs: nat, total: nat) { 0 < maxOIDs ==> total <= maxOIDs + 9 }

  /** No request of a reference walk is answered by more than it asked for. */
  ghost predicate SmallReplies(tr: Transport) {
    forall k, c :: |tr.bulk(k, [c], REFERENCE_REPETITIONS).varbinds| <= 10
  }

  lemma PassWithin(tr: Transport, maxOIDs: nat, s: Survey, len: nat)
    requires SaneAgent(tr, len) && Underway(s, len) && !s.Over() && SmallReplies(tr) && WithinBudget(maxOIDs, s.total)
    ensures WithinBudget(maxOIDs, Pass(tr, maxOIDs, s).total)
  {
    hide InOrder, Collect, EndedBy;
    var r := tr.bulk(s.sent, [s.cursor], REFERENCE_REPETITIONS);
    assert SaneReply(r, len);
    CollectMoves(s.st.root, s.cursor, r.varbinds, s.st.oids, s.st.skipped, len);
  }

  /** What the walk of one root collects if it is not cut short. */
  ghost function Outlook(next: Successor, s: Survey, len: nat): (seq<Arcs>, seq<Arcs>)
    requires SaneSuccessor(next, len) && Underway(s, len)
  {
    (s.st.oids + (if s.done then [] else NextWalk(next, s.st.root, s.cursor, len)),
     s.st.skipped + if s.done then [] else SkippedBy(next, s.st.root, s.cursor, len))
  }

  lemma PassFollows(tr: Transport, next: Successor, maxOIDs: nat, s: Survey, len: nat)
    requires SaneAgent(tr, len) && Underway(s, len) && !s.Over() && SaneSuccessor(next, len)
        && Memoryless(tr, next, len)
    ensures var s' := Pass(tr, maxOIDs, s);
            Underway(s', len) && !s'.failed && (!s'.st.partial ==> Outlook(next, s', len) == Outlook(next, s, len))
  {
    hide InOrder, EndedBy, NextWalk, SkippedBy;
    PassMoves(tr, maxOIDs, s, len);
    var r := tr.bulk(s.sent, [s.cursor], REFERENCE_REPETITIONS);
    assert Proper([s.cursor], REFERENCE_REPETITIONS, len);
    assert PrefixReply(next, [s.cursor], r);
    CollectFollows(next, s.st.root, s.cursor, r.varbinds, s.st.oids, s.st.skipped, len);
  }

  /** The whole loop: it ends against any sane agent. */
  ghost function WalkFrom(tr: Transport, maxOIDs: nat, s: Survey, len: nat): Survey
    requires SaneAgent(tr, len) && Underway(s, len)
    decreases if s.Over() then 0 else Left(s.cursor, len)
  {
    if s.Over() then s
    else
      PassMoves(tr, maxOIDs, s, len);
      WalkFrom(tr, maxOIDs, Pass(tr, maxOIDs, s), len)
  }

  /** Before the first request for a root. */
  function Start(root: Arcs, sent: nat, total: nat): Survey {
    Survey(Subtree(root, [], 0, [], [], false), root, false, sent, 0, total, false)
  }

  lemma StartUnderway(root: Arcs, sent: nat, total: nat, len: nat)
    requires root != [] && |root| <= len
    ensures Underway(Start(root, sent, total), len)
  {
  }

  /** The cursor of the last request of the loop. */
  ghost function LastAsked(tr: Transport, maxOIDs: nat, s: Survey, len: nat): Arcs
    requires SaneAgent(tr, len) && Underway(s, len)
    decreases if s.Over() then 0 else Left(s.cursor, len)
  {
    if s.Over() || Pass(tr, maxOIDs, s).Over() then s.cursor
    else
      PassMoves(tr, maxOIDs, s, len);
      LastAsked(tr, maxOIDs, Pass(tr, maxOIDs, s), len)
  }

  /** Against any agent the walk of a root ends in order: by an answer to its last request,
      by budget or context, or by the failure of that request; it keeps to the budget. */
  lemma {:induction false} WalkFromKeeps(tr: Transport, maxOIDs: nat, s: Survey, len: nat)
    requires SaneAgent(tr, len) && Underway(s, len) && !s.Over()
    ensures var s' := WalkFrom(tr, maxOIDs, s, len);
            && Underway(s', len) && s'.st.root == s.st.root && s'.st.columns == s.st.columns
            && s'.total == s.total + |s'.st.oids| - |s.st.oids|
            && s.st.root <= LastAsked(tr, maxOIDs, s, len) && Closed(tr, maxOIDs, LastAsked(tr, maxOIDs, s, len), s')
            && (SmallReplies(tr) && WithinBudget(maxOIDs, s.total) ==> WithinBudget(maxOIDs, s'.total))
    decreases Left(s.cursor, len)
  {
    hide InOrder, Pass, Closed, SmallReplies, WithinBudget;
    PassMoves(tr, maxOIDs, s, len);
    if SmallReplies(tr) && WithinBudget(maxOIDs, s.total) {
      PassWithin(tr, maxOIDs, s, len);
    }
    if !Pass(tr, maxOIDs, s).Over() {
      WalkFromKeeps(tr, maxOIDs, Pass(tr, maxOIDs, s), len);
    }
  }

  lemma {:induction false} SentGrows(tr: Transport, maxOIDs: nat, s: Survey, len: nat)
    requires SaneAgent(tr, len) && Underway(s, len) && !s.Over()
    ensures var s' := WalkFrom(tr, maxOIDs, s, len); s'.sent >= s.sent && (!s'.st.partial ==> s'.sent > s.sent)
    decreases Left(s.cursor, len)
  {
    hide InOrder, Collect;
    PassMoves(tr, maxOIDs, s, len);
    if !Pass(tr, maxOIDs, s).Over() {
      SentGrows(tr, maxOIDs, Pass(tr, maxOIDs, s), len);
    }
  }

  /** The answered replies of the loop, in order. */
  ghost function Answers(tr: Transport, maxOIDs: nat, s: Survey, len: nat): seq<Reply>
    requires SaneAgent(tr, len) && Underway(s, len)
    decreases if s.Over() then 0 else Left(s.cursor, len)
  {
    if s.Over() || Spent(tr, maxOIDs, s) then []
    else
      var r := tr.bulk(s.sent, [s.cursor], REFERENCE_REPETITIONS);
      PassMoves(tr, maxOIDs, s, len);
      if r.status.Answered? then [r] + Answers(tr, maxOIDs, Pass(tr, maxOIDs, s), len) else []
  }

  function Bytes(rs: seq<Reply>): nat {
    if rs == [] then 0 else rs[0].bytes + Bytes(rs[1..])
  }

  /** The reply to request k, a GetBulk for 10 rows of a single name. */
  ghost predicate AnswerTo(tr: Transport, k: nat, r: Reply) {
    r.status.Answered? && exists c :: r == tr.bulk(k, [c], 10)
  }

  /** So are these, from request k on. */
  ghost predicate AnswersFrom(tr: Transport, k: nat, rs: seq<Reply>) {
    forall i :: 0 <= i < |rs| ==> AnswerTo(tr, k + i, rs[i])
  }

  lemma AnswersMore(tr: Transport, k: nat, c: Arcs, rest: seq<Reply>)
    requires tr.bulk(k, [c], 10).status.Answered? && AnswersFrom(tr, k + 1, rest)
    ensures AnswersFrom(tr, k, [tr.bulk(k, [c], 10)] + rest)
  {
    var rs := [tr.bulk(k, [c], 10)] + rest;
    forall i | 0 <= i < |rs| ensures AnswerTo(tr, k + i, rs[i]) {
      if i > 0 { assert AnswerTo(tr, k + 1 + (i - 1), rest[i - 1]); }
    }
  }

  lemma {:induction false} AnswersInOrder(tr: Transport, maxOIDs: nat, s: Survey, len: nat)
    requires SaneAgent(tr, len) && Underway(s, len)
    ensures AnswersFrom(tr, s.sent, Answers(tr, maxOIDs, s, len))
    decreases if s.Over() then 0 else Left(s.cursor, len)
  {
    hide InOrder, Collect, SaneAgent, AnswerTo;
    if !s.Over() {
      PassMoves(tr, maxOIDs, s, len);
      var r := tr.bulk(s.sent, [s.cursor], REFERENCE_REPETITIONS);
      if !Spent(tr, maxOIDs, s) && r.status.Answered? {
        AnswersInOrder(tr, maxOIDs, Pass(tr, maxOIDs, s), len);
        AnswersMore(tr, s.sent, s.cursor, Answers(tr, maxOIDs, Pass(tr, maxOIDs, s), len));
      }
    }
  }

  /** Every answered request is counted, with its bytes; at most the last was not answered. */
  lemma {:induction false} WalkFromCounts(tr: Transport, maxOIDs: nat, s: Survey, len: nat)
    requires SaneAgent(tr, len) && Underway(s, len)
    ensures var s', rs := WalkFrom(tr, maxOIDs, s, len), Answers(tr, maxOIDs, s, len);
            && s'.answered == s.answered + |rs| && s'.st.bytes == s.st.bytes + Bytes(rs)
            && s.sent + |rs| <= s'.sent <= s.sent + |rs| + 1
    decreases if s.Over() then 0 else Left(s.cursor, len)
  {
    hide InOrder, Collect, SaneAgent;
    if !s.Over() {
      PassMoves(tr, maxOIDs, s, len);
      if !Spent(tr, maxOIDs, s) && tr.bulk(s.sent, [s.cursor], REFERENCE_REPETITIONS).status.Answered? {
        WalkFromCounts(tr, maxOIDs, Pass(tr, maxOIDs, s), len);
        assert Answers(tr, maxOIDs, s, len)[1..] == Answers(tr, maxOIDs, Pass(tr, maxOIDs, s), len);
      }
    }
  }

  /** Against an agent without memory it collects the plain walk, unless cut short. */
  lemma {:induction false} WalkFromFollows(tr: Transport, next: Successor, maxOIDs: nat, s: Survey, len: nat)
    requires SaneAgent(tr, len) && Underway(s, len) && SaneSuccessor(next, len) && Memoryless(tr, next, len)
    requires !s.failed
    ensures var s' := WalkFrom(tr, maxOIDs, s, len);
            Underway(s', len) && !s'.failed && (!s'.st.partial ==> Outlook(next, s', len) == Outlook(next, s, len))
    decreases if s.Over() then 0 else Left(s.cursor, len)
  {
    hide InOrder, Pass, Outlook, Memoryless;
    if !s.Over() {
      PassMoves(tr, maxOIDs, s, len);
      PassFollows(tr, next, maxOIDs, s, len);
      var s1 := Pass(tr, maxOIDs, s);
      WalkFromFollows(tr, next, maxOIDs, s1, len);
      if s1.st.partial {
        assert WalkFrom(tr, maxOIDs, s1, len) == s1;
      }
    }
  }

  // ---------- The walk of all roots ----------

  /** What holds of every walked subtree, against any agent. */
  ghost predicate Surveyed(st: Subtree) {
    && Ascending(st.oids) && (forall o :: o in st.oids ==> st.root <= o)
    && Columns(st.root, st.oids, st.columns)
  }

  /** The subtree is what the walk from s0 makes of it, and it is marked partial when budget
      or context ended that walk, and otherwise ended by the answer to its last request. */
  ghost predicate WalkedFrom(tr: Transport, maxOIDs: nat, s0: Survey, st: Subtree, len: nat)
    requires SaneAgent(tr, len) && Underway(s0, len)
  {
    var s := WalkFrom(tr, maxOIDs, s0, len);
    && st.(columns := []) == s.st.(columns := [])
    && if st.partial then Spent(tr, maxOIDs, s)
       else s.sent > s0.sent && EndedAt(tr, st.root, s.sent - 1, LastAsked(tr, maxOIDs, s0, len))
  }

  /** A complete subtree is the plain GetNext walk of its root. */
  ghost predicate PlainlyWalked(next: Successor, st: Subtree, len: nat)
    requires SaneSuccessor(next, len)
  {
    st.root != [] && |st.root| <= len &&
    (!st.partial ==>
       st.oids == NextWalk(next, st.root, st.root, len) && st.skipped == SkippedBy(next, st.root, st.root, len))
  }

  lemma WalkFromPasses(tr: Transport, maxOIDs: nat, s: Survey, len: nat)
    requires SaneAgent(tr, len) && Underway(s, len) && !s.Over()
    ensures s.st.root != [] && s.st.root <= s.cursor
    ensures var s' := Pass(tr, maxOIDs, s);
            && Underway(s', len) && s'.st.root == s.st.root
            && (!s'.Over() ==> Left(s'.cursor, len) < Left(s.cursor, len))
            && WalkFrom(tr, maxOIDs, s, len) == WalkFrom(tr, maxOIDs, s', len)
            && (s'.Over() ==> WalkFrom(tr, maxOIDs, s, len) == s')
  {
    hide InOrder, Collect;
    PassMoves(tr, maxOIDs, s, len);
  }

  /** The loop over the requests for one root. `failed` is a transport error. */
  method WalkRoot(tr: Transport, root: Arcs, maxOIDs: nat, sent0: nat, total0: nat, ghost len: nat)
    returns (st: Subtree, sent: nat, answered: nat, total: nat, failed: bool)
    requires SaneAgent(tr, len) && root != [] && Sane(root, len)
    ensures var s := WalkFrom(tr, maxOIDs, Start(root, sent0, total0), len);
            && failed == s.failed && (sent, answered, total) == (s.sent, s.answered, s.total)
            && st.(columns := []) == s.st.(columns := [])
            && (!failed ==> Columns(root, st.oids, st.columns))
  {
    hide Collect, InOrder, Underway, WalkFrom;
    var cursor, done := root, false;
    st := Subtree(root, [], 0, [], [], false);
    sent, answered, total, failed := sent0, 0, total0, false;
    StartUnderway(root, sent0, total0, len);
    ghost var goal := WalkFrom(tr, maxOIDs, Start(root, sent0, total0), len);
    while !done && !st.partial
      invariant st.root == root && Underway(Survey(st, cursor, done, sent, answered, total, false), len)
      invariant WalkFrom(tr, maxOIDs, Survey(st, cursor, done, sent, answered, total, false), len) == goal
      invariant done || st.partial ==> Survey(st, cursor, done, sent, answered, total, false) == goal
      decreases !done && !st.partial, Left(cursor, len)
    {
      ghost var before := Survey(st, cursor, done, sent, answered, total, false);
      WalkFromPasses(tr, maxOIDs, before, len);
      if 0 < maxOIDs <= total || tr.cancelled(sent) {
        st := st.(partial := true);
        break;
      }
      var r := tr.bulk(sent, [cursor], REFERENCE_REPETITIONS);
      sent := sent + 1;
      if !r.status.Answered? {
        if tr.cancelled(sent) {
          st := st.(partial := true);
          break;
        }
        failed := true;
        return;
      }
      answered := answered + 1;
      var s := CollectReply(root, cursor, r.varbinds, st.oids, st.skipped);
      total := total + (|s.oids| - |st.oids|);
      st := st.(oids := s.oids, skipped := s.skipped, bytes := st.bytes + r.bytes);
      cursor, done := s.cursor, s.done || |r.varbinds| == 0;
      assert Survey(st, cursor, done, sent, answered, total, false) == Pass(tr, maxOIDs, before);
    }
    var cols := InferColumns(root, st.oids);
    st := st.(columns := cols);
  }

  /** What the walk of one root guarantees. */
  lemma RootGuarantees(tr: Transport, next: Successor, root: Arcs, maxOIDs: nat, sent0: nat, total0: nat, st: Subtree,
                       len: nat)
    requires SaneAgent(tr, len) && root != [] && Sane(root, len)
    requires var s := WalkFrom(tr, maxOIDs, Start(root, sent0, total0), len);
             && st.(columns := []) == s.st.(columns := []) && (!s.failed ==> Columns(root, st.oids, st.columns))
    ensures var s := WalkFrom(tr, maxOIDs, Start(root, sent0, total0), len);
            && (!s.failed ==> Surveyed(st) && WalkedFrom(tr, maxOIDs, Start(root, sent0, total0), st, len))
                && st.root == root && s.total == total0 + |st.oids|
            && (SmallReplies(tr) && WithinBudget(maxOIDs, total0) ==> WithinBudget(maxOIDs, s.total))
            && (SaneSuccessor(next, len) && Memoryless(tr, next, len) ==> PlainlyWalked(next, st, len) && !s.failed)
  {
    hide Columns, SmallReplies, WithinBudget, Memoryless, EndedAt, NextWalk, WalkFrom;
    var s0 := Start(root, sent0, total0);
    SentGrows(tr, maxOIDs, s0, len);
    WalkFromKeeps(tr, maxOIDs, s0, len);
    if SaneSuccessor(next, len) && Memoryless(tr, next, len) {
      WalkFromFollows(tr, next, maxOIDs, s0, len);
      var s := WalkFrom(tr, maxOIDs, s0, len);
      assert s.st.oids + [] == s.st.oids && s.st.skipped + [] == s.st.skipped;
      assert [] + NextWalk(next, root, root, len) == NextWalk(next, root, root, len);
      assert [] + SkippedBy(next, root, root, len) == SkippedBy(next, root, root, len);
    }
  }

  /** The number of OIDs over all subtrees. */
  function Total(subtrees: seq<Subtree>): nat {
    if subtrees == [] then 0 else Total(subtrees[..|subtrees| - 1]) + |subtrees[|subtrees| - 1].oids|
  }

  /** The subtrees walked so far, root by root. */
  ghost predicate AllSurveyed(roots: seq<Arcs>, inv: Inventory) {
    && |inv.subtrees| <= |roots|
    && (forall i :: 0 <= i < |inv.subtrees| ==> inv.subtrees[i].root == roots[i] && Surveyed(inv.subtrees[i]))
    && (inv.partial <==> exists i :: 0 <= i < |inv.subtrees| && inv.subtrees[i].partial)
  }

  ghost predicate AllPlainlyWalked(next: Successor, subtrees: seq<Subtree>, len: nat)
    requires SaneSuccessor(next, len)
  {
    forall i :: 0 <= i < |subtrees| ==> PlainlyWalked(next, subtrees[i], len)
  }

  function With(inv: Inventory, st: Subtree): Inventory {
    inv.(subtrees := inv.subtrees + [st], partial := inv.partial || st.partial)
  }

  lemma SurveyedSnoc(roots: seq<Arcs>, inv: Inventory, st: Subtree)
    requires AllSurveyed(roots, inv) && |inv.subtrees| < |roots|
    requires Surveyed(st) && st.root == roots[|inv.subtrees|]
    ensures AllSurveyed(roots, With(inv, st))
    ensures Total(With(inv, st).subtrees) == Total(inv.subtrees) + |st.oids|
  {
    var n := |inv.subtrees|;
    var all := With(inv, st).subtrees;
    assert all[..n] == inv.subtrees && all[n] == st;
    if st.partial {
      assert all[n].partial;
    } else if inv.partial {
      var i :| 0 <= i < n && inv.subtrees[i].partial;
      assert all[i].partial;
    }
  }

  ghost predicate SaneRoots(roots: seq<Arcs>, len: nat) {
    forall i :: 0 <= i < |roots| ==> roots[i] != [] && Sane(roots[i], len)
  }

  /** Requests sent, requests answered, OIDs collected, and whether the walk failed. */
  datatype Tally = Tally(sent: nat, answered: nat, total: nat, failed: bool)

  /** After the first n roots, none being walked after a failure. */
  ghost function TallyOf(tr: Transport, roots: seq<Arcs>, maxOIDs: nat, n: nat, len: nat): Tally
    requires SaneAgent(tr, len) && SaneRoots(roots, len) && n <= |roots|
  {
    if n == 0 then Tally(0, 0, 0, false) else
    var t := TallyOf(tr, roots, maxOIDs, n - 1, len);
    if t.failed then t else
    var s := WalkFrom(tr, maxOIDs, Start(roots[n - 1], t.sent, t.total), len);
    Tally(s.sent, t.answered + s.answered, s.total, s.failed)
  }

  lemma {:induction false} FailureStays(tr: Transport, roots: seq<Arcs>, maxOIDs: nat, n: nat, m: nat, len: nat)
    requires SaneAgent(tr, len) && SaneRoots(roots, len) && n <= m <= |roots|
    requires TallyOf(tr, roots, maxOIDs, n, len).failed
    ensures TallyOf(tr, roots, maxOIDs, m, len) == TallyOf(tr, roots, maxOIDs, n, len)
    decreases m
  {
    if n < m {
      FailureStays(tr, roots, maxOIDs, n, m - 1, len);
    }
  }

  /** Every subtree is what the walk of its root makes of it, requests numbered on. */
  ghost predicate WalkedInTurn(tr: Transport, roots: seq<Arcs>, maxOIDs: nat, subtrees: seq<Subtree>, len: nat)
    requires SaneAgent(tr, len) && SaneRoots(roots, len)
  {
    |subtrees| <= |roots| &&
    forall i :: 0 <= i < |subtrees| ==>
      var t := TallyOf(tr, roots, maxOIDs, i, len);
      WalkedFrom(tr, maxOIDs, Start(roots[i], t.sent, t.total), subtrees[i], len)
  }

  /** What holds of the inventory of the first roots, walked without a failure. */
  ghost predicate SoFar(tr: Transport, next: Successor, roots: seq<Arcs>, maxOIDs: nat, inv: Inventory,
                        sent: nat, total: nat, len: nat)
    requires SaneAgent(tr, len) && SaneRoots(roots, len)
  {
    && AllSurveyed(roots, inv) && WalkedInTurn(tr, roots, maxOIDs, inv.subtrees, len) && total == Total(inv.subtrees)
    && TallyOf(tr, roots, maxOIDs, |inv.subtrees|, len) == Tally(sent, inv.pdus, total, false)
    && (SmallReplies(tr) ==> WithinBudget(maxOIDs, total))
    && (SaneSuccessor(next, len) && Memoryless(tr, next, len) ==> AllPlainlyWalked(next, inv.subtrees, len))
  }

  lemma NoneSoFar(tr: Transport, next: Successor, roots: seq<Arcs>, maxOIDs: nat, len: nat)
    requires SaneAgent(tr, len) && SaneRoots(roots, len)
    ensures SoFar(tr, next, roots, maxOIDs, Inventory([], false, 0), 0, 0, len)
  {
  }

  lemma WalkedSnoc(tr: Transport, roots: seq<Arcs>, maxOIDs: nat, subtrees: seq<Subtree>, st: Subtree, len: nat)
    requires SaneAgent(tr, len) && SaneRoots(roots, len) && |subtrees| < |roots|
    requires WalkedInTurn(tr, roots, maxOIDs, subtrees, len)
    requires var t := TallyOf(tr, roots, maxOIDs, |subtrees|, len);
             WalkedFrom(tr, maxOIDs, Start(roots[|subtrees|], t.sent, t.total), st, len)
    ensures WalkedInTurn(tr, roots, maxOIDs, subtrees + [st], len)
  {
    hide WalkFrom, WalkedFrom, Start, InOrder, TallyOf;
  }

  lemma PlainSnoc(next: Successor, subtrees: seq<Subtree>, st: Subtree, len: nat)
    requires SaneSuccessor(next, len) && AllPlainlyWalked(next, subtrees, len) && PlainlyWalked(next, st, len)
    ensures AllPlainlyWalked(next, subtrees + [st], len)
  {
  }

  lemma SurveyedAnyway(roots: seq<Arcs>, inv: Inventory, inv1: Inventory)
    requires AllSurveyed(roots, inv) && inv1 == inv.(pdus := inv1.pdus)
    ensures AllSurveyed(roots, inv1)
  {
  }

  lemma SoFarSnoc(tr: Transport, next: Successor, roots: seq<Arcs>, maxOIDs: nat, inv: Inventory, sent: nat, total: nat,
                  st: Subtree, len: nat)
    requires SaneAgent(tr, len) && SaneRoots(roots, len) && |inv.subtrees| < |roots|
    requires SoFar(tr, next, roots, maxOIDs, inv, sent, total, len)
    requires var root := roots[|inv.subtrees|];
             var s := WalkFrom(tr, maxOIDs, Start(root, sent, total), len);
             && st.(columns := []) == s.st.(columns := []) && (!s.failed ==> Columns(root, st.oids, st.columns))
    ensures var s := WalkFrom(tr, maxOIDs, Start(roots[|inv.subtrees|], sent, total), len);
            && (!s.failed ==>
                  SoFar(tr, next, roots, maxOIDs, With(inv.(pdus := inv.pdus + s.answered), st), s.sent, s.total, len))
            && (s.failed ==>
                  TallyOf(tr, roots, maxOIDs, |roots|, len) == Tally(s.sent, inv.pdus + s.answered, s.total, true)
                  && !(SaneSuccessor(next, len) && Memoryless(tr, next, len)))
  {
    hide Columns, SmallReplies, Memoryless, WalkFrom, WalkedFrom, Surveyed, WithinBudget, PlainlyWalked, InOrder,
         AllSurveyed, WalkedInTurn, AllPlainlyWalked, Total, SaneAgent;
    var n, root := |inv.subtrees|, roots[|inv.subtrees|];
    StartUnderway(root, sent, total, len);
    RootGuarantees(tr, next, root, maxOIDs, sent, total, st, len);
    var s := WalkFrom(tr, maxOIDs, Start(root, sent, total), len);
    if s.failed {
      FailureStays(tr, roots, maxOIDs, n + 1, |roots|, len);
    } else {
      var inv1 := inv.(pdus := inv.pdus + s.answered);
      SurveyedAnyway(roots, inv, inv1);
      SurveyedSnoc(roots, inv1, st);
      WalkedSnoc(tr, roots, maxOIDs, inv.subtrees, st, len);
      if SaneSuccessor(next, len) && Memoryless(tr, next, len) {
        PlainSnoc(next, inv.subtrees, st, len);
      }
    }
  }

  lemma SoFarGives(tr: Transport, next: Successor, roots: seq<Arcs>, maxOIDs: nat, inv0: Inventory, inv: Inventory,
                   sent: nat, total: nat, len: nat)
    requires SaneAgent(tr, len) && SaneRoots(roots, len) && inv == inv0.(pdus := inv.pdus)
    requires SoFar(tr, next, roots, maxOIDs, inv0, sent, total, len)
    ensures AllSurveyed(roots, inv) && WalkedInTurn(tr, roots, maxOIDs, inv.subtrees, len)
    ensures SmallReplies(tr) && 0 < maxOIDs ==> Total(inv.subtrees) <= maxOIDs + 9
    ensures SaneSuccessor(next, len) && Memoryless(tr, next, len) ==> AllPlainlyWalked(next, inv.subtrees, len)
    ensures TallyOf(tr, roots, maxOIDs, |inv0.subtrees|, len) == Tally(sent, inv0.pdus, total, false)
  {
  }

  /** inventory.Walk. Against any sane agent it terminates; the subtrees are in order
      and under their roots, marked partial when a budget or the context ended them and
      ended by an answer otherwise, and at most nine OIDs past the OID budget; against an agent without memory
      every complete subtree is the plain GetNext walk of its root. */
  method Walk(tr: Transport, roots: seq<Arcs>, maxOIDs: nat, ghost next: Successor, ghost len: nat)
    returns (inv: Inventory, failed: bool)
    requires SaneAgent(tr, len) && SaneRoots(roots, len)
    ensures AllSurveyed(roots, inv) && (!failed ==> |inv.subtrees| == |roots|)
    ensures WalkedInTurn(tr, roots, maxOIDs, inv.subtrees, len)
    ensures var t := TallyOf(tr, roots, maxOIDs, |roots|, len); inv.pdus == t.answered && failed == t.failed
    ensures SmallReplies(tr) && 0 < maxOIDs ==> Total(inv.subtrees) <= maxOIDs + 9
    ensures SaneSuccessor(next, len) && Memoryless(tr, next, len) ==>
        !failed && AllPlainlyWalked(next, inv.subtrees, len)
  {
    hide Columns, SmallReplies, Memoryless, WalkFrom, AllSurveyed, WalkedInTurn, AllPlainlyWalked, SoFar, TallyOf;
    inv := Inventory([], false, 0);
    var sent, total := 0, 0;
    NoneSoFar(tr, next, roots, maxOIDs, len);
    for i := 0 to |roots|
      invariant |inv.subtrees| == i && SoFar(tr, next, roots, maxOIDs, inv, sent, total, len)
    {
      var st, answered;
      ghost var inv0, sent0, total0 := inv, sent, total;
      st, sent, answered, total, failed := WalkRoot(tr, roots[i], maxOIDs, sent, total, len);
      SoFarSnoc(tr, next, roots, maxOIDs, inv0, sent0, total0, st, len);
      inv := inv.(pdus := inv.pdus + answered);
      if failed {
        SoFarGives(tr, next, roots, maxOIDs, inv0, inv, sent0, total0, len);
        return;
      }
      inv := With(inv, st);
    }
    SoFarGives(tr, next, roots, maxOIDs, inv, inv, sent, total, len);
    failed := false;
  }
}
