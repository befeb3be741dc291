/** From the reference walk to the verdict on a trial, over the programs themselves
    (internal/inventory/inventory.go:77-129, internal/workload/workload.go:57-71,
    internal/walk/walk.go:122-161, internal/search/search.go:348-354). */
module Pipeline {
  import opened Oid
  import opened Agent
  import opened Walk
  import opened I = Inventory
  import opened Workloads
  import opened Agreement
  import Run
  import Walkers

  /** A reference walk at one time, a trial at any settings at another, the agent cutting
      its replies differently: if the reference walk is complete, nothing is missing. */
  method ReferenceThenTrial(reference: Transport, trial: Transport, roots: seq<Arcs>, maxOIDs: nat, s: Settings,
                            ghost next: Successor, ghost stored: set<Arcs>, ghost len: nat)
    returns (inv: I.Inventory, res: Result, missing: nat)
    requires SaneSuccessor(next, len) && Misordering(next, stored) && Run.Valid(s)
    requires SaneAgent(reference, len) && Memoryless(reference, next, len)
    requires SaneAgent(trial, len) && Memoryless(trial, next, len)
    requires SaneRoots(roots, len)
    ensures AllSurveyed(roots, inv) && WalkedInTurn(reference, roots, maxOIDs, inv.subtrees, len)
        && |inv.subtrees| == |roots|
    ensures !inv.partial ==> missing == 0 && forall k, o :: 0 <= k < |roots| && o in inv.subtrees[k].oids ==>
        o in res.oids
  {
    var failed;
    inv, failed := I.Walk(reference, roots, maxOIDs, next, len);
    res, missing := EMPTY, 0;
    if inv.partial {
      return;
    }
    var w := FromInventory(inv);
    WalkInfers(next, roots, inv, w, len);
    TrialMissesNothing(next, stored, inv, w, trial, s, len);
    var refOIDs := ReferenceOIDs(inv.subtrees, w);
    var walker := new Walkers.Walker(trial);
    var end := walker.RunWorkload(w, s, len);
    res := walker.res;
    missing := Missing(refOIDs, res.oids);
    MissingNone(refOIDs, res.oids);
  }
}
