# Verification of snmptune's walks, search and recommendation

snmptune measures one SNMP agent. It walks the agent's OID tree with GetBulk, searches for
the largest `max-repetitions` x `max-vars-per-pdu` product the agent sustains, and
recommends a setting just below the peak. This project models those parts in Dafny and
proves what they promise. `dafny verify dfyconfig.toml` checks all of it.

## How the model is built

OIDs are sequences of 32-bit arcs; text only appears in `OidText`. Whatever lies outside the
program is an oracle: a transport is a function of how many requests were sent before, the
search sees the context, the canary's replies, the walks and the clock as functions of how
often it asked. "For every agent" therefore means for every such function. Scores and
throughput are reals, failures are enumerations.

Code that updates state is modelled twice: once as functions on values, which say what every
step makes of the state, and once as classes and methods with the program's fields, loops,
arrays and early returns, each proved to compute exactly those functions. The theorems are
about the functions, so they hold of the methods.

| files | part of the program |
|---|---|
| `Oid`, `OidText`, `Arithmetic`, `Sorting` | order of OIDs, skip targets, text; arithmetic; sorting |
| `Agent`, `Column`, `Reference` | transports, one column of a walk, the plain GetNext walk everything is compared with |
| `Walk`, `Run`, `Walker`, `Records` | the multi-repeater bulk walk: functions, then the imperative walker; what its records say |
| `Refinement`, `Completeness`, `Accounting`, `Endless` | what a walk collects, counts, and why it ends |
| `Inventory`, `Workload`, `Agreement`, `Scope`, `Pipeline`, `Loss` | the reference walk, the workload inferred from it or given, their agreement with trials, and what misordering costs both |
| `Sim`, `SimAgreement` | the simulated agent and what walks guarantee against it |
| `Safety`, `Trials`, `Machine`, `Search` | canary, budgets, trials, the search as functions, the imperative runner |
| `SearchSafety`, `SearchRuns`, `Climb`, `Guarantees`, `EverySearch`, `Judgement`, `Reasons`, `Ledger`, `Shape` | invariants of every trial, phase, and whole search: what they are judged by, why they stop, what they record and try |
| `Sustained`, `Capped`, `Calm` | the threshold a search finds |
| `Report` | the recommendation, and the guarantee of search and recommendation together |

## Main results

- Whatever `max-repetitions`, chunking and truncation, a bulk walk collects for each column
  exactly the list of a one-cursor, one-step GetNext walk with the same skip rule
  (`Run.ChunkRefinesGetNext`, `Run.RunRefinesGetNext`), and against an ordered agent exactly
  the stored OIDs, once each and ascending (`Completeness.RunCollectsExactly`).
- Against any agent, however it answers, both walks end, as long as arcs stay below 2^32-1
  and OIDs have bounded length (`Walk.TurnShrinks`, the termination of `Walkers.Walker.Table`
  and `Inventory.Walk`). Neither assumption can be dropped for either walk (`Endless`). A
  subtree of the reference walk is marked partial because budget or context ended it, and is
  otherwise ended by the answer to its last request (`Inventory.WalkFromKeeps`).
- A trial over the inferred workload misses nothing the reference walk found, even on agents
  that misorder their answers (`Agreement.TrialMissesNothing`, `Pipeline.ReferenceThenTrial`).
  With columns given by a datacollection group, none of them under another, it misses exactly
  the reference OIDs that are themselves given as columns (`Scope.TrialMissesExactly`). What
  both miss of such an agent's table is covered by the skips the reference walk records, with
  two exceptions (`Loss.ReferenceLoses`).
- Every record of a run is that of its own request and reply, counters count records, and a
  response is marked as truncated exactly when it stops short of a row at the end of the MIB
  (`Records.MarkedExactly`, `Accounting.RunBooked`); a run against an agent that never cuts is
  clean at any setting (`Sustained.RunEndsClean`).
- In every run of the search, whatever canary, clock, context and agent do: every walk is
  preceded by its cooldown and a good probe, stays below everything that failed and, after
  stress, not above what was clean by then or the first product; no clean trial reaches a
  product that failed while climbing; budgets count exactly the recorded trials
  (`Guarantees.RunKeeps`). Nothing is left untried without a reason (`Climb.RunTriesAll`).
  Every trial was recorded with exactly the walks that returned at its settings, at the times
  they were made, and judged by what they brought back, and every verdict of the canary is
  that on its replies (`Judgement.RunFaithful`, `Judgement.OutcomeJudged`).
- The outcome says what happened: stress is flagged exactly when a probe before a repeat showed
  it, a search is stopped only for the reason it names, nothing is asked of the agent once the
  context is done, and no setting is begun once the time is up (`Reasons.RunTold`); unless a transport error ended it,
  every walk that came back is in it (`Ledger.RunEntered`). Every run climbs from R = 2 by
  doubling, then halves the gap it left down to a tenth, then splits the product found, and
  nothing else (`Shape.RunShape`).
- A quiet search that climbed into a failure has located the threshold to a tenth
  (`SearchRuns.BisectionKeeps`, `Guarantees.RunKeeps`); in particular, against an agent that
  refuses requests above a limit, it locates that limit (`Sustained.SearchLocatesLimit`),
  and against one that caps the rows of a response, that cap (`Capped.SearchLocatesRows`). In
  a calm world the search is never stopped or stressed, so only a plateau or the limit on
  products can keep it from that (`Calm.CalmSearchLocatesLimit`).
- The recommendation is optimal among the clean trials, unique, and strictly below every
  product that failed while climbing (`Report.Recommend`, `Report.Tune`).

## Where the code and its documentation differ

The model follows the code.

- `oid.Parse` documents that arcs that do not parse become zero. That holds exactly when the
  digits a part begins with do not exceed 32 bits; otherwise, as for "4294967296" or
  "4294967296x", the part becomes 2^32-1 (`OidText.OverflowIsMaxArc`, `OidText.ParseArcExactly`).
- `finalProbe` documents that it catches a loss caused by the very last trial. One unanswered
  probe is not yet a loss: it fails the last trial exactly when the probe before it went
  unanswered too, or the uptime fell below the last one seen
  (`Judgement.FinalProbeExactly`). A loss after an answered probe goes unnoticed
  (`Judgement.FinalLossUnnoticed`).
- `referenceOIDs` documents that it keeps what the workload walks. A walk collects only what
  lies strictly under its column, so a reference OID that is itself the only column asking
  for it counts as missing in every trial (`Scope.InstanceColumnMissed`); nothing else ever
  does (`Scope.TrialMissesExactly`).
- `README.md` promises that of a misordered column the rest is skipped and the skip listed, and
  `SkipTarget` that the walk continues with the next sibling. The walk asks for what follows
  that sibling, so the sibling itself, if stored, is lost though not under the skipped
  prefix; and an answer that leads backwards out of the subtree ends it with nothing listed.
  On an agent that answers stored instances backwards and is otherwise true, nothing else is
  ever lost (`Loss.LossCovered`, `Loss.SiblingLost`, `Loss.DerailedLost`).
- `safety.Budget` documents that zero means unlimited. A search that nothing stopped has tried
  something exactly when its first product is within `MaxProduct`, so with zero it tries
  nothing (`Guarantees.RunMeasuresExactly`).
- `PDU.Rows` documents complete rows; it counts a partial trailing row too, and is the number
  of complete rows exactly when the response is row-aligned (`Accounting.RowsExactly`). A
  partial trailing row can also hide a truncation: on an ordered agent the mark can be relied
  on exactly when the response consists of whole rows or has R of them
  (`Accounting.MarkReliableExactly`).
- `Result.Skips` documents prefixes; every entry is the OID of a column
  (`Accounting.SkipsNameColumns`), which is the skipped prefix exactly when request and answer
  share nothing below the column (`Accounting.SkipIsPrefixExactly`).

## Assumptions

- OIDs an agent names have at most `len` arcs, for any fixed `len` (section 3.5 of RFC 2578
  allows 128), none of them 2^32-1: the increment in `SkipTarget` would wrap.
- Columns and roots are not empty: `SkipTarget` indexes out of range on the empty OID.
- `Repeats` is at least 1 and prescribed settings are positive, as the command line demands.
- `MaxProduct` is below 2^31, so that doubling `max-repetitions` does not wrap.
- A Runner is used once: `init` resets neither the largest clean product nor the last run.

## Model

| member | source | states |
|---|---|---|
| Oid.CompareArcs | internal/oid/oid.go:38-54 | the index loop answers -1, 0 or 1 as the first OID is below, equal to or above the second in the order by arcs, prefixes first |
| Oid.LessTransitive | internal/oid/oid.go:31-54 | the order CompareArcs decides is transitive |
| Oid.LessTotal | internal/oid/oid.go:31-54 | exactly one of below, equal, above holds of any two OIDs |
| Oid.PrefixNotAbove | internal/oid/oid.go:31-34 | a proper prefix sorts before its extensions |
| Oid.SubtreeIsInterval | internal/oid/oid.go:56-63 | the OIDs under a prefix form one interval of the order |
| Oid.ComputeSkipTarget | internal/oid/oid.go:68-80 | the loop finds the deepest shared arc, the first one if none is shared, and increments it as a uint32 |
| Oid.SkipTargetExact | internal/oid/oid.go:65-80 | the target is the least OID above everything under the shared prefix, above both inputs, and between request and target lie exactly the rest of that prefix's OIDs |
| Oid.SkipTargetFirst | internal/oid/oid.go:74-76 | if nothing is shared, it is the least OID above everything under the first arc of the request |
| Oid.SkipTargetAdvancesIff | internal/oid/oid.go:78 | the target is above the request if and only if the incremented arc is not 2^32-1 |
| OidText.ParseText | internal/oid/oid.go:17-29 | the loop splits at dots and parses each part as ParseUint with 32 bits does |
| OidText.FormatText | internal/oid/oid.go:83-89 | the loop joins the decimal numerals of the arcs with dots |
| OidText.ParseFormat | internal/oid/oid.go:17-29 | parsing a formatted OID gives it back, for every sequence of uint32 arcs |
| OidText.FormatParse | internal/oid/oid.go:83-94 | formatting a parsed text gives its canonical form if and only if it is well formed: plain decimal numbers within 32 bits, no leading zeros |
| OidText.LeadingDot | internal/oid/oid.go:18 | a single leading dot makes no difference |
| OidText.TextEquality | internal/walk/walk.go:302-314 | on canonical text comparing strings, as Missing does, is comparing arcs |
| OidText.ParseArcExactly | internal/oid/oid.go:14-26 | a part that is no number within 32 bits becomes zero if and only if the digits it begins with do not exceed 32 bits, and otherwise 2^32-1 |
| Column.SkipAdvances | internal/walk/walk.go:210-220 | a skip inside a column always moves its cursor strictly forward |
| Column.AbsorbForward | internal/walk/walk.go:202-224 | no varbind moves a cursor back, and one that is not ignored ends its column or moves it strictly on |
| Column.AbsorbKeepsDestiny | internal/walk/walk.go:202-224 | a column that takes the successor of its cursor will still collect, in all, what a plain GetNext walk collects |
| Reference.NextWalkAscends | internal/oid/oid.go:65-80 | against any agent a walk with the skip rule collects strictly ascending OIDs of its column |
| Reference.NextWalkComplete | internal/walk/walk.go:165-166 | against an ordered agent it collects exactly the stored OIDs of the column above its start |
| Walk.ScanMoves | internal/walk/walk.go:193-225 | against any agent the first varbind of a response ends the first column or moves it strictly on, and nothing moves back |
| Walk.TurnShrinks | internal/walk/walk.go:173-245 | every response that is not empty brings the walk of a chunk strictly closer to its end |
| Endless.WrapNeverEnds | internal/oid/oid.go:78 | with an arc of 2^32-1 an agent can hold a walk for any number of requests |
| Endless.DepthNeverEnds | internal/walk/walk.go:173-245 | so can an agent with ever longer OIDs |
| Endless.WrapHoldsReference | internal/inventory/inventory.go:85-123 | the same arc lets an agent hold the reference walk for any number of requests |
| Endless.DepthHoldsReference | internal/inventory/inventory.go:85-123 | so do ever longer OIDs |
| Refinement.ScanOnCourse | internal/walk/walk.go:196-225 | de-interleaving a row-major response, cut anywhere, keeps every column on the path of its plain walk |
| Refinement.TableGathers | internal/walk/walk.go:173-244 | against any agent the collected OIDs are exactly those its columns got, and dropping finished columns loses and repeats none |
| Run.ChunkRefinesGetNext | internal/walk/walk.go:165-246 | the bulk walk of a chunk ends normally and collects for each column exactly the list of its plain GetNext walk, whatever R and truncation |
| Run.RunRefinesGetNext | internal/walk/walk.go:119-161 | a run at any valid R and V completes, collects exactly the union of the plain walks of its columns, and fails for truncation only |
| Run.ChunkAt | internal/walk/walk.go:129-130 | chunk k of a list starts at k x V and has V members, the last one what is left |
| Run.ChunksOfTables | internal/walk/walk.go:129-130 | the chunks of a run are those of its tables: none spans two |
| Run.FlatAllChunks | internal/walk/walk.go:129-130 | chunking by V neither loses, repeats nor reorders columns |
| Completeness.RunKeepsColumnOrder | internal/walk/walk.go:122-161 | with pairwise non-nested columns, what a run collected of one column is the list of its plain walk in order |
| Completeness.RunCollectsExactly | internal/walk/walk.go:122-161 | against an ordered agent with any caps, a run collects exactly the stored OIDs strictly under its columns, each once, ascending per column |
| Loss.LossCovered | internal/inventory/inventory.go:101-119 | every stored OID ahead of a walk is collected, or lies under a skipped prefix or is the sibling the walk went on from, unless an answer led the walk backwards out of its column |
| Loss.ReferenceLoses | internal/inventory/inventory.go:106-115 | so a completed subtree has everything stored strictly under its root but what its recorded skips cover |
| Loss.SiblingLost | internal/oid/oid.go:65-80 | a failing input: an agent that answers 1.1 with 1.1 again makes the walk lose 1.2, not under the skipped prefix |
| Loss.DerailedLost | internal/inventory/inventory.go:102-105 | another: an answer outside the subtree ends it with nothing recorded as skipped |
| Walkers.Compact | internal/walk/walk.go:237-243 | compacting in place keeps exactly the unfinished columns, in order |
| Walkers.Walker.AbsorbVarbind | internal/walk/walk.go:202-224 | one varbind changes the column object, its finished flag and the result as the value model does, and nothing else |
| Walkers.Walker.ScanResponse | internal/walk/walk.go:189-225 | the loop over a response leaves columns, flags and counters as scanning it row by row does, and knows whether its last row is all end of MIB |
| Walkers.Walker.Send | internal/walk/walk.go:276-299 | a request is recorded once with its numbers, its failure counted, and logged at once only when it failed |
| Walkers.Walker.Conclude | internal/walk/walk.go:226-233 | a response is marked and counted as truncated exactly when it is short or ragged without an all-ended last row, and then logged as it stands |
| Walkers.Walker.Exchange | internal/walk/walk.go:174-243 | one request, its response and the compaction do to array, objects and result what one round does to the values |
| Walkers.Walker.Table | internal/walk/walk.go:167-246 | the loop ends against any sane agent and computes the walk of the chunk; every request is logged once, as it ended up |
| Walkers.Walker.ScalarGet | internal/walk/walk.go:248-264 | one Get counts the scalars that exist |
| Walkers.Walker.RunWorkload | internal/walk/walk.go:122-161 | Run on a new walker gives the result the theorems are about, its failures in order, and a complete log |
| Records.RoundRecords | internal/walk/walk.go:185-233 | a request adds the record of its reply, with its varbinds, bytes, time and retransmissions, and marks it misordered exactly when something was skipped |
| Records.MarkedExactly | internal/walk/walk.go:226-231 | a response is truncated if and only if it is empty, or short or ragged although some varbind of its last row is not the end of the MIB |
| Records.RowsBracket | internal/walk/walk.go:189 | the recorded rows are the number of rows begun |
| Accounting.RunBooked | internal/walk/walk.go:122-161 | every record is that of its own request and reply, no GetBulk was sent in a done context, the counters count records, the failure of a completed run names exactly what failed it and is empty if and only if nothing timed out, errored or was truncated, and a run errs only for a done context or a broken request |
| Accounting.VarbindsCounted | internal/walk/walk.go:222-262 | the varbinds of a run are one for every OID collected and one for every scalar its Gets showed to exist |
| Accounting.RequestsWithinProduct | internal/walk/walk.go:276-281 | no request of a run asks for more than R x V varbinds |
| Accounting.UntruncatedEnds | internal/walk/walk.go:226-232 | a short response that is not marked and skipped nothing has finished every column present in its last row |
| Accounting.UntruncatedWholeRows | internal/walk/walk.go:226-232 | for a response of whole rows that is every column, unless it has R rows |
| Accounting.OrderedSkipsNone | internal/walk/walk.go:205-221 | a reply of iterated successors of an ordered agent, cut anywhere, is never skipped in |
| Accounting.OrderedUntruncated | internal/walk/walk.go:226-232 | a row-aligned reply of an ordered agent that is not marked truncated has R rows or has finished every column |
| Accounting.MarkReliableExactly | internal/walk/walk.go:199-232 | for replies of ordered agents to distinct open columns, a missing mark guarantees R rows or finished columns if and only if the reply consists of whole rows or has R of them |
| Accounting.RowsExactly | internal/walk/walk.go:189 | the recorded rows are the complete ones if and only if the response is row-aligned |
| Accounting.SkipsNameColumns | internal/walk/walk.go:214 | every recorded skip is the OID of a column of the response |
| Accounting.SkipIsPrefixExactly | internal/walk/walk.go:213-214 | it is the prefix skipped if and only if request and answer share nothing below the column |
| Inventory.InferColumns | internal/inventory/inventory.go:143-160 | the columns of a table-shaped subtree are its distinct column arcs, ascending; any other subtree has none |
| Inventory.SkippedIsSharedPrefix | internal/inventory/inventory.go:109-139 | what is recorded as skipped is the prefix request and answer share |
| Inventory.CollectReply | internal/inventory/inventory.go:101-119 | the inner loop over a reply collects, skips and stops as the value model does |
| Inventory.CollectMoves | internal/inventory/inventory.go:85-119 | against any agent a reply keeps the OIDs ascending and under the root, moves strictly on or ends the subtree, and ends it for a reason |
| Inventory.CollectFollows | internal/inventory/inventory.go:101-119 | a reply of iterated successors keeps the reference walk on the path of a plain GetNext walk |
| Inventory.WalkFromKeeps | internal/inventory/inventory.go:81-123 | against any agent the loop for one root is over in order: because its last request was answered by what ends the subtree, or budget or context ended it, which marks it partial, or that request failed; it keeps to the budget |
| Inventory.WalkFromFollows | internal/inventory/inventory.go:81-123 | against an agent without memory, unless cut short, it collects exactly the plain GetNext walk of the root |
| Inventory.WalkRoot | internal/inventory/inventory.go:81-125 | the loop ends and computes that walk, with its OIDs, skips, bytes, requests and failure, and then the columns |
| Inventory.WalkFromCounts | internal/inventory/inventory.go:85-100 | every answered request of a root is counted, with its bytes, and at most one more was sent |
| Inventory.AnswersInOrder | internal/inventory/inventory.go:91 | those are the replies to GetBulks of a single name for 10 rows, in the order of sending |
| Inventory.Walk | internal/inventory/inventory.go:77-129 | the roots are walked in turn on one budget until one fails, every subtree ascending and under its root, partial by budget or context or else ended by the answer to its last request, all answered requests counted, and at most nine OIDs over the budget if no request is answered by more than ten varbinds |
| Workloads.FromInventory | internal/workload/workload.go:57-71 | one table per subtree: its inferred columns, or the root alone |
| Workloads.WidestTable | internal/workload/workload.go:37-43 | an upper bound on the column counts that some table attains |
| Workloads.ReferenceOIDs | internal/search/search.go:241-256 | the ground truth is the inventory in its order, restricted to columns the workload asks for |
| Workloads.GroundTruthOrder | internal/search/search.go:241-256 | it keeps the order of the inventory |
| Workloads.GroundTruthHas | internal/search/search.go:238-256 | an OID is in the ground truth if and only if some subtree has it and the workload asks for it there |
| Workloads.Missing | internal/walk/walk.go:302-314 | the number of positions in the reference whose OID was not collected |
| Workloads.MissingNone | internal/walk/walk.go:301-314 | it is zero if and only if all of them were collected, whatever else was |
| Agreement.SameInside | internal/inventory/inventory.go:101-119 | inside a column the walk of the root and the walk of the column take the same path, skips included |
| Agreement.SameFromBefore | internal/inventory/inventory.go:101-119 | the walk of a root enters a column where the walk of the column starts |
| Agreement.SubtreeAgrees | internal/inventory/inventory.go:141-160 | the inferred columns partition a complete subtree, and each walked alone gives exactly its part in order |
| Agreement.TrialMissesNothing | internal/walk/walk.go:301-314 | on an agent that may misorder at stored instances, a trial at any R and V completes and misses no reference OID |
| Scope.SameThrough | internal/inventory/inventory.go:101-119 | where the walk of a root collects the OID of a column, it goes on in it as the walk of the column does |
| Scope.ColumnCollects | internal/search/search.go:238-256 | the walk of any column of a completed subtree collects everything the reference found at or under it, except the column's own OID |
| Scope.TrialMissesExactly | internal/search/search.go:238-256 | over any workload with columns at or under their bases, a trial at any R and V misses at most reference OIDs that are columns; if no column lies under another, exactly these, and nothing if and only if there are none |
| Scope.InstanceColumnMissed | internal/workload/workload.go:130-143 | the failing input: a stored OID given as a column, with its base two arcs above, is a reference OID no trial ever collects |
| Agreement.TrialRepeatsReference | internal/workload/workload.go:55-71 | if no root lies under another, the trial repeats for every column the list of the reference walk |
| Pipeline.ReferenceThenTrial | internal/search/search.go:348-354 | the programs one after the other: if the reference walk is complete, the run at any setting has nothing missing |
| Sim.SimAgent.Set | internal/agent/sim/sim.go:75-84 | storing keeps keys and table in step and drops the index only for a new OID |
| Sim.SimAgent.Begin | internal/agent/sim/sim.go:179-192 | afterwards the index is the sorted table, whatever was stored in whatever order |
| Sim.SimAgent.Search | internal/agent/sim/sim.go:202 | the binary search finds the first index entry above the cursor |
| Sim.SimAgent.Next | internal/agent/sim/sim.go:195-207 | the answer is the least stored OID strictly above the cursor or the end of the MIB, except at configured quirks |
| Sim.SimAgent.GetBulk | internal/agent/sim/sim.go:143-176 | a refusal exactly above the tooBig limit, otherwise a prefix of the row-major matrix of iterated successors, of full size unless a cap cuts it and no further than the cap demands, empty for a request without names |
| Sim.EncodedUniform | internal/agent/sim/sim.go:223-235 | varbinds of n arcs and z bytes of value take 4 + n + z bytes each |
| Sim.ByteCapCuts | internal/agent/sim/sim.go:165-173 | a byte cap cuts a reply of such varbinds after exactly as many as fit |
| SimAgreement.SimOrdered | internal/agent/sim/sim.go:194-207 | without quirks the simulator is an ordered agent |
| SimAgreement.SimQuirks | internal/agent/sim/sim.go:194-207 | a loop goes before a misordering and both before the table; the end of the MIB names the cursor |
| SimAgreement.SimMisordering | internal/agent/sim/sim.go:196-201 | its loop and misorder quirks, at stored instances and backwards, are within what trial and reference agree on |
| SimAgreement.Answer | internal/agent/sim/sim.go:143-176 | one request to a simulator whose responses are in time is served as the theorems about it assume of every request |
| SimAgreement.SimMemoryless | internal/agent/sim/sim.go:161-174 | with room for one varbind it answers every request, whatever its caps |
| SimAgreement.RunAgainstSim | internal/walk/walk.go:122-161 | a run against the simulator collects exactly what is stored under its columns, whatever caps, R and V |
| Safety.Canary.Probe | internal/safety/safety.go:74-96 | the verdict and the new state of the canary |
| Safety.Uptime | internal/safety/safety.go:102-115 | the low 32 bits of an integer, zero for anything else |
| Safety.VerdictOverHistory | internal/safety/safety.go:74-115 | over any history Lost holds exactly when this and the previous probe both erred, Restarted exactly when the uptime fell below that of the last answered probe, Stressed exactly when otherwise an answer without retransmission took more than 10 ms and three times the baseline |
| Safety.NewCanary | internal/safety/safety.go:54-71 | no canary exactly when no baseline probe was answered; otherwise its baseline is the median answer time and it has seen the last uptime |
| Safety.BaselineRanks | internal/safety/safety.go:69-70 | at most half of the answered baseline probes were faster than the baseline, more than half not slower |
| Safety.Tracker.Exhausted | internal/safety/safety.go:151-159 | trials are exhausted exactly when their limit is not zero and reached, time exactly when its is and that of trials is not |
| Safety.Cooldown | internal/safety/safety.go:163-165 | the larger of the minimum and the previous run's time |
| Trials.Score | internal/search/search.go:391-408 | the loop finds the first failing run or scores the clean ones |
| Trials.ScoreMeaning | internal/search/search.go:391-408 | a trial is clean if and only if it has runs and all are clean; it then scores the median of their rates |
| Trials.FirstFailureIs | internal/search/search.go:392-401 | the failure of a trial is that of its first run that failed |
| Trials.AgentTimeSums | internal/walk/walk.go:72-80 | the agent time is the sum of the round-trip times |
| Trials.RateTimesTime | internal/walk/walk.go:82-89 | the rate times the agent time in seconds is the number of varbinds, and without time the rate is zero |
| Trials.FasterIsHigher | internal/walk/walk.go:82-89 | of two runs with as many varbinds the one with less agent time has the higher rate |
| Trials.SingleRunScore | internal/search/search.go:391-408 | one clean run scores its varbinds per second of agent time |
| Trials.ScoreRanks | internal/search/search.go:391-408 | the score is the rate of one of the runs, at most half of the rates are below it, more than half not above |
| Trials.RestStep | internal/search/search.go:321-347 | after the cooldown and a good probe a walk below the ceiling is safe, and the ceiling after stress keeps it so |
| Machine.DoublingFits | internal/search/search.go:182 | doubling max-repetitions never wraps within the limit on products |
| Machine.QuotientFits | internal/search/search.go:207-212 | a split never exceeds the product it splits |
| Machine.CandidatesAre | internal/search/search.go:224-236 | the candidates are the standard values no wider than the widest table and that width itself, without the initial one, each once, ascending |
| SearchSafety.RepeatsKeep | internal/search/search.go:319-361 | the loop over the repeats keeps all invariants and hands at most Repeats runs to scoring, all clean but for the last |
| SearchSafety.MeasureKeeps | internal/search/search.go:308-377 | every trial in every phase keeps all invariants, and comes out skipped, cut by stress above the allowed product, recorded with its score, or ends the search |
| SearchRuns.EscalationKeeps | internal/search/search.go:150-184 | escalation ends with its largest clean product at V, everything clean below what failed, and in a bracket of clean and failed R if it failed |
| SearchRuns.FirstTrialMeasured | internal/search/search.go:331-345 | stress alone neither skips nor shortens the first trial |
| SearchRuns.BisectionKeeps | internal/search/search.go:186-203 | bisection takes at most ceil(log2) of the gap trials; without stress it skips no midpoint, keeps the ceiling at the failed product and closes the gap to a tenth around any threshold |
| SearchRuns.SplittingKeeps | internal/search/search.go:205-216 | every split has at most the largest clean product and a V never measured before, and the largest clean product stays |
| Climb.EscalationLadder | internal/search/search.go:150-184 | escalate trials double R, go on only after a clean one that gained the plateau gain, and the note says truthfully why they ended, naming stress only when the trace shows it |
| Climb.BisectionHalves | internal/search/search.go:186-203 | bisect trials are midpoints of gaps of more than one and more than a tenth of the clean R, each verdict closing one side, and nothing else |
| Climb.JustifiedStep | internal/search/search.go:308-377 | after every trial the ceiling is the limit, a failed product, or due to stress and what was clean by then, and the setting was begun or is not below it |
| Climb.SplittingTries | internal/search/search.go:206-216 | unless stopped, every possible candidate was begun or is not below the final ceiling |
| Climb.RunTriesAll | internal/search/search.go:145-219 | a run that nothing stopped has begun every candidate split of its largest clean product, unless a failed product, stress or the limit forbids it |
| Climb.AgreeingRunPasses | internal/search/search.go:348-354 | on an agent where trial and reference agree, no run is failed for missing OIDs, whatever the tolerance |
| Guarantees.BeginReady | internal/search/search.go:114-129 | all invariants of a search hold when it begins |
| Guarantees.FinalProbeKeeps | internal/search/search.go:260-279 | whatever the final probe finds, the outcome stays sound: at most the last trial changes, from clean to failed |
| Guarantees.RunKeeps | internal/search/search.go:145-219 | in every run: safe walks, distinct settings, products below the limit and all that failed before, complete clean trials, exact budget, everything clean below what failed while climbing; a quiet failed climb locates the threshold |
| Guarantees.RunMeasuresExactly | internal/search/search.go:156-160 | a run that nothing stopped has measured something if and only if its first product is within MaxProduct; with zero it measures nothing |
| Guarantees.RequestsBelowFailures | internal/search/search.go:347 | no request of a run asks for more than MaxProduct varbinds, and each for fewer than every product failed by then |
| Guarantees.TryStep | internal/search/search.go:331-345 | stress never vetoes or cuts a prescribed setting: unless stopped it is measured, or not below the product of an earlier setting that failed |
| Guarantees.MeasureAllKeeps | internal/search/search.go:131-143 | Measure keeps the same guardrails, and unless stopped has measured each setting that is below every setting before it in the list that failed |
| Judgement.MeasureFaithful | internal/search/search.go:308-377 | every trial, in every phase and however it ends, is recorded with exactly the walks that ever returned at its settings, in order and at their times, its verdict follows from what they brought back, and every probe verdict from the replies |
| Judgement.RunFaithful | internal/search/search.go:145-219 | so are all trials and verdicts of any run, stopped or not; oracles are asked at strictly increasing times, so no walk or reply counts twice |
| Judgement.MeasureAllFaithful | internal/search/search.go:131-143 | so are those of prescribed settings |
| Judgement.OutcomeJudged | internal/search/search.go:347-373 | every trial in an outcome was recorded with the runs it lists: a clean one has only walks without a failure that missed no more than tolerated, one failed by its runs failed by the last walk, on the grounds held against it |
| Judgement.FinalProbeExactly | internal/search/search.go:258-271 | the final probe aborts if and only if there is a trial, the context is live, and it and the probe before it went unanswered or the uptime fell below the last one seen |
| Judgement.FinalProbeFailsLast | internal/search/search.go:272-279 | if it aborts, it fails exactly the last trial; otherwise the outcome does not change |
| Judgement.FinalLossUnnoticed | internal/search/search.go:258-259 | an agent lost in the last trial leaves the outcome unchanged when the probe before that trial was answered |
| EverySearch.MeasureStops | internal/search/search.go:308-377 | a trial ends the search if and only if it leaves a reason in the outcome, and one that is skipped changes and asks nothing |
| EverySearch.SearchKept | internal/search/search.go:145-219 | whatever every trial keeps holds at the end of every run, before its final probe |
| Reasons.InterruptTold | internal/search/search.go:281-296 | a trial is interrupted if and only if the context is done; a cancel aborts, a deadline spends the budget |
| Reasons.MeasureTold | internal/search/search.go:308-377 | every trial keeps the outcome truthful about stress, and about why the search was stopped |
| Reasons.RunTold | internal/search/search.go:145-219 | so it is at the end of any run: stressed if and only if a probe before a repeat showed it, stopped for the reason named; every probe and walk came after a live context, every new setting was begun in time, and what is recorded as broken off names what it was broken off for |
| Reasons.MeasureAllTold | internal/search/search.go:131-143 | the same of prescribed settings |
| Reasons.StartTold | internal/search/search.go:308-318 | when a trial begins a done context goes before a spent budget, and the limit on trials before that on time; then nothing is asked |
| Ledger.RunEntered | internal/search/search.go:281-373 | in every run that no transport error ended, each walk that came back was recorded with a trial of its settings, however that trial ended |
| Ledger.MeasureAllEntered | internal/search/search.go:131-143 | the same of prescribed settings |
| Shape.RunShape | internal/search/search.go:145-219 | every run, stopped or not, climbs from R = 2 by doubling, halves the bracket of its last two R, and splits the largest clean product among the candidates, in this order; unstopped it says truthfully why it stopped climbing |
| Sustained.EndOfTableUnmarked | internal/walk/walk.go:226-231 | a response of whole rows, short of R, whose last row is all end of MIB is neither marked nor counted |
| Sustained.RunEndsClean | internal/walk/walk.go:122-161 | a run is clean at any R and V against an agent whose responses have R rows or end in such a row |
| Sustained.RunSustained | internal/walk/walk.go:122-161 | against an agent that refuses requests above a limit, a run no wider than the widest table is clean if and only if its product is within the limit |
| Sustained.SearchLocatesLimit | internal/search/search.go:145-219 | a quiet search against it that climbed into a failure ends with a largest clean product at most the limit and within a tenth of R of it |
| Sustained.SimRefusesAbove | internal/agent/sim/sim.go:150-153 | the simulator with a tooBig limit and no caps is such an agent |
| Capped.DeepCounts | internal/agent/sim/sim.go:194-207 | on an ordered agent a cursor has n successors if and only if n stored OIDs lie above it |
| Capped.ShortIsCut | internal/walk/walk.go:226-232 | a response of fewer rows than asked for is marked truncated if some column has data in all of them |
| Capped.RunCapped | internal/walk/walk.go:122-161 | against an agent that caps rows, a run over some column as deep as the cap is clean if and only if R is within the cap |
| Capped.SearchLocatesRows | internal/search/search.go:145-219 | a quiet search against it that climbed into a failure ends with a largest clean R at most the cap and within a tenth of it |
| Capped.SimCapsRows | internal/agent/sim/sim.go:161-174 | the simulator with a row cap and nothing else is such an agent |
| Calm.CalmSearch | internal/search/search.go:145-219 | with a live context, no budget but the products, prompt probes, an uptime that never falls and no transport error, a search is neither stopped nor stressed |
| Calm.CalmSearchLocatesLimit | internal/search/search.go:145-219 | against an agent that refuses requests above a limit it then either stops climbing for a plateau or MaxProduct, or locates that limit to a tenth of R |
| Calm.CalmSearchLocatesRows | internal/search/search.go:145-219 | the same of a cap on rows |
| Search.ComputeSplitCandidates | internal/search/search.go:224-236 | the loop over the ladder gives these candidates |
| Search.Runner.Init | internal/search/search.go:114-129 | a new outcome, ceiling and ground truth; the first V is 10 capped by the widest table, the first product twice that |
| Search.Runner.Interrupted | internal/search/search.go:283-296 | a deadline is a budget limit, a cancel an abort, and runs so far are recorded as a failed trial |
| Search.Runner.ActOn | internal/search/search.go:325-347 | a verdict aborts, cuts or lowers the ceiling before the walk |
| Search.Runner.CheckRun | internal/search/search.go:354-359 | a run that misses more than tolerated becomes a failed one |
| Search.Runner.WalkSettings | internal/search/search.go:347-356 | a walk is remembered with the time it was made, checked against the ground truth, or ends the search when it erred |
| Search.Runner.MeasureOne | internal/search/search.go:308-377 | trial computes the step the invariants are about |
| Search.Runner.ProbeFinally | internal/search/search.go:260-279 | the loop rewrites exactly the entries of the last settings |
| Search.Runner.EscalatePhase | internal/search/search.go:149-184 | the escalation loop computes the escalation the theorems are about, and ends |
| Search.Runner.BisectPhase | internal/search/search.go:186-203 | so does the bisection loop |
| Search.Runner.SplitPhase | internal/search/search.go:206-216 | and the split loop |
| Search.Runner.Run | internal/search/search.go:147-219 | the imperative run ends in an outcome with all guarantees, every trial judged by its own walks, a truthful reason, nothing left out and the shape of a run, and an unstopped one is empty exactly when the first product exceeds MaxProduct |
| Search.Runner.MeasureSettings | internal/search/search.go:134-143 | the imperative Measure ends in a sound outcome of prescribed trials, each judged by its own walks, none vetoed by stress, with a truthful reason |
| Report.ComputeMaxBytes | internal/report/report.go:78-86 | the largest response over all runs |
| Report.MaxBytesBounds | internal/report/report.go:77-86 | it is within a limit if and only if every response is |
| Report.Peak | internal/search/search.go:66-76 | the first clean trial of highest score, none exactly when nothing is clean |
| Report.BestWithin | internal/report/report.go:90-99 | the same among trials whose responses fit the limit |
| Report.AllRequested | internal/report/report.go:154-161 | yes exactly when there are trials and all were prescribed |
| Report.LargestBelow | internal/report/report.go:124-133 | the first fitting clean trial of largest product strictly below the peak, the score breaking ties, none exactly when there is none |
| Report.Recommend | internal/report/report.go:105-151 | succeeds exactly when some trial is clean; peak and chosen trial are optimal, fragmented exactly when nothing clean fits |
| Report.AdviceUnique | internal/report/report.go:101-151 | these conditions determine the recommendation, and an oversized one is the peak itself |
| Report.AdviceBelowFailures | internal/report/report.go:101-151 | on the outcome of a search, recommendation and peak are strictly below every product failed while climbing |
| Report.Tune | internal/report/report.go:101-151 | search and recommendation together: never above MaxProduct, strictly below every product failed while climbing |

## Left out

- The gosnmp transport, UDP and BER encoding: replies are oracles.
- Flags, files, signals and output selection of the command; its validation appears as assumptions.
- Text, JSON and OpenNMS rendering, colours, messages and `Plan`: string formatting.
- `Fragments`, `DatagramLimit`, percentiles and the suggested timeout and retry: short closed-form arithmetic.
- Timestamps, durations, real sleeping and the mutex of the simulator: times are oracle values, sleeps are events of the trace.
- The simulator's Get, GetNext, uptime, restarts and recorded request details; its index holds arcs, so text and arcs of a key are one value.
- int64 overflow of a product of prescribed settings, and rounding of floating-point scores.
- Walkers.Walker.Table: the methods Rewind, AbsorbVarbind, TakeVarbind, TakeNext, ScanResponse, Conclude, Respond and Exchange split the body of `table`, which is one function in the program, and finished columns are kept in the model's values only.
- Search.Runner.Run: `trial` and `Run` are split into several methods in the same way, and trials are values, not pointers into the outcome.
- Guarantees.RunKeeps: the threshold to a tenth is stated for runs whose escalation ended in a failure; a plateau ends escalation earlier by design.
- Agreement.TrialMissesNothing: a reference walk and a trial must see the same successors; an agent whose table changes in between is not covered.
- Sustained.SearchLocatesLimit: the agent answers in full below its limit; byte caps, which cut a reply by the size of its values, are covered by the threshold of `Guarantees.RunKeeps` only.
- Capped.SearchLocatesRows: some column has as many successors as the cap has rows; a cap no column reaches need not cut anything.
- Reading OpenNMS XML into a workload; that columns lie under their bases, as `parentOID` makes them, is a requirement of `Scope.TrialMissesExactly`.
