# Models of the reviewer protocol, the budgeted smoke run and their helpers

A Dafny model of the parts of the repository that carry real state, loops or arithmetic, with proofs of what
they promise. `dafny verify dfyconfig.toml` checks the whole project.

What is modelled, component by component:

- **Quota solver and greedy selector** (`Similarity`, `SimilarityMeaning`, `Ledger`, `Constraints`, `Selection`,
  `GreedyScan`, `ScanGuarantees`, `ScanOrder`, `SelectorLink`, `Replay`, `Identifiers`).
  One side builds a conflict graph over rows, splits it into components, enumerates independent sets and combines
  clamped count vectors; it is sound and complete for the quota question. The other side is a rank-ordered greedy scan
  with an exact specification, a replay of its receipt, and a link between the two.
- **Budget and permit state machine** (`Policy`, `PolicyBooks`, `CallOutcome`, `ExtraRequests`, `Accounting`,
  `SmokePolicyObject`, `Budget`, `Handler`, `HandlerVerdicts`, `Consumer`, `ProducerConsumer`, `Money`,
  `DecimalRounding`). A policy object reserves, settles, holds and records spend over five ordered
  stages while the client calls back as it likes. `Policy` specifies it as functions, `SmokePolicyObject` is the object
  with its fields, proved against that specification. The offline plan check is exact, the operator accepts what the
  handler emits, and the decimal arithmetic is exact.
- **Exposure inventory** (`Exposure`, `InventoryReferences`, `InventoryBuilding`, `InventoryMeaning`,
  `InventoryValidation`, `InventoryGuarantees`). An incremental builder against a long independent
  check, and against what its additions name.
- **One-use transport and claims** (`Transport`, `TransportCodes`, `Claims`). Hooks, bounded reading and the order of
  failures; and at most one dispatch per run id across processes and crashes.
- **Stand-alone algorithms** (`Agreement`, `PanelAgreement`, `ExternalAnalysis`, `Closure`, `ClosureMeaning`, `JsonTree`,
  `JsonPaths`, `Capture`, `CaptureMeaning`, `Chunks`).

Conventions. Amounts are integers in units of 10^-18 dollars, which is exact for prices of at most twelve decimals per
million tokens (`Money` proves that the code's decimals compute the same numbers). Hashes and digests are constructors, so
they are injective; rank digests are an arbitrary function; text folding and normalization are arbitrary functions passed
as parameters. `cos >= 0.90` is the integer test `100 num^2 >= 81 |a|^2 |b|^2`. Kappa statistics are exact reals.
I/O, clocks and the network are parameters: a reader, a script of callbacks, an outcome for each write. Where a result type
says `Err`, the code raises the error of that name. Kappa statistics take the list of labels as a parameter, any list
without repetition; the program uses its five labels. `JsonTree` takes the number of digits of an integer as a parameter;
the program uses 64.

A place where a promise holds only under a condition: with unique ids and questions that normalize to something, a
finished inventory should pass its own check, and it does not always. A candidate whose id is the empty string gets evidence
under the hash of the text that was given for it, not its own. `BuildAndValidate` states exactly which additions do no harm
(`Harmless`), `HarmlessUnlessGuessed` reduces this to one look-up, and `EmptyIdCanDoHarm` exhibits the failure.

A second expectation that fails: a call settled as an authorised request need not have been the only thing that happened.
`InvokeRecordsExactly` gives the exact condition for settling, `InvokePassesExactly` the stricter one for passing, and
`LateExtraIsSettled` the input that lies between them.

The published vocabulary of stop codes contains LOCAL_EVIDENCE_UNAVAILABLE, which no site raises and the handler itself reserves
for an unreadable journal. `EmittedIsAccepted` is stated of the codes that are raised (`Possible`);
`VocabularyIsInspected` remarks what the whole vocabulary would allow.

`Basics` and `Orders` hold the arithmetic, sequence and ordering facts the components share, `Results` the result types.

## Model

| member | source | states |
|---|---|---|
| `Similarity.CosineAtMostOne` | experiments/reviewer_protocol_v2/similarity.py:19-24 | the squared numerator never exceeds the product of the squared norms (Cauchy and Schwarz over the shared gram counts), so no similarity is above 1 |
| `Similarity.CosineSymmetric` | experiments/reviewer_protocol_v2/similarity.py:19-24 | similarity, and the conflict decided by it, do not depend on the order of the two texts |
| `Similarity.GramsHaveNorm` | experiments/reviewer_protocol_v2/similarity.py:14-16 | every text, however short, has a gram, so no norm is zero |
| `Similarity.EqualTextsAreSimilar` | experiments/reviewer_protocol_v2/similarity.py:19-45 | texts that fold to the same string have similarity exactly 1 and therefore conflict |
| `SimilarityMeaning.CosineCountsMatches` | experiments/reviewer_protocol_v2/similarity.py:14-24 | the numerator is the number of pairs of places at which the two texts have the same four characters, and the squared norms are these numbers of each text with itself |
| `SimilarityMeaning.ReachesIsQuotient` | experiments/reviewer_protocol_v2/similarity.py:19-45 | with both norms at hand the integer test says exactly that the quotient of the numerator by their product is at least 0.9 |
| `SimilarityMeaning.ReachesIsNinety` | experiments/reviewer_protocol_v2/similarity.py:19-45 | the same without taking a root: the numerator is at least 0.9 times every number below the product of the norms |
| `SimilarityMeaning.ConflictIsAlike` | experiments/reviewer_protocol_v2/similarity.py:14-45 | two rows conflict if and only if they share source and group, or their folded texts match at 0.9 or more of what their norms allow |
| `Constraints.CompareRow` | experiments/reviewer_protocol_v2/constraints.py:22-46 | the inner loop over the partners of one row keeps the partial conflict graph and the three pair counters exact |
| `Constraints.CompareRows` | experiments/reviewer_protocol_v2/constraints.py:17-46 | the pair loops yield exactly the graph of native-group and similarity conflicts and count the related pairs |
| `Constraints.Explore` | experiments/reviewer_protocol_v2/constraints.py:55-64 | the frontier loop returns a connected, closed set of nodes: exactly one component, whatever the pop order |
| `Constraints.ConflictComponents` | experiments/reviewer_protocol_v2/constraints.py:52-64 | the component loop splits the nodes that have a conflict into disjoint components without cross edges |
| `Constraints.SubsetHasBits` | experiments/reviewer_protocol_v2/constraints.py:76-77 | every subset of a component is enumerated by some bit pattern |
| `Constraints.LocalVectors` | experiments/reviewer_protocol_v2/constraints.py:75-83 | the bit loop collects exactly the clamped count vectors of the independent sets of a component |
| `Constraints.ClampedDisjoint` | experiments/reviewer_protocol_v2/constraints.py:83-88 | clamping to the quotas commutes with adding the counts of disjoint sets |
| `Constraints.CombineComponent` | experiments/reviewer_protocol_v2/constraints.py:84-88 | one round combines the vectors of one component with those of the earlier ones into exactly the vectors of both together |
| `Constraints.CombineComponents` | experiments/reviewer_protocol_v2/constraints.py:67-88 | over all components the combined set is exactly the clamped vectors of independent sets; it refuses exactly when a component has more than 20 nodes, and otherwise lists their sizes |
| `Constraints.VectorsSound` | experiments/reviewer_protocol_v2/constraints.py:89-92 | a combined vector that covers the quotas comes from a real conflict-free set of rows |
| `Constraints.VectorsComplete` | experiments/reviewer_protocol_v2/constraints.py:65-92 | a conflict-free set of rows that meets the quotas is found among the combined vectors |
| `Constraints.FeasibleByVectors` | experiments/reviewer_protocol_v2/constraints.py:65-92 | some combined vector plus the isolated rows covers the quotas if and only if a conflict-free set meeting them exists |
| `Constraints.SolveGraph` | experiments/reviewer_protocol_v2/constraints.py:52-92 | component search, enumeration and combination decide feasibility of any graph and report the component sizes, or refuse exactly on an oversized component |
| `Constraints.IsolatedAreFree` | experiments/reviewer_protocol_v2/constraints.py:47-51 | the nodes without an edge are exactly the rows that conflict with no other row |
| `Constraints.ConstraintSummary` | experiments/reviewer_protocol_v2/constraints.py:10-120 | the result is an error exactly on malformed quotas or a component of more than 20 nodes; otherwise "feasible" holds if and only if some set of rows without native-group and similarity conflict contains at least the quota of every stratum, and the reported numbers count the pairs, the related pairs, the rows and the conflict-free rows of each stratum and the sizes of the components |
| `Constraints.AllComponentsSmall` | experiments/reviewer_protocol_v2/constraints.py:54-73 | the size refusal depends on the conflict graph only, not on the search |
| `Constraints.ValidateDiversity` | experiments/reviewer_protocol_v2/constraints.py:123-127 | succeeds if and only if no two rows conflict in either way |
| `Selection.SortSorts` | experiments/reviewer_protocol_v2/selection.py:235-238 | sorting by the ranking key yields an ordered permutation of the eligible rows |
| `Orders.LexMeaning` | experiments/reviewer_protocol_v2/selection.py:100-101 | the order of ids: a prefix comes first, otherwise the first character that differs decides |
| `Selection.RankedByDigest` | experiments/reviewer_protocol_v2/selection.py:235-238 | of two ranked rows the earlier has the smaller digest, or the same digest and the earlier id |
| `Selection.RankedMembers` | experiments/reviewer_protocol_v2/selection.py:235-238 | the ranked stratum holds exactly the passing rows of the stratum |
| `Selection.OrderedIsUnique` | experiments/reviewer_protocol_v2/selection.py:100-101 | with unique candidate ids, two ordered lists with the same members are equal |
| `Selection.RankingIgnoresOrder` | experiments/reviewer_protocol_v2/selection.py:235-238 | the ranking of a stratum is the same for every permutation of the input rows |
| `GreedyScan.CollectConflicts` | experiments/reviewer_protocol_v2/selection.py:241-251 | the loop collects exactly the conflict records against the accepted rows, native before similarity |
| `GreedyScan.RecordsMeanBlocked` | experiments/reviewer_protocol_v2/selection.py:241-251 | there is a conflict record if and only if some accepted row conflicts |
| `GreedyScan.PrepareStratum` | experiments/reviewer_protocol_v2/selection.py:235-238 | a stratum is ranked, or refused when some passing row has no label: its stratum is unregistered or its candidate id is not c_ with ten hexadecimal digits (lines 75-87) |
| `GreedyScan.ScanStratum` | experiments/reviewer_protocol_v2/selection.py:264-274 | the loop over one ranked stratum, with its break at the quota, computes the specified decisions, accepted rows and counters |
| `GreedyScan.ScanOne` | experiments/reviewer_protocol_v2/selection.py:262-281 | one table entry: scanned, filled, short, or not started after a shortfall |
| `GreedyScan.ScanAll` | experiments/reviewer_protocol_v2/selection.py:259-281 | the loop over the table computes the specified run; nothing is ranked after a shortfall |
| `GreedyScan.Scan` | experiments/reviewer_protocol_v2/selection.py:259-287 | the whole run over the six registered strata, refused exactly when some passing row has no label |
| `Identifiers.CandidateIdsAreNumbers` | experiments/reviewer_protocol_v2/selection.py:75-78 | candidate ids are exactly the numbers of forty bits written as ten lower-case hexadecimal digits after c_ |
| `Identifiers.RegisteredSays` | experiments/reviewer_protocol_v2/selection.py:75-87 | a run takes place exactly when every passing row has such an id and one of the six registered pairs of source and stratum |
| `Identifiers.EveryRowIsRanked` | experiments/reviewer_protocol_v2/selection.py:235-238 | no passing row of such a ledger is left out of the strata that are ranked |
| `ScanGuarantees.ScanIsGreedy` | experiments/reviewer_protocol_v2/selection.py:264-274 | the decisions of a stratum follow the greedy rule: a row is skipped exactly when it conflicts with an earlier accepted row, and the scan ends at the quota or the end |
| `ScanGuarantees.GreedyIsUnique` | experiments/reviewer_protocol_v2/selection.py:264-274 | no other list of decisions follows that rule |
| `ScanGuarantees.ScanKeepsFree` | experiments/reviewer_protocol_v2/selection.py:266-272 | accepted rows stay pairwise free of conflicts |
| `ScanGuarantees.ScanCounts` | experiments/reviewer_protocol_v2/selection.py:264-274 | a stratum never exceeds its quota and its counter is the number of its accepted rows |
| `ScanGuarantees.ScanExhausts` | experiments/reviewer_protocol_v2/selection.py:275-277 | a stratum left below its quota has no eligible row that could still be added |
| `ScanGuarantees.RunKeeps` | experiments/reviewer_protocol_v2/selection.py:262-281 | conflict freedom, quotas, statuses and saturation hold after any number of table entries |
| `ScanGuarantees.ScanIsSafe` | experiments/reviewer_protocol_v2/selection.py:259-287 | the finished run accepts a pairwise conflict-free list of passing rows within quotas, and a shortfall leaves nothing addable in the stopped stratum |
| `ScanGuarantees.ScanIgnoresOrder` | experiments/reviewer_protocol_v2/selection.py:235-287 | the whole run is the same for every permutation of its input rows |
| `ScanOrder.RecordsName` | experiments/reviewer_protocol_v2/selection.py:241-251 | the records of a row name exactly the accepted rows of its source and group, and exactly those whose score reaches 0.9, with their score |
| `ScanOrder.ScanIsRankGuided` | experiments/reviewer_protocol_v2/selection.py:235-287 | every decision of the whole run explained by the rows, digests and conflicts alone: strata in table order, digests ascending within each, numbered from one, a row skipped if and only if it conflicts with one taken earlier, and no unscanned row before a scanned one |
| `ScanOrder.RanksAscend` | experiments/reviewer_protocol_v2/selection.py:259-287 | the ranks of the decisions of one stratum ascend |
| `ScanOrder.SkippedGivesWay` | experiments/reviewer_protocol_v2/selection.py:259-287 | a skipped row conflicts with an accepted row of an earlier stratum, or of its own stratum with no larger digest |
| `SelectorLink.Positions` | experiments/reviewer_protocol_v2/selection.py:268-272 | a conflict-free accepted list corresponds to an independent set of row positions with the same stratum counts |
| `SelectorLink.SuccessIsFeasible` | experiments/reviewer_protocol_v2/selection.py:282-287 | a run that fills every stratum proves the quotas feasible in the sense of the solver |
| `SelectorLink.AcceptedAreApart` | experiments/reviewer_protocol_v2/selection.py:259-287 | of the rows any run accepts no two share source and group, and no two texts match at 0.9 or more |
| `SelectorLink.SelectAndProve` | experiments/reviewer_protocol_v2/selection.py:259-287 | greedy run and solver on the same rows: the run is that of the scan and its rows are apart at the threshold, the solver reports feasible if and only if a conflict-free set meets the quotas, and success of the run makes it report feasible whenever it stays within its component bound |
| `SelectorLink.AcceptedAreDiverse` | experiments/reviewer_protocol_v2/constraints.py:123-127 | what any run accepts passes the diversity check |
| `Replay.ReplayStep` | experiments/reviewer_protocol_v2/selection.py:305-316 | one replayed decision matches the recorded one exactly when the scan would have made it |
| `Replay.ReplayStratum` | experiments/reviewer_protocol_v2/selection.py:303-316 | the replay of a stratum succeeds exactly when the scan decisions are a prefix of the recorded rest |
| `Replay.ReplayOne` | experiments/reviewer_protocol_v2/selection.py:300-322 | one entry: the recorded counters are accepted exactly when they are those of the scan |
| `Replay.ReplayStrata` | experiments/reviewer_protocol_v2/selection.py:299-322 | the loop over the six entries follows the scan as long as the receipt does |
| `Replay.FinishReplay` | experiments/reviewer_protocol_v2/selection.py:323-333 | the closing checks accept exactly the receipt of the scan, up to the two output hashes |
| `Replay.ReplayTable` | experiments/reviewer_protocol_v2/selection.py:290-333 | for any table, the replay succeeds exactly on registered rows and a genuine receipt |
| `Replay.FullTableSize` | experiments/reviewer_protocol_v2/selection.py:330 | a run that fills the registered table accepts exactly 24 rows, so the production-size test adds nothing |
| `Replay.ReplayReceipt` | experiments/reviewer_protocol_v2/selection.py:290-333 | accepted if and only if every passing row has a label and the receipt equals the one the scan produces on these rows, with null output hashes on a shortfall and hexadecimal ones on success; it then returns exactly the rows the scan accepts |
| `Identifiers.GenuineSays` | experiments/reviewer_protocol_v2/selection.py:290-333 | an accepted receipt, field by field: seed, inputs, results, decisions and status of the run, the identities of its rows in order, and two digests of 256 bits exactly on success |
| `SmokePolicyObject.SmokePolicy.constructor` | app/services/rag_smoke_policy.py:372-388 | a new policy object is the initial state |
| `SmokePolicyObject.SmokePolicy.Activate` | app/services/rag_smoke_policy.py:671-681 | once the claim directory is made, activation writes the claim record or halts |
| `SmokePolicyObject.SmokePolicy.Close` | app/services/rag_smoke_policy.py:677-703 | the end of an activation: completion only after all five stages without a halt, otherwise the stop that is raised |
| `SmokePolicyObject.SmokePolicy.Parameters` | app/services/rag_smoke_policy.py:729-738 | a parameter callback counts a check only under a permit and a matching request |
| `SmokePolicyObject.SmokePolicy.Send` | app/services/rag_smoke_policy.py:740-790 | one send per permit after one parameter check; every further send is blocked, recorded and halts |
| `SmokePolicyObject.SmokePolicy.RecordExtraRequest` | app/services/rag_smoke_policy.py:468-557 | an independently observed request is entered once, with its charge, doubt and violation marks |
| `SmokePolicyObject.SmokePolicy.RunClient` | app/services/rag_smoke_policy.py:879-889 | any sequence of callbacks changes the object as the specification says |
| `SmokePolicyObject.SmokePolicy.ReturnedUsage` | app/services/rag_smoke_policy.py:559-600 | returned usage replaces the hold when attributable and is added on top otherwise |
| `SmokePolicyObject.SmokePolicy.HandleResponse` | app/services/rag_smoke_policy.py:890-936 | retry and callback counts, decoding, usage and output checks in their order |
| `SmokePolicyObject.SmokePolicy.Invoke` | app/services/rag_smoke_policy.py:792-948 | reservation, record, call and settlement change the object exactly as the state machine specifies |
| `CallOutcome.CountsExactly` | app/services/rag_smoke_policy.py:729-790 | over every sequence of callbacks the counts are valid if and only if the first ones that matter are one matching check and then one send to the reviewed endpoint, and nothing is counted afterwards |
| `CallOutcome.InvokePassesExactly` | app/services/rag_smoke_policy.py:792-948 | a call returns no code if and only if it could start, the client made exactly one matching check followed by one approved send and nothing else that counts, and the response reports no retry, could be read, was recorded and stayed within its token bounds |
| `CallOutcome.InvokePassedState` | app/services/rag_smoke_policy.py:792-948 | the whole state after a passing call: position, attempt, exposure and journal change as stated, and nothing else does |
| `CallOutcome.InvokeRecordsExactly` | app/services/rag_smoke_policy.py:879-948 | what the record of any started call says: delivered, settled and authorised exactly under the stated conditions on response and callbacks, in doubt whenever a response came under other counts |
| `CallOutcome.InvokeCodeExactly` | app/services/rag_smoke_policy.py:792-948 | the code of any call: the first failure among turn, request, room, records, outcome, usage, counts, extra requests, token bounds and text |
| `CallOutcome.InvokeSends` | app/services/rag_smoke_policy.py:740-790 | the send counts on record: one approved and one blocked at the most, and a blocked send halts the run and stands in the list of extra requests as not delivered |
| `CallOutcome.SendIsBlocked` | app/services/rag_smoke_policy.py:740-790 | a second send, or one without exactly one check before it, is recorded as not delivered and stops the run |
| `CallOutcome.LateExtraIsSettled` | app/services/rag_smoke_policy.py:468-557 | a settled call need not be clean: an extra request observed after the send stops the run with the charge settled |
| `SmokePolicyObject.SmokePolicy.Perform` | app/services/rag_smoke_policy.py:468-948 | any sequence of stage calls, extra requests and failures takes the object through exactly the specified run |
| `SmokePolicyObject.SmokePolicy.Report` | app/services/rag_smoke_policy.py:390-438 | the loops of the accounting compute the specified report |
| `SmokePolicyObject.RunToReport` | app/services/rag_smoke_policy.py:372-948 | one activation of a new object from claim to report: the report is that of the specified run, holds plus known charges equal the exposure of the object, spend above a cap is flagged |
| `PolicyBooks.InvokeKeepsSound` | app/services/rag_smoke_policy.py:792-948 | one call with any callbacks and any outcome keeps exposure conserved, every record consistent, caps respected or flagged, and the run on track or halted |
| `PolicyBooks.RunsAreSound` | app/services/rag_smoke_policy.py:635-948 | every run, of any length, ends in a sound state |
| `PolicyBooks.ReachableIsSound` | app/services/rag_smoke_policy.py:635-948 | every state a trace passes through is sound |
| `PolicyBooks.RunsAreReachable` | app/services/rag_smoke_policy.py:635-948 | the end of every run is such a state |
| `PolicyBooks.ObserveKeepsBooks` | app/services/rag_smoke_policy.py:468-557 | an extra request adds exactly its charge to the exposure and marks what it puts in doubt |
| `ExtraRequests.ObservedExactly` | app/services/rag_smoke_policy.py:468-557 | an observation enters its own request, priced charge and doubts exactly when its stage, delivery and hash are valid and its hash was not entered before, and otherwise leaves only a doubt; it always halts |
| `ExtraRequests.ReachableTold` | app/services/rag_smoke_policy.py:468-600 | in every reachable state no evidence hash is entered twice, the hashes are those of the requests that may have been delivered, and coverage is violated if and only if some usage was over a token bound or an extra request cost something |
| `PolicyBooks.SettleKeepsBooks` | app/services/rag_smoke_policy.py:559-600 | settling moves money from holds to known charges without losing any |
| `Accounting.MarkListFaithful` | app/services/rag_smoke_policy.py:390-438 | the sorted list of unestablished stages has exactly the recorded marks, once each |
| `Accounting.ReportExplainsExposure` | app/services/rag_smoke_policy.py:390-438 | in every reachable state each exposure equals retained holds plus known charges, spend above a cap implies violated or unestablished coverage, and the four-part ceiling test equals "bound established and coverage not violated" |
| `Budget.ExceededMeansTokens` | app/services/rag_smoke_policy.py:559-567 | usage within the token bounds never costs more than the reservation, so the money comparison flags nothing the token bounds do not |
| `Budget.AcceptedPlanFits` | scripts/jev_rag_smoke_preinvoke.py:197-214 | under an accepted plan, whenever a call is permitted its reservation fits the caps |
| `Budget.NeverExhausted` | scripts/jev_rag_smoke_preinvoke.py:197-214 | no run of a policy whose plan P0 accepted ever raises RESERVATION_EXHAUSTED |
| `Budget.PreflightSays` | scripts/jev_rag_smoke_preinvoke.py:197-214 | the amounts of the plan that P0 reports, stage by stage, and the first ceiling it finds too low |
| `Budget.FullRun` | app/services/rag_smoke_policy.py:792-854 | if no run is ever exhausted, there is a run in which each of the first n stages is answered at its full bounds |
| `Budget.PlanLeavesRoom` | scripts/jev_rag_smoke_preinvoke.py:197-214 | under an accepted plan the exposure of every run that is not halted leaves the infrastructure allowance free below the total cap |
| `Budget.PreflightIsExact` | scripts/jev_rag_smoke_preinvoke.py:197-214 | for every infrastructure allowance, P0 accepts a policy if and only if no run of it meets a reservation that does not fit and every unhalted run leaves the allowance free |
| `Handler.Finish` | app/rag_smoke_handler.py:318-386 | the closing part overwrites status and code step by step to the specified verdict |
| `Handler.Handle` | app/rag_smoke_handler.py:296-386 | the emitted result of every way the handler can end |
| `HandlerVerdicts.EmittedTells` | app/rag_smoke_handler.py:296-386 | success if and only if the run went through all stages and nothing failed while closing; uncertain if and only if closing failed or cut the output short, or the run lost track of a request, is in doubt about a stage or still holds a reservation; and the code of what went wrong last |
| `HandlerVerdicts.ClosedState` | app/services/rag_smoke_policy.py:677-703 | the policy after its activation, to the last field |
| `HandlerVerdicts.CertainIsSpent` | app/rag_smoke_handler.py:318-386 | a stopped run that is not uncertain holds nothing: its whole exposure is known charges |
| `Consumer.CheckAttempts` | scripts/jev_rag_smoke_operator.py:502-545 | the attempt loop checks every attempt, finds whether one is unsettled and adds up the holds |
| `Consumer.ConsumerAccounting` | scripts/jev_rag_smoke_operator.py:447-590 | true exactly when the accounting part of a result is consistent in itself |
| `Consumer.InspectAccounting` | scripts/jev_rag_smoke_operator.py:593-760 | accepts exactly the results that meet all accounting, extra-request, status and code conditions |
| `ProducerConsumer.FinalIsHanded` | app/rag_smoke_handler.py:318-386 | every way the handler can end hands over a state within the invariants of the policy |
| `ProducerConsumer.EmittedIsAccepted` | scripts/jev_rag_smoke_operator.py:447-760 | over every reachable policy state and every way the handler can finish, in full and compact form, the operator accepts what is emitted and returns its contract mapping |
| `ProducerConsumer.MappingTellsRun` | scripts/jev_rag_smoke_operator.py:693-760 | the mapping returned, told from the run: incomplete if and only if the output was cut short, violated by unreserved exposure if and only if some unauthorised request was entered, and otherwise violated, unestablished or within the reservations according to what the run recorded |
| `ProducerConsumer.VocabularyIsInspected` | app/rag_smoke_handler.py:222-249 | a remark on the published vocabulary of codes: were a stop ever raised with the code the handler reserves for an unreadable journal, exactly the unchanged results out of a certain state would be refused |
| `ProducerConsumer.AcceptedSuccessIsSettled` | scripts/jev_rag_smoke_operator.py:447-590 | an accepted success attempted every stage, holds nothing any more and no recorded charge exceeds its reservation, whoever produced it |
| `ProducerConsumer.AcceptedHidesNothing` | scripts/jev_rag_smoke_operator.py:447-590 | whoever produced an accepted result, every overrun, unsettled charge, held reservation, delivered request without authority and lost track shows in its coverage, marks, status, mapping and hold totals |
| `Money.FixIsExact` | app/services/rag_smoke_policy.py:93-114 | rounding to a precision changes nothing when the number needs no more digits above its lowest power of ten |
| `DecimalRounding.FixRounds` | app/services/rag_smoke_policy.py:93-114 | rounding leaves short numbers alone and turns any other into the nearest number with so many digits, with its sign, and of two equally near ones into the even one |
| `Money.AddIsExact` | app/services/rag_smoke_policy.py:103-114 | an addition is exact when its exact result fits the precision |
| `Money.TotalIsExact` | app/services/rag_smoke_policy.py:103-114 | the precision chosen by money_total makes every partial sum exact, for any number of amounts with any exponents |
| `Money.ChargeIsExact` | app/services/rag_smoke_policy.py:93-100 | the precision chosen by charge makes both products, their sum and the quotient exact for any token counts and valid prices |
| `Money.ChargeIsPolicyCharge` | app/services/rag_smoke_policy.py:93-100 | in units of 10^-18 dollars the decimal charge is the integer charge of the state machine |
| `InventoryBuilding.InventoryBuilder.constructor` | experiments/reviewer_protocol_v2/exposure.py:25-33 | the loop over the population builds the three indexes of the rows |
| `InventoryBuilding.IdsByFaithful` | experiments/reviewer_protocol_v2/exposure.py:25-33 | an index lists a text exactly when some row has it, with the ids of exactly such rows |
| `InventoryBuilding.InventoryBuilder.Identify` | experiments/reviewer_protocol_v2/exposure.py:35-55 | identification by id, exact text, normalized text, or not at all |
| `InventoryBuilding.IdentifiedFacts` | experiments/reviewer_protocol_v2/exposure.py:35-55 | an identified id is a row of the population, and a text found nowhere matches no row |
| `InventoryMeaning.TakenExactly` | experiments/reviewer_protocol_v2/exposure.py:35-85 | an addition is taken if and only if its kinds are known and it names a row, with the text of that row if it gives one, or gives a text that normalizes to something |
| `InventoryMeaning.NamedMembers` | experiments/reviewer_protocol_v2/exposure.py:35-55 | without an id it exposes all rows with exactly its text, or else all rows whose text normalizes alike |
| `InventoryMeaning.EvidenceExactly` | experiments/reviewer_protocol_v2/exposure.py:86-118 | its evidence is one piece for every row it names, in ledger order and field by field, or one piece about its text when it names none |
| `InventoryMeaning.AllExpose` | experiments/reviewer_protocol_v2/exposure.py:57-118 | a sequence of additions exposes exactly the candidates and the outside texts that they name |
| `InventoryBuilding.InventoryBuilder.Add` | experiments/reviewer_protocol_v2/exposure.py:57-118 | an addition appends exactly its evidence or is refused without a change, and keeps the builder consistent |
| `InventoryBuilding.InventoryBuilder.FinishCandidates` | experiments/reviewer_protocol_v2/exposure.py:121-158 | one item per exposed candidate; the references are those of all candidates with their evidence, each attached to the reference of its text |
| `InventoryBuilding.InventoryBuilder.FinishOutside` | experiments/reviewer_protocol_v2/exposure.py:159-170 | the outside texts with their evidence join the references, each at the reference of its text |
| `InventoryBuilding.InventoryBuilder.Finish` | experiments/reviewer_protocol_v2/exposure.py:120-179 | whatever was added, the finished inventory satisfies the whole validity condition if and only if every candidate it exposes is a known row whose text normalizes to something and, when its id is empty, was found through its own text |
| `InventoryBuilding.AllSubjects` | experiments/reviewer_protocol_v2/exposure.py:120-179 | candidates and outside texts together claim every piece of evidence exactly once |
| `InventoryBuilding.AllCollected` | experiments/reviewer_protocol_v2/exposure.py:125-170 | the references built for candidates and outside texts hold all evidence of these subjects, their ids and their texts, for any population |
| `InventoryBuilding.FinishedIsValid` | experiments/reviewer_protocol_v2/exposure.py:182-307 | a finished inventory meets every clause of the independent check if and only if its evidence is presentable |
| `InventoryBuilding.ValidIsPresentable` | experiments/reviewer_protocol_v2/exposure.py:182-307 | necessity for any inventory, however it was made: one that the check accepts has presentable evidence only |
| `InventoryBuilding.HarmlessArePresentable` | experiments/reviewer_protocol_v2/exposure.py:57-118 | the evidence of a sequence of additions is presentable if and only if every addition is harmless, which a caller can look up before adding |
| `InventoryBuilding.UsableIsHarmless` | experiments/reviewer_protocol_v2/exposure.py:57-118 | over rows with nonempty ids and normalized texts no addition does harm |
| `InventoryBuilding.HarmlessUnlessGuessed` | experiments/reviewer_protocol_v2/exposure.py:35-55 | over rows with unique ids and nonempty normalized texts an accepted addition does harm if and only if it comes without an id and its text only normalizes like that of the row with the empty id |
| `InventoryReferences.AttachTotals` | experiments/reviewer_protocol_v2/exposure.py:147-170 | attaching to a reference adds exactly the given evidence indices and ids, whether the text was known or new |
| `InventoryReferences.SubjectsCover` | experiments/reviewer_protocol_v2/exposure.py:120-179 | when every piece of evidence has exactly one subject, the references hold every index exactly once |
| `InventoryReferences.CollectsMore` | experiments/reviewer_protocol_v2/exposure.py:125-170 | one more subject extends the collected references by exactly its evidence, ids and text |
| `InventoryReferences.ExposedTextsAreUsable` | experiments/reviewer_protocol_v2/exposure.py:182-307 | an accepted inventory exposes only known rows with a nonempty normalized text |
| `InventoryValidation.CheckEvidence` | experiments/reviewer_protocol_v2/exposure.py:188-201 | the evidence loop decides completeness and binding to the population |
| `InventoryValidation.CheckReference` | experiments/reviewer_protocol_v2/exposure.py:205-232 | one reference is checked for its text, hash, ids and evidence |
| `InventoryValidation.CheckReferences` | experiments/reviewer_protocol_v2/exposure.py:203-232 | the reference loop decides all references and that no text is repeated |
| `InventoryValidation.CheckItems` | experiments/reviewer_protocol_v2/exposure.py:246-258 | the item loop decides every item |
| `InventoryValidation.CheckOutside` | experiments/reviewer_protocol_v2/exposure.py:259-282 | the loop over outside texts decides each of them and collects their hashes |
| `InventoryValidation.ValidateInventory` | experiments/reviewer_protocol_v2/exposure.py:182-307 | accepts exactly the valid inventories |
| `InventoryGuarantees.ReferencesPartition` | experiments/reviewer_protocol_v2/exposure.py:203-232 | in an accepted inventory a reference holds exactly the evidence with the hash of its text, each piece once |
| `InventoryGuarantees.EvidenceIsReferenced` | experiments/reviewer_protocol_v2/exposure.py:203-240 | every piece of evidence stands in exactly one reference |
| `InventoryGuarantees.CandidateHasItem` | experiments/reviewer_protocol_v2/exposure.py:246-258 | every candidate that some evidence names has an item with exactly that evidence, all of it under the hash of its own text |
| `InventoryGuarantees.ItemsAreDistinct` | experiments/reviewer_protocol_v2/exposure.py:246-258 | no candidate is listed twice, and none without evidence |
| `InventoryGuarantees.TextHasEntry` | experiments/reviewer_protocol_v2/exposure.py:259-282 | every text outside the population that some evidence gives has an entry with exactly that evidence |
| `InventoryValidation.BuildAndValidate` | experiments/reviewer_protocol_v2/exposure.py:57-307 | after any sequence of additions over any population, the finished inventory is accepted if and only if every addition is harmless; it then holds the evidence of the accepted ones in order, and exposes exactly the rows and texts that they name |
| `InventoryValidation.EmptyIdIsRefused` | experiments/reviewer_protocol_v2/exposure.py:93-97 | evidence that exposes the row with the empty id under a text other than its own makes any inventory invalid |
| `InventoryValidation.GuessDoesHarm` | experiments/reviewer_protocol_v2/exposure.py:93-97 | unique ids and nonempty normalized texts do not suffice: any row with an empty id and any other text that normalizes alike give an accepted addition that no inventory survives |
| `InventoryValidation.EmptyIdCanDoHarm` | experiments/reviewer_protocol_v2/exposure.py:93-97 | such a row and such an addition exist |
| `InventoryValidation.ExposureLedger` | experiments/reviewer_protocol_v2/exposure.py:316-353 | after validation each row is flagged directly if and only if some evidence names it, by group if and only if some exposed row has its source and group, and as near duplicate if and only if some exposed text matches it at 0.9 or more |
| `InventoryValidation.DirectExposureIsFlagged` | experiments/reviewer_protocol_v2/exposure.py:316-353 | with unique ids every directly exposed row is also flagged native-group and near-duplicate |
| `Transport.ParentTransport.Fail` | scripts/jev_rag_smoke_live_adapter.py:387-390 | the first failure is latched as the code, every failure is listed |
| `Transport.ParentTransport.OnParameters` | scripts/jev_rag_smoke_live_adapter.py:542-553 | only the first matching parameter check of the one dispatch passes |
| `Transport.ParentTransport.OnSend` | scripts/jev_rag_smoke_live_adapter.py:555-578 | at most one send is ever approved; any other is blocked and fails the transport |
| `Transport.ParentTransport.RunHooks` | scripts/jev_rag_smoke_live_adapter.py:542-578 | of all callback sequences exactly one passes the hooks: a matching check followed by a matching send |
| `Transport.ParentTransport.CloseResource` | scripts/jev_rag_smoke_live_adapter.py:689-703 | the closed flag is set only by a successful close; a lone defect propagates, a second one never replaces it |
| `Transport.ParentTransport.CheckMetadata` | scripts/jev_rag_smoke_live_adapter.py:580-640 | the failures of the metadata in their order: retries, version, fields |
| `Transport.ParentTransport.CheckLog` | scripts/jev_rag_smoke_live_adapter.py:642-683 | the log adds no failure exactly when it decodes completely |
| `Transport.EndsOnce` | scripts/jev_rag_smoke_live_adapter.py:705-745 | a stream ends in one way and after one number of reads only |
| `Transport.EndedExactly` | scripts/jev_rag_smoke_live_adapter.py:705-745 | it ends properly if and only if it delivers a body within the limit, and that body is everything delivered |
| `Transport.AskedExactly` | scripts/jev_rag_smoke_live_adapter.py:714-722 | a read asks for at most 8192 bytes and at most one byte more than may still come |
| `Transport.ParentTransport.ReadParts` | scripts/jev_rag_smoke_live_adapter.py:714-734 | the loop finds how the stream ends, keeps exactly what was delivered before, cut at the limit, and lists the failure of that end |
| `Transport.ParentTransport.ReadBody` | scripts/jev_rag_smoke_live_adapter.py:705-745 | the failures of reading and closing the body in their order, the defect that leaves it, and the flags; a body read to its end is the whole stream |
| `Transport.CleanMetadata` | scripts/jev_rag_smoke_live_adapter.py:580-640 | metadata adds no failure exactly when request id, HTTP status, retries, status, version and error are as required |
| `Transport.ParentTransport.Conclude` | scripts/jev_rag_smoke_live_adapter.py:752-777 | the failures of whatever the client did, in their order, and whether a defect propagates |
| `Transport.CleanOutcome` | scripts/jev_rag_smoke_live_adapter.py:752-777 | no failure and no propagated defect exactly for a good response |
| `Transport.ParentTransport.Judge` | scripts/jev_rag_smoke_live_adapter.py:784-792 | after a normal return the code is RETURNED exactly when nothing failed and the hooks passed, and otherwise the first failure |
| `Transport.ParentTransport.Attempt` | scripts/jev_rag_smoke_live_adapter.py:747-777 | hooks and response of the one dispatch, over every callback sequence and outcome |
| `Transport.ParentTransport.Use` | scripts/jev_rag_smoke_live_adapter.py:747-792 | the one use, from dispatch to the last test: all failures in their order, the code that is the first of them, and whether a defect propagates |
| `Transport.ParentTransport.InvokeOnce` | scripts/jev_rag_smoke_live_adapter.py:747-792 | a second use is refused without a change; the first lists exactly the failures that occur and is known by the first of them; it ends RETURNED if and only if the callbacks are exactly the permitted ones, the response is good and the client closes, and RETURNED implies one dispatch, one check, one approved send and the whole body |
| `TransportCodes.FirstFailure` | scripts/jev_rag_smoke_live_adapter.py:580-792 | the failure a use is known by: what is wrong first among retries, version, fields, log, body, its close and the close of the client |
| `TransportCodes.PropagatesExactly` | scripts/jev_rag_smoke_live_adapter.py:689-792 | a defect leaves the use exactly when it came from outside the service |
| `Transport.InvokeAndPublish` | scripts/jev_rag_smoke_operator.py:1088-1122 | after a normal return the clean conjunction of the publication says no more than the code, and holds exactly for one permitted send, a response that is good field by field, and no callback before the use |
| `Claims.StepKeeps` | scripts/jev_rag_smoke_preinvoke.py:270-302 | one step of any process, including a failure or a crash, keeps one owner per execution and the files of each process in their order |
| `Claims.RunsAreInvariant` | scripts/jev_rag_smoke_operator.py:1159-1269 | the invariant holds over every interleaving of any number of processes |
| `Claims.AtMostOneDispatch` | scripts/jev_rag_smoke_operator.py:1159-1269 | over every interleaving with failures and crashes anywhere, and whatever revisions of a plan are involved, a run id is dispatched at most once |
| `Claims.DispatchIsRecorded` | scripts/jev_rag_smoke_operator.py:1227-1269 | at any later time the claim, the inputs, the request and the attempt marker of a dispatch are complete and of its own plan |
| `Claims.RecordsComeFirst` | scripts/jev_rag_smoke_operator.py:1227-1269 | they are complete before the step that dispatches |
| `Claims.StepExtends` | scripts/jev_rag_smoke_operator.py:259-302 | no step removes a directory, changes a complete file or takes back a claim or a dispatch |
| `Claims.RunExtends` | scripts/jev_rag_smoke_operator.py:259-302 | the same over any continuation of a run |
| `Claims.AbandonedClaimBlocks` | scripts/jev_rag_smoke_preinvoke.py:270-302 | a claim whose process ended or crashed before dispatching blocks its run id for good, for every revision |
| `Claims.UndisturbedDispatches` | scripts/jev_rag_smoke_operator.py:1159-1269 | the guards are not vacuous: a valid plan of an unclaimed run, left alone, is claimed, recorded and dispatched |
| `Claims.Root.Open` | scripts/jev_rag_smoke_operator.py:259-262 | an exclusive open creates an empty file or changes nothing |
| `Claims.Root.Fill` | scripts/jev_rag_smoke_operator.py:259-265 | a successful write makes the file complete, a failed one leaves it partial |
| `Claims.Root.Execute` | scripts/jev_rag_smoke_operator.py:1159-1269 | the program of one process on the directory tree, with a failure of any system call: mkdir, the nine files in order, then the dispatch |
| `Claims.SoloRunRefines` | scripts/jev_rag_smoke_operator.py:1159-1269 | that sequential program refines the state machine: on any tree the moves of one process alone leave exactly its tree and its dispatch |
| `Agreement.CountsPartition` | experiments/reviewer_protocol_v2/analysis.py:22 | the label counts of a list add up to its length |
| `Agreement.ChanceBounds` | experiments/reviewer_protocol_v2/analysis.py:23-24 | chance agreement is between 0 and 1, and at most the mean of 1 and the observed agreement |
| `Agreement.CertainChance` | experiments/reviewer_protocol_v2/analysis.py:23-27 | expected agreement is 1 if and only if every rating of both sides is one and the same label |
| `Agreement.ChanceCounts` | experiments/reviewer_protocol_v2/analysis.py:22-24 | chance counts the pairs of places at which a rating of one side equals a rating of the other |
| `Agreement.CohenRange` | experiments/reviewer_protocol_v2/analysis.py:17-28 | Cohen's value lies in [-1, 1], is 1 exactly on full agreement, and is undefined exactly without data or with a single label throughout |
| `Agreement.CohenIsExact` | experiments/reviewer_protocol_v2/analysis.py:17-28 | the value freed of its denominators: kappa times (n squared minus chance) is n times the number of agreeing pairs, minus chance |
| `PanelAgreement.ScoreCases` | experiments/reviewer_protocol_v2/analysis.py:36-41 | a panel of three has six agreeing pairs when unanimous, two with a bare majority, none otherwise |
| `PanelAgreement.TotalSquared` | experiments/reviewer_protocol_v2/analysis.py:43-44 | Cauchy and Schwarz over the items for one label |
| `PanelAgreement.SquaresBound` | experiments/reviewer_protocol_v2/analysis.py:36-44 | expected agreement is bounded by observed agreement |
| `PanelAgreement.CertainSquares` | experiments/reviewer_protocol_v2/analysis.py:43-48 | expected agreement is 1 if and only if every rating is one and the same label |
| `PanelAgreement.SquaresCount` | experiments/reviewer_protocol_v2/analysis.py:43-44 | expected agreement counts the equal pairs among all ratings |
| `PanelAgreement.FleissRange` | experiments/reviewer_protocol_v2/analysis.py:31-49 | Fleiss' value for three raters lies in [-1/2, 1], is 1 exactly when every panel is unanimous, and is undefined exactly without data, with other than three raters, or with a single label throughout |
| `PanelAgreement.FleissIsExact` | experiments/reviewer_protocol_v2/analysis.py:31-49 | the value freed of its denominators, in terms of agreeing pairs of raters and equal pairs among all ratings |
| `ExternalAnalysis.MostCommon` | experiments/reviewer_protocol_v2/analysis.py:94-95 | the most common label of a panel occurs in it and no label occurs more often |
| `ExternalAnalysis.MajorityIsTwo` | experiments/reviewer_protocol_v2/analysis.py:92-97 | the majority is the one label that two of three raters gave |
| `ExternalAnalysis.Majorities` | experiments/reviewer_protocol_v2/analysis.py:92-97 | the loop records exactly the items with a majority, with it |
| `ExternalAnalysis.ScoresFromCounts` | experiments/reviewer_protocol_v2/analysis.py:36-41 | the agreeing pairs of raters are four times the unanimous panels plus twice those with a majority |
| `ExternalAnalysis.AnalyzeExternal` | experiments/reviewer_protocol_v2/analysis.py:52-122 | refuses exactly malformed inputs, and otherwise reports the coverage, unanimity, majority and owner-alignment counts of the complete items |
| `ExternalAnalysis.FleissFromCounts` | experiments/reviewer_protocol_v2/analysis.py:84-118 | the Fleiss value of an analysis follows from its counts: it is undefined for lack of data exactly when no item is complete and is 1 exactly when all complete items are unanimous |
| `Closure.StepProgresses` | scripts/lambda_package.py:480-503 | popping one requirement keeps every requirement that was stated either still to do or done |
| `Closure.VisitedIsReached` | scripts/lambda_package.py:504 | when nothing is left to do the visited distributions are exactly the reached ones and every requirement that matters is without fault |
| `Closure.Resolve` | scripts/lambda_package.py:478-506 | the worklist ends, cycles included; it succeeds if and only if every active requirement reachable from the declarations is supported and satisfied and the reached set is exactly the lock, and any other error it reports is that of a real fault |
| `Closure.DeclarationOrderIsIrrelevant` | scripts/lambda_package.py:478-479 | the outcome depends on which requirements are declared, not on their order |
| `ClosureMeaning.ReachedByChains` | scripts/lambda_package.py:480-503 | what is reached is exactly what some chain of applicable requirements leads to from the declarations |
| `ClosureMeaning.SatisfiedExactly` | scripts/lambda_package.py:480-503 | success in terms of chains: each requirement stated along one is decided, and if it applies it names a locked wheel of a fitting version without URL or extras |
| `ClosureMeaning.FaultSays` | scripts/lambda_package.py:484-500 | which error is reported of which requirement |
| `JsonTree.PushEntries` | scripts/jev_release_observation_capture.py:224-228 | a dictionary is pushed entry by entry and ends the check at the first bad key |
| `JsonTree.Visit` | scripts/jev_release_observation_capture.py:206-229 | one value off the stack is replaced by its children, or ends the check exactly when it is malformed in itself or too deep |
| `JsonTree.IsRepresentable` | scripts/jev_release_observation_capture.py:196-231 | the explicit-stack loop ends and is true if and only if every value in the tree is well-formed, nothing is deeper than 64 and there are at most 100000 values |
| `JsonPaths.RepresentableExactly` | scripts/jev_release_observation_capture.py:183-231 | told place by place: everything is good in itself, no place is deeper than 64, integers have at most so many digits, no text or key contains half of a surrogate pair, and a list of all places without repetition has at most 100000 entries |
| `Capture.Publisher.Write` | scripts/jev_release_observation_capture.py:503-541 | a file is listed exactly when it was written in full, never twice, and every failure is listed |
| `Capture.Judge` | scripts/jev_release_observation_capture.py:671-760 | the first thing that is wrong with a reply: its content, then the clocks, then what it should say; nothing is wrong exactly for a good reply at a valid time |
| `Capture.Session.Begin` | scripts/jev_release_observation_capture.py:651-664 | why a call is not made, if it is not: client, clock, order of starts, monotonic clock; the call limit itself never stops a valid plan |
| `Capture.Session.Publish` | scripts/jev_release_observation_capture.py:761-793 | the record when accepted, and the observation whatever happened; the first failure of the two is reported |
| `Capture.Session.Observe` | scripts/jev_release_observation_capture.py:644-806 | the exact ending of one read; a call that was made has its observation file unless publication failed |
| `Capture.ReturnedExactly` | scripts/jev_release_observation_capture.py:644-806 | a read returns if and only if it could start, was accepted and was fully published |
| `Capture.Session.Perform` | scripts/jev_release_observation_capture.py:808-812 | the run ends as the first read that does not return, with exactly the calls and records made until then |
| `Capture.Capture` | scripts/jev_release_observation_capture.py:815-904 | the status, the number of calls, the records and the verified account of every capture; COMPLETE if and only if plan file, every call and index went well, and then one record per planned role in order, with strictly increasing start times and exactly the expected files |
| `CaptureMeaning.SmoothMeans` | scripts/jev_release_observation_capture.py:644-806 | what a complete capture says of each call: client, clocks, order of starts, a bounded dictionary after no retry and as expected, received no earlier than asked for, and its files written |
| `CaptureMeaning.FilesExactly` | scripts/jev_release_observation_capture.py:503-541 | the files of a complete capture: the plan, one numbered observation for each call and one record for each call but the first |
| `Chunks.ChunkText` | app/services/build_index.py:33-44 | the loop computes the windows of at least 20 words and ends |
| `Chunks.ChunkAt` | app/services/build_index.py:37-43 | chunk k exists if and only if at least 20 words follow its start at k times size minus overlap, and holds the words from there, as many as a chunk takes |
| `Chunks.WindowsRejoin` | app/services/build_index.py:37-43 | a window too short to be kept adds nothing: the one before already reaches the end |
| `Chunks.ChunkAndRejoin` | app/services/build_index.py:33-44 | for the default sizes and all others that suffice, every chunk has 20 to size words and the first chunk followed by each later one minus the overlap gives back the words |
| `Chunks.LastWordIsLost` | app/services/build_index.py:40-43 | with an overlap below 19 the last word of a list one longer than a chunk is lost |
| `Chunks.LosslessExactly` | app/services/build_index.py:33-44 | every list of at least 20 words can be put together again if and only if the chunk size is at least 20 and the overlap at least 19 |
| `Chunks.EndsExactly` | app/services/build_index.py:37-43 | some round of the loop starts past the end if and only if there are no words or the overlap is below the chunk size |

## Left out

- Float rounding: similarity scores, kappa values and the hexadecimal form of scores are exact here; a double near 0.90 may decide differently.
- Constraints.ConstraintSummary: leaves out two reporting fields of `constraint_summary` that decide nothing: conflicts by pairs of strata and distinct native groups.
- SmokePolicyObject.SmokePolicy.Activate: leaves out the checks of query and path, the one-use flag and the making of the claim directory, which come before any budget is at stake; `Claims` models exclusive creation of a directory.
- Consumer.InspectAccounting: leaves out the checks of answer, citations, retrieval and text formats, which do not read the accounting.
- Transport.ParentTransport.CheckLog: takes the outcome of decoding as a value; the base64 and size tests behind it are not modelled.
- The display labels of strata are identified with the registered pairs; the two-way table between them is not modelled.
- SHA-256, canonical JSON, Unicode normalization and regular expressions as algorithms.
- Configuration and schema checks field by field, path checks of directories and claims, `bind_clients`, and reading of index and metadata objects.
- Length and count limits of the operator on numbers, events and extra requests: idealised away.
- A second `invoke` from inside a callback of the first, and KeyboardInterrupt inside the policy: outside the modelled steps.
- InventoryBuilding.InventoryBuilder.Finish: lists references and outside texts in order of first occurrence, where the code sorts by digest; the check does not depend on that order. Item categories and timestamps are not modelled.
- InventoryValidation.ExposureLedger: leaves out the list of matches and the maximum similarity of a row, keeping whether there is a match.
- `read_response` of the operator: the same loop as the transport's bounded read, which is modelled.
- Interleaved processes are a state machine over values, one step per system call (`Claims.Root` is the program of one process on a tree it changes in place). All processes share one root, and the run of the transport inside a dispatch is one step (`Transport` models it).
- Contents of response metadata, log parsing and report grammar: only the tests that decide a failure are modelled.
- ExternalAnalysis.AnalyzeExternal: leaves out the pairwise and per-reviewer tables and the packet diagnostics; their kappa values are those of `CohenRange`.
- Closure.Resolve: leaves out the inspection of wheel archives, collisions of installed files and canonical names: the worklist starts from parsed requirements.
- JsonTree.IsRepresentable: leaves out values that contain themselves; a model value is a finite tree, the code bounds such values by depth and count.
- Capture.Capture: leaves out timestamps, SDK settings and the contents of the index record, except for what decides the status.
- Joining and splitting of text into words: chunks are lists of words.
- Evaluation, routing, retrieval, summarizing and judging code: wrappers over models with little logic of their own.
