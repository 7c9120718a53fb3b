# xscape Pareto reconciliation in Dafny

This project models the core of xscape: the memoized dynamic program that reconciles a parasite tree with a host tree. Neither tree carries timing. The program reports the Pareto frontier of event-count vectors (cospeciations c, duplications d, switches s, losses l, plus a multiplicity count) for user ranges of the switch and loss costs.

It has four parts.

- **Frontier maintenance (`Frontier`).** `paretoFilter` and its steps in their fixed order:
  - cost-range pruning (`CVfilter`);
  - coalescing of equal tuples with summed counts;
  - lexicographic sort;
  - the adjacent-pair prefilter;
  - the minimality check against the range-filtered list.

  Each step is written both as a specification function and as a method with the source's loops, and the method is proved equal to the function. The prefilter can drop a vector that is on the frontier (see "## Findings"). So `paretoFilter` is modelled twice: as written (`ParetoAsWritten`, `ParetoFilterAsWritten`), and without the prefilter (`Pareto`, `ParetoFilter`). Only the second is proved complete, and the dynamic programs use it.
- **Host-tree index (`Trees`, `ReconcileEngine`).**
  - Trees are maps from edge names to (start, end, left child, right child) plus the dictionary's enumeration order.
  - `descendants` is a function.
  - `ancestorsAndDescendants` fills the solver's `Ancestors` and `Descendants` fields in loops.
- **The dynamic program (`ReconcileSpec`, `ReconcileProperties`, `MemoTables`, `ReconcileEngine`).**
  - The A table (`aliveEdgeCost`), the C table (`optimalEdgeCost`), the switch landing lists (`switches`) and `reconcile` are pure functions.
  - The class `ReconcileAlgorithm` holds the `Amemo`, `Cmemo` and `Bestmemo` maps. Its methods are proved to return those functions' values and to store only entries that agree with them. They are also proved to keep every entry already stored. Each call leaves its own pair stored, except in the base cases the source returns without storing.
- **Event provenance (`Provenance`, `EventsSpec`, `EventTables`, `EventsEngine`).**
  - The subclass that records, for every kept vector, the set of events it was built from.
  - It rejects new vectors that a candidate list strictly dominates.
  - In intersection mode it keeps, per cost tuple, the events common to every sighting.
  - Its A and C values, and its `reconcile` result, are proved equal to the plain solver's. A switch there merges with each landing list in turn, so its candidate lists hold the same vectors in another order, and the frontier is proved not to depend on the order of its input.

The cost vector type lives in `CostVectors`. Its module is not part of this model, so its operators are given meanings here:

- `+` adds componentwise and multiplies the counts;
- `unit * list` adds `unit` to every element;
- `<` is strict Pareto dominance on (c, d, s, l);
- `lex` is lexicographic order on (c, d, s, l);
- the infeasible vector `(INF, INF, INF, INF, 0)` is an explicit `Infinite` cost rather than a float.

## Model

| member | source | states |
|---|---|---|
| CostVectors.Add | python/xscape/reconcile.py:154 | the sum is infeasible exactly when either operand is, and its count is the product of the counts |
| CostVectors.AddAssociative | python/xscape/reconcileEvents.py:166 | `unit + v + w` groups either way, so the event solver's sum equals the plain solver's `unit * (v + w)` |
| CostVectors.DominatesIrreflexive | python/xscape/ReconcileAlgorithm.py:116-120 | no cost tuple strictly dominates itself |
| CostVectors.DominatesTransitive | python/xscape/ReconcileAlgorithm.py:116-120 | strict dominance is transitive |
| CostVectors.DominatesImpliesLexLess | python/xscape/ReconcileAlgorithm.py:69-80 | a dominating tuple comes earlier in lexicographic order |
| CostVectors.LexLessTrichotomy | python/xscape/ReconcileAlgorithm.py:69 | lexicographic order is a strict total order on tuples |
| CostVectors.LexLessTransitive | python/xscape/ReconcileAlgorithm.py:69 | lexicographic order is transitive |
| CostVectors.Shift | python/xscape/reconcile.py:83-94 | `unit * list` has the list's length and element i is unit + list[i] |
| CostVectors.MergedAt | python/xscape/reconcile.py:148-155 | `merge` returns \|L1\|·\|L2\| vectors, and position i·\|L2\|+j holds L1[i] + L2[j] (row-major) |
| CostVectors.MergedMembers | python/xscape/reconcile.py:148-155 | x is in the merge iff x = v + w for some v in L1 and w in L2 |
| CostVectors.MergedNonEmpty | python/xscape/reconcile.py:148-155 | two non-empty lists merge to a non-empty list |
| Frontier.LowAtMostHigh | python/xscape/ReconcileAlgorithm.py:88-91 | with ordered ranges a vector's low weighted cost is at most its high one |
| Frontier.LeastHighCost | python/xscape/ReconcileAlgorithm.py:88 | LUB is at most every vector's high cost and is attained by one of them |
| Frontier.CheapSublist | python/xscape/ReconcileAlgorithm.py:89-93 | the kept vectors form an order-preserving sublist, and v is kept iff its low cost is at most the bound |
| Frontier.RangeFilteredSpec | python/xscape/ReconcileAlgorithm.py:82-94 | `CVfilter` returns [] on [], otherwise a sublist of its input holding exactly the vectors whose low cost (d + l·lossLo + s·switchLo) is at most the least high cost (d + s·switchHi + l·lossHi) |
| Frontier.RangeFilteredKeepsCheapest | python/xscape/ReconcileAlgorithm.py:88-93 | with valid ranges a vector attaining the least high cost is kept, so the result is non-empty |
| Frontier.RangeFilteredNonEmpty | python/xscape/ReconcileAlgorithm.py:86-94 | non-empty input gives non-empty output under valid ranges |
| Frontier.RangeFilteredMonotone | python/xscape/ReconcileAlgorithm.py:88-93 | widening both cost ranges never removes a kept vector |
| Frontier.HighCostMonotone | python/xscape/ReconcileAlgorithm.py:88 | raising the upper bounds does not lower a high cost |
| Frontier.LowCostMonotone | python/xscape/ReconcileAlgorithm.py:91 | lowering the lower bounds does not raise a low cost |
| Frontier.CVfilter | python/xscape/ReconcileAlgorithm.py:82-94 | the append loop returns exactly the range-filtered list |
| Frontier.Tuples | python/xscape/ReconcileAlgorithm.py:99-106 | the dictionary's keys are pairwise distinct and are exactly the tuples of the input |
| Frontier.CoalescedSpec | python/xscape/ReconcileAlgorithm.py:96-111 | coalesced tuples are pairwise distinct, are exactly the input's tuples, and each count is the sum of the input counts with that tuple |
| Frontier.CoalescedConservesCount | python/xscape/ReconcileAlgorithm.py:100-106 | total multiplicity is conserved by coalescing |
| Frontier.CoalescedNonEmpty | python/xscape/ReconcileAlgorithm.py:96-111 | a non-empty list coalesces to a non-empty list |
| Frontier.CoalesceDuplicates | python/xscape/ReconcileAlgorithm.py:96-111 | the counting loop and the output loop return exactly the coalesced list |
| Frontier.VectorsOf | python/xscape/ReconcileAlgorithm.py:107-111 | one vector per key, carrying that key's accumulated count |
| Frontier.TupleToCV | python/xscape/ReconcileAlgorithm.py:113-114 | the vector has the given tuple and count |
| Frontier.Insert | python/xscape/ReconcileAlgorithm.py:69 | insertion keeps the multiset of vectors |
| Frontier.InsertSorted | python/xscape/ReconcileAlgorithm.py:69 | inserting a new tuple into a lex-sorted list keeps it sorted |
| Frontier.SortLex | python/xscape/ReconcileAlgorithm.py:69 | the sort is a permutation |
| Frontier.SortLexSorted | python/xscape/ReconcileAlgorithm.py:69 | on distinct tuples the sort yields strictly increasing lexicographic order |
| Frontier.Prefiltered | python/xscape/ReconcileAlgorithm.py:71-76 | the prefilter always keeps the first sorted vector |
| Frontier.PrefilteredSublist | python/xscape/ReconcileAlgorithm.py:71-76 | the prefilter keeps an order-preserving sublist |
| Frontier.KeepUndominatedSublist | python/xscape/ReconcileAlgorithm.py:77-79 | the final loop keeps a sublist, and v is kept iff no vector of the range-filtered list dominates it |
| Frontier.SortedUnique | python/xscape/ReconcileAlgorithm.py:67-69 | a non-empty list stays non-empty after filtering, coalescing and sorting |
| Frontier.SortedUniqueMembers | python/xscape/ReconcileAlgorithm.py:67-69 | the sorted coalesced list is lex-sorted, holds exactly the filtered tuples, and carries their summed counts |
| Frontier.ParetoMembers | python/xscape/ReconcileAlgorithm.py:65-80 | the corrected frontier `Pareto` is a sublist of the sorted coalesced list; no range-filtered vector dominates an output vector; each output vector has its tuple's summed count |
| Frontier.ParetoExactly | python/xscape/ReconcileAlgorithm.py:67-79 | without the prefilter, a sorted coalesced vector is on the frontier iff no vector of the range-filtered list dominates it (sound and complete) |
| Frontier.AsWrittenWithinPareto | python/xscape/ReconcileAlgorithm.py:65-80 | every vector `paretoFilter` returns as written is on the frontier, so the prefilter can only lose vectors |
| Frontier.ParetoCostsFromInput | python/xscape/ReconcileAlgorithm.py:65-80 | every output tuple occurs in the input |
| Frontier.FirstUndominated | python/xscape/ReconcileAlgorithm.py:69-79 | the lexicographically least vector is never dominated |
| Frontier.ParetoNonEmpty | python/xscape/ReconcileAlgorithm.py:65-80 | non-empty input gives non-empty output that includes the least vector |
| Frontier.ParetoFrontierShape | python/xscape/ReconcileAlgorithm.py:65-80 | output vectors are mutually non-dominating and lex-sorted |
| Frontier.ParetoLone | python/xscape/ReconcileAlgorithm.py:70 | a lone coalesced vector is returned as is |
| Frontier.ParetoInfeasibleEmpty | python/xscape/ReconcileAlgorithm.py:65-80 | if infeasible vectors in the input have count 0, so do those in the output |
| Frontier.ParetoInfeasibleAlone | python/xscape/ReconcileAlgorithm.py:65-80 | an infeasible output vector means the filtered input was all infeasible and the output is the single infeasible vector |
| Frontier.ParetoInfeasible | python/xscape/ReconcileAlgorithm.py:65-80 | one feasible input vector makes every output vector feasible; otherwise the output is [infeasible] |
| Frontier.PrefilterDropsMinimal | python/xscape/ReconcileAlgorithm.py:71-79 | on [(0,0,1,1,1), (1,0,0,0,1)] with ranges [0, 1], `paretoFilter` as written returns only the first vector, although no input vector dominates the second, which the frontier keeps |
| Frontier.CountForPermutation | python/xscape/ReconcileAlgorithm.py:100-106 | the summed count of a tuple is the same for any reordering of the list |
| Frontier.RangeFilteredPermutation | python/xscape/ReconcileAlgorithm.py:82-94 | `CVfilter` of a reordered list keeps the same vectors with the same multiplicities |
| Frontier.SortedUniquePermutation | python/xscape/ReconcileAlgorithm.py:67-69 | filtering, coalescing and sorting a reordered list gives exactly the same list |
| Frontier.ParetoPermutation | python/xscape/ReconcileAlgorithm.py:65-80 | the frontier of a reordered list is exactly the same list: it depends only on which vectors the input holds and how often |
| Frontier.ParetoLeastHighCost | python/xscape/ReconcileAlgorithm.py:82-94 | the frontier has the same least high cost `LUB` as the list it came from: a vector of least high cost that nothing dominates is always kept |
| Frontier.ParetoIdempotent | python/xscape/ReconcileAlgorithm.py:65-80 | filtering a frontier again returns it unchanged |
| Frontier.Minimal | python/xscape/ReconcileAlgorithm.py:116-120 | returns true iff no vector in the list strictly dominates v |
| Frontier.ParetoFilter | python/xscape/ReconcileAlgorithm.py:65-80 | the steps without the prefilter return exactly the frontier `Pareto` |
| Frontier.ParetoFilterAsWritten | python/xscape/ReconcileAlgorithm.py:65-80 | the steps as written, prefilter included, return exactly `ParetoAsWritten` |
| Frontier.AdjacentPrefilter | python/xscape/ReconcileAlgorithm.py:71-76 | the loop returns exactly the prefiltered list |
| Frontier.KeepMinimal | python/xscape/ReconcileAlgorithm.py:77-79 | the loop returns exactly the undominated candidates |
| Trees.Rank | python/xscape/ReconcileAlgorithm.py:122-128 | a well-formed tree has a ranking in which children rank below their parent (the termination measure) |
| Trees.LeftChildEdge | python/xscape/ReconcileAlgorithm.py:156-158 | a present left child is an edge of the tree ranked below its parent |
| Trees.RightChildEdge | python/xscape/ReconcileAlgorithm.py:160-162 | a present right child is an edge of the tree ranked below its parent |
| Trees.TipHasNoChildren | python/xscape/ReconcileAlgorithm.py:144-146 | in a well-formed tree an edge is a tip iff it has no right child either |
| Trees.Left | python/xscape/ReconcileAlgorithm.py:156-158 | an internal edge's left child is an edge ranked below it |
| Trees.Right | python/xscape/ReconcileAlgorithm.py:160-162 | an internal edge's right child is an edge ranked below it |
| Trees.Descendants | python/xscape/ReconcileAlgorithm.py:122-128 | every listed descendant is an edge of the tree ranked strictly below e |
| Trees.NotOwnDescendant | python/xscape/ReconcileAlgorithm.py:122-128 | no edge is its own descendant or its own ancestor |
| Trees.DescendantsTransitive | python/xscape/ReconcileAlgorithm.py:122-128 | a descendant of a descendant is a descendant |
| ReconcileSpec.AliveCost | python/xscape/reconcile.py:103-146 | the A value is never empty |
| ReconcileSpec.AliveCandidates | python/xscape/reconcile.py:118-144 | cospeciation plus both losses is never empty |
| ReconcileSpec.LossCosts | python/xscape/reconcile.py:135-142 | the loss candidates are never empty |
| ReconcileSpec.OptimalCost | python/xscape/reconcile.py:67-100 | the C value is never empty |
| ReconcileSpec.OptimalCandidates | python/xscape/reconcile.py:72-98 | pass-through, duplication and switches together are never empty |
| ReconcileSpec.TopCostsNonEmpty | python/xscape/reconcile.py:61-63 | a non-empty host gives a non-empty union at pTop, so `paretoFilter` is never given [] |
| ReconcileProperties.AliveAtHostTip | python/xscape/reconcile.py:108-113 | on a host tip A is [(0,0,0,0,1)] iff ep is a tip mapped to eh's end vertex; otherwise it is the single infeasible vector |
| ReconcileProperties.OptimalAtParasiteTip | python/xscape/reconcile.py:73-76 | C on a parasite tip equals A for the same pair |
| ReconcileProperties.SelfIsSwitchTarget | python/xscape/ReconcileAlgorithm.py:57-59 | a switch may land on eh itself, never on a strict descendant or ancestor of eh |
| ReconcileProperties.SwitchesMembers | python/xscape/ReconcileAlgorithm.py:51-62 | v is in the landing list iff v is in C(ep, e') for some host edge e' outside Ancestors[eh] and Descendants[eh] |
| ReconcileProperties.SwitchesIncludeSelf | python/xscape/reconcile.py:163-167 | C(ep, eh) itself is part of the landing list of (ep, eh) |
| ReconcileProperties.TopCostsMembers | python/xscape/reconcile.py:61-63 | v is in the union iff v is in C(pTop, e) for some host edge e |
| ReconcileProperties.AccountedShift | python/xscape/reconcile.py:83-94 | tagging a list with a speciation unit raises c + d + s by one |
| ReconcileProperties.AccountedMerged | python/xscape/reconcile.py:148-155 | merged vectors carry the summed c + d + s of both sides |
| ReconcileProperties.AccountedAdd | python/xscape/reconcile.py:154 | c + d + s of a sum is the sum of both |
| ReconcileProperties.AccountedAppend | python/xscape/reconcile.py:96 | concatenation keeps a shared c + d + s |
| ReconcileProperties.AccountedPareto | python/xscape/ReconcileAlgorithm.py:65-80 | the corrected frontier `Pareto` keeps a shared c + d + s |
| ReconcileProperties.AliveAccounted | python/xscape/reconcile.py:103-146 | every feasible vector of A(ep, eh) has c + d + s equal to the number of internal edges below ep |
| ReconcileProperties.AliveAtHostTipAccounted | python/xscape/reconcile.py:108-113 | the same holds for the host-tip base case |
| ReconcileProperties.AliveCandidatesAccounted | python/xscape/reconcile.py:118-144 | the same holds for the A candidates |
| ReconcileProperties.CospeciationAccounted | python/xscape/reconcile.py:119-133 | the same holds for both cospeciation pairings |
| ReconcileProperties.LossAccounted | python/xscape/reconcile.py:135-142 | the same holds for both losses |
| ReconcileProperties.OptimalAccounted | python/xscape/reconcile.py:67-100 | every feasible vector of C(ep, eh) has c + d + s equal to the number of internal edges below ep |
| ReconcileProperties.OptimalCandidatesAccounted | python/xscape/reconcile.py:72-98 | the same holds for the C candidates |
| ReconcileProperties.DuplicationAccounted | python/xscape/reconcile.py:82-85 | the same holds for duplication |
| ReconcileProperties.SwitchCostsAccounted | python/xscape/reconcile.py:87-96 | the same holds for both switch directions |
| ReconcileProperties.SwitchesAccounted | python/xscape/reconcile.py:157-169 | each landing list carries the c + d + s of ep's subtree |
| ReconcileProperties.TopCostsAccounted | python/xscape/reconcile.py:61-63 | the union at pTop carries the c + d + s of the whole parasite tree |
| ReconcileProperties.ParetoIsFrontier | python/xscape/ReconcileAlgorithm.py:65-80 | on a list with constant c + d + s, the corrected frontier `Pareto` returns a frontier: lex-sorted, mutually non-dominating, and infeasible only as the single infeasible vector |
| ReconcileProperties.OptimalIsFrontier | python/xscape/reconcile.py:67-100 | every C value is such a frontier |
| ReconcileProperties.AliveIsFrontier | python/xscape/reconcile.py:103-146 | every A value is such a frontier |
| ReconcileProperties.SingletonIsFrontier | python/xscape/reconcile.py:111-113 | the base-case singletons are frontiers |
| ReconcileProperties.ReconciledIsFrontier | python/xscape/reconcile.py:55-65 | `reconcile` returns a frontier whose feasible vectors have c + d + s equal to the internal edges of the parasite tree |
| ReconcileProperties.ReconciledFromTop | python/xscape/reconcile.py:55-65 | every reported tuple is a tuple of C(pTop, e) for some host edge e |
| MemoTables.AliveLookup | python/xscape/reconcile.py:106-113 | a stored A entry is the A value of its pair, and no host-tip pair is ever stored (that case returns before the store) |
| MemoTables.OptimalLookup | python/xscape/reconcile.py:70-76 | a stored C entry is the C value of its pair, and no parasite-tip pair is ever stored (that case returns before the store) |
| MemoTables.SwitchLookup | python/xscape/reconcile.py:161 | a stored Best entry is the landing list of its pair |
| MemoTables.IndexedLanding | python/xscape/ReconcileAlgorithm.py:57-59 | with the index built, "not in Ancestors[eh] and not in Descendants[eh]" is exactly the switch-target rule |
| MemoTables.AliveEntryStored | python/xscape/reconcile.py:145 | storing A(ep, eh) for a non-tip host edge keeps the A table sound |
| MemoTables.OptimalEntryStored | python/xscape/reconcile.py:99 | storing C(ep, eh) for a non-tip parasite edge keeps the C table sound |
| MemoTables.AliveStored | python/xscape/reconcile.py:145 | storing the A value keeps every table sound |
| MemoTables.OptimalStored | python/xscape/reconcile.py:99 | storing the C value keeps every table sound |
| MemoTables.SwitchStored | python/xscape/reconcile.py:168 | storing the landing list keeps every table sound |
| MemoTables.ReadyTablesRetain | python/xscape/reconcile.py:70 | between two sound states whose keys only grew, every stored entry is unchanged, so a memoized value is never overwritten with a different one |
| ReconcileEngine.ReconcileAlgorithm.constructor | python/xscape/ReconcileAlgorithm.py:27-49 | a new solver has the given cost ranges and empty tables and index |
| ReconcileEngine.ReconcileAlgorithm.Reconcile | python/xscape/reconcile.py:55-65 | returns the corrected frontier `Pareto` of the union of C(pTop, eh) over host edges in enumeration order, and leaves the tables sound |
| ReconcileEngine.ReconcileAlgorithm.TopSolutions | python/xscape/reconcile.py:61-63 | the loop builds the union of C(pTop, eh) over every host edge in order |
| ReconcileEngine.ReconcileAlgorithm.AncestorsAndDescendants | python/xscape/ReconcileAlgorithm.py:130-142 | afterwards Descendants[e] is the descendant list of e, d is in Descendants[e] exactly when e is in Ancestors[d], and tips have empty descendant lists |
| ReconcileEngine.ReconcileAlgorithm.StoreDescendants | python/xscape/ReconcileAlgorithm.py:136-137 | every edge's descendant list is stored |
| ReconcileEngine.ReconcileAlgorithm.ResetAncestors | python/xscape/ReconcileAlgorithm.py:139 | every ancestor list starts empty |
| ReconcileEngine.ReconcileAlgorithm.AddAncestor | python/xscape/ReconcileAlgorithm.py:140-142 | after visiting e, a is listed above d iff a is among the visited edges and d is a descendant of a |
| ReconcileEngine.ReconcileAlgorithm.OptimalEdgeCost | python/xscape/reconcile.py:67-100 | returns C(ep, eh) whether or not it was stored; the tables stay sound and keep every earlier key; afterwards (ep, eh) is in Cmemo exactly when ep is not a parasite tip (lines 73-76 return before the store) |
| ReconcileEngine.ReconcileAlgorithm.OptimalChoices | python/xscape/reconcile.py:78-100 | the corrected frontier `Pareto` of pass-through, duplication and both switch directions is C(ep, eh); tables sound, earlier keys kept |
| ReconcileEngine.ReconcileAlgorithm.StoreOptimal | python/xscape/reconcile.py:99 | Cmemo gains exactly the entry (ep, eh) := C(ep, eh); the tables stay sound and keep every earlier key |
| ReconcileEngine.ReconcileAlgorithm.Duplicate | python/xscape/reconcile.py:82-85 | returns (0,1,0,0,1) * merge(C(left, eh), C(right, eh)); tables sound, earlier keys kept |
| ReconcileEngine.ReconcileAlgorithm.SwitchOneWay | python/xscape/reconcile.py:87-94 | returns (0,0,1,0,1) * merge(C(stay, eh), switches(leave, eh)); tables sound, earlier keys kept |
| ReconcileEngine.ReconcileAlgorithm.AliveEdgeCost | python/xscape/reconcile.py:103-146 | returns A(ep, eh) whether or not it was stored; the tables stay sound and keep every earlier key; afterwards (ep, eh) is in Amemo exactly when eh is not a host tip (lines 108-113 return before the store) |
| ReconcileEngine.ReconcileAlgorithm.AliveChoices | python/xscape/reconcile.py:114-146 | the corrected frontier `Pareto` of cospeciation and both losses is A(ep, eh); tables sound, earlier keys kept |
| ReconcileEngine.ReconcileAlgorithm.StoreAlive | python/xscape/reconcile.py:145 | Amemo gains exactly the entry (ep, eh) := A(ep, eh); the tables stay sound and keep every earlier key |
| ReconcileEngine.ReconcileAlgorithm.Cospeciation | python/xscape/reconcile.py:118-133 | infeasible singleton for a parasite tip, else both pairings tagged (1,0,0,0,1); tables sound, earlier keys kept |
| ReconcileEngine.ReconcileAlgorithm.Switches | python/xscape/ReconcileAlgorithm.py:51-62 | returns the landing list of (ep, eh) whether or not it was stored; afterwards (ep, eh) is in Bestmemo, and the tables stay sound and keep every earlier key |
| ReconcileEngine.ReconcileAlgorithm.Landings | python/xscape/reconcile.py:162-169 | the loop over host edges concatenates C(ep, e') for every switch target e' in enumeration order; tables sound, earlier keys kept |
| ReconcileEngine.ReconcileAlgorithm.Landing | python/xscape/reconcile.py:163-167 | one host edge adds C(ep, e') to the landing list iff it is a switch target; tables sound, earlier keys kept |
| ReconcileEngine.ReconcileAlgorithm.StoreSwitches | python/xscape/reconcile.py:168 | Bestmemo gains exactly the entry (ep, eh) := switches(ep, eh); the tables stay sound and keep every earlier key |
| ReconcileEngine.ReconcileAlgorithm.PutAmemo | python/xscape/reconcile.py:145 | the dictionary assignment changes only the (ep, eh) entry of Amemo and keeps every key |
| ReconcileEngine.ReconcileAlgorithm.PutCmemo | python/xscape/reconcile.py:99 | the dictionary assignment changes only the (ep, eh) entry of Cmemo and keeps every key |
| ReconcileEngine.ReconcileAlgorithm.PutBestmemo | python/xscape/reconcile.py:168 | the dictionary assignment changes only the (ep, eh) entry of Bestmemo and keeps every key |
| ReconcileEngine.ReconcileAlgorithm.Merge | python/xscape/reconcile.py:148-155 | the nested loops return the row-major pairwise sums |
| Provenance.Get | python/xscape/reconcileEvents.py:38-39 | a missing key of a defaultdict(set) reads as the empty set |
| Provenance.SourceEventsCovers | python/xscape/reconcileEvents.py:185-187 | every contributing sub-solution's events are part of the union |
| Provenance.RecordedProvenance | python/xscape/reconcileEvents.py:179-197 | after recording a kept vector: its event set holds the event itself and the events of each contributing sub-solution; it lies in the events of its (ep, eh, cost); a first sighting sets the common set, and a later one intersects it |
| Provenance.RecordedGrew | python/xscape/reconcileEvents.py:184-197 | recording never removes an event from the all-events table, never forgets a seen cost, and only shrinks a common set |
| Provenance.RecordedWellFormed | python/xscape/reconcileEvents.py:184-197 | recording keeps the records well formed: each event lies in its own set, each event set lies in its solution's set, and the seen costs are the common-set keys |
| Provenance.GrewReflexive | python/xscape/reconcileEvents.py:188 | the growth relation holds of an unchanged record |
| Provenance.GrewTransitive | python/xscape/reconcileEvents.py:188 | growth composes over successive updates |
| Provenance.RecordedExtends | python/xscape/reconcileEvents.py:184-197 | one recording keeps the records well formed and grown |
| Provenance.ExtendsTransitive | python/xscape/reconcileEvents.py:184-197 | successive recordings do too |
| Provenance.RowRecordedExtends | python/xscape/reconcileEvents.py:164-197 | a row of `merge` keeps the records well formed and grown |
| Provenance.MergeRecordedExtends | python/xscape/reconcileEvents.py:152-198 | a whole `merge` keeps the records well formed and grown |
| Provenance.LossRecordedExtends | python/xscape/reconcileEvents.py:200-233 | a whole `lossmerge` keeps the records well formed and grown |
| Provenance.SurvivorsMembers | python/xscape/reconcileEvents.py:171-178 | a vector survives iff it was formed and no candidate strictly dominates it; survivors are never more numerous than the formed vectors |
| Provenance.SurvivorsOfNone | python/xscape/reconcileEvents.py:171-178 | with no candidates every formed vector survives |
| Provenance.SurvivorsAppend | python/xscape/reconcileEvents.py:171-178 | rejection is decided vector by vector |
| EventsSpec.EvAliveCost | python/xscape/reconcileEvents.py:61-109 | the A value of the event solver is never empty |
| EventsSpec.EvAliveCandidates | python/xscape/reconcileEvents.py:75-107 | cospeciation plus both losses is never empty |
| EventsSpec.EvOptimalCost | python/xscape/reconcileEvents.py:111-150 | the C value of the event solver is never empty |
| EventsSpec.EvOptimalCandidates | python/xscape/reconcileEvents.py:116-147 | pass-through, duplication and switches together are never empty |
| EventsSpec.EvTopCosts | python/xscape/reconcileEvents.py:51-53 | a non-empty host gives a non-empty union at pTop |
| EventsSpec.MergeOutputWithoutCandidates | python/xscape/reconcileEvents.py:163-178 | with no candidates `merge` returns unit + v + w for every pair, \|L1\|·\|L2\| vectors in row-major order, equal to the plain solver's `unit * merge(L1, L2)` |
| EventsSpec.MergedShifted | python/xscape/reconcileEvents.py:165-170 | adding the unit to each left vector before merging equals tagging the merge afterwards |
| EventsSpec.MergeOutputMembers | python/xscape/reconcileEvents.py:163-178 | v is returned by `merge` iff v = unit + v1 + w for some pair and no candidate strictly dominates v |
| EventsSpec.LossOutputMembers | python/xscape/reconcileEvents.py:207-217 | v is returned by `lossmerge` iff v = (0,0,0,1,1) + v1 for some input v1 and no candidate strictly dominates v |
| EventsSpec.AllSwitchesSound | python/xscape/reconcileEvents.py:235-246 | every pair of `allSwitches` is (e', C(ep, e')) for a listed host edge e' outside Ancestors[eh] and Descendants[eh] |
| EventsSpec.AllSwitchesComplete | python/xscape/reconcileEvents.py:240-244 | every listed switch target appears in some pair |
| EventsSpec.TipCasesAgree | python/xscape/reconcileEvents.py:65-70 | the host-tip A value is the plain solver's, and C on a parasite tip equals A |
| EventsSpec.ParasiteTipAgree | python/xscape/reconcileEvents.py:61-120 | for a parasite tip ep and every host edge eh, the event solver's A(ep, eh) and C(ep, eh) equal the plain solver's |
| EventsSpec.MergedAppendRight | python/xscape/reconcileEvents.py:135-138 | merging a list with a concatenation yields the vectors of the two separate merges, with the same multiplicities |
| EventsSpec.SwitchMergesLanded | python/xscape/reconcileEvents.py:132-145 | merging the staying child's list with each landing list in turn, tagged by the switch, yields the vectors of the plain solver's switch-tagged merge with the concatenated landing lists |
| EventsSpec.LandedSwitches | python/xscape/reconcileEvents.py:235-246 | where both solvers agree on C(ep, e'), the landing lists of `allSwitches` concatenate to the plain `switches` list |
| EventsSpec.AliveCandidatesAgree | python/xscape/reconcileEvents.py:75-107 | once C agrees on the child pairs and on (ep, child of eh), A's cospeciation and loss candidates are the plain solver's list |
| EventsSpec.OptimalCandidatesAgree | python/xscape/reconcileEvents.py:116-147 | once A agrees at (ep, eh) and C agrees below ep, C's pass-through, duplication and switch candidates are the plain solver's vectors with the same multiplicities |
| EventsSpec.SolversAgree | python/xscape/reconcileEvents.py:61-150 | for every parasite edge ep and host edge eh, the event solver's A(ep, eh) and C(ep, eh) equal the plain solver's |
| EventsSpec.TopCostsAgree | python/xscape/reconcileEvents.py:51-53 | the union of C(pTop, eh) over the host edges is the plain solver's |
| EventsSpec.ReconciledAgree | python/xscape/reconcileEvents.py:45-54 | the event solver's `reconcile` returns the plain solver's frontier |
| EventTables.EvAliveLookup | python/xscape/reconcileEvents.py:63-69 | a stored A entry is the event solver's A value, and no host-tip pair is ever stored |
| EventTables.EvOptimalLookup | python/xscape/reconcileEvents.py:114-120 | a stored C entry is the event solver's C value, and no parasite-tip pair is ever stored |
| EventTables.EvSwitchLookup | python/xscape/reconcileEvents.py:238 | a stored Best entry is the `allSwitches` pair list |
| EventTables.EvAliveStored | python/xscape/reconcileEvents.py:108 | storing the A value keeps every table sound |
| EventTables.EvOptimalStored | python/xscape/reconcileEvents.py:148 | storing the C value keeps every table sound |
| EventTables.EvSwitchStored | python/xscape/reconcileEvents.py:245 | storing the pair list keeps every table sound |
| EventTables.EvAliveEntryStored | python/xscape/reconcileEvents.py:108 | storing A(ep, eh) for a non-tip host edge keeps the A table sound |
| EventTables.EvOptimalEntryStored | python/xscape/reconcileEvents.py:148 | storing C(ep, eh) for a non-tip parasite edge keeps the C table sound |
| EventTables.WithinRetains | python/xscape/reconcileEvents.py:63 | between two sound states whose keys only grew, every stored A, C and Best entry is unchanged |
| EventTables.RowStep | python/xscape/reconcileEvents.py:164-197 | one w of the inner loop appends unit + v + w iff no candidate dominates it, and records it under the relabelled event with sources (epChild1, ehChild1, v) and (epChild2, ehChild2, w) |
| EventTables.LossStep | python/xscape/reconcileEvents.py:208-232 | one v of `lossmerge` appends (0,0,0,1,1) + v iff no candidate dominates it, and records it as "loss ehChild" with source (ep, ehChild, v) |
| EventsEngine.ReconcileAlgorithmWithRecordedEvents.constructor | python/xscape/reconcileEvents.py:31-40 | a new solver has the given ranges and mode, empty tables, no candidates and empty records |
| EventsEngine.ReconcileAlgorithmWithRecordedEvents.Reconcile | python/xscape/reconcileEvents.py:45-54 | returns the corrected frontier `Pareto` of the union of C(pTop, eh) over host edges, with tables sound and records well formed |
| EventsEngine.ReconcileAlgorithmWithRecordedEvents.A | python/xscape/reconcileEvents.py:61-109 | returns the event solver's A(ep, eh) whether or not it was stored; the tables stay sound and keep every earlier entry, and the event records only grow; afterwards (ep, eh) is in Amemo exactly when eh is not a host tip (lines 65-70 return before the store) |
| EventsEngine.ReconcileAlgorithmWithRecordedEvents.AliveChoices | python/xscape/reconcileEvents.py:71-109 | the corrected frontier `Pareto` of cospeciation and both losses is A(ep, eh); the tables stay sound and keep every earlier entry, and the event records only grow |
| EventsEngine.ReconcileAlgorithmWithRecordedEvents.Loss | python/xscape/reconcileEvents.py:98-103 | one `lossmerge` of C(ep, ehChild) is (0,0,0,1,1) * C(ep, ehChild); the tables stay sound and keep every earlier entry, and the event records only grow |
| EventsEngine.ReconcileAlgorithmWithRecordedEvents.StoreAlive | python/xscape/reconcileEvents.py:108 | Amemo gains exactly the entry (ep, eh) := A(ep, eh); the tables stay sound and keep every earlier entry, and the event records only grow |
| EventsEngine.ReconcileAlgorithmWithRecordedEvents.Cospeciation | python/xscape/reconcileEvents.py:75-96 | infeasible singleton for a parasite tip, else both pairings; the tables stay sound and keep every earlier entry, and the event records only grow |
| EventsEngine.ReconcileAlgorithmWithRecordedEvents.ChildMerge | python/xscape/reconcileEvents.py:82-94 | one `merge` of C(left, h1) with C(right, h2) under the given event type is the row-major list of unit + v + w; the tables stay sound and keep every earlier entry, and the event records only grow |
| EventsEngine.ReconcileAlgorithmWithRecordedEvents.OptimalEdgeCost | python/xscape/reconcileEvents.py:111-150 | returns the event solver's C(ep, eh) whether or not it was stored; the tables stay sound and keep every earlier entry, and the event records only grow; afterwards (ep, eh) is in Cmemo exactly when ep is not a parasite tip (lines 119-120 return before the store) |
| EventsEngine.ReconcileAlgorithmWithRecordedEvents.OptimalChoices | python/xscape/reconcileEvents.py:122-150 | the corrected frontier `Pareto` of pass-through, duplication and both switch directions is C(ep, eh); the tables stay sound and keep every earlier entry, and the event records only grow |
| EventsEngine.ReconcileAlgorithmWithRecordedEvents.StoreOptimal | python/xscape/reconcileEvents.py:148 | Cmemo gains exactly the entry (ep, eh) := C(ep, eh); the tables stay sound and keep every earlier entry, and the event records only grow |
| EventsEngine.ReconcileAlgorithmWithRecordedEvents.Duplicate | python/xscape/reconcileEvents.py:126-130 | merges C(left, eh) with C(right, eh) as a duplication; the tables stay sound and keep every earlier entry, and the event records only grow |
| EventsEngine.ReconcileAlgorithmWithRecordedEvents.SwitchOneWay | python/xscape/reconcileEvents.py:132-145 | merges C(stay, eh) as a switch with each landing list of `allSwitches(leave, eh)` in turn; the tables stay sound and keep every earlier entry, and the event records only grow |
| EventsEngine.ReconcileAlgorithmWithRecordedEvents.SwitchMerge | python/xscape/reconcileEvents.py:135-138 | after landing pair i the switch list is the merges with pairs 0..i; the tables stay sound and keep every earlier entry, and the event records only grow |
| EventsEngine.ReconcileAlgorithmWithRecordedEvents.AllSwitchesOf | python/xscape/reconcileEvents.py:235-246 | returns the pairs (e', C(ep, e')) for the switch targets in enumeration order, whether or not they were stored; the tables stay sound and keep every earlier entry, and the event records only grow; afterwards (ep, eh) is in Bestmemo |
| EventsEngine.ReconcileAlgorithmWithRecordedEvents.LandingPairs | python/xscape/reconcileEvents.py:239-244 | the loop over host edges returns the pairs (e', C(ep, e')) for every switch target e' in enumeration order; the tables stay sound and keep every earlier entry, and the event records only grow |
| EventsEngine.ReconcileAlgorithmWithRecordedEvents.LandingPair | python/xscape/reconcileEvents.py:240-244 | one host edge is paired with its C value iff it is a switch target; the tables stay sound and keep every earlier entry, and the event records only grow |
| EventsEngine.ReconcileAlgorithmWithRecordedEvents.StoreSwitches | python/xscape/reconcileEvents.py:245 | Bestmemo gains exactly the entry (ep, eh) := allSwitches(ep, eh); the tables stay sound and keep every earlier entry, and the event records only grow |
| EventsEngine.ReconcileAlgorithmWithRecordedEvents.PutAmemo | python/xscape/reconcileEvents.py:108 | the dictionary assignment changes only the (ep, eh) entry of Amemo; keys and records are kept |
| EventsEngine.ReconcileAlgorithmWithRecordedEvents.PutCmemo | python/xscape/reconcileEvents.py:148 | the dictionary assignment changes only the (ep, eh) entry of Cmemo; keys and records are kept |
| EventsEngine.ReconcileAlgorithmWithRecordedEvents.PutBestmemo | python/xscape/reconcileEvents.py:245 | the dictionary assignment changes only the (ep, eh) entry of Bestmemo; keys and records are kept |
| EventsEngine.ReconcileAlgorithmWithRecordedEvents.Merge | python/xscape/reconcileEvents.py:152-198 | returns the surviving unit + v + w in row-major order, the records become those of recording each survivor, and the records stay well formed and only grow |
| EventsEngine.ReconcileAlgorithmWithRecordedEvents.MergeRow | python/xscape/reconcileEvents.py:164-197 | the inner loop for one v, including the mid-loop renaming of "switch" to "switch to ehChild2" |
| EventsEngine.ReconcileAlgorithmWithRecordedEvents.MergeReady | python/xscape/reconcileEvents.py:163-178 | inside the recursion, where no candidates exist, `merge` returns every unit + v + w; the tables stay sound and keep every earlier entry, and the event records only grow |
| EventsEngine.ReconcileAlgorithmWithRecordedEvents.LossMerge | python/xscape/reconcileEvents.py:200-233 | returns the surviving (0,0,0,1,1) + v, the records become those of recording each survivor as "loss ehChild", and they stay well formed and only grow |
| EventsEngine.ReconcileAlgorithmWithRecordedEvents.LossMergeReady | python/xscape/reconcileEvents.py:207-217 | inside the recursion `lossmerge` returns (0,0,0,1,1) + v for every v; the tables stay sound and keep every earlier entry, and the event records only grow |
| EventsEngine.ReconcileAlgorithmWithRecordedEvents.KeepNew | python/xscape/reconcileEvents.py:171-175 | the candidate scan keeps the new vector iff no candidate strictly dominates it |
| EventsEngine.ReconcileAlgorithmWithRecordedEvents.RecordEvent | python/xscape/reconcileEvents.py:179-197 | the four tables become exactly the recorded update for the kept vector |

## Left out

- Plotting (`plotcosts.py`, `plotcostsAnalytic.py`) and input reading (`getInput.py`) are not part of this model. They only read the finished frontier or build the trees.
- `CostVector.py` and `common.py` are not part of this model. The operators are given the meanings stated above. The product of the counts under `+` is an assumption, since the count arithmetic is not visible.
- Float arithmetic: costs are integers and the ranges are reals. An infeasible vector's weighted cost is "unbounded". The float case `INF * 0` (a range bound of 0 times an infinite count) is not modelled.
- Dictionary iteration order is a fixed enumeration `order` of the host edges. The order of the coalesced keys before sorting is a fixed choice, and the sort makes it irrelevant.
- Frontier.ParetoAsWritten: completeness is not claimed. The adjacent prefilter drops the current vector whenever neither its d nor its s exceeds its predecessor's, whatever c and l are, and such a vector can be undominated (`Frontier.PrefilterDropsMinimal`). A constant c + d + s does not prevent this: (0,0,1,1) and (1,0,0,0) both sum to 1. Only soundness is stated for it (`Frontier.AsWrittenWithinPareto`). The dynamic programs use the corrected `Frontier.Pareto`; see "## Findings".
- ReconcileSpec.AliveCost, ReconcileSpec.OptimalCost, ReconcileSpec.Reconciled, EventsSpec.EvAliveCost, EventsSpec.EvOptimalCost, EventsSpec.EvReconciled and the engine methods proved to return them: every table value and the final result are the corrected frontier `Frontier.Pareto` of the candidates, not `paretoFilter` as written. Where the prefilter drops a frontier vector inside the recursion or at pTop, the source returns less than the model does. What `reconcile` returns as written is not modelled.
- `paretoFilter([])` raises in the source. `Frontier.Pareto`, `Frontier.ParetoAsWritten`, `Frontier.ParetoFilter` and `Frontier.ParetoFilterAsWritten` require a non-empty list. The dynamic program never passes an empty one.
- A parasite tip whose end vertex is missing from `phi` makes `aliveEdgeCost` raise KeyError (`reconcile.py` line 110, `reconcileEvents.py` line 67). `ReconcileSpec.ValidProblem` requires every parasite tip to be mapped, so this error path is not modelled.
- `Trees.ValidTree` excludes tree dictionaries on which the source fails, so those failures are not modelled:
  - a child name that is not a key raises KeyError (`ReconcileAlgorithm.py` lines 146-162);
  - an edge with only one child makes the other child `None`, and `tree[None]` raises KeyError;
  - a cycle makes `descendants` (lines 122-128) and the dynamic program recurse without end.
- The parasite tree must have an edge named "pTop": `reconcile` looks it up directly and raises KeyError otherwise. The engines' `Reconcile` methods require `ParasiteTop in x.parasite.edges`.
- `CostRange.Valid` (0 ≤ lower bound ≤ upper bound for both costs) is required throughout. The source does not enforce it: `getInput.py` lines 66-68 print a warning for an out-of-range value and return it anyway. With a lower bound above the upper one, `CVfilter` could empty a list, and `paretoFilter` would then raise.
- `reconcile` is given a non-empty host tree. With an empty host, `reconcile.py` reduces an empty list, which raises.
- ReconcileEngine.ReconcileAlgorithm.Reconcile requires tables that already agree with the problem, such as the empty tables of a new solver. Reusing a solver across different trees is not modelled, and neither is the source's advice to reset the tables.
- The Python recursion depth limit is not modelled.
- In `reconcileEvents.py`, lines 134 and 141 call the inherited flat `switches` but unpack (edge, list) pairs. The model calls `allSwitches`, as evidently intended.
- In `reconcileEvents.py`, lines 228-232 write `self.CVcommonEvents` / `self.CVseen` where the module maps are meant. The model updates the shared maps.
- `CONFIG.intersection` and the module-level `CVseen` / `CVcommonEvents` become a constant field and two fields of the solver.
- `CandidateCVlist` is never filled in the source. Inside the recursion it is required to be empty (`EventTables.EvConsistent`). `Merge` and `LossMerge` are specified for any candidate list. With a non-empty list, `paretoFilter` could be handed an empty list.
- A defaultdict read inserts an empty entry for a missing key. The model reads through `Provenance.Get` without inserting, so an empty set and a missing key are not distinguished.
- The event solver's inheritance from `ReconcileAlgorithm` is composition: it owns a plain solver for the cost ranges, the host index and `ancestorsAndDescendants`.

## Findings

| source | as written | input that shows it | evidently intended | confidence | as-written member | corrected member |
|---|---|---|---|---|---|---|
| python/xscape/ReconcileAlgorithm.py:71-76 | after the lexicographic sort, `paretoFilter` keeps a vector only if its d or its s exceeds its predecessor's, so a vector with a larger c and a smaller or equal (d, s) is dropped before the dominance test | `paretoFilter([(0,0,1,1,1), (1,0,0,0,1)])` with both cost ranges [0, 1]: neither vector dominates the other, yet only (0,0,1,1,1) is returned. | the Pareto frontier of the range-filtered vectors: every coalesced vector that no range-filtered vector strictly dominates | not executed | Frontier.PrefilterDropsMinimal | Frontier.ParetoExactly |
