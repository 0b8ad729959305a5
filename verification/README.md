# codectx: verified models of admission, context budgeting and resumable compiles

codectx indexes a repository and compiles bounded "context manifests" from it.
This project models, in Dafny, the parts of it whose correctness is hardest to see
by reading, and proves what they are for:

- **The admission ledger.** Heavy children are admitted against a memory and a disk
  allocation through one first-in-first-out queue. `LedgerModel` gives each
  lock-protected step as a function, `Ledger` is the class that changes its counters
  and queue in place and is proved against it, `LedgerRuns` interleaves any number of
  `Hold` calls with releases, cancellations, adjustments and re-derived allocations,
  and `LedgerTheorems` and `LedgerSums` state what holds over every run.
- **The need histogram.** `Ratios`, `NeedWeights` and `NeedHistogram`: the bucket
  search, the decay and what it makes of every file's share, the two predictors and the
  stored form.
- **The context budget.** `Measure` is the self-referential entry size, `Plan` turns
  ranked survivors into groups, `NextFit` and `Packing` are the packer and the floor
  check, and `PackingTheorems` proves that behind an accepting check the packer's
  internal error cannot be reached.
- **The compile pipeline.** `Passes` and `CompileRuns`: a compile stopped at any
  boundary and cut by any deadline, over any number of calls, against one that is
  never interrupted, which `Composition` writes out pass by pass. `Hydration` is its
  batched file lookup, `FixedPoint` its scaled arithmetic, `RouteScores` its choice of
  explanations, `Routes` the two ways its routes are put back together, and `Preimage`,
  `Manifest` and `Requests` what its digests are taken over.
- **Two small protocols.** `AllocatorCounter`, `AllocatorRuns` and `AllocatorSizes`: a
  counting allocator under threads that are handed each other's freed addresses.
  `WorkspaceLock`: one cross-process lock lent to nested holders.

An object the program updates in place is a class here, with the value it stands for
and the function each method is proved against; a loop the program has is a loop here.

## Where the code differs from what is said of it

The model follows the code; each difference is a lemma.

- The admission rule is documented as a sum that must fit the allocation. The sum is
  taken in int64, so a reservation of the largest int64 wraps it negative and is
  admitted beside another child, parse or not (`LedgerSums.WrappedSumAdmits`); the need
  predictors return that figure for a parse when they saturate.
  `LedgerSums.MemoryTestExact` and `LedgerSums.DiskTestExact` give the exact condition.
  The bounds that need it are stated for runs in which every sum a test takes fits int64.
- The comment on `sizeIterations` says the entry size settles in two rounds. It does if
  and only if the second size and its tokens are written with as many digits as the
  first's (`Measure.TwoRoundsSettle`), which is not always
  (`Measure.MoreThanTwoRounds`); the third size is final for every entry
  (`Measure.SettlesInThree`), within the eight rounds allowed.
- The comment on `requestHash` says the seed count keeps a seed containing the field
  separator from forging a different split. It does not (`Requests.ForgedSplit`). The
  identity is exact if and only if no other way of cutting the joined seeds into as many
  is in order (`Requests.IdentityExact`), and so for every request with no separator in
  a seed, or with one seed at most (`Requests.RequestIdentity`); sorting may rule every
  other cut out of the rest (`Requests.OrderMaySave`).
- The floor check counts slices at the floor and not at the budget, so it refuses some
  budgets the packer could have met (`PackingTheorems.RefusesWhatWouldFit`): exactly
  those whose slice limit is at least what the required groups take at the budget and
  less than what they take at the size of the largest of them
  (`PackingTheorems.RefusedThoughMet`). It accepts exactly the budgets at least as large
  as the floor it reports.
- The reason attached to a candidate names its first kept route beside its best
  contribution. The two are not the same route's exactly when every route short enough
  to keep scores zero and a longer one scores a millionth
  (`RouteScores.ReasonNamesItsRoute`, on `RouteScores.ReasonMayMismatch`'s input).

The streamed join and the grouped rebuild of routes agree because the producers write a
hop only together with its route. What that is needed for is stated exactly: on streams in
order the join sees a candidate's hops up to the first that belongs to no route
(`Routes.JoinSees`), so where the rebuild gives routes the join gives the same if and only
if no such hop stands in front of one of the candidate's own (`Routes.JoinExact`), and
otherwise refuses (`Routes.JoinNeverMixes`, `Routes.OrphanHop`).

## Model

| member | source | states |
|---|---|---|
| LedgerProofs.PumpInv | internal/admission/admission.go:299-351 | Granting the head for as long as it fits keeps the queue's order, the counters and both exclusion rules, and leaves either an empty queue or a head that does not fit beside something admitted and has been woken. |
| LedgerProofs.ArriveInv | internal/admission/admission.go:432-435 | Queueing and pumping keeps the ledger's invariant and leaves the head inadmissible. |
| LedgerProofs.RemoveInv | internal/admission/admission.go:355-371 | Taking a canceled waiter out of the middle of the queue keeps the invariant and lets the new head be granted at once. |
| LedgerProofs.ReleaseInv | internal/admission/admission.go:375-392 | A release gives back exactly what the holding holds now, and keeps the invariant. |
| LedgerProofs.AdjustInv | internal/admission/admission.go:476-492 | An adjustment keeps the sums equal to what is held; a lowering lets the queue move. |
| LedgerProofs.SetAllocationInv | internal/admission/admission.go:504-512 | A re-derived allocation keeps the invariant and takes nothing back. |
| Ledger.NewLedger | internal/admission/admission.go:132-142 | Refuses exactly a negative allocation; otherwise a new ledger is idle and satisfies the invariant. |
| Ledger.Ledger.GrantHead | internal/admission/admission.go:337-349 | In place: the head leaves the queue, every counter and both sums take it, and its grant is signalled for the first time. |
| Ledger.Ledger.HeadBlocked | internal/admission/admission.go:322-327 | The admission test on the head, with int64 sums, the runs-alone rule and the forward-progress rule. |
| Ledger.Ledger.Pump | internal/admission/admission.go:299-351 | The loop ends with the invariant and an inadmissible head, in exactly the state the recursive form reaches. |
| Ledger.Ledger.Queue | internal/admission/admission.go:411-435 | Refuses exactly the negative figures and a lone non-parse, changing nothing; otherwise queues last one fresh waiter that is what was asked for, memory, disk, parse and alone, and pumps. |
| Ledger.Ledger.TakeWake | internal/admission/admission.go:441-450 | Consuming a buffered wake-up reports a grant that came first. |
| Ledger.Ledger.Remove | internal/admission/admission.go:355-371 | The search and shift remove exactly that waiter, or nothing when it is not queued. |
| Ledger.Ledger.Abort | internal/admission/admission.go:455-461 | A context that ends either takes the waiter out or finds it granted, never both. |
| Ledger.Ledger.Release | internal/admission/admission.go:375-392 | The first release gives everything back once; a later one changes nothing. |
| Ledger.Ledger.Adjust | internal/admission/admission.go:476-492 | Moves a holding's memory up at once or down with a pump; a negative figure or a released holding changes nothing. |
| Ledger.Ledger.SetAllocation | internal/admission/admission.go:504-512 | Replaces the allocation and pumps; a negative figure changes nothing. |
| Ledger.Ledger.Waiting | internal/admission/admission.go:289-293 | True exactly when some reservation is queued, and then something is admitted. |
| LedgerRuns.StepInv | internal/admission/admission.go:411-492 | Every lock-protected step of every goroutine keeps the invariant, the caller's place in Hold agreeing with its reservation. |
| LedgerTheorems.EveryRun | internal/admission/admission.go:299-512 | Every state of every run from a new ledger satisfies the invariant: counters are the counts and sums over what is held, and a waiter implies somebody admitted and a woken head. |
| LedgerTheorems.NoOvertaking | internal/admission/admission.go:295-298 | In every reachable state: once a reservation was granted, every earlier one was granted or stopped waiting. |
| LedgerTheorems.HeldAsAsked | internal/admission/admission.go:411-492 | In every run the k-th reservation is what the k-th Hold asked for: its parse, alone and disk, its memory as last adjusted, and released exactly once it has been given back. |
| LedgerTheorems.AllocationsAsSet | internal/admission/admission.go:504-512 | In every run the memory allocation is the one last set, a negative one excepted, and the disk allocation the one the ledger began with. |
| LedgerTheorems.PhasesAsTold | internal/admission/admission.go:437-468 | In every run a Hold fails or aborts if and only if its context ended before it heard of a grant, returns only when it heard of one, and one granted all the same fails only by giving it straight back. |
| LedgerTheorems.AloneAmongParses | internal/admission/admission.go:319-325 | In every run a Hold that asked to run alone is held beside no other that asked for a parse. |
| LedgerTheorems.HeadInadmissible | internal/admission/admission.go:299-512 | At every lock release of every run that raises no holding, whatever its sums come to, the test holds back the head of a non-empty queue. |
| LedgerTheorems.EveryHoldAccountedFor | internal/admission/admission.go:437-468 | A Hold that ended in an error holds and queues nothing; one that returned is held exactly until its first release; one aborting after its grant still holds it. |
| LedgerTheorems.NothingLeaks | internal/admission/admission.go:375-468 | When every Hold has failed or been released, every counter and sum is zero and the queue is empty. |
| LedgerTheorems.ReleaseOnce | internal/admission/admission.go:378-380 | A second release and an adjustment after the release change nothing. |
| LedgerTheorems.StepRank | internal/admission/admission.go:299-392 | Through any event, what stands in front of a queued reservation falls by exactly one when something ahead departs, and otherwise stays. |
| LedgerTheorems.BoundedWaiting | internal/admission/admission.go:295-392 | However a run goes on, a reservation has left the queue once as many departures ahead of it have happened as stood in front of it. |
| LedgerSums.MemoryTestExact | internal/admission/admission.go:322 | In every state the int64 comparison agrees with the comparison of the true sums if and only if the true sum fits int64 or wraps to above the allocation; while what is held fits, a sum that does not is admitted. |
| LedgerSums.DiskTestExact | internal/admission/admission.go:327 | The same of the disk comparison. |
| LedgerSums.NoIdleRoom | internal/admission/admission.go:295-351 | At every lock release of a run whose tests take sums that fit int64, the head of a non-empty queue must wait by what is held, and is inadmissible by the test wherever its own sums fit. |
| LedgerSums.RaiseUnsettles | internal/admission/admission.go:476-492 | A holding raised until its sum with the head wraps leaves a queued head the test would admit. |
| LedgerSums.BlockedMeansMustWait | internal/admission/admission.go:302-333 | Where the sums it takes fit int64, the test on the head holds it back if and only if something is held and, by what is held, the runs-alone rule keeps it apart, or its memory does not fit and it is not the one parse, or its disk does not fit. |
| LedgerSums.WaitsOnlyWhenItMust | internal/admission/admission.go:302-327 | In every run whose tests take sums that fit int64 a waiting head has been woken and must wait; a parse that asks for no disk waits only for another parse. |
| LedgerSums.OverCommitBound | internal/admission/admission.go:302-327 | In every run whose tests take sums that fit int64, held disk is within its allocation or one reservation has all of it; if the run also only lowers holdings and raises the allocation the same holds of memory outside parses, and memory is over only with at most one parse holding some. |
| LedgerSums.WrappedSumAdmits | internal/admission/admission.go:322 | Two reservations whose sum does not fit int64, both parses or neither, are both held over an allocation of ten bytes, against either half of the memory bound. |
| Ratios.BucketOf | internal/admission/need.go:115-124 | From any starting guess the two loops end at the bucket whose edges enclose the ratio. |
| Ratios.BucketUnique | internal/admission/need.go:71-73 | No ratio has two buckets. |
| Ratios.EdgeMonotone | internal/admission/need.go:71-73 | Bucket edges ascend with the index, negative ones included. |
| Ratios.DecayAtLeastHalf | internal/admission/need.go:89 | A half-life of one file or more decays by no more than a half. |
| NeedWeights.SharesHalve | internal/admission/need.go:80-89 | Over as many files as the half-life, and at least one, what is left of a share is half of it. |
| NeedHistogram.KeptAfterDecay | internal/admission/need.go:96-102 | A weight at least n halvings large survives one more decay at no less than n+1 halvings, while that is representable. |
| NeedHistogram.Histogram.WeightIsShares | internal/admission/need.go:80-109 | After any observations and loads each bucket weighs, within two of the smallest floats, what it held at the last load and one for each of its files, all multiplied by the decay of every file after. |
| NeedHistogram.Histogram.Observe | internal/admission/need.go:85-109 | Folds one file in: every weight decays, the file's bucket or the zero bucket gains one, the file joins those the weights are the shares of, bad sizes change nothing, and every file folded in still has its bucket for as many files as the smallest float allows halvings. |
| NeedHistogram.Histogram.Decay | internal/admission/need.go:97-103 | Whatever order the map is walked in, every weight is decayed once and those that vanish are dropped. |
| NeedHistogram.Histogram.Predict | internal/admission/need.go:133-170 | No prediction without an observation; below 100 it covers, scaled by size and up to saturation, every file folded in since the model was made; in both regimes it is the least whole number of bytes at the ratio specified, or the largest int64. |
| NeedHistogram.Percentile | internal/admission/need.go:147-160 | The lowest upper edge at which the weight reaches 99% of the total, which the walk always finds. |
| NeedHistogram.SampleMaximum | internal/admission/need.go:143-146 | The highest occupied bucket's upper edge, zero when none is occupied. |
| NeedHistogram.MaximumCovers | internal/admission/need.go:126-128 | The sample maximum is above the ratio of every file that has a bucket. |
| NeedHistogram.MaximumIsNear | internal/admission/need.go:143-146 | Nor is it more than 1.05 times any ratio of the highest occupied bucket; it is zero when no bucket is occupied. |
| NeedHistogram.PercentileCovers | internal/admission/need.go:126-128 | Buckets wholly below the percentile weigh at least 99% of everything, and those wholly below the next lower edge less. |
| NeedHistogram.ReserveScales | internal/admission/need.go:165-169 | Rounding up at a ratio no lower than a file's covers a file of another size that needs as much a byte, unless it saturates. |
| NeedHistogram.ReserveRoundsUp | internal/admission/need.go:165-169 | What is reserved is the least whole number not below the ratio times the size, saturating at the largest int64. |
| NeedHistogram.DecodeOfEncode | internal/admission/need.go:198-245 | What a consistent histogram encodes to is accepted and decodes to it. |
| NeedHistogram.EncodeOfDecode | internal/admission/need.go:212-217 | What the decoder accepts is exactly what the encoder would write for the model it decodes to. |
| NeedHistogram.Histogram.MarshalBinary | internal/admission/need.go:198-206 | Writes the buckets in ascending order, accepted by the decoder. |
| NeedHistogram.Histogram.UnmarshalBinary | internal/admission/need.go:218-245 | Accepts exactly the encodings of consistent models and takes over what they are known to have folded in; a refusal leaves the model as it was. |
| NeedHistogram.Reload | internal/admission/need.go:197-245 | A model stored and loaded is the same model and still covers every file it folded in. |
| Measure.MeasureEntry | internal/context/budget.go:125-160 | Always settles; the size is the wire bytes plus the length of the returned entry itself, and the least that is; refused exactly when the source is charged and its size has no wire length, or the least such size is beyond int64. |
| Measure.SettlesInThree | internal/context/budget.go:102-108 | The third size is final for every candidate: the fourth round never changes it. |
| Measure.ThirdIsSettled | internal/context/budget.go:125-160 | That third size is the least that the next round repeats. |
| Measure.TwoRoundsSettle | internal/context/budget.go:104-106 | Two rounds settle it if and only if the second size and its token estimate are written with as many digits as the first's. |
| Measure.MoreThanTwoRounds | internal/context/budget.go:104-106 | An entry of 994 bytes but for its estimates measures 1000 in the second round and 1001 in the third. |
| Measure.SmallerOrdinalMeasuresNoLarger | internal/context/stream.go:1085-1087 | A smaller ordinal measures no larger in bytes or tokens. |
| Measure.WireEncodedBytes | internal/context/compiler.go:1138-1150 | Refuses exactly negative counts and lengths beyond int64. |
| Plan.FoldOrderIrrelevant | internal/context/stream.go:490-499 | The group fold does not depend on the order records are merged in. |
| Plan.FileGroupFacts | internal/context/stream.go:490-499 | A file has a group when it has a survivor: the sums of its survivors' measured bytes and of their tokens, required when some of them may not be dropped, with the place and path of the first. |
| Plan.FoldedGroups | internal/context/stream.go:1104-1116 | The folded records the packer is handed are one such group a file, in the order of their first members. |
| Plan.ChargedOnce | internal/context/stream.go:1050-1064 | A file's source is charged once over all its survivors. |
| Plan.OrdinalCounts | internal/context/stream.go:1285-1313 | The stored ordinals number the kept entries without a gap. |
| Plan.RequiredGroupsFirst | internal/context/compiler.go:1008-1022 | Required groups are a prefix of the order the packer walks. |
| Plan.StoredSlicesFit | internal/context/stream.go:1085-1110 | The bytes stored in a slice of what was packed by the first, larger measurement add up to no more than the budget, and so do its tokens. |
| NextFit.GreedyIsMinimal | internal/context/slice.go:84-100 | No way of cutting the same order into slices that fit uses fewer. |
| NextFit.GreedyCut | internal/context/slice.go:84-100 | The greedy walk is such a cut when every group fits by itself. |
| NextFit.WiderNeedsNoMore | internal/context/budget.go:560-562 | Wider slices never need more of them. |
| NextFit.PrefixNeedsNoMore | internal/context/slice.go:84-100 | A prefix never needs more slices than the whole. |
| Packing.PackPlanStream | internal/context/slice.go:57-107 | The walk gives the verdicts of the step-by-step packer, or its internal error. |
| Packing.PackedSliceCount | internal/context/budget.go:563-583 | Counts the slices the required groups take at the given size. |
| Packing.CheckRequiredFits | internal/context/budget.go:512-558 | Accepts if and only if nothing is required or the budget is at least the floor in bytes, tokens, files and slices; otherwise reports that floor. |
| PackingTheorems.PlanIsFeasible | internal/context/slice.go:57-107 | One verdict per group in order; slice indices never decrease, skip none and stay below the limit; slices fit; and the kept groups are packed greedily. |
| PackingTheorems.EveryDropJustified | internal/context/slice.go:74-95 | Every drop is of a group that is not required and its reason is true of what was kept before it. |
| PackingTheorems.SliceLimitIsFinal | internal/context/slice.go:62-65 | After the slice limit is reached no group that may be dropped is kept. |
| PackingTheorems.FailsExactly | internal/context/slice.go:86-92 | The packer reaches its internal error if and only if the required groups take more slices at the budget than it allows. |
| PackingTheorems.FloorCheckIsSound | internal/context/slice.go:86-92 | Behind an accepting check the internal error is unreachable, every required group is kept, and at most the allowed files are. |
| PackingTheorems.PassPack | internal/context/stream.go:1209-1232 | The check and the packer together give a feasible plan that keeps all that is required, or the floor; and that floor is itself accepted. |
| PackingTheorems.FloorIsEnough | internal/context/compiler.go:1162-1178 | Re-running with the reported floor is accepted and packs every required group. |
| PackingTheorems.RefusesWhatWouldFit | internal/context/budget.go:536-544 | A concrete budget that would have packed everything is refused because slices are counted at the floor. |
| PackingTheorems.RefusedThoughMet | internal/context/budget.go:536-544 | The check refuses a budget the packer could have met if and only if its slice limit is at least the slices the required groups take at the budget and less than those they take at the largest one's size. |
| Passes.Carry | internal/context/resume.go:383-411 | At every boundary of a compile whose passes run whole exactly the slots its checkpoint names are set, among them every one the pass behind it reads. |
| Passes.CompleteMeansWhole | internal/context/scope.go:689-716 | A carry whose scope is complete is that of the walk no deadline touched. |
| Passes.FailsOnward | internal/context/compiler.go:478-501 | A pass's own error is what the whole compile answers. |
| Composition.PlanIsStraight | internal/context/compiler.go:454-518 | The carry the last pass reads, written out: P-B and P-C on what the walk gathered, P-D on both their streams, P-E on its edges, P-F, P-G on the ranked and both kept streams, P-H; complete exactly when every seed resolved, no page was cut by a bound, no deadline narrowed the walk, and neither its end nor P-C lacked anything; or the first error on the way. |
| CompileRuns.WalkPages | internal/context/scope.go:650-761 | The walk's loop: it has come as far as it got pages, and its sink and verdict say exactly that; its scope is narrowed exactly when a request it did not end on got no page; it is given up only so, and a deadline the call ends on narrows nothing unless it stalls the walk twice in a row. |
| CompileRuns.CompileState.StageIngest | internal/context/compiler.go:529-596 | P-A ends with the result of the walk it gathered, whole or given up, or halts between two requests with a sink, place, stall count and verdict that resume it. |
| CompileRuns.CompileState.StageHydrate | internal/context/compiler.go:599-608 | P-B sets its output and keeps its input for P-C. |
| CompileRuns.CompileState.StageAttributes | internal/context/compiler.go:623-646 | P-C replaces the hops, narrows the scope exactly when it could not read every edge, and clears what it was the last to read. |
| CompileRuns.CompileState.StageRoutes | internal/context/compiler.go:658-686 | P-D sets its four streams and clears its three inputs. |
| CompileRuns.CompileState.StageCentrality | internal/context/compiler.go:689-696 | P-E sets the counts and clears the edges. |
| CompileRuns.CompileState.StageBoosts | internal/context/compiler.go:700-713 | P-F sets the ranked stream and clears its inputs. |
| CompileRuns.CompileState.StageMeasure | internal/context/compiler.go:718-727 | P-G is given the ranked stream, the kept routes and the kept hops, in that order, sets the measured plan and clears its inputs. |
| CompileRuns.CompileState.StagePack | internal/context/compiler.go:731-738 | P-H sets the verdicts and keeps the measured plan. |
| CompileRuns.CompileState.RunPasses | internal/context/compiler.go:454-518 | From any boundary a call ends with the carry of what its walk gathered, at a boundary it can be resumed from, with the compile's own error, or with a deadline; with no deadline a halted call has made progress, and with stalls only it has advanced or used up the page's one repeat. |
| CompileRuns.CompileState.Save | internal/context/resume.go:686-736 | A checkpoint carries exactly the boundary's streams and refuses a boundary that lacks one. |
| CompileRuns.CompileState.Restore | internal/context/resume.go:741-770 | Restoring refuses a checkpoint that lost a stream and otherwise sets exactly what was stored. |
| CompileRuns.ResumesExactly | internal/context/resume.go:686-770 | Every stop can be checkpointed, and what is restored is exactly what the boundary has in a compile whose passes all ran whole, the walk's place and stall count included: nothing lost, nothing left over. |
| CompileRuns.StillAgrees | internal/context/compiler.go:675-680 | A stream left half way through a cut P-D is none the boundary before it carries. |
| CompileRuns.Compile | internal/context/compiler.go:385-518 | For every stop predicate, deadline cut and deadline inside the walk, the chain of halted and resumed calls ends with the carry, or the error, of one call over the same walk, which is the composition of the passes written out. A plan that says its scope is complete is the plan of a compile no deadline touched, and so is every answer when each deadline inside the walk ends its call and none stalls it twice in a row. Without a cut or a deadline a call for every page and pass is enough, and twice as many with stalls. |
| Hydration.Flush | internal/context/compiler.go:898-944 | One query hydrates a whole batch as if each record had been looked up alone. |
| Hydration.HydratedFacts | internal/context/compiler.go:924-941 | A row found gives the record its size, status and path, and the ranking's path where it had none; a file asked for and not found is marked missing; nothing else changes. |
| Hydration.HydrateStream | internal/context/compiler.go:887-963 | The batched stream is the unbatched one whatever the batch size, with no more queries than batches. |
| Hydration.BatchWouldShow | internal/context/compiler.go:880-886 | An excluded candidate that named a file would show which batch it was in. |
| FixedPoint.MulScaled | internal/context/compiler.go:1030-1047 | On all of int64: the product over a million rounded half away from zero exactly when product and rounding are in range, refused otherwise. |
| FixedPoint.WrappedProduct | internal/context/compiler.go:1031-1034 | The division check sees every product that does not fit int64 and no other. |
| FixedPoint.RoundingUnique | internal/context/compiler.go:1027-1028 | Rounding half away from zero has one result, the one computed. |
| FixedPoint.ScorePath | internal/context/rank.go:176-211 | Refused exactly when the route is empty or a hop carries nothing; its overflow error is unreachable. |
| FixedPoint.HopWorth | internal/context/rank.go:187-199 | A hop is worth its kind's weight at its evidence's precision, or at the heuristic one when it has none, rounded half away. |
| FixedPoint.RouteWorth | internal/context/rank.go:200-211 | A route is the rounded product of its hops' worths, times 0.65 for every hop behind the first. |
| FixedPoint.LongerScoresNoMore | internal/context/rank.go:169-175 | One more hop never raises a contribution, nor above the hop's own weight. |
| FixedPoint.TopIsMost | internal/context/rank.go:169-211 | No route of n hops contributes more than n hops of the best kind and precision. |
| FixedPoint.LongRoutesScoreOne | internal/context/rank.go:169-211 | Rounding half away keeps that bound at a millionth for every route of 39 hops or more. |
| FixedPoint.ContributionWeight | internal/context/compiler.go:1061-1081 | Which kinds carry which weight, and that no other kind carries any. |
| FixedPoint.PrecisionMultiplier | internal/context/compiler.go:1086-1092 | Which precision multiplies by what, from the heuristic floor to the scale. |
| RouteScores.ScoreRoutes | internal/context/rank.go:104-168 | The best over every admissible route, the edges and kinds of all of them, the first of the short ones in order up to the limit, a count that with them accounts for every admissible route, and the reason: the first kept route's length and first kind beside the best. |
| RouteScores.AdmittedFacts | internal/context/rank.go:113-123 | The admissible routes are all admitted and no other, in the order they came in, each at its own contribution. |
| RouteScores.AdmissibleMeans | internal/context/rank.go:176-193 | A route is admissible when it has a hop and every hop has a kind that carries something. |
| RouteScores.KeptAreFirst | internal/context/rank.go:140-148 | Every short route left out contributes less than each that was kept, or as much over more hops, or over as many with no lower a first relation. |
| RouteScores.SortedStable | internal/context/rank.go:140-148 | Routes that tie keep the order they arrived in. |
| RouteScores.BestIsMaximum | internal/context/rank.go:124-126 | The best is the maximum of the contributions and not their sum. |
| RouteScores.ReasonNamesItsRoute | internal/context/rank.go:166 | The reason's route and contribution are different routes' if and only if every short route scores zero and some route too long to keep scores a millionth. |
| RouteScores.ReasonMayMismatch | internal/context/rank.go:166 | Seven containment hops of heuristic evidence beside 65 of the best kind: the reason names the first and gives the second's contribution. |
| Routes.RouteCursors.Take | internal/context/budget.go:426-452 | On any streams and from anywhere in them, the cursors give what the join as a function gives and stop where it does. |
| Routes.JoinSees | internal/context/budget.go:426-452 | In streams in order the join gives each candidate what the grouped form makes of the hops before its first orphan. |
| Routes.JoinExact | internal/context/budget.go:426-452 | The join is the grouped form when no orphan hop of the candidate stands in front of one of its own, and, where the grouped form gives routes, only then. |
| Routes.JoinIsGrouped | internal/context/budget.go:426-452 | In streams in order, where no orphan hop stands in front of the candidate's own, the join gives candidates asked for in increasing order, whichever it skips, what the grouped form gives each, refusals included. |
| Routes.JoinNeverMixes | internal/context/budget.go:437-444 | Whatever the hop stream holds, the join differs from the grouped form only when one of them refuses. |
| Routes.RunIsWhole | internal/context/budget.go:437-441 | In streams in order, with no orphan of the candidate ahead, one route's run is all of that route's hops. |
| Routes.NextHop | internal/context/budget.go:423-436 | In streams in order no hop of an earlier route is left to block the join. |
| Routes.RebuildRoutes | internal/context/rank.go:452-493 | The grouped rebuild gives each route's evidence, cost and exactly its hops' relations, routes and hops in the order they are stored, or refuses a count that does not match; each relation crossed has the first kind a hop names and the highest multiplier a hop carries, 450000 at the least. |
| Routes.RoutesRebuilt | internal/context/rank.go:478-492 | The grouped form's routes are the candidate's own, one by one, each with the relations of its own hops in order. |
| Routes.RoutesOfGroup | internal/context/rank.go:446-451 | What the whole streams hold for a candidate is what its own records hold. |
| Routes.TakeAll | internal/context/budget.go:399-452 | For any increasing candidates the streamed join equals the grouped rebuild of each one's records, refusals included, unless an orphan hop blocks it; where the rebuild gives routes, exactly then. |
| Routes.OrphanHop | internal/context/budget.go:437-444 | With a hop of no route ahead of a route's own the join answers the missing-hop error where the grouped rebuild gives the route. |
| Preimage.DecimalInjective | internal/context/manifest.go:21-24 | No two integers are spelled alike in a preimage. |
| Preimage.AbsorbedInjective | internal/model/hash.go:13-44 | What a hasher absorbs has one reading as a list of components whose lengths fit 64 bits. |
| Preimage.CountedCancels | internal/context/manifest.go:111-123 | A counted list of prefix-free elements can be told from what follows it. |
| Manifest.CanonicalComponents | internal/context/manifest.go:85-145 | The nested loops feed the hasher exactly the plan's component list, the header's ten components and the entry count first. |
| Manifest.PlanDetermined | internal/context/manifest.go:85-145 | Equal component lists imply equal bindings, budgets, entries, slices and exclusions, whether or not the reported exclusion count is right. |
| Manifest.PlanBytesDetermined | internal/context/manifest.go:85-145 | So do equal byte streams in one domain. |
| Requests.RequestIdentity | internal/context/manifest.go:34-51 | Without a separator in a seed, or with one seed at most, two requests share an identity if and only if task, seeds in any order, phase and budget agree. |
| Requests.IdentityExact | internal/context/manifest.go:26-51 | A request's identity is its own if and only if, of all the ways to cut its joined seeds into as many, only its sorted seeds are in order. |
| Requests.CutsAreSplits | internal/context/manifest.go:38-40 | The finitely many cuts of a string into n are exactly the lists of n it is the join of. |
| Requests.JoinDetermines | internal/context/manifest.go:38-40 | A clean seed list is recovered from its count and join against any other list. |
| Requests.SeparatorForges | internal/context/manifest.go:28-29 | Two ordered pairs of different seeds cut from one join share an identity. |
| Requests.ForgedSplit | internal/context/manifest.go:28-29 | A concrete pair of requests for different seeds with one identity. |
| Requests.OrderMaySave | internal/context/manifest.go:35-36 | A request with a separator in a seed whose seeds are still the only cut in order, and its identity its own. |
| AllocatorCounter.RecordExact | internal/bench/allocator.go:151-157 | Recording a new address keeps live the table's total and makes the peak the higher of what it was and live. |
| AllocatorCounter.ForgetExact | internal/bench/allocator.go:161-169 | Forgetting never underflows and never lowers the peak. |
| AllocatorCounter.OverwriteLoses | internal/bench/allocator.go:234-237 | Recording over an entry loses its bytes for good. |
| AllocatorCounter.ReallocatedTable | internal/bench/allocator.go:227-244 | Whatever the two reads of the switch see, the old block leaves the table and the new one is in it just when a read that matters saw counting on; the peak counts both blocks only on a counted move. |
| AllocatorCounter.MoveCountsBoth | internal/bench/allocator.go:229-233 | A counted move raises the peak to both blocks and no higher. |
| AllocatorCounter.NativeCounter.Record | internal/bench/allocator.go:151-157 | In place: the entry is set, live grows by its size, and the peak becomes the higher of what it was and live. |
| AllocatorCounter.NativeCounter.Forget | internal/bench/allocator.go:161-169 | In place: the entry and its bytes go, or the free is counted as untracked; the peak stays. |
| AllocatorCounter.NativeCounter.Reallocate | internal/bench/allocator.go:227-244 | In place: the table after a realloc, in each of its three orders. |
| AllocatorRuns.StepInv | internal/bench/allocator.go:178-257 | Every interleaved step keeps the table equal to the counted blocks, but for the one entry a realloc under the mutex is about to remove. |
| AllocatorRuns.FiguresExact | internal/bench/allocator.go:66-96 | In every run live is the table's total, never negative nor above the peak, and with the mutex free the table is exactly the counted blocks. |
| AllocatorRuns.NeverOverwrites | internal/bench/allocator.go:151-157 | In every run no step records an address that is still in the table. |
| AllocatorRuns.AddressReused | internal/bench/allocator.go:218-220 | Another thread can hold the address a realloc has just left; recording it then would lose bytes, the mutex makes it wait, and afterwards it is recorded exactly. |
| AllocatorRuns.ReuseHappens | internal/bench/allocator.go:218-220 | A run from the start in which libc gives one thread the address another's realloc has just left, and it waits for the mutex with the entry still in the table. |
| AllocatorRuns.PeakCovers | internal/bench/allocator.go:127-141 | Between two resets the peak covers the live figure at every moment. |
| AllocatorRuns.PeakIsHighest | internal/bench/allocator.go:127-157 | Between two resets the peak is exactly the highest of what it was and every figure the counter stands at, a moved block counted twice while it moves. |
| AllocatorRuns.PeakReached | internal/bench/allocator.go:127-141 | From the start or from a reset the peak is the highest figure the counter has stood at since, and has been reached. |
| AllocatorRuns.PausedAddsNothing | internal/bench/allocator.go:76-89 | While counting is off and no earlier call has still to be recorded, no step of any run adds an entry to the table. |
| AllocatorSizes.SizesAsAsked | internal/bench/allocator.go:151-257 | In every run, with the mutex free, each entry of the table is the size last asked for at its address. |
| AllocatorRuns.NothingUntracked | internal/bench/allocator.go:72-89 | While every allocation goes through the hooks with counting on, nothing is untracked and every block the program holds is counted. |
| WorkspaceLock.StepInv | internal/app/compose.go:1420-1490 | Every step keeps lock, count, collector and trace in agreement. |
| WorkspaceLock.CountedHolds | internal/app/compose.go:1393-1400 | In every run, before Close the lock is open exactly while holders are counted and the collector attached exactly as long; a hold not given back still has the lock. |
| WorkspaceLock.TraceIsIntervals | internal/app/compose.go:1402-1416 | Whenever the lock is free the trace is whole acquisitions: acquire, attach, recover, collect, detach, unlock, or a failed attach or recovery undone in order; and one without its collection only if the run began with an open that failed between recovering and collecting. |
| WorkspaceLock.UncollectedOpen | internal/app/compose.go:633-655 | That fourth form is the trace of exactly the opens that recover and then fail. |
| WorkspaceLock.HoldGranted | internal/app/compose.go:1420-1467 | A hold is granted exactly when the process builds and has the lock or can take it; one that is not leaves nothing held; and what either adds to the trace is exactly the steps taken and undone. |
| WorkspaceLock.ReleaseClosesLast | internal/app/compose.go:1472-1490 | A release closes the lock exactly when it is the last hold's, and a second call changes nothing. |
| WorkspaceLock.ClosedForGood | internal/app/compose.go:1908-1914 | After Close nothing takes the lock again and no release left behind closes one. |
| WorkspaceLock.Stack.OpenLocked | internal/app/compose.go:633-655 | An open that locks holds the lock as its own holder if every step succeeded, and nothing otherwise; it collects only if nothing between its recovery and its end failed. |
| WorkspaceLock.Stack.Hold | internal/app/compose.go:1420-1467 | In place: the first holder acquires, attaches and recovers; later ones only count. |
| WorkspaceLock.Stack.Give | internal/app/compose.go:1462-1490 | In place: one decrement per hold, the collector detached before the lock is closed. |
| WorkspaceLock.Stack.Close | internal/app/compose.go:1896-1914 | The ledger is stopped and the lock given up, whatever was left held. |

## Left out

- Ledger.Ledger.Queue: the blocking select, channels and timers of Hold are modelled as separate steps of one caller's phase; makeRoom, the registered holders and the re-derivation are arbitrary other steps taken with no lock held.
- LedgerSums.OverCommitBound: for runs in which every sum a test takes fits int64, because the bound is false otherwise (LedgerSums.WrappedSumAdmits).
- NeedHistogram.Histogram.Observe: weights and bucket edges are real numbers, so float rounding is not modelled; underflow is a threshold of 2^-1074 below which a weight becomes zero, and the mutex is not modelled.
- Ratios.BucketOf: the logarithm's rounded proposal is an arbitrary starting index.
- NeedHistogram.Histogram.UnmarshalBinary: JSON parsing, unknown fields and trailing content are not part of this model; it starts from the decoded record.
- Measure.MeasureEntry: an entry's JSON length is a constant plus the decimal digits of its three numbers, and what does not depend on them fits memory.
- Packing.PackPlanStream: group sums are unbounded integers, and the bounded list of missing paths in the floor's error is not modelled.
- PackingTheorems.FloorIsEnough: for groups of at least one byte and one token, which every measured entry is.
- CompileRuns.CompileState.StageIngest: the walk is its ranked pages, in order and whole; how far a deadline before the first page lets the graph engine get is not modelled, so such a request may come to nothing any number of times and is not counted as progress.
- CompileRuns.Compile: passes are functions of the streams they read; run files, leases, signed cursors and the re-attached fold of the edge stream are abstracted by storing a stream's value.
- Hydration.HydrateStream: takes from the seed producers that an excluded candidate names no file.
- Routes.RebuildRoutes: hop counts and multipliers are unbounded integers.
- RouteScores.ScoreRoutes: sort.SliceStable is an insertion sort with the same comparator, and a reason is the four values its sentence is made of.
- Preimage.AbsorbedInjective: the digest itself is not modelled; equality is of what it is taken over.
- AllocatorRuns.FiguresExact: sizes are unbounded naturals; the C heap hands out any address it has not handed out already, and the program passes the hooks only blocks it holds.
- AllocatorRuns.StepInv: a process that fails for want of memory stops that thread rather than the whole process, which allows more behaviours.
- WorkspaceLock.Stack.Hold: waiting for another process, the lock file's record and the errors' text are not modelled.
- Assembling the slice table, boosts, the manifest's own size bound and resolving a budget's defaults add only easier relatives of what is here.
- The command line, rendering, configuration tables, language servers, SQLite and Git are not part of this model.
