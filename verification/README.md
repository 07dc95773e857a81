# YuniKorn core: verified models of the scheduler's bookkeeping

This project models the parts of the YuniKorn core scheduler that keep books, and proves that the
books are right in every run. The scheduler places the asks of applications on nodes. It never
recounts: every total, histogram, list and counter is updated step by step, under many interleavings,
and other code relies on it.

| modules | what they model |
|---|---|
| `Quantities`, `Resources`, `Shares` | 64 bit saturating quantities, sparse resource vectors, fair share comparison |
| `EventLog`, `EventRingBuffer`, `EventStreaming` | the event ring buffer as an append-only log, and the history-plus-live streams on top of it |
| `ConfigValidator` | the check of the queue tree in a configuration |
| `Allocations`, `SortedAsks`, `PendingPriorities`, `TrackedTotals`, `ApplicationBooks`, `ApplicationSteps`, `ApplicationRuns`, `RequestLists`, `Applications` | an application: requests, allocations, running totals, priority histogram, sorted list |
| `PlaceholderSwaps`, `NodeSwaps`, `SwapConfirmations`, `FirstFits`, `StrandedAsks`, `BookingExamples`, `PlaceholderCount` | gang scheduling: placeholders that are swapped for real allocations, and their counter |
| `NodeAccounting`, `Nodes`, `PartitionTotals`, `Partitions` | nodes and the partition |
| `Reservations` | reservations, recorded on the application, on the node and in a counter |
| `QuotaPreemptor`, `QueueSnapshots`, `Preemption`, `PreemptionMarking`, `RequiredNodePreemptor` | the three preemptors |
| `MapSums` | sums over maps |

Objects whose methods update their fields are classes here, and loops are loops. Each method is
proved to do what a function on values says. What holds over whole runs is proved about these
functions. Methods of the source that run under one lock are atomic steps. The calls that a queue, a
user tracker, a timer or the shim would receive are left out or are parameters, such as the order in
which a map is walked, the answer of a predicate and the current time.

`dafny verify dfyconfig.toml` checks the whole project.

## Where the code does not do what one would expect

Each of these has a lemma with the exact condition, and most have an example too.

- A read of the ring buffer can return events that were not asked for, because an unsigned subtraction
  wraps (`EventLog.EventsFromIdExactIff`). A request for more recent events than are stored returns
  none once an event was dropped (`EventLog.RecentEventsExactIff`, `EventLog.TooManyRecentExample`).
- A stream has a gap between history and live events when its snapshot is too short
  (`EventStreaming.SnapshotCoversIff`, `EventStreaming.GapExample`).
- A queue that has a guarantee of its own hides what its children are promised in other types
  (`ConfigValidator.ReportsAllIff`).
- The quota split counts unused guarantee as usage (`QuotaPreemptor.UsageIsExcessIff`).
- The victim loops test that the queue stays above its guarantee by comparing its preemptable resource
  with zero. That test holds in every state and filters nothing
  (`QueueSnapshots.QueueSnapshot.PreemptableTestHolds`, `Preemption.MayLoseIff`).
- A failed preemption can take away the mark of another preemptor (`PreemptionMarking.LostMarkIff`,
  `PreemptionMarking.LostMarkExample`).
- Rollback and resize always use the total of the real allocations (`ApplicationRuns.RollbackSoundIff`,
  `ApplicationRuns.ResizeSoundIff`, `BookingExamples.RollbackExample`, `BookingExamples.ResizeExample`).
- When a node is off the list, the partition returns a placed ask to pending although its allocation may
  still be there, or although the ask is in a running swap. That alone keeps the books right
  (`ApplicationRuns.UnwindKeepsSound`). But if the ask is placed again while it is listed, or a swap that it
  left is confirmed after it was placed, it is counted twice, and a resize goes to the wrong total
  (`ApplicationRuns.PlaceSoundIff`, `ApplicationRuns.ConfirmTracksIff`, `ApplicationRuns.SwapTracksIff`,
  `ApplicationRuns.ResizeSoundIff`, `BookingExamples.UnwindExample`, `BookingExamples.ConfirmExample`,
  `SwapConfirmations.ReturnedThenPlaced`).
- In the same way a rollback makes the ask pending before it takes the allocation off the node, and the
  node charges an allocation twice that is added in between (`NodeAccounting.ReAddTracksIff`,
  `NodeAccounting.ReAddExample`).
- The confirmation of a swap that was cancelled meanwhile finds no real allocation, and the partition does
  not test for that (`SwapConfirmations.ConfirmationFindsLinkIff`,
  `SwapConfirmations.CancelledThenConfirmed`).
- The resize of an ask in an unconfirmed swap is charged to a node that does not hold it
  (`NodeAccounting.UnlistedResizeTracksIff`).
- An ask whose allocation was recovered and then rolled back is pending but never scheduled
  (`RequestLists.RecoveredAskIsLost`).
- A placeholder that was released as too small can still be picked for a swap, which strands the ask
  (`FirstFits.FirstFitReleasedIff`, `StrandedAsks.ReleasedThenSwappedStrands`).
- A placeholder that times out or is released in the middle of a swap strands the ask of the swap
  (`StrandedAsks.ReleaseStrandsIff`). The removal of a node takes allocations away and leaves their asks
  behind, placed and without allocation (`StrandedAsks.RemovalStrandsIff`).
- An update of an unknown foreign allocation is stored but not accounted for
  (`NodeAccounting.UnknownForeignTracksIff`).
- An ask that is refused a node loses the reservation it had on another one (`Reservations.ReservedIff`).
- A reservation that waited too long is dropped behind the back of the counter, which stays too high
  (`Reservations.CounterExactIff`).
- The placeholder counter stays too high after a rollback or the removal of an application. It gets too
  low when a node is removed between placement and count, and placeholders are then not replaced
  (`PlaceholderCount.CounterExactIff`, `PlaceholderCount.SkippedExample`).
- Sums that saturated are not repaired (`PartitionTotals.AddThenRemoveIff`), and subtraction is wrong
  for the smallest number (`Quantities.SubValExactIff`).

Documentation and code disagree in one more place. The comment above the deallocation of an ask says
that a rollback can reach it for an ask that was dropped from the requests. The rollback now refuses
that case first, and the model follows the code.

## Model

| member | source | states |
|---|---|---|
| `Quantities.AddVal` | pkg/common/resources/resources.go:245-264 | for all pairs of 64 bit numbers the wrapped sum with its sign test is the exact sum, saturated at the ends of the range |
| `Quantities.SubVal` | pkg/common/resources/resources.go:266-268 | the subtraction by adding the negated number saturates, with the one wrong case of the smallest number built in |
| `Quantities.SubValExactIff` | pkg/common/resources/resources.go:266-268 | subtraction is the exact difference clamped to 64 bits if and only if the second argument is not the smallest number |
| `Quantities.MulValExact` | pkg/common/resources/resources.go:270-295 | for all pairs the divide-back test and its special case find exactly the overflows: the result is the exact product clamped to 64 bits |
| `Resources.Resource.AddTo` | pkg/common/resources/resources.go:165-174 | the loop over the added types changes each of them by the saturated sum and nothing else; nil adds nothing |
| `Resources.Resource.SubFrom` | pkg/common/resources/resources.go:180-189 | the same for subtraction |
| `Resources.Resource.Prune` | pkg/common/resources/resources.go:150-159 | exactly the zero entries go |
| `Resources.Resource.FitInLoop` | pkg/common/resources/resources.go:469-493 | the loop with its early exit decides for every type of the smaller side, in all four conventions for undefined and negative types, nil included |
| `Resources.Resource.StrictlyOnlyExisting` | pkg/common/resources/resources.go:923-976 | the loops decide the comparison over the types of the larger side, with the special cases of nil, empty and equal sides |
| `Resources.PlusExact` | pkg/common/resources/resources.go:330-345 | addition is exact in every type when no sum leaves 64 bits |
| `Resources.MinusExact` | pkg/common/resources/resources.go:350-365 | subtraction is exact in every type when no difference leaves 64 bits |
| `Resources.MinusThenPlus` | pkg/common/resources/resources.go:330-365 | taking an amount away and adding it again restores every type, and the second step cannot saturate |
| `Resources.PlusThenMinus` | pkg/common/resources/resources.go:330-365 | adding a non-negative amount and taking it away restores every type, and the second step cannot saturate |
| `Resources.SaturatedSumIsNotUndone` | pkg/common/resources/resources.go:245-264 | once a sum saturated, taking the amount away does not restore it |
| `Resources.AtLeastZero` | pkg/common/resources/resources.go:881-902 | comparison with nil means that no quantity is negative |
| `Resources.EqualsIsSameView` | pkg/common/resources/resources.go:729-811 | the two equality tests hold exactly when all types have the same quantity, an absent type counting as zero |
| `Shares.CompareShares` | pkg/common/resources/resources.go:678-722 | the loop over two lists of different length, with its test of the surplus, is the lexicographic comparison from the end of the zero-padded lists |
| `Shares.GreaterIff` | pkg/common/resources/resources.go:678-722 | a list compares as larger if and only if it has the larger share at the last position at which the padded lists differ |
| `Shares.Antisymmetric` | pkg/common/resources/resources.go:678-722 | swapping the sides negates the result |
| `Shares.Transitive` | pkg/common/resources/resources.go:678-722 | the order is transitive, and equality at the ends means equality in between |
| `Shares.ZerosAreIgnored` | pkg/common/resources/resources.go:678-722 | leading zeros of a list make no difference on either side |
| `Shares.NoOtherZeros` | pkg/common/resources/resources.go:678-722 | in a sorted list of non-negative shares all zeros are leading ones, so every explicit zero is ignored |
| `SortedAsks.InsertKeepsSorted` | pkg/scheduler/objects/sorted_asks.go:29-50 | an insert, by fast path or by search, keeps the order by priority and age and adds exactly the ask |
| `SortedAsks.RemoveKeepsSorted` | pkg/scheduler/objects/sorted_asks.go:52-65 | a removal keeps the order and takes out exactly the first entry with the key |
| `SortedAsks.RunIsSorted` | pkg/scheduler/objects/sorted_asks.go:29-65 | after any sequence of inserts and removals the list is sorted and holds exactly what was inserted and not removed |
| `SortedAsks.SortedRequests.InsertAsk` | pkg/scheduler/objects/sorted_asks.go:29-42 | the list in place follows the specification of the insert and stays sorted |
| `SortedAsks.SortedRequests.Search` | pkg/scheduler/objects/sorted_asks.go:29-42 | binary search finds the first entry that the ask may stand before |
| `SortedAsks.SortedRequests.RemoveAsk` | pkg/scheduler/objects/sorted_asks.go:52-59 | the list in place follows the specification of the removal and stays sorted |
| `EventLog.RunKeepsNewest` | pkg/events/event_ringbuffer.go:59-265 | after any run of adds and resizes the buffer is the append-only log with a low-water mark: all events, under unchanged ids, of which exactly the newest that ever fitted are kept |
| `EventRingBuffer.RingBuffer.constructor` | pkg/events/event_ringbuffer.go:198-203 | a new buffer is the empty log |
| `EventRingBuffer.RingBuffer.Add` | pkg/events/event_ringbuffer.go:59-71 | the array, head, full flag, id and lowest id after an add represent the log with one event more |
| `EventRingBuffer.RingBuffer.UpdateLowestID` | pkg/events/event_ringbuffer.go:206-220 | the lowest id moves up exactly when shrinking drops events, to the oldest one that is kept |
| `EventRingBuffer.RingBuffer.Resize` | pkg/events/event_ringbuffer.go:224-265 | for any head position and any new size the new array represents the same log with its newest events, ids unchanged |
| `EventRingBuffer.RingBuffer.Id2Pos` | pkg/events/event_ringbuffer.go:181-191 | an id is found exactly when it is stored, at the position the offset gives it |
| `EventRingBuffer.RingBuffer.GetEntriesFromRanges` | pkg/events/event_ringbuffer.go:163-176 | the two copied ranges are those of the array, in order |
| `EventRingBuffer.RingBuffer.GetEventsFromID` | pkg/events/event_ringbuffer.go:104-141 | the read by array ranges, with the wrapping unsigned subtraction, is the read of the log given by EventsFromId |
| `EventRingBuffer.RingBuffer.GetRecentEvents` | pkg/events/event_ringbuffer.go:75-89 | the read by id, with its fallback to id 0, is the read of the log given by RecentEvents |
| `EventLog.EventsFromIdExactIff` | pkg/events/event_ringbuffer.go:104-141 | a request for a stored id gets exactly the requested events if and only if the unsigned subtraction does not wrap or the newest event is in the last slot |
| `EventLog.ReachingNewestIsExact` | pkg/events/event_ringbuffer.go:104-141 | a request that reaches the newest event is always answered exactly, and its subtraction never wraps |
| `EventLog.UnderflowExample` | pkg/events/event_ringbuffer.go:121-136 | a short request from the upper part of a wrapped buffer gets an event that was not asked for |
| `EventLog.RecentEventsCases` | pkg/events/event_ringbuffer.go:75-89 | a request for at most the stored number of events gets exactly the newest ones; all other cases are given too |
| `EventLog.RecentEventsExactIff` | pkg/events/event_ringbuffer.go:75-89 | a larger request gets all stored events if and only if nothing was ever dropped; otherwise it gets none |
| `EventLog.TooManyRecentExample` | pkg/events/event_ringbuffer.go:75-89 | after four events in a buffer of three a request for four recent events gets none |
| `EventStreaming.NextKeeps` | pkg/events/event_streaming.go:68-170 | every step of the event handler, of the consumers and of a configuration reload keeps the stream invariant |
| `EventStreaming.Run` | pkg/events/event_streaming.go:68-170 | every state of every interleaving satisfies the stream invariant |
| `EventStreaming.CoveredStreamIsInOrder` | pkg/events/event_streaming.go:90-134 | in every interleaving a consumer whose snapshot is empty or reaches back to its first live event gets a contiguous, ordered, duplicate-free part of the log, from the first event of its history or, without history, from its first live event on, nil only after it was stopped, and everything published once its channel is drained |
| `EventStreaming.HistoryComesFirst` | pkg/events/event_streaming.go:90-134 | in every interleaving, whatever happened before and happens after the snapshot, a consumer first receives the newest stored events, as many as it asked for; all of them if it asked for more and nothing was ever dropped; and none in exactly the other cases; and it has all of them before it goes live |
| `EventStreaming.CoveredStreamStart` | pkg/events/event_streaming.go:90-134 | the part that a covered consumer receives starts exactly that many events before the end of the log at its snapshot, or at its first live event if it gets no history |
| `EventStreaming.UncoveredStreamIsNot` | pkg/events/event_streaming.go:90-134 | a consumer whose snapshot does not reach back gets no contiguous part of the log |
| `EventStreaming.GapExample` | pkg/events/event_streaming.go:90-134 | a reachable stream that asked for one event of history and gets the second event before the first |
| `EventStreaming.SnapshotCoversIff` | pkg/events/event_streaming.go:90-134 | the snapshot reaches back if and only if no history was asked for, at most the requested number of events came in since the first live one, or more was asked for than is stored |
| `ConfigValidator.CheckQueueResource` | pkg/common/configs/configvalidator.go:125-153 | the recursion with its loop over the children accepts exactly the trees that the specification accepts, and reports the same guarantee (AcceptedIff says which trees these are) |
| `ConfigValidator.AcceptedIff` | pkg/common/configs/configvalidator.go:125-153 | a tree is accepted if and only if every queue parses, every guarantee fits in the queue's own maximum, every maximum is within that of each ancestor, and the effective guarantees of the children fit in the guarantee and maximum of their parent and in the maximum of each ancestor, for the types these define |
| `ConfigValidator.CheckResourceConfig` | pkg/common/configs/configvalidator.go:297-312 | a queue passes exactly when both limits parse and the guarantee fits in the maximum |
| `ConfigValidator.AncestorBounds` | pkg/common/configs/configvalidator.go:125-153 | in an accepted tree every queue respects every ancestor: for each type that the ancestor's maximum defines, maximum and guarantee of the queue are at most that, also across levels that leave the type out |
| `ConfigValidator.ChildGuaranteesFit` | pkg/common/configs/configvalidator.go:125-153 | the effective guarantees of the children of an accepted queue add up to at most its guarantee and its maximum, for every type these define |
| `ConfigValidator.ReportsAllIff` | pkg/common/configs/configvalidator.go:125-153 | an accepted queue reports to its parent at most what is promised below it, and all of it if and only if no queue on the way hides promises of its children behind a guarantee of its own |
| `ConfigValidator.HiddenGuaranteeExample` | pkg/common/configs/configvalidator.go:125-153 | for any two amounts there is an accepted tree whose leaf is guaranteed more than the root |
| `ConfigValidator.CheckQueueMaxApplications` | pkg/common/configs/configvalidator.go:221-236 | the recursion accepts exactly the trees that satisfy the rule at every queue |
| `ConfigValidator.AncestorMaxApplications` | pkg/common/configs/configvalidator.go:221-236 | in an accepted tree a limit on the applications of a queue bounds every queue below it |
| `QuotaPreemptor.BudgetIsExcess` | pkg/scheduler/objects/quota_preemptor.go:218-255 | there is a budget if and only if a type is over its maximum; it names exactly the types over the maximum, and each amount is what is over the maximum, or what the hierarchy reports as preemptable where that is less |
| `QuotaPreemptor.ChildUsage` | pkg/scheduler/objects/quota_preemptor.go:166-187 | the loop over the types of a child, negating the negative entries, gives its distance from the guarantee in every type, and none for a child that is skipped |
| `QuotaPreemptor.TakesPartIff` | pkg/scheduler/objects/quota_preemptor.go:166-187 | a child takes part in the split if and only if it uses something and has no guarantee or is above it in a type; what counts are the types of the guarantee, or all it uses |
| `QuotaPreemptor.UsageIsExcessIff` | pkg/scheduler/objects/quota_preemptor.go:166-187 | the usage of a child in a type is its excess over the guarantee if and only if it uses at least its guarantee; below that the unused guarantee counts as usage |
| `QuotaPreemptor.UnderusedExample` | pkg/scheduler/objects/quota_preemptor.go:166-187 | a child below its guarantee in one type is charged for the unused part |
| `QuotaPreemptor.ChildrenUsage` | pkg/scheduler/objects/quota_preemptor.go:157-190 | the first loop gives the usage of every child and its sum |
| `QuotaPreemptor.GetChildQueuesPreemptableResource` | pkg/scheduler/objects/quota_preemptor.go:151-211 | the recursion that fills one shared map gives every leaf its part and touches no other entry (LeafBudgetsAre and PathBudgetStep say which leaves and how much) |
| `QuotaPreemptor.PartIsProportion` | pkg/scheduler/objects/quota_preemptor.go:192-210 | a child gets its proportion of the budget, rounded down: not a unit more and not a unit less |
| `QuotaPreemptor.LeafBudgetsAre` | pkg/scheduler/objects/quota_preemptor.go:151-211 | the leaves with a budget are exactly those whose every queue on the way takes part, and each has what arrives on its path |
| `QuotaPreemptor.PathBudgetTypes` | pkg/scheduler/objects/quota_preemptor.go:151-211 | the budget that arrives has exactly the types of the top budget that every queue on the way counts |
| `QuotaPreemptor.PathBudgetStep` | pkg/scheduler/objects/quota_preemptor.go:192-210 | at every level of the way the amount is the rounded down proportion of the amount above |
| `QuotaPreemptor.LevelConserves` | pkg/scheduler/objects/quota_preemptor.go:192-210 | the parts of the children of one queue add up to at most its budget, for every type, and fall short of it by less than the number of children if there is usage to share it out by |
| `QuotaPreemptor.SplitConserves` | pkg/scheduler/objects/quota_preemptor.go:151-211 | for every queue tree the budgets of all leaves add up to at most the budget of the top queue, for every type, and none is negative |
| `QuotaPreemptor.PreemptVictims` | pkg/scheduler/objects/quota_preemptor.go:308-347 | the loop over the candidates groups exactly the collected victims by application, in order, and gives their total |
| `QuotaPreemptor.CollectWithinBudget` | pkg/scheduler/objects/quota_preemptor.go:326-347 | the victims of a leaf are counted exactly and never exceed its budget in a type the budget defines |
| `QuotaPreemptor.CollectTakesIff` | pkg/scheduler/objects/quota_preemptor.go:326-347 | a candidate is taken if and only if its application is there and with the ones taken before it stays within the budget in every type of it |
| `QuotaPreemptor.ClaimsWithinBudget` | pkg/scheduler/objects/quota_preemptor.go:151-347 | over the whole tree the victims of all leaves add up to at most the budget of the top queue, in the types each leaf has a budget for |
| `QueueSnapshots.QueueSnapshot.AddAllocation` | pkg/scheduler/objects/preemption.go:839-845 | the amount is added to the queue and to every ancestor |
| `QueueSnapshots.QueueSnapshot.RemoveAllocation` | pkg/scheduler/objects/preemption.go:848-854 | the amount is taken from the queue and from every ancestor |
| `QueueSnapshots.QueueSnapshot.RemoveAndAdd` | pkg/scheduler/objects/preemption.go:839-854 | a removal followed by the addition restores the queue and every ancestor |
| `QueueSnapshots.QueueSnapshot.PreemptableIsPositive` | pkg/scheduler/objects/preemption.go:746-783 | by induction over the ancestors the preemptable amounts are strictly positive, at most the usage of the queue above its guarantee, and at most the amount of the parent where it has one |
| `QueueSnapshots.QueueSnapshot.PreemptableTestHolds` | pkg/scheduler/objects/preemption.go:280-281 | the comparison of the preemptable resource with zero, which all victim loops make, always holds |
| `QueueSnapshots.RemainingByPath` | pkg/scheduler/objects/preemption.go:718-821 | what a duplicate has left of its guarantee is what its original would have under the usage of the duplicates, whatever a trial did to it; the ask queue counts as it stands |
| `QueueSnapshots.QueueSnapshot.RemainingByType` | pkg/scheduler/objects/preemption.go:785-821 | type by type: something is left of exactly the types that a counting queue guarantees, and it is the least that one of them has left, its own guarantee alone for the queue of the ask; ancestors count up to the first that shares its guarantee with the ask's queue |
| `QueueSnapshots.QueueSnapshot.PreemptableByType` | pkg/scheduler/objects/preemption.go:746-783 | type by type: a queue offers exactly what it uses above its guarantee, or what its parent offers if that is less; it offers nothing at all if and only if it uses nothing |
| `QueueSnapshots.ChainByPath` | pkg/scheduler/objects/preemption.go:718-744 | the ancestors of a duplicate are the duplicates of the ancestors |
| `QueueSnapshots.Duplicate` | pkg/scheduler/objects/preemption.go:718-744 | the copy of a queue and its ancestors consists of new objects but for the ask queue it refers to, has one copy per queue path, and keeps the values and the parent structure |
| `Preemption.ChangeIsShrinking` | pkg/scheduler/objects/preemption.go:291-295 | the test for an unchanged shortfall fails exactly when the victim strictly shrinks the shortfall in some type |
| `Preemption.ShortfallNeverGrows` | pkg/scheduler/objects/preemption.go:291-295 | no victim makes the shortfall larger in any type |
| `Preemption.MayLoseIff` | pkg/scheduler/objects/preemption.go:280-282 | a queue may lose a victim if and only if no counting queue guarantees anything or one of them is over its guarantee in a type of the ask |
| `Preemption.MayGainIff` | pkg/scheduler/objects/preemption.go:283-285 | the ask's queue may take a victim if and only if something is guaranteed and no counting queue would be over its guarantee with it |
| `Preemption.RoundedMoves` | pkg/scheduler/objects/preemption.go:259-318 | a victim for the head list moves its size from the queues of its path to those of the ask's; after every other verdict each queue uses what it did before |
| `Preemption.AllPlaced` | pkg/scheduler/objects/preemption.go:259-318 | every candidate that was tried is in exactly one of the lists: head, tail, skipped or stopped at |
| `Preemption.Preemptor.DuplicateQueueSnapshots` | pkg/scheduler/objects/preemption.go:374-380 | the working copies are new objects, one for every queue and every ancestor, that copy settings, usage and structure |
| `Preemption.Preemptor.CalculateVictimsByNode` | pkg/scheduler/objects/preemption.go:240-372 | the victims are, in order, what the second pass keeps of the head list followed by the tail list of the first pass; every head element shrinks the shortfall left by those before it; the index is the least at which the ask fits; the answer is nil if and only if the ask does not fit as it is, and its queue is unknown or it fits with none of the beginnings of that list; nothing but the working copies changes |
| `Preemption.Preemptor.OneCourse` | pkg/scheduler/objects/preemption.go:259-371 | two passes over the same candidates agree in every round, so that the victims are determined by the candidates and the queues |
| `Preemption.Preemptor.HeadsShrink` | pkg/scheduler/objects/preemption.go:291-309 | every victim of the head list strictly shrinks the shortfall that the victims before it left |
| `Preemption.Preemptor.FirstPass` | pkg/scheduler/objects/preemption.go:259-318 | every candidate before the first stop gets the one right verdict for the usage and the available resource that those before it left; the head list is exactly the ones that shrink the shortfall, the tail list exactly the ones that may be taken and leave it as it is, both in order |
| `Preemption.Preemptor.TryVictim` | pkg/scheduler/objects/preemption.go:262-316 | the verdict is the right one: skipped if and only if the queue is unknown or may not lose it; stopped at if and only if the ask's queue, with the victim taken out of its own chain, may not take it; of the others it goes to the end exactly if it leaves the shortfall as it is; one that goes to the head moves its size from the chain of its queue to that of the ask, any other leaves every copy as it was |
| `Preemption.Preemptor.SecondPass` | pkg/scheduler/objects/preemption.go:329-371 | every candidate of the merged list is kept if and only if its queue is known and may lose it after what was kept before; the index is the least at which the ask fits, and negative if and only if it fits at none |
| `Preemption.Preemptor.KeepVictim` | pkg/scheduler/objects/preemption.go:333-362 | a victim is kept if and only if its queue is known and has no guarantee or is over it in a type of the ask; one that is kept leaves the chain of its queue, one that is not leaves every copy as it was |
| `PreemptionMarking.NextKeeps` | pkg/scheduler/objects/preemption.go:657-676 | every step of the scheduler, of placeholder releases and of other preemptors keeps the marks consistent |
| `PreemptionMarking.AllOrNone` | pkg/scheduler/objects/preemption.go:657-676 | in every interleaving no allocation is both released and preempted; a preemption that succeeds has marked all victims, one that fails leaves only marks of others, and marks of others on allocations that are not its victims stay (for its victims see LostMarkIff) |
| `PreemptionMarking.LostMarkIff` | pkg/scheduler/objects/preemption.go:657-676 | in every interleaving the mark that another preemptor set on an allocation is missing if and only if the last step that touched it was the revert of a failed preemption |
| `PreemptionMarking.LostMarkExample` | pkg/scheduler/objects/preemption.go:668-671 | the revert of a failed preemption can remove the mark that another preemptor set on the same victim |
| `PreemptionMarking.MarkVictims` | pkg/scheduler/objects/preemption.go:657-676 | without interference victims not yet marked are all marked if none is released, and none is marked otherwise |
| `Allocations.Allocation.SetReleased` | pkg/scheduler/objects/allocation.go:298-308 | a release is refused exactly for an allocation that is preempted |
| `Allocations.Allocation.MarkPreempted` | pkg/scheduler/objects/allocation.go:358-366 | a preemption mark is refused exactly for an allocation that is released |
| `Allocations.Allocation.Allocate` | pkg/scheduler/objects/allocation.go:392-401 | placing succeeds exactly once |
| `Allocations.Allocation.Deallocate` | pkg/scheduler/objects/allocation.go:404-413 | the reverse succeeds exactly for a placed allocation |
| `RequiredNodePreemptor.CoversIsGreaterOrEqual` | pkg/common/resources/resources.go:881-902 | the comparison used here means that every type is covered, an absent one counting as zero |
| `RequiredNodePreemptor.FilteredAreEligible` | pkg/scheduler/objects/required_node_preemptor.go:112-151 | a candidate is exactly an allocation on the node that requires no node, has no higher priority than the ask, shares a type with it and is neither released nor preempted |
| `RequiredNodePreemptor.FilteredJoin` | pkg/scheduler/objects/required_node_preemptor.go:112-151 | candidates keep the order they have on the node |
| `RequiredNodePreemptor.PreemptionContext.FilterAllocations` | pkg/scheduler/objects/required_node_preemptor.go:112-151 | the loop appends exactly the candidates, in order; every other allocation is counted once, under the first reason that applies |
| `RequiredNodePreemptor.ShortestCover` | pkg/scheduler/objects/required_node_preemptor.go:162-180 | for non-negative candidates the number of victims is that of the shortest prefix whose sum covers the ask, or of all candidates if none does |
| `RequiredNodePreemptor.PreemptionContext.GetVictims` | pkg/scheduler/objects/required_node_preemptor.go:162-180 | the loop returns that prefix, and only if it and the available resource cover the ask |
| `NodeAccounting.NextBalances` | pkg/scheduler/objects/node.go:161-473 | without saturation every operation of a node keeps available plus allocated plus occupied equal to the total, for every type |
| `NodeAccounting.ItemsAfter` | pkg/scheduler/objects/node.go:161-473 | what the node lists after every operation, and under which size: the new version of a foreign allocation is stored, known or not, and a resized allocation has the new size; the total changes by a new capacity only, and then to it |
| `NodeAccounting.TryAddStaysNonNegative` | pkg/scheduler/objects/node.go:364-442 | an addition that is not forced never makes an available quantity negative |
| `NodeAccounting.NextTracks` | pkg/scheduler/objects/node.go:161-473 | without saturation every operation, in its right case where it has a wrong one, keeps the allocated and the occupied resource equal to the sum of the allocations of each kind |
| `NodeAccounting.ReAddTracksIff` | pkg/scheduler/objects/node.go:404-442 | adding an allocation under a key that the node still lists keeps the usage right if and only if the replaced one has no size |
| `NodeAccounting.ReAddExample` | pkg/scheduler/objects/node.go:404-442 | a core added twice under one key and removed once leaves an empty node with one core allocated |
| `NodeAccounting.UnknownForeignTracksIff` | pkg/scheduler/objects/node.go:376-402 | an update of a foreign allocation that the node does not know is accounted for if and only if its size is zero |
| `NodeAccounting.UnlistedResizeTracksIff` | pkg/scheduler/partition.go:1278-1310 | charging a node for the resize of an allocation it does not hold, as in an unconfirmed swap, keeps its usage right if and only if the size did not change |
| `NodeAccounting.RunKeepsAccounts` | pkg/scheduler/objects/node.go:65-473 | both hold in every state of every run of legal operations without saturation |
| `NodeAccounting.NewNodeKeepsAccounts` | pkg/scheduler/objects/node.go:65-94 | both hold for a new node |
| `Nodes.Node.constructor` | pkg/scheduler/objects/node.go:65-94 | a new node has all of its capacity available |
| `Nodes.Node.SetCapacity` | pkg/scheduler/objects/node.go:161-180 | the change of capacity is returned, none if all types stay the same, and the node follows its accounting specification |
| `Nodes.Node.UpdateAllocatedResource` | pkg/scheduler/objects/node.go:188-194 | the usage changes by the delta and the available resource follows |
| `Nodes.Node.AddAllocationInternal` | pkg/scheduler/objects/node.go:404-442 | the fields in place follow the accounting specification; the addition is refused exactly when it does not fit and is not forced |
| `Nodes.Node.RemoveAllocation` | pkg/scheduler/objects/node.go:328-359 | the fields in place follow the accounting specification; an unknown key changes nothing |
| `Nodes.Node.ReplaceAllocation` | pkg/scheduler/objects/node.go:447-473 | the fields in place follow the accounting specification of a swap |
| `Nodes.Node.UpdateForeignAllocation` | pkg/scheduler/objects/node.go:376-402 | the fields in place follow the accounting specification, the unknown key included |
| `Nodes.ResizeOnNode` | pkg/scheduler/partition.go:1278-1310 | the resize of the allocation and the update of the usage together are the accounting step of a resize if the node holds the allocation; otherwise the node is charged all the same |
| `Nodes.Node.Reserve` | pkg/scheduler/objects/node.go:571-619 | refused exactly when others hold the node in a way that excludes this ask, or the ask does not fit on the empty node |
| `Nodes.Node.UnReserve` | pkg/scheduler/objects/node.go:624-641 | the record of the key goes and is counted once |
| `PendingPriorities.IncrementAgrees` | pkg/scheduler/objects/application.go:788-793 | counting an ask in keeps the histogram and its maximum equal to a rescan of the pending asks |
| `PendingPriorities.DecrementAgrees` | pkg/scheduler/objects/application.go:797-830 | counting an ask out keeps the histogram equal to a rescan; the band of a pending ask is always there, so the branch without a band is never taken |
| `PendingPriorities.OutAndInAgain` | pkg/scheduler/objects/application.go:788-830 | counting an ask out and in again restores bands and maximum exactly |
| `PendingPriorities.PriorityTracker.AddToPriorities` | pkg/scheduler/objects/application.go:788-793 | the fields in place follow the specification |
| `PendingPriorities.PriorityTracker.RemoveFromPriorities` | pkg/scheduler/objects/application.go:797-830 | the fields in place follow the specification in all three cases |
| `PendingPriorities.PriorityTracker.MaxOfBands` | pkg/scheduler/objects/application.go:820-828 | the loop over the bands finds the largest, or the smallest priority if there is none |
| `ApplicationSteps.AllocateKeepsTotals` | pkg/scheduler/objects/application.go:918-933 | placing a pending ask keeps all totals equal to their sums and the histogram equal to a rescan |
| `ApplicationSteps.DeallocateKeepsTotals` | pkg/scheduler/objects/application.go:935-961 | the same for an ask that returns to pending |
| `ApplicationSteps.AddKeepsTotals` | pkg/scheduler/objects/application.go:1926-1974 | the same for a new allocation of either kind |
| `ApplicationSteps.RemoveKeepsTotals` | pkg/scheduler/objects/application.go:2064-2140 | the same for the removal of an allocation, also of an unknown one |
| `ApplicationSteps.AddAskKeepsTotals` | pkg/scheduler/objects/application.go:652-703 | the same for a new ask, also one that takes the place of a pending ask with the same key |
| `ApplicationSteps.RecoverKeepsSound` | pkg/scheduler/objects/application.go:768-784 | recovering a placed allocation keeps the books sound |
| `ApplicationSteps.RemoveAskKeepsSound` | pkg/scheduler/objects/application.go:613-624 | removing an ask, pending or placed, keeps the books sound |
| `ApplicationSteps.RemoveAsksKeepsSound` | pkg/scheduler/objects/application.go:586-604 | removing all asks keeps the books sound |
| `ApplicationSteps.RemoveAllKeepsSound` | pkg/scheduler/objects/application.go:2148-2191 | removing all allocations keeps the books sound |
| `ApplicationSteps.ResizeKeepsTotals` | pkg/scheduler/objects/application.go:707-764 | a new size of a pending ask or of a confirmed real allocation keeps all totals equal to their sums |
| `ApplicationBooks.ResizedSize` | pkg/scheduler/objects/application.go:707-764 | after a resize the request has the new size, placed or not, unless the new size is empty; no other size or mark changes |
| `ApplicationRuns.RollbackSoundIff` | pkg/scheduler/objects/application.go:877-916 | after a rollback the books are sound if and only if it was refused, did nothing or concerned a real allocation |
| `ApplicationRuns.PlaceholderRollbackIsWrong` | pkg/scheduler/objects/application.go:904-905 | the rollback of a placeholder always leaves wrong totals |
| `BookingExamples.RollbackExample` | pkg/scheduler/objects/application.go:877-916 | a new application asks for a placeholder, gets it and rolls it back: the real total is negative and the placeholder total still has it |
| `ApplicationRuns.ResizeSoundIff` | pkg/scheduler/objects/application.go:707-764 | after a resize that does not saturate the books are sound if and only if the new size is empty, the ask is unknown or the size is the same, or the ask is pending and not among the allocations, or it is a confirmed real allocation |
| `ApplicationRuns.MisbookedResizeIsWrong` | pkg/scheduler/objects/application.go:729-733 | the resize of a placeholder, of an ask in an unconfirmed swap, or of a pending ask whose allocation is still there always leaves wrong totals |
| `BookingExamples.ResizeExample` | pkg/scheduler/objects/application.go:707-764 | a new application asks for a placeholder, gets it and resizes it: the real total has the difference and the placeholder total the old size |
| `ApplicationRuns.UnwindKeepsSound` | pkg/scheduler/objects/application.go:864-871 | returning an ask to pending keeps the books sound in every state, also for an ask that is confirmed or in a running swap |
| `ApplicationRuns.PlaceSoundIff` | pkg/scheduler/objects/application.go:1808-1815 | after a placement that does not saturate the books are sound if and only if the ask was not among the allocations already |
| `BookingExamples.UnwindExample` | pkg/scheduler/partition.go:901-918 | a new application asks, is placed, and its ask returns while the allocation is still there, all legal and sound; placed again it is counted twice, and when its allocation is removed an empty application has one core allocated |
| `ApplicationBooks.NewIsSound` | pkg/scheduler/objects/application.go:135-180 | the books of a new application are sound |
| `ApplicationRuns.RequestsAfter` | pkg/scheduler/objects/application.go:578-784 | the requests after every step: an ask is listed from the step that adds it to the one that removes it |
| `ApplicationRuns.AllocationsAfter` | pkg/scheduler/objects/application.go:1808-2191 | the allocations after every step: a placement and a recovery add exactly the ask, a confirmed swap puts the linked one in the place of the placeholder |
| `ApplicationRuns.PlacedAfter` | pkg/scheduler/objects/application.go:855-961 | which asks are placed after every step: an ask that was swapped is, one whose swap was refused, cancelled or that returned is not |
| `ApplicationRuns.StepKeepsSound` | pkg/scheduler/objects/application.go:578-961 | every step the partition takes on an application keeps the books sound: totals, histogram, entries and links; the return of an ask that is confirmed or in a swap, and the swap of an ask that has returned, included |
| `ApplicationRuns.RunIsSound` | pkg/scheduler/objects/application.go:578-2140 | after any run with fresh keys and sums within 64 bits, in which rollbacks, resizes, placements and confirmations meet their exact condition, pending is the sum of the unallocated requests, the two allocated totals are the sums of the real and of the placeholder allocations, and the histogram is what a rescan gives |
| `PlaceholderSwaps.UnreleasedCanSwap` | pkg/scheduler/objects/application.go:1369-1374 | a placeholder that is not released is in no swap, so the test of its release mark is enough to start one |
| `PlaceholderSwaps.SwapStartKeepsSound` | pkg/scheduler/objects/application.go:1408-1442 | starting a swap keeps the books sound, whatever happened to the two sides before |
| `ApplicationRuns.ConfirmTracksIff` | pkg/scheduler/objects/application.go:2024-2051 | the totals are right after the confirmation of a swap that does not saturate if and only if the real allocation is not among the allocations already |
| `ApplicationRuns.SwapTracksIff` | pkg/scheduler/objects/application.go:1358-1442 | a swap that starts and is confirmed leaves right totals if and only if its ask was not among the allocations when it started, which the search does not test |
| `BookingExamples.ConfirmExample` | pkg/scheduler/objects/application.go:2024-2051 | a run from a new application, legal and sound throughout, in which an ask returns while its allocation is there and is swapped for a placeholder; the confirmation counts its one core twice |
| `PlaceholderSwaps.RefusedSwapRestores` | pkg/scheduler/objects/application.go:1418-1436 | a swap that the placeholder refuses leaves the application as it was: requests, allocations, marks, histogram and, in every type, the totals; the links too, but for one that the ask kept from a swap it left before |
| `PlaceholderSwaps.RefusedSwapRestoresNode` | pkg/scheduler/objects/application.go:1470-1519 | and the resources of the other node as they were, in every type; it loses an allocation that it still listed under the key, and nothing else |
| `PlaceholderSwaps.SwapEndKeepsSound` | pkg/scheduler/objects/application.go:2024-2051 | confirming a swap whose real allocation is not listed yet keeps the books sound |
| `PlaceholderSwaps.SwapCancelKeepsSound` | pkg/scheduler/partition.go:710-790 | reversing a swap when a node is removed keeps the books sound, also when the ask has left the swap |
| `SwapConfirmations.ConfirmationFindsLinkIff` | pkg/scheduler/partition.go:1475-1485 | in every run a placeholder has the link that the confirmation of its swap follows if and only if its last swap was not cancelled |
| `SwapConfirmations.CancelledThenConfirmed` | pkg/scheduler/partition.go:1590-1595 | after a cancelled swap the placeholder is still there without a link, and its confirmation takes it away and brings nothing in |
| `SwapConfirmations.ReturnedThenPlaced` | pkg/scheduler/partition.go:901-918 | an ask that leaves a running swap and is placed elsewhere, all legal steps, is one that the confirmation of the swap counts twice |
| `NodeSwaps.SwapOnNode` | pkg/scheduler/objects/application.go:1470-1530 | a swap on another node changes application and node together, or leaves both as they were, but for a stale link of the ask and a stale entry of the node under its key |
| `StrandedAsks.RemovalStrandsIff` | pkg/scheduler/objects/application.go:2064-2140 | removing an allocation alone, as a timeout and the removal of a node do, leaves a placed ask without allocation or swap if and only if its own ask stays behind placed and in no swap, or it is a placeholder for which a placed ask waits |
| `StrandedAsks.ReleaseStrandsIff` | pkg/scheduler/partition.go:1475-1588 | the release of an allocation and then of its ask strands an ask if and only if it is a placeholder for which a placed ask that is still requested waits |
| `StrandedAsks.StepStrandsNone` | pkg/scheduler/objects/application.go:578-2140 | no other step strands an ask, ordinary releases, also of everything, included |
| `StrandedAsks.RunStrandsNone` | pkg/scheduler/objects/application.go:578-2140 | in every run that takes away no placeholder an ask waits for and no allocation without its ask, every placed real request is among the allocations or in a swap that will bring it there |
| `StrandedAsks.ReleasedThenSwappedStrands` | pkg/scheduler/objects/application.go:1379-1530 | a placeholder that was released as too small and is then still picked for a swap strands the ask when it leaves |
| `FirstFits.FirstFitReleasedIff` | pkg/scheduler/objects/application.go:1358-1403 | for all placeholders and asks of all task groups, with preemption by others at any moment: the remembered first fit was released in the same search if and only if a later ask releases it |
| `FirstFits.Search` | pkg/scheduler/objects/application.go:1358-1412 | the two loops, whatever the order of the placeholders and whatever is preempted or refused meanwhile, release exactly the placeholders that an ask of their group is too large for, swap on the own node only an unreleased placeholder that fits, and otherwise remember the first pair that fits |
| `FirstFits.FirstFitReleasedExample` | pkg/scheduler/objects/application.go:1358-1403 | one placeholder and two asks for which the first fit is a released placeholder |
| `FirstFits.FittingCanSwap` | pkg/scheduler/objects/application.go:1358-1412 | in sound books every pair that the search finds meets the condition under which a swap is a step of a run |
| `RequestLists.StepKeepsList` | pkg/scheduler/objects/application.go:578-784 | every step keeps the sorted list sorted, without duplicates and made of requests; no step but a recovery adds a request that is not listed |
| `RequestLists.RunKeepsList` | pkg/scheduler/objects/application.go:578-784 | in every run the list is sound, and without recoveries it lists every request |
| `RequestLists.RollbackListedIff` | pkg/scheduler/objects/application.go:877-916 | after a rollback every pending ask is seen by the scheduling cycle if and only if the rolled back ask was listed before |
| `RequestLists.RecoveredAskIsLost` | pkg/scheduler/objects/application.go:768-784 | a recovered allocation that is rolled back becomes a pending ask that no scheduling cycle sees |
| `Applications.Application.constructor` | pkg/scheduler/objects/application.go:135-180 | a new application has empty books |
| `Applications.Application.AllocateAskInternal` | pkg/scheduler/objects/application.go:918-933 | ask, histogram and pending total change as the specification of placing says; refused for a placed ask |
| `Applications.Application.DeallocateAskInternal` | pkg/scheduler/objects/application.go:935-961 | the reverse; the histogram counts the ask only if it is still this application's request |
| `Applications.Application.AllocateAsk` | pkg/scheduler/objects/application.go:855-862 | the same by key; an unknown key changes nothing |
| `Applications.Application.DeallocateAsk` | pkg/scheduler/objects/application.go:864-871 | the same by key; an unknown key changes nothing |
| `Applications.Application.AddAllocationAsk` | pkg/scheduler/objects/application.go:652-703 | refused for a placed or empty ask; otherwise requests, histogram, pending total and sorted list follow the specification, replacement of a pending ask included |
| `Applications.Application.RecoverAllocationAsk` | pkg/scheduler/objects/application.go:768-784 | the allocation becomes a request without entering the pending total or the sorted list |
| `Applications.Application.UpdateAllocationResources` | pkg/scheduler/objects/application.go:707-764 | refused for an empty size or an unknown ask; otherwise size and totals follow the specification |
| `Applications.Application.RemoveAllocationAsk` | pkg/scheduler/objects/application.go:613-624 | the ask leaves requests, list and, if it was pending, histogram and total |
| `Applications.Application.RemoveAllAllocationAsks` | pkg/scheduler/objects/application.go:586-604 | requests, list, histogram and pending total are empty |
| `Applications.Application.AddAllocationInternal` | pkg/scheduler/objects/application.go:1926-1974 | the allocation enters the map and the total of its kind |
| `Applications.Application.RemoveAllocationInternal` | pkg/scheduler/objects/application.go:2064-2140 | the allocation leaves the map and the total of its kind; an unknown key changes nothing |
| `Applications.Application.RemoveAllAllocations` | pkg/scheduler/objects/application.go:2148-2191 | the map and both totals are empty |
| `Applications.Application.RollbackAllocation` | pkg/scheduler/objects/application.go:877-916 | the allocation becomes a pending ask as the specification says, and it alone loses its node; refused for an inactive application, an unknown key or an ask that is not placed |
| `Applications.Application.ReleaseAllocation` | pkg/scheduler/partition.go:1475-1588 | allocation and ask leave as the two specifications say, one after the other; returns what was released |
| `Applications.Application.TrySwap` | pkg/scheduler/objects/application.go:1408-1442 | the swap on the placeholder's node, undone step by step when the placeholder refuses |
| `Applications.Application.ReplaceAllocation` | pkg/scheduler/objects/application.go:2024-2051 | the placeholder leaves and the linked allocation enters as the specification says; without a link the placeholder just leaves |
| `Applications.Application.CancelSwap` | pkg/scheduler/partition.go:768-772 | both sides are unlinked and the ask returns to pending |
| `Applications.Application.ReserveInternal` | pkg/scheduler/objects/application.go:995-1026 | both records are made or none; refused for an ask that is unknown, placed or already reserved, or by the node |
| `Applications.Application.UnReserveInternal` | pkg/scheduler/objects/application.go:1060-1090 | both records go, and the result says whether there was one |
| `PartitionTotals.ChangeIsExact` | pkg/scheduler/partition.go:607-694 | adding, removing or resizing a node keeps the total equal to the sum of the capacities in every type, if these are non-negative and their sums are 64 bit numbers |
| `PartitionTotals.CapacitiesAfter` | pkg/scheduler/partition.go:607-694 | the node list after every change: a resized node has exactly the new capacity, and no other node changes |
| `PartitionTotals.RunIsExact` | pkg/scheduler/partition.go:607-694 | the same after any run of such changes |
| `PartitionTotals.NoNodesIsExact` | pkg/scheduler/partition.go:607-621 | it holds before the first node |
| `PartitionTotals.AddThenRemoveIff` | pkg/scheduler/partition.go:607-694 | adding a node and removing it again restores the total if and only if the sum did not saturate |
| `Reservations.EmptyIsSound` | pkg/scheduler/partition.go:1790-1806 | without reservations the records match and the counter is right |
| `Reservations.StepKeepsSound` | pkg/scheduler/objects/application.go:984-1109 | every step that makes or drops reservations keeps the two sides matched and the counter off by exactly the releases that are on their way or lost |
| `Reservations.ReservedIff` | pkg/scheduler/partition.go:980-1016 | an ask ends up with the node it wants if and only if it has it already, or is registered, fits, and nothing on the node excludes it; otherwise it has no reservation, and what it held elsewhere is gone; the counter follows in every case, and no other record changes |
| `Reservations.HeldAfter` | pkg/scheduler/partition.go:846-1034 | which node every ask reserves after every step |
| `Reservations.ListedAfter` | pkg/scheduler/partition.go:846-1034 | the asks, applications and nodes that every step leaves |
| `Reservations.RunIsSound` | pkg/scheduler/partition.go:846-1034 | the same in every run of atomic partition steps with unique keys |
| `Reservations.TwoSides` | pkg/scheduler/objects/application.go:984-1090 | an application holds a node for a key if and only if the node holds the key for that application |
| `Reservations.OneNodePerAsk` | pkg/scheduler/objects/application.go:1094-1109 | an ask reserves at most one node |
| `Reservations.NothingCancelledWhenReserved` | pkg/scheduler/objects/application.go:1263-1298 | when an ask already reserves the node it requires there is no normal reservation on that node, so the attempt that returns nothing loses no cancellation |
| `Reservations.ShortcutIsSound` | pkg/scheduler/partition.go:846-849 | when the counter is zero no application has a reservation, so the short-cut skips none |
| `Reservations.CounterExactIff` | pkg/scheduler/partition.go:1790-1806 | after every run the counter is at least the true number plus the releases on their way, and equal to that if and only if no step let a reservation expire or lost a release |
| `Reservations.ExpiryIsNotCounted` | pkg/scheduler/objects/application.go:1569-1579 | a reservation dropped after the wait timeout leaves the counter one too high |
| `PlaceholderCount.RunBalance` | pkg/scheduler/partition.go:710-812 | in every run of placements, counts, releases, rollbacks and removals, a node being removed in two halves, the counter is ahead of the number of placeholders by those that left uncounted or were placed while listed, less those that were never counted in |
| `PlaceholderCount.CounterExactIff` | pkg/scheduler/partition.go:886-973 | between two allocations the counter is the number of placeholders if and only if as many left uncounted (rollback, removed application, swap confirmed by node removal) or were placed twice as were never counted in; it is too small if and only if more were never counted in |
| `PlaceholderCount.SkipsNoneIff` | pkg/scheduler/partition.go:864-867 | when the counter is zero no placeholder is left unseen if and only if these two numbers are equal |
| `PlaceholderCount.NoneMissed` | pkg/scheduler/partition.go:886-967 | while no application and no node is removed every placement is counted in |
| `PlaceholderCount.WithoutRemovals` | pkg/scheduler/partition.go:886-973 | while no application and no node is removed the counter is at least the number of placeholders, and equal to it if and only if no step of the run lost one |
| `PlaceholderCount.SkippedExample` | pkg/scheduler/partition.go:800-918 | a node removed between placement and count leaves the counter one too low: it is zero with a placeholder allocated |
| `Partitions.Partition.UpdatePhAllocationCount` | pkg/scheduler/partition.go:1664-1678 | the loop counts out exactly the placeholders among the released allocations |
| `PlaceholderCount.ReleaseCountsList` | pkg/scheduler/partition.go:1525-1525 | counting out the placeholders of the list an application returns for a release is exactly what the release step of the run does to the counter |
| `Partitions.Partition.ReleaseFromApp` | pkg/scheduler/partition.go:1455-1525 | the release of one allocation takes it from the application and does to the counter what the release step of the counter runs does |
| `Partitions.Partition.constructor` | pkg/scheduler/partition.go:83-109 | a new partition has no nodes, no total and no reservations |
| `Partitions.Partition.UpdatePartitionResource` | pkg/scheduler/partition.go:607-621 | the total follows the specification; no delta changes nothing |
| `Partitions.Partition.AddNode` | pkg/scheduler/partition.go:588-639 | refused for a stopped partition or a known ID; otherwise node list, total and reservation records follow the specification |
| `Partitions.Partition.RemoveNode` | pkg/scheduler/partition.go:642-694 | all reservations of the node are dropped on both sides and counted out, and its capacity leaves the total; an unknown ID changes nothing |
| `Partitions.Partition.UpdateNodeCapacity` | pkg/scheduler/context.go:665-668 | the node's change of capacity reaches the total |
| `Partitions.Partition.Reserve` | pkg/scheduler/partition.go:980-1016 | on the fields: the application records the ask on the node if and only if it did before, or the ask is a request that is not placed, fits on the empty node and meets only reservations that allow it; the node records it for the application then; the counter goes up by one for the new record and down by one for the one given up; a refusal leaves the ask without reservation and every other record as it was |
| `Partitions.Partition.UnReserve` | pkg/scheduler/partition.go:1020-1034 | the reservation goes on both sides and is counted out once |
| `Partitions.Partition.ExpireReservation` | pkg/scheduler/objects/application.go:1569-1579 | the reservation goes on both sides and the counter is not told |
| `Partitions.Partition.CancelReservations` | pkg/scheduler/objects/application.go:1323-1345 | the loop over the reservations of a node drops exactly the normal ones, on both sides and whatever application they belong to, and returns their number |

## Left out

- Queues and the user and group manager: pending, allocated and headroom totals of queues are not part of this model.
- Preemption.Preemptor.CalculateVictimsByNode: the order of the candidates is an input here; how they are sorted is not modelled.
- Additional victims outside the node (`calculateAdditionalVictims`) and the coverage of the ask by the final list: the comparison the code uses is not monotone, so the list gives no such guarantee.
- The order of victims and of candidate nodes, and all scores: sort keys only.
- Resource limits of users and groups, placement rules, queue names and access lists in a configuration.
- QuotaPreemptor.SplitConserves: shares are exact rationals and children are visited in a fixed order; floating point rounding and the order of map iteration are not modelled.
- QuotaPreemptor.PreemptVictims: the marking of the collected victims and the messages about them are not modelled.
- PlaceholderCount.RunBalance: what a node lists when its allocations go is an argument of the step, the scheduler has at most one placement that is not counted yet, and adding a recovered placeholder and counting it is one step.
- Shares.CompareShares: shares are exact numbers, not floating point ones.
- EventRingBuffer.RingBuffer.Add: requires that the 64 bit event id does not overflow.
- SortedAsks.SortedRequests.InsertAsk: the shift of the slice is a sequence operation, aliasing of the old slice is not modelled.
- ApplicationRuns.RunIsSound: a placement of an ask that is listed, a confirmation whose real allocation is listed, the resize of a listed pending ask, of a placeholder or of an ask in a swap, and the rollback of a placeholder are no steps of a run; their lemmas say that a total is wrong after them. States of an application after it completed or failed, where requests are wiped without bookkeeping, are not steps of a run. The application state machine and its timers are left out; whether a rollback is allowed is a parameter.
- NodeAccounting.RunKeepsAccounts: a listed key that is added again with a size and a foreign update of an unknown key are no steps of a run; their lemmas say that the usage is wrong after them.
- Applications.Application.TrySwap: bind time and instance type are not fields of the model.
- Reservations.RunIsSound: steps are atomic, so the moment between recording a reservation and counting it is not visible. Reservations of an application that fails with pending asks are not covered.
- Partitions.Partition.RemoveNode: the node leaves the list after its reservations are dropped, not before, and the removal of its allocations is modelled on the application only.
- Locks, goroutine scheduling, logging, metrics, event records, the web service and the shim interface.
- The B-tree of nodes and the state machine library.
