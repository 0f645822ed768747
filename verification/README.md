# Verified model of the Grappa runtime core

Grappa is a runtime for irregular programs on clusters: workers on a core are scheduled
cooperatively, and cores talk only by messages. This project models the parts of `grappa/system`
on whose correctness everything else rests, and proves what they are meant to guarantee, for any
number of cores, any interleaving and any order of messages unless stated otherwise.

Each part comes as a class (or method) with the fields and steps of the source, proved to do what a
specification function says, and theorems about that specification over all inputs and all runs.

| part | files |
|---|---|
| termination detection with `GlobalCompletionEvent` | `CompletionCore`, `GlobalCompletion*` |
| coalesced completion messages | `CompletionMessages` |
| flat combining, with `GlobalCounter` as its client | `FlatCombining`, `GlobalCounting*` |
| `FetchAddCombiner` | `FetchAdd*` |
| buddy allocator of the global heap | `PowersOfTwo`, `Buddy*` |
| 2D and block-cyclic linear addresses, memset, memcpy | `Addressing`, `ArraySet`, `ArrayCopy*` |
| incoherent acquire and release | `Incoherent*` |
| message aggregation | `Framing`, `LeastRecent`, `Aggregation*`, `AggregatorCore` |
| allreduce | `Allreduce` |
| full/empty words and their wait lists | `FullEmpty*` |
| pool allocator | `PoolAllocator`, `PoolReuse` |
| shared definitions | `Wrappers`, `Sequences`, `MachineWords` |

A phase of a `GlobalCompletionEvent` is modelled with its callers' rule: an enrollment is made by
someone who still holds an uncompleted one, or by the root once everything is completed and every
core has been reset, though wake messages may still be on their way. What concerns waking assumes
besides that the root waits for these too; a run shows that it must. Messages are a bag. Aggregated
messages come from any number of cores at once and may be passed on by others; each core has a route
map of its own, any map whose targets are their own targets. A flat combiner has any number of
workers on any number of cores, and `is_full` may answer anything. The steps of a core between two
suspension points are atomic, as they are under cooperative scheduling.

Where the code does less than its comments say, the model follows the code and a lemma gives the exact condition:

- coalescing a completion adds one whatever the amount (`CompletionMessages.SendConservesIff`,
  `CompletionMessages.LargerCompletionIsLost`);
- the chunks of a heap of odd size lose their alignment (`BuddyRuns.AlignedIffEven`), and freeing all of
  them does not lead back to the heap one started from (`BuddyOddHeaps.CanonicalIffEven`);
- the 2D constructor accepts 48-bit pointers, but bit 47 is taken for a sign (`Addressing.TwoDimensionalRoundTrip`);
- memcpy of an array that ends inside its first block writes beyond it, with all of its checks passing
  (`ArrayCopyTheorems.ExactIffReaches`, `ArrayCopyLoop.DoMemcpyLocally`);
- with aggregation disabled, targets are queued though their buffers are empty (`Aggregation.DisabledAgreesIff`);
- the difference of two addresses is divided as an unsigned number, and so is the number of elements
  between them only in the forward direction (`Addressing.DifferenceIsCountIff`);
- the validation check of `FetchAddCombiner` fails for every initial value but zero (`FetchAddTheorems.CheckPassesIffZero`,
  `FetchAddTheorems.CheckFailsAfterOneCall`).

`dafny verify dfyconfig.toml` checks everything.

## Model

| member | source | states |
|---|---|---|
| CompletionCore.GlobalCompletionEvent.Reset | grappa/system/GlobalCompletionEvent.hpp:221-226 | brings one core back to the state it was constructed in, but for a wake round under way |
| CompletionCore.GlobalCompletionEvent.Enroll | grappa/system/GlobalCompletionEvent.hpp:234-263 | adds to the count, raises the in-progress flag, and reports the first enrollment exactly when the count was zero |
| CompletionCore.GlobalCompletionEvent.HandleCancel | grappa/system/GlobalCompletionEvent.hpp:245-248 | the master counts one more core out and answers with the new number |
| CompletionCore.GlobalCompletionEvent.HandleAnnounce | grappa/system/GlobalCompletionEvent.hpp:250-258 | a core told that a phase has begun raises its flag |
| CompletionCore.GlobalCompletionEvent.Complete | grappa/system/GlobalCompletionEvent.hpp:277-284 | subtracts from the count and reports exactly whether the core now enters the barrier |
| CompletionCore.GlobalCompletionEvent.HandleEnter | grappa/system/GlobalCompletionEvent.hpp:284-294 | the master counts one core in, and starts the reset round exactly when nobody is out |
| CompletionCore.GlobalCompletionEvent.HandleReset | grappa/system/GlobalCompletionEvent.hpp:296-307 | moves the wait list aside, resets, and raises the flag again when the phase recurs |
| CompletionCore.GlobalCompletionEvent.HandleAck | grappa/system/GlobalCompletionEvent.hpp:309-320 | counts acknowledgements down, and at the last one re-enrolls the recurring work on the master |
| CompletionCore.GlobalCompletionEvent.HandleWake | grappa/system/GlobalCompletionEvent.hpp:322-328 | empties the list set aside and returns everyone on it, in order |
| CompletionCore.GlobalCompletionEvent.Wait | grappa/system/GlobalCompletionEvent.hpp:375-388 | suspends the caller exactly when a phase is in progress or the master counts a core out |
| CompletionCore.ResetForgetsNobodyIff | grappa/system/GlobalCompletionEvent.hpp:298-299 | the assignment to the temporary list forgets nobody if and only if that list was empty before |
| GlobalCompletionSteps.CancelMovesOne | grappa/system/GlobalCompletionEvent.hpp:245-248 | handling a cancel moves exactly one core into the set the master counts |
| GlobalCompletionSafety.LiveIsCounted | grappa/system/GlobalCompletionEvent.hpp:81-88 | an uncompleted enrollment whose call has returned keeps its core among those the master counts, through its whole chain of parents |
| GlobalCompletionSafety.LastEnterMeansDone | grappa/system/GlobalCompletionEvent.hpp:284-294 | when the last enter message arrives with one core out, every enrollment everywhere is complete |
| GlobalCompletionTheorems.StepIsSafe | grappa/system/GlobalCompletionEvent.hpp:234-388 | every step of every message handler keeps the safety half of the invariant, also when a new phase begins while wake messages of the last one are in flight |
| GlobalCompletionTheorems.StepWakes | grappa/system/GlobalCompletionEvent.hpp:234-388 | for callers who wait for the wake messages before they begin the next phase, every step keeps the wake half too |
| GlobalCompletionTheorems.ReachedIsSafe | grappa/system/GlobalCompletionEvent.hpp:234-388 | the safety half holds after every run on any number of cores with messages handled in any order |
| GlobalCompletionTheorems.NoFalseTermination | grappa/system/GlobalCompletionEvent.hpp:234-295 | in every reached state cores_out is the number of cores with positive count whose cancel was handled plus the enter messages in flight, so a phase ends only when every count is zero and nothing is enrolled |
| GlobalCompletionTheorems.ResetFindsNoWork | grappa/system/GlobalCompletionEvent.hpp:296-299 | the check in the reset handler that the count is zero never fails |
| GlobalCompletionTheorems.ResetForgetsNobody | grappa/system/GlobalCompletionEvent.hpp:298-299 | for those callers the list a reset overwrites is empty, so nobody is forgotten |
| GlobalCompletionTheorems.WokenAfterEveryReset | grappa/system/GlobalCompletionEvent.hpp:308-331 | nobody who waited in a phase is woken before every core has run its reset for that phase |
| GlobalCompletionTheorems.WokenExactlyOnce | grappa/system/GlobalCompletionEvent.hpp:298-331 | at every moment, everyone who ever suspended on a core is in exactly one of: its list, the list set aside, woken once; on the list exactly as long as the core has not been reset since, so a later waiter belongs to the next phase |
| GlobalCompletionWaiting.WaitSuspendsWhileEnrolled | grappa/system/GlobalCompletionEvent.hpp:375-388 | while anything is uncompleted, a wait on any core joins that core's list, from the moment the master has counted a first enroll, and on the enrolling core from its call on |
| GlobalCompletionWaiting.FallsThroughOnlyWhenIdle | grappa/system/GlobalCompletionEvent.hpp:369-388 | a wait either joins the list or changes nothing, and one that falls through misses nothing but a first enroll on another core of which the master has not heard |
| GlobalCompletionRecurring.RecurringIsRemembered | grappa/system/GlobalCompletionEvent.hpp:265-271 | in every run the master remembers the amount enrolled last as recurring, and while cores are being reset the reset messages carry it |
| GlobalCompletionRecurring.PhaseRecurs | grappa/system/GlobalCompletionEvent.hpp:309-320 | when the last core has acknowledged its reset, exactly that amount is enrolled on the master and every core knows of it; with none, nothing is |
| GlobalCompletionRecurring.RecursEveryPhase | grappa/system/GlobalCompletionEvent.hpp:265-320 | in every run, work has recurred just once for each phase that ended while an amount was recurring |
| GlobalCompletionTheorems.NobodyBlocked | grappa/system/GlobalCompletionEvent.hpp:234-388 | when no message is in flight no enroll call is blocked, and if everything is completed too, every core is open again: no list holds anybody and wait falls through |
| GlobalCompletionTheorems.NobodyStranded | grappa/system/GlobalCompletionEvent.hpp:277-331 | when no message is in flight and everything is completed, both lists of every core are empty and those who ever suspended are exactly those woken |
| GlobalCompletionLimits.UnheldEnrollEndsPhaseEarly | grappa/system/GlobalCompletionEvent.hpp:81-88 | a run in which an enrollment is made by someone who holds none, and the phase ends with a positive count: that rule is needed |
| GlobalCompletionLimits.ImpatienceForgetsAWaiter | grappa/system/GlobalCompletionEvent.hpp:298-299 | a run, safe by the rule above, in which a second phase begins and ends before a wake message arrives, and its reset overwrites a waiter not yet woken: waking everybody needs patience |
| CompletionMessages.CompletionMessage.SendCompletion | grappa/system/GlobalCompletionEvent.hpp:183-199 | while a message waits to be sent, coalescing adds one, whatever the amount; otherwise the amount is put into the message |
| CompletionMessages.CompletionMessage.MarkSent | grappa/system/GlobalCompletionEvent.hpp:133-150 | when the message has gone, what was set aside goes into the next one and none is left aside |
| CompletionMessages.SendConservesIff | grappa/system/GlobalCompletionEvent.hpp:183-199 | one send_completion conserves completions if and only if its amount is one or no message is waiting |
| CompletionMessages.LargerCompletionIsLost | grappa/system/GlobalCompletionEvent.hpp:183-199 | a run from the fresh state that completes one unit and then two, sends everything, and has applied two of the three |
| CompletionMessages.OneMoreMessageSuffices | grappa/system/GlobalCompletionEvent.hpp:133-150 | in every run, when a message has gone, one more takes along all that was set aside meanwhile |
| CompletionMessages.CompletionsAreConserved | grappa/system/GlobalCompletionEvent.hpp:123-201 | in every run of unit completions: calls = decrements applied + in flight + in the pending message + set aside; what is set aside always has a message to take it along |
| FlatCombining.FlatCombiner.GetFlusher | grappa/system/FlatCombiner.hpp:122-132 | the new current batch is cleared, and is a recycled one exactly when the free list has one |
| FlatCombining.FlatCombiner.Combine | grappa/system/FlatCombiner.hpp:161-199 | adds to the current batch, then flushes or waits by the same test as the source, with the same change of `current` and `inflight` |
| FlatCombining.FlatCombiner.Resume | grappa/system/FlatCombiner.hpp:201-208 | a woken worker flushes exactly when its batch names it as sender, and swaps the batch out only if it is still current |
| FlatCombining.FlatCombiner.FinishFlush | grappa/system/FlatCombiner.hpp:213-236 | wakes the batch's waiters, hands the sender role on exactly when the current batch has unclaimed waiters, and recycles the batch |
| GlobalCountingSteps.SendsOnlyItsOwn | grappa/system/FlatCombiner.hpp:201-208 | under the per-core invariant a woken worker sends if and only if its own increment has not been applied |
| GlobalCountingTheorems.StepIsSafe | grappa/system/FlatCombiner.hpp:161-236 | every step of the combiner and of the master keeps the invariant |
| GlobalCountingTheorems.ReadyMeansDefined | grappa/system/FlatCombiner.hpp:213-236 | no reachable step finds its batch missing, recycled or current when it must not be |
| GlobalCountingTheorems.CountIsConserved | grappa/system/GlobalCounter.hpp:62-83 | in every reached state: master count + deltas not yet sent = initial count + all increments asked for |
| GlobalCountingTheorems.ReturnedMeansApplied | grappa/system/GlobalCounter.hpp:78-83 | a call of incr has returned only if its increment is in the master's count |
| GlobalCountingBatches.CallWaitsIff | grappa/system/FlatCombiner.hpp:161-199 | a call waits if and only if the client is not full and some batch is being sent; else it sends the batch at once and a fresh one is filled |
| GlobalCountingBatches.FewBatches | grappa/system/FlatCombiner.hpp:114-132 | in every run of any length a core has at most two batches more than it was sending at once at its peak, because they are recycled |
| GlobalCountingBatches.TheLatestSendsNext | grappa/system/FlatCombiner.hpp:222-230 | when a flush ends and calls wait for the next batch, the latest of them is named its sender and woken |
| GlobalCountingTheorems.EveryWaiterHasASender | grappa/system/FlatCombiner.hpp:161-236 | whoever waits on the current batch finds a flush in flight that hands over to it, and whoever waits on another batch finds that batch's sender |
| GlobalCountingTheorems.SendersAreUnique | grappa/system/FlatCombiner.hpp:213-236 | no two batches name the same sender |
| GlobalCountingTheorems.RecycledBatchesAreNotSent | grappa/system/FlatCombiner.hpp:201-208 | in every reached state a woken worker never sends a batch recycled in the meantime |
| GlobalCountingTheorems.QuietMeansComplete | grappa/system/FlatCombiner.hpp:161-236 | when nobody runs or sends, nobody waits either, every call has returned and the master's count is exact |
| FetchAddCombining.FetchAddCombiner.BlockUntilReady | grappa/system/Delegate.hpp:321-327 | one turn of the gate: the caller suspends exactly while the unit is outstanding |
| FetchAddCombining.FetchAddCombiner.Enter | grappa/system/Delegate.hpp:373-397 | joins the batch and reports whether this caller starts the flush, and with what total |
| FetchAddCombining.FetchAddCombiner.Receive | grappa/system/Delegate.hpp:386-393 | stores the reply and wakes exactly those who waited for it |
| FetchAddCombining.FetchAddCombiner.Take | grappa/system/Delegate.hpp:399-409 | returns the caller's start, and makes the unit ready again with the last participant |
| FetchAddSteps.Keep | grappa/system/Delegate.hpp:321-409 | every step keeps the invariant of counters, members, phases and finished flushes |
| FetchAddTheorems.FlushesRefinePlainCalls | grappa/system/Delegate.hpp:369-409 | each finished flush returned to its members what plain fetch_and_add calls, one after another, would have returned on the target as found, and left their end value |
| FetchAddTheorems.RangesTile | grappa/system/Delegate.hpp:399-402 | the members' half-open ranges tile what the flush added at the target, without gap or overlap |
| FetchAddTheorems.TargetIsConserved | grappa/system/Delegate.hpp:386-391 | the target is its first value plus what others added plus the totals of all flushes |
| FetchAddTheorems.CommittedCoversWaiters | grappa/system/Delegate.hpp:321-327 | committed >= ready_waiters >= 0 in every reached state |
| FetchAddTheorems.BatchHasACommittedTask | grappa/system/Delegate.hpp:380-382 | a batch with participants that is not outstanding always has a committed caller still to come |
| FetchAddTheorems.WokenGoStraightIn | grappa/system/Delegate.hpp:321-332 | a worker woken at the gate never has to suspend there again |
| FetchAddTheorems.FullBatchesAreSent | grappa/system/Delegate.hpp:380-382 | in every run, unless tasks are held back at the gate, a batch that has not been sent has fewer members than the flush threshold |
| FetchAddTheorems.BatchesAreNotSentEarly | grappa/system/Delegate.hpp:380-382 | a step sends a batch only when it is full or nobody is committed any more, and when no task is held back |
| FetchAddTheorems.CheckPassesIffZero | grappa/system/Delegate.hpp:403-404 | the validation check at the end of a batch passes if and only if the initial value is zero |
| FetchAddTheorems.CheckFailsAfterOneCall | grappa/system/Delegate.hpp:403-404 | with any other initial value, the run of a single caller already ends at a failing check |
| FetchAddTheorems.NobodyIsStranded | grappa/system/Delegate.hpp:369-409 | while any call has not returned, some step of the combiner is possible without outside help |
| PowersOfTwo.NextLargestPowerOf2 | grappa/system/Allocator.hpp:108-118 | the bit smearing returns the least power of two that is no smaller |
| PowersOfTwo.Smear | grappa/system/Allocator.hpp:110-115 | one shift-and-or doubles the ones at the top of a number of any length |
| PowersOfTwo.NextPow2IsLeast | grappa/system/Allocator.hpp:108-118 | no smaller power of two would do |
| PowersOfTwo.XorBuddy | grappa/system/Allocator.hpp:145 | for an aligned chunk, xor with the size is the other half of the aligned pair |
| PowersOfTwo.AndPredecessor | grappa/system/Allocator.hpp:195 | the constructor's test `size & (size - 1)` is zero exactly for powers of two |
| PowersOfTwo.AlignedIsMultiple | grappa/system/Allocator.hpp:145 | the recursive notion of alignment used throughout is being a multiple of the size |
| BuddyChunks.LiveDetermines | grappa/system/Allocator.hpp:142-217 | two well-formed chunk maps of one heap with the same live chunks are equal |
| BuddyChunks.FreeBlockIsWhole | grappa/system/Allocator.hpp:142-170 | an aligned block with nothing live in it is never split |
| BuddyChunks.EveryByteInOneChunk | grappa/system/Allocator.hpp:134-140 | every byte of the heap lies in exactly one chunk |
| BuddyChunks.BuddiesJoin | grappa/system/Allocator.hpp:150-165 | joining a chunk with its free buddy keeps tiling, alignment and the absence of other free buddies |
| BuddyHeap.SplitToKeeps | grappa/system/Allocator.hpp:237-258 | the split loop ends with the topmost piece of the wanted size, and keeps the invariant |
| BuddyHeap.MergedKeeps | grappa/system/Allocator.hpp:142-170 | recursive merging terminates in a heap with no two free buddies, free lists exact and the live chunks unchanged |
| BuddyTheorems.MallocFailsIff | grappa/system/Allocator.hpp:224-231 | malloc throws if and only if no free chunk is large enough, and then changes nothing |
| BuddyTheorems.MallocKeeps | grappa/system/Allocator.hpp:220-264 | malloc adds exactly one live chunk of the wanted power of two, at the top end of the chunk it cut, and keeps the invariant |
| BuddyTheorems.MallocCutsASmallest | grappa/system/Allocator.hpp:224-233 | the chunk that is cut is no larger than any other free chunk large enough |
| BuddyTheorems.MallocIsDisjoint | grappa/system/Allocator.hpp:220-264 | what malloc returns lies inside the heap, is aligned to its size and clear of every live chunk |
| BuddyTheorems.FreeKeeps | grappa/system/Allocator.hpp:209-217 | free removes exactly one live chunk and keeps the invariant |
| BuddyTheorems.FreeUndoesMalloc | grappa/system/Allocator.hpp:209-264 | freeing what malloc has just returned restores chunk map and free lists entirely |
| BuddyRuns.StartIsValid | grappa/system/Allocator.hpp:176-206 | for an even size the constructor builds the binary expansion of the size, with the invariant in force |
| BuddyRuns.AlignedIffEven | grappa/system/Allocator.hpp:193-197 | the constructor aligns every chunk to its size if and only if the heap's size is even, or one |
| BuddyRuns.ReachedIsValid | grappa/system/Allocator.hpp:120-217 | after any calls: chunks tile the heap, sizes are powers of two dividing their offsets, free lists hold exactly the free chunks, none is empty, no free buddies remain |
| BuddyRuns.HistoryDoesNotMatter | grappa/system/Allocator.hpp:142-264 | two runs that end with the same live chunks end with the same chunk map |
| BuddyRuns.CanonicalWhenEmpty | grappa/system/Allocator.hpp:142-217 | a run that ends with nothing live ends with the constructor's chunk map, for a heap of even size |
| BuddyOddHeaps.CanonicalIffEven | grappa/system/Allocator.hpp:142-264 | freeing everything leads back to the constructor's chunk map, after any calls, if and only if the heap's size is even, or one; for every other size two single-byte allocations, freed again, do not |
| BuddyAllocator.Allocator.constructor | grappa/system/Allocator.hpp:176-206 | builds the chunks and free lists of the specification for any positive size |
| BuddyAllocator.Allocator.RemoveFromFreeList | grappa/system/Allocator.hpp:120-126 | takes a chunk off its list, drops the list when empty, marks it in use |
| BuddyAllocator.Allocator.AddToFreeList | grappa/system/Allocator.hpp:128-132 | puts a chunk first on the list for its size and marks it free |
| BuddyAllocator.Allocator.TryMergeBuddyRecursive | grappa/system/Allocator.hpp:142-170 | is the recursive merge of the specification, and terminates |
| BuddyAllocator.Allocator.SplitDown | grappa/system/Allocator.hpp:237-258 | the loop computes the specification's split, piece by piece |
| BuddyAllocator.Allocator.Malloc | grappa/system/Allocator.hpp:220-264 | the new heap and result are those of the specification; the invariant is kept |
| BuddyAllocator.Allocator.Free | grappa/system/Allocator.hpp:209-217 | the new heap is that of the specification; live chunks lose exactly the freed one; the invariant is kept |
| Addressing.TwoDimensionalRoundTrip | grappa/system/Addressing.hpp:151-161 | a 2D address gives back its core if and only if that has 15 bits, and its pointer if and only if bit 47 is clear, though 48 bits are accepted |
| Addressing.LinearGoesBack | grappa/system/Addressing.hpp:164-191 | core and pointer of a linear address built from a local pointer are that core and that pointer |
| Addressing.LinearComesBack | grappa/system/Addressing.hpp:203-236 | building a linear address from the core and pointer of one gives it back |
| Addressing.LinearIsInjective | grappa/system/Addressing.hpp:203-236 | distinct linear addresses have distinct (core, pointer) pairs |
| Addressing.WithinBlock | grappa/system/Addressing.hpp:267-306 | an aligned object lies within one block; block_min and block_max are that block's bounds |
| Addressing.BlockMaxIsNext | grappa/system/Addressing.hpp:294-306 | block_max is the first end of a block at or behind the end of the object, whatever its size |
| Addressing.LocalizeStep | grappa/system/Addressing.hpp:239-254 | passing one element advances the localized pointer of its own core by one element and leaves all other cores' alone |
| Addressing.LocalIterationVisits | grappa/system/Addressing.hpp:470-490 | for every core, localized begin to localized end lists in order exactly the local pointers of the elements that live there |
| Addressing.AdvancesAddUp | grappa/system/Addressing.hpp:331-352 | address arithmetic modulo 2^64: steps add up, and going back undoes going on |
| Addressing.AdvanceReachesElements | grappa/system/Addressing.hpp:343-346 | `+= i` on a linear address names the array's i-th element from there, as long as bit 63 stays clear |
| Addressing.AdvanceKeepsTheCoreIff | grappa/system/Addressing.hpp:343-346 | `+= i` on a 2D address keeps its core if and only if the pointer stays within 48 bits, and then moves the pointer alone |
| Addressing.DifferenceIsCountIff | grappa/system/Addressing.hpp:420-425 | `t - u` gives the number of elements passed from u to t if and only if t is not before u or elements are single bytes, because the division is unsigned |
| ArraySet.MemsetLocally | grappa/system/Array.hpp:58-66 | the loop of one core sets exactly its local elements of the array and leaves all else in its memory |
| ArraySet.WrittenAreElements | grappa/system/Array.hpp:58-66 | the pointers the cores write are exactly those of the array's elements |
| ArrayCopy.Edges | grappa/system/Array.hpp:85-86 | the element counts of the first and last block are the byte distances to the block bounds |
| ArrayCopy.ReachesIff | grappa/system/Array.hpp:85-97 | an array ends beyond its first block if and only if it has at least the elements counted for that block |
| ArrayCopy.BlockCount | grappa/system/Array.hpp:113-116 | the localized ends are a whole number of rows apart, which is the number of whole blocks this core copies |
| ArrayCopyTheorems.CopiesWhatItHolds | grappa/system/Array.hpp:81-125 | when the array reaches the end of its first block, a core copies an element if and only if it holds it, with exactly one piece, from the element's own place |
| ArrayCopyTheorems.ExactIffReaches | grappa/system/Array.hpp:93-101 | over all cores exactly the elements asked for are copied if and only if the array reaches the end of its first block |
| ArrayCopyTheorems.MemcpyCopies | grappa/system/Array.hpp:81-125 | whatever the order of the writebacks, the destination ends up equal to the source and nothing else changes |
| ArrayCopyLoop.CopyEdges | grappa/system/Array.hpp:93-111 | first and last piece and what remains, with the CHECK on the last piece's core never failing |
| ArrayCopyLoop.CopyBlocks | grappa/system/Array.hpp:117-123 | the loop issues the whole blocks of this core in order |
| ArrayCopyLoop.DoMemcpyLocally | grappa/system/Array.hpp:81-125 | issues exactly the planned pieces, and no CHECK ever fails, even for arrays too short to be copied right |
| IncoherentRequests.BlockMaxDistance | grappa/system/IncoherentAcquirer.hpp:175 | the distance to the block bound: the rest of the block, or for a 2D address a wrapped value larger than any range |
| IncoherentRequests.CountsAgree | grappa/system/IncoherentAcquirer.hpp:126-133 | num_messages_ from the block bounds equals the number of requests the loop sends; one for a 2D address |
| IncoherentRequests.RequestsTile | grappa/system/IncoherentAcquirer.hpp:171-226 | the requests follow one another without gap or overlap, each linear one inside one block, each at its place in the range |
| IncoherentRequests.EveryByteOnce | grappa/system/IncoherentAcquirer.hpp:171-226 | every byte of the range is in exactly one request |
| IncoherentRequests.SendRequests | grappa/system/IncoherentAcquirer.hpp:163-228 | the loop sends exactly these requests |
| Incoherent.IncoherentAcquirer.Reset | grappa/system/IncoherentAcquirer.hpp:90-146 | short-circuits empty and local ranges, and otherwise expects the computed number of replies |
| Incoherent.IncoherentAcquirer.AcquireReply | grappa/system/IncoherentAcquirer.hpp:262-283 | copies the payload to its offset and nothing else, counts it, and at the last reply sets the flag and reports the sleeper to wake |
| Incoherent.IncoherentAcquirer.Turn | grappa/system/IncoherentAcquirer.hpp:245-257 | the waiting worker suspends exactly while the flag is not set |
| Incoherent.IncoherentReleaser.Reset | grappa/system/IncoherentReleaser.hpp:80-129 | as for the acquirer |
| Incoherent.IncoherentReleaser.ReleaseReply | grappa/system/IncoherentReleaser.hpp:225-237 | counts a reply, and at the last one sets the flag and reports the sleeper to wake |
| IncoherentProtocol.StepKeeps | grappa/system/IncoherentAcquirer.hpp:163-283 | handling requests and replies in any order keeps the invariant of flags and data |
| IncoherentTheorems.FinishedWithTheLastReply | grappa/system/IncoherentAcquirer.hpp:268-274 | the done flag is set if and only if all replies are in, or none was needed |
| IncoherentTheorems.PayloadIsComplete | grappa/system/IncoherentAcquirer.hpp:269-272 | at the last reply the payload received is what was asked for, so the debug check passes |
| IncoherentTheorems.NobodySleepsForever | grappa/system/IncoherentReleaser.hpp:200-237 | until the worker is back some step is possible: no wakeup is lost |
| IncoherentTheorems.SleeperIsRemembered | grappa/system/IncoherentAcquirer.hpp:245-279 | a worker is remembered exactly while it sleeps or has been woken and not yet run, and it is woken with the last reply and none before |
| IncoherentTheorems.AcquiredMeansEqual | grappa/system/IncoherentAcquirer.hpp:163-283 | when an acquire returns, the buffer equals the global range and global memory is unchanged |
| IncoherentTheorems.ReleasedMeansEqual | grappa/system/IncoherentReleaser.hpp:148-237 | when a release returns, the global range equals the buffer and all other memory is unchanged |
| Framing.DecodeEncoded | grappa/system/Aggregator.cpp:186-192 | a message framed anywhere in a buffer is read back with its own handler, destination, arguments and payload |
| Framing.BufferRoundTrip | grappa/system/Aggregator.cpp:184-231 | deaggregating a buffer gives back the messages aggregated into it, in order |
| LeastRecent.InsertKeeps | grappa/system/Aggregator.hpp:144-155 | linking an entry before the newest sentinel keeps the list doubly linked, without repeats, and all others unlinked |
| LeastRecent.RemoveKeeps | grappa/system/Aggregator.hpp:168-177 | unlinking an entry does too |
| LeastRecent.LRQueue.UpdateOrInsert | grappa/system/Aggregator.hpp:137-158 | appends a key that is not queued, with its priority; does nothing for one that is |
| LeastRecent.LRQueue.RemoveKey | grappa/system/Aggregator.hpp:168-177 | removes exactly that key, if it is queued |
| LeastRecent.LRQueue.TopKey | grappa/system/Aggregator.hpp:160-162 | the oldest key, or -1 when the queue is empty |
| LeastRecent.LRQueue.Empty | grappa/system/Aggregator.hpp:179-181 | true exactly when nothing is queued |
| Aggregation.AggregateAgrees | grappa/system/Aggregator.hpp:530-575 | with aggregation enabled, the queue holds exactly the targets with non-empty buffers, in the order of their stamps, and positions stay below the buffer size |
| Aggregation.SendsOnlyFullBuffers | grappa/system/Aggregator.hpp:526-548 | aggregating a message sends the target's buffer if and only if the message does not fit into it, and keeps the message |
| Aggregation.DisabledAgreesIff | grappa/system/Aggregator.hpp:551-575 | with aggregation disabled it still does if and only if the target's buffer held something already |
| Aggregation.PollLeavesNoneOverdue | grappa/system/Aggregator.hpp:456-466 | after a poll without flush limit, no remaining stamp plus the timeout lies before the poll's time |
| Aggregation.PollTakesTheOldest | grappa/system/Aggregator.hpp:456-466 | what is flushed is a prefix of the oldest, all of them with stamp plus timeout before the poll's time, and no more than the limit |
| Aggregation.IdleEmptiesAll | grappa/system/Aggregator.hpp:406-412 | the idle flush loop terminates with every buffer empty |
| AggregatorCore.AggregatorBuffer.Insert | grappa/system/Aggregator.hpp:274-280 | appends the bytes in place, keeping the position below the buffer size |
| AggregatorCore.Aggregator.UpdateTargetForNode | grappa/system/Aggregator.hpp:378-381 | changes the target of one destination and nothing that is buffered or queued |
| AggregatorCore.Aggregator.Flush | grappa/system/Aggregator.hpp:384-398 | sends the bytes buffered for the core's target, empties that buffer and takes the target off the queue |
| AggregatorCore.Aggregator.Aggregate | grappa/system/Aggregator.hpp:492-581 | refuses what can never fit, flushes first what does not fit now, appends header, arguments and payload to the buffer of the destination's target, and queues the target |
| AggregatorCore.Aggregator.FlushOverdue | grappa/system/Aggregator.hpp:454-467 | with the unsigned arithmetic of the timeout test, flushes what the specification flushes, also when handlers have queued targets with stamps later than the poll's own |
| AggregatorCore.Aggregator.FlushAll | grappa/system/Aggregator.hpp:406-412 | flushes until the queue is empty, as the specification does |
| AggregatorCore.Receiver.Deaggregate | grappa/system/Aggregator.cpp:164-231 | unpacks every received bundle in order, running messages for this core and aggregating the others again in this core's own aggregator |
| AggregatorCore.HandledIs | grappa/system/Aggregator.cpp:184-231 | what unpacking runs is the messages for this core, in order, and what it aggregates again is the others, in order |
| AggregatorCore.UnpacksTheQueue | grappa/system/Aggregator.cpp:164-231 | what a core does with the bundles in its queue, whoever sent them, is the unpacking step of the network |
| AggregationTheorems.HeardBySender | grappa/system/Aggregator.cpp:164-236 | unpacking a queue shared by all senders gives, of each sender, what unpacking its own bundles alone would give |
| AggregationTheorems.StepKeeps | grappa/system/Aggregator.hpp:384-581 | for any route maps, sending, flushing, polling, idling, delivering and deaggregating on any core keep the invariant of all senders |
| AggregationTheorems.BuffersAndQueueAgree | grappa/system/Aggregator.hpp:384-581 | for any route maps, in every reached state, on every core: positions below the buffer size, and a target queued exactly when its buffer is not empty |
| AggregationTheorems.HopsInOrder | grappa/system/Aggregator.cpp:164-236 | for any route maps, from each core to each target: what the target has unpacked is a prefix of what the core has aggregated for it, its own messages and those passed on, in order, unchanged, nothing twice |
| AggregationTheorems.HopsLoseNothing | grappa/system/Aggregator.cpp:164-236 | once the core's buffer for the target, its channel and its part of the receive queue are empty, it is all of them |
| AggregationOrder.HeardKeeps | grappa/system/Aggregator.cpp:193-227 | running a message at its destination, and passing it on elsewhere, keeps the invariant that the messages of one origin and destination follow one another in order on every hop of their way |
| AggregationOrder.AllHaveRun | grappa/system/Aggregator.cpp:193-227 | when nothing is under way on any hop, all messages have run, those of each origin in order |
| AggregationTrace.RefinesRelay | grappa/system/Aggregator.cpp:164-236 | every run with byte buffers, bundles, shared queues and route maps is a run of the simple relay in which messages are handed on one by one, knowing their origin |
| AggregationTrace.RunsInOrder | grappa/system/Aggregator.cpp:164-236 | from end to end, for any number of cores and any route maps: of what has run at a destination, the messages from one core are a prefix of those it has sent there, in order, unchanged, none twice |
| AggregationTrace.NothingIsLost | grappa/system/Aggregator.cpp:164-236 | when no buffer, channel or queue holds anything, every message sent has run at its destination exactly once, and none was sent on a way that does not get there |
| AggregationForwarding.ForwardsNothingIff | grappa/system/Aggregator.cpp:225-226 | nothing is ever forwarded if and only if every route map is the identity; otherwise there is a run that forwards a message |
| Allreduce.Collector.Collect | grappa/system/Collective.hpp:212-237 | starts a new total or reduces into it, and reports the last core in together with the total, resetting the counter |
| Allreduce.FoldAnyOrder | grappa/system/Collective.hpp:219-223 | an associative and commutative operator gives one result for every order of contributions |
| Allreduce.RoundIsComplete | grappa/system/Collective.hpp:228-236 | when the last core is in, the total is the reduction of all cores' values of that round |
| Allreduce.StepKeeps | grappa/system/Collective.hpp:334-342 | every step of callers, home core and messages keeps the invariant |
| Allreduce.RoundsNeverMix | grappa/system/Collective.hpp:334-342 | in every interleaving a core's k-th call returns the reduction of all cores' k-th values |
| Allreduce.NobodyReturnsEarly | grappa/system/Collective.hpp:320-321 | no core returns from its k-th call before every core has made one |
| Allreduce.WaitersAreServed | grappa/system/Collective.hpp:334-342 | once every core has made the call that a core waits in, some step other than a further call is possible |
| FullEmptyWords.FullEmpty.AddWaiter | grappa/system/ConditionVariableLocal.hpp:99-102 | puts a waiter in front of the list |
| FullEmptyWords.FullEmpty.DoBroadcast | grappa/system/ConditionVariableLocal.hpp:128-139 | computes the specification's broadcast, nested broadcasts of suspended readers included, and terminates |
| FullEmptyWords.FullEmpty.DoWriteXF | grappa/system/FullEmptyLocal.hpp:104-110 | stores the value, fills the word and broadcasts |
| FullEmptyWords.FullEmpty.DoReadFE | grappa/system/FullEmptyLocal.hpp:147-154 | returns the value, empties the word and broadcasts |
| FullEmptyWords.FullEmpty.DoReadFF | grappa/system/FullEmptyLocal.hpp:138-144 | returns the value, leaves the word full and broadcasts |
| FullEmptyWords.FullEmpty.DoRemoteRead | grappa/system/FullEmpty.hpp:64-79 | answers a remote reader at once when the word is full, and suspends it otherwise |
| FullEmptyWords.BroadcastFull | grappa/system/ConditionVariableLocal.hpp:128-139 | on a full word a broadcast wakes every listed worker and answers every suspended reader once, the longest waiting first, however broadcasts nest |
| FullEmptyWords.BroadcastEmpty | grappa/system/ConditionVariableLocal.hpp:128-139 | on an empty word with no suspended reader it wakes every listed worker |
| FullEmptySchedules.StepKeeps | grappa/system/FullEmptyLocal.hpp:76-154 | every operation under any schedule keeps the invariant of word and wait list |
| FullEmptySchedules.WaitersWantTheOpposite | grappa/system/FullEmptyLocal.hpp:76-82 | between operations every listed waiter wants the opposite of the word's state |
| FullEmptySchedules.SuspendsIff | grappa/system/FullEmptyLocal.hpp:76-154 | writeEF suspends if and only if the word is full, the other writes and reads if and only if it is empty, writeXF never; who does not suspend is done and leaves nobody listed |
| FullEmptySchedules.TasksAreInOnePlace | grappa/system/ConditionVariableLocal.hpp:99-139 | in every run a worker inside an operation is listed, once, or has been woken, and never both |
| FullEmptySchedules.NoLostWakeup | grappa/system/FullEmptyLocal.hpp:76-82 | a worker whose operation could go on has been woken |
| FullEmptySchedules.DelegatesReadFullWords | grappa/system/FullEmpty.hpp:74-78 | a suspended reader never runs on an empty word, and what it sends was written |
| FullEmptySchedules.ReadersAreAnswered | grappa/system/FullEmpty.hpp:55-82 | a remote reader has been sent a value, or is listed while the word is empty |
| FullEmptySchedules.ReadersAreAnsweredOnce | grappa/system/FullEmpty.hpp:55-82 | in every run, answers sent to a remote reader and its places on the list are one in all, from the moment it asks |
| FullEmptySchedules.ReadsAreCurrent | grappa/system/FullEmptyLocal.hpp:138-154 | in every run, a value that readFE or readFF returns or that a remote reader is sent, at once or after suspending, is the one written last at that moment |
| FullEmptySchedules.ReadsFollowWrites | grappa/system/FullEmptyLocal.hpp:113-154 | under any schedule of writeEF, readFE and readFF the values taken are a prefix of those written, at most one behind |
| PoolAllocator.AlignedPoolAllocator.Bump | grappa/system/ChunkAllocator.cpp:88-133 | appends a chunk exactly when the last one has no room, and cuts the object off its used part |
| PoolAllocator.AlignedPoolAllocator.Alloc | grappa/system/ChunkAllocator.cpp:170-255 | reuses from the list in turn or the first list with something, else makes a new object if allowed, else gives none |
| PoolAllocator.AlignedPoolAllocator.Free | grappa/system/ChunkAllocator.cpp:257-264 | puts the object on the list in turn and moves on to the next list |
| PoolAllocator.GrowsWhenNeeded | grappa/system/ChunkAllocator.cpp:88-133 | a chunk is asked of the system if and only if the last one has no room for one more object, and has room for as many as configured |
| PoolAllocator.NewKeeps | grappa/system/ChunkAllocator.cpp:88-133 | a new object is aligned, inside its chunk and clear of every object made before |
| PoolAllocator.AllocKeeps | grappa/system/ChunkAllocator.cpp:170-255 | what is handed out was not handed out already, and the invariant is kept |
| PoolReuse.AllocChoosesWell | grappa/system/ChunkAllocator.cpp:170-255 | nothing is given if and only if all lists are empty and the pool may not grow; an object is made if and only if they are empty and it may; otherwise a freed one is reused |
| PoolReuse.NoMoreThanThePeak | grappa/system/ChunkAllocator.cpp:170-255 | in every run, the objects ever made are exactly as many as were handed out at once at the peak |
| PoolReuse.NewlyCountsObjects | grappa/system/ChunkAllocator.cpp:203 | newly_allocated_objects is the number of objects ever made |
| PoolReuse.TakesInTurn | grappa/system/ChunkAllocator.cpp:170-200 | eight calls in a row take from the eight lists in turn, each the object that lay first there |
| PoolReuse.FreedComeBackInOrder | grappa/system/ChunkAllocator.cpp:170-264 | eight objects freed in a row go on the eight lists and are handed out again in the order in which they were freed |
| PoolAllocator.AlignedPoolAllocator.FreelistSize | grappa/system/ChunkAllocator.cpp:266-268 | under the invariant, the negated balance is the number of objects on the eight lists |
| PoolAllocator.PoolIsSound | grappa/system/ChunkAllocator.cpp:170-268 | in every reachable state live objects are disjoint, aligned, inside a chunk and on no free list, no object is listed twice, and freelist_size is the total length of the eight lists |

## Left out

- CompletionCore.GlobalCompletionEvent.Wait: the conservative branch reads the master's counter remotely and then suspends; here the two are one step.
- GlobalCompletionTheorems.NoFalseTermination: assumes the callers' rule of lines 81-88, and that the root begins a phase only after the last one has been reset everywhere; without the first it fails (`GlobalCompletionLimits.UnheldEnrollEndsPhaseEarly`).
- GlobalCompletionTheorems.WokenExactlyOnce: assumes, as do the other theorems on waking, that the next phase begins, and re-enrolled work is used up, only after the wake messages have been delivered; without that it fails (`GlobalCompletionLimits.ImpatienceForgetsAWaiter`).
- GlobalCompletionTheorems.StepIsSafe: a completion from another core is a step of the core that owns the enrollment; its transport is `CompletionMessages`.
- CompletionMessages.CompletionsAreConserved: one sender and one owner; amounts other than one are covered by `SendConservesIff`.
- GlobalCountingTheorems.CountIsConserved: clients of the combiner that return SATISFIED or MATCHED are not part of this model.
- FetchAddTheorems.NobodyIsStranded: one promise per call, as the source asks; integers are unbounded.
- PowersOfTwo.NextLargestPowerOf2: arguments from 1 to 2^63, on unbounded numbers; the overflow of the last increment for more than 2^62 is not modelled.
- BuddyAllocator.Allocator.Malloc: sizes are positive, as the heap's front end demands, and the heap's size is even or one, since otherwise chunks are misaligned; iterators into the free lists are offsets in sequences.
- BuddyTheorems.FreeKeeps: freeing what is not live is an assertion failure in the source and is not modelled.
- Addressing.LinearGoesBack: pointers into the heap only; addresses are non-negative and the heap starts at the same place on every core.
- Addressing.DifferenceIsCountIff: distances of less than 2^63 bytes, as `ptrdiff_t` demands.
- Addressing.AdvancesAddUp: the operators that change an address in place are one function of its raw bits.
- Addressing.LocalIterationVisits: element sizes that divide the block size, and aligned addresses.
- ArrayCopyTheorems.MemcpyCopies: source and destination do not overlap; both arguments linear, and each writeback is taken as done.
- IncoherentRequests.SendRequests: 2D pointers of at least 2 that stay below 2^48 with the range; the 16-bit payload length of messages, the counters' `int` width and the latency timestamps are not modelled.
- IncoherentTheorems.AcquiredMeansEqual: for a range on this core the cache pointer is redirected instead of filled; only the flags are modelled there, and the theorem excludes exactly that case.
- IncoherentTheorems.ReleasedMeansEqual: no other access to the range meanwhile, as the source assumes.
- AggregationTrace.RunsInOrder: channels between two cores keep the order; a route map stays the same throughout a run, and targets are targets of themselves, because `flush` maps its argument again.
- AggregationTrace.NothingIsLost: aggregation is enabled, as in all theorems on whole runs.
- AggregatorCore.Aggregator.FlushOverdue: stamps plus timeout stay below 2^64, as the source assumes.
- Allreduce.RoundsNeverMix: one caller on each core and an associative, commutative operator; the in-place array reduction is not part of this model.
- FullEmptySchedules.ReadsFollowWrites: writeXF, writeFF and reset overwrite values by design and are excluded there, though not from the other theorems.
- PoolAllocator.PoolIsSound: the system gives chunks that do not overlap; the choice to grow, which depends on the total allocated and on the scheduler, is an input.
- Communicator, barriers, the scheduler, the RDMA aggregator and worker stacks: replaced by messages in flight and by steps that end at suspension points.
- GlobalVector, GlobalHashMap, GlobalHashSet: further clients of flat combining.
- Metrics, tracing, logging, prefetching, signal handling, file input and output, start-up sizing of memory.
