# CARMOT/TEXAS classification, verified in Dafny

CARMOT instruments a program so that its runtime, TEXAS, can say of every address
touched in a region of interest (ROI) how the region uses it: Input, Output, IO, or
output that could be cloned (CO, CIO) or is transferred from iteration to iteration
(TO, TIO). This project models that pipeline and proves what it computes.

The main results, from the program to the report:

- **Skipping and dropping are sound.** Instrumentation that the data flow finds
  redundant is left out (`StaticSkip`), and repeated accesses are dropped at run time
  (`Instrumentation`, `Dropping`, `Wrapper`); neither changes any map of any region, and
  both together do not either, over any tree of functions (`CallTrees`,
  `EndToEnd.SkippingAndDroppingPreserve`).
- **The hand-off loses nothing.** Two threads pass a fixed set of buffers
  (`Handoff`): every buffer has one owner, the entries are cleaned in order and once,
  nobody is stuck.
- **The automaton computes a closed form.** The class of each address is a function of
  its history of iterations (`Classification`, `Cleaning`, `Reentry`), the imperative pass over
  an entry buffer refines it (`Texas`), and the labels that travel on join to it under
  an exact condition on where batches are cut.
- **Facts are conserved.** Offsets go from allocations to the working and the final
  sets of regions (`Ledger`, `Runtime`, `Processing`, `Shadow`), exactly as the entries of
  the run tell (`Lifetimes`), through an index that agrees with
  a scan of all blocks (`Blocks`, `AllocationTables`); what is on record for an
  offset at the end joins to the closed form of the address's history (`Outcome`).
- **The report merges by join.** The in-place list surgery of the report tools keeps
  the join of each ID's classes, and separates the lists exactly when no ID starts
  from one of ten combinations (`Merge`, `Report`).

Beside the pipeline: the cleaning of the working sets (`StateCleaning`), the cache and
numbering of call stacks (`Traces`, `Recency`, `LruCache`, `Interning`), the search for
functions with one call path (`CallGraph`), and the order and layout of packed
allocations (`Packing`, `Layout`).

Code that changes things in place is modelled by classes and methods with loops, each
proved against functions on values; the properties are lemmas about those functions.
`dafny verify dfyconfig.toml` checks everything.

## Where the code does not do what it seems to promise

Each of these is kept as the code has it, with a concrete input and the exact condition.

- Entering a region that is open clears its running iteration
  (`Cleaning.ReentryLosesIteration`). This is harmless exactly when the iteration has
  found no new address (`Reentry.ReentryHarmlessIff`); over a whole stream the
  iterations lost are those cut before the first completed one that touched the address
  (`Reentry.ClassOfReenteredStream`).
- Remembered accesses survive entering a nested region, and stores are remembered by
  their first address only, so dropping can lose inputs, transfers and parts of stores
  (`Dropping.NestedReadIsLost`, `Dropping.LongerStoreIsLost`). Nothing is lost exactly
  when every dropped access would change nothing (`Dropping.AgreeIffDropsIdle`).
- A batch cut in the middle of an address's first iteration leaves its accesses without
  a label; the labels join to the class exactly when an iteration that touched the
  address has ended by the last batch that touches it, or none ever does
  (`Cleaning.LabelsJoinToFinalClass`).
- `traceCompare` compares as many bytes as there are frames (`Traces.CompareIff`), so
  that for every call stack a different one compares equal
  (`Traces.EveryStackHasATwin`); together with the hash it is right for stacks of one
  frame only (`Traces.HashTellsOneFrameApart`).
- A number gives back the static number of the first call that was alike
  (`Interning.GivesIffFirstHasIt`): always, exactly when the hash is injective
  (`Interning.RoundTripsIffInjective`, `Interning.CollisionLoses`).
- A hashed block that is aligned to a longer registered length misleads the lookup
  (`Blocks.LongerMaskMisleads`), and nothing else does (`Blocks.LookupIsRightIff`). The
  sentinel is needed for the addresses inside the last block, and only for them
  (`Blocks.NoSentinelIff`).
- The search for functions with one call path never ends when a path of single callers
  comes back to the entry (`CallGraph.SearchEndsIff`), and is wrong about the entry when
  that has one caller (`CallGraph.CollectedIffOnePath`).
- The packer's comment asks for rounding up to the alignment; the code adds the
  remainder instead (`Layout.AlignedIffHalfWay`). Its sums wrap around
  (`Layout.NoWrapIff`).
- The report cleans the working sets after a commit has emptied them, so the final sets
  are not cleaned (`StateCleaning.CommitThenReport`); and Input is compared with what IO
  has left, so it keeps offsets that CIO or TIO took
  (`StateCleaning.InputStaysBesideStronger`).
- An ID in four or more lists can end in two of them (`Merge.StuckExample`), and then the
  report aborts: exactly for ten combinations (`Merge.MergeSeparates`,
  `Report.StateToSave.Merge`).
- What is on record for a region also has the classes of the regions nested in it, so it
  is the region's own class exactly when none of theirs is above it
  (`Outcome.SavedIsOwnHistoryIff`).

## Model

| member | source | states |
|---|---|---|
| `Classes.OfHalves` | extra/texas/src/runtime/texas.cpp:404-453 | The seven classes and "none" are the pairs of an input bit and a level none < O < CO < TO: a class is recovered from its two halves. |
| `Classes.Join` | utils/prettyPrint/get-ward.cpp:176-211 | The join of two classes is above both and below every class that is above both. |
| `Classification.ClassIsClosedForm` | extra/texas/src/runtime/texas.cpp:399-491 | For every history of whole iterations the class the automaton keeps is a closed form of the history: the input half says whether the first touched iterations read before writing, the level how far the later iterations' writes have gone. |
| `Classification.IterationsFrom` | extra/texas/src/runtime/texas.cpp:404-472 | The same from any state: what more iterations do to a class already known. |
| `Classification.ClassesRise` | extra/texas/src/runtime/texas.cpp:404-456 | A class, once known, only rises in the order, over any events. |
| `Classification.OneChangeAnIteration` | extra/texas/src/runtime/texas.cpp:399-456 | Within one iteration a class changes at most once. |
| `Classification.KnownIffCompleted` | extra/texas/src/runtime/texas.cpp:399-485 | Over any events at all, the address has a class if and only if an iteration that touched it has ended without being entered anew in between. |
| `Classification.LabelsJoinToClass` | extra/texas/src/runtime/texas.cpp:497-581 | For any cut of the events into batches, the labels given at the end of each batch join to the final class if and only if an iteration that touched the address has ended by the end of the last batch that touches it, or none ever does. |
| `Classification.CutsBetweenIterations` | extra/texas/src/runtime/texas.cpp:497-581 | When batches are cut between iterations the labels always join to the final class. |
| `Cleaning.CleanProjects` | extra/texas/src/runtime/texas.cpp:386-492 | The maps of all regions together are, for each address of each region, the automaton run on the events of that pair alone. |
| `Cleaning.CleanConcat` | extra/texas/src/runtime/texas.cpp:382-385 | Cleaning a stream in pieces is cleaning it in one. |
| `Cleaning.ClassOfHistory` | extra/texas/src/runtime/texas.cpp:386-492 | After any stream in which a region is not re-entered while open, the class of each address is the closed form of its history in that region; other regions may be nested anywhere. |
| `Reentry.ReentryHarmlessIff` | extra/texas/src/runtime/texas.cpp:386-397 | In any state, entering a region changes no class against ending the running iteration first if and only if the running iteration has found only addresses already known; then the whole states are equal. |
| `Reentry.ClassOfAnyStream` | extra/texas/src/runtime/texas.cpp:386-492 | For every stream, with regions re-entered anywhere, the class of an address is the closed form of the iterations that survive. |
| `Reentry.ClassOfReenteredStream` | extra/texas/src/runtime/texas.cpp:386-492 | For every stream whose accesses lie inside their region, it is the closed form of the history without the iterations that were cut before the first completed one that touched the address. |
| `Reentry.NothingCut` | extra/texas/src/runtime/texas.cpp:386-492 | So nothing is lost when no iteration before that one was cut while touching the address. |
| `Cleaning.ReentryLosesIteration` | extra/texas/src/runtime/texas.cpp:481-490 | A concrete stream that re-enters an open region: the running iteration is lost, and the class differs from the closed form. |
| `Cleaning.KnownIffCompletedIn` | extra/texas/src/runtime/texas.cpp:399-485 | After any stream a region knows an address if and only if an iteration of the region that touched it has ended in the stream. |
| `Cleaning.LabelsJoinToFinalClass` | extra/texas/src/runtime/texas.cpp:497-581 | Over the whole pass, for any stream and any batches: an address's labels join to its region's final class if and only if an iteration that touched it has ended by the end of the last batch that touches it, or none ever does. |
| `Cleaning.WholeIterationBatches` | extra/texas/src/runtime/texas.cpp:382-581 | With no batch cut inside an iteration of the region, the labels join to the final class, which is the closed form of the concatenated histories. |
| `Texas.Texas.CleanAccess` | extra/texas/src/runtime/texas.cpp:399-477 | The switch over the old class and the kind of access updates the three maps as the automaton says. |
| `Texas.Texas.Promote` | extra/texas/src/runtime/texas.cpp:479-485 | The end of an iteration adds its findings to the known classes without replacing any. |
| `Texas.Texas.Attribute` | extra/texas/src/runtime/texas.cpp:386-495 | The first loop takes all regions' maps and the current region where the specification does, marks each access with its region, and makes region entries redundant. |
| `Texas.AllAttributed` | extra/texas/src/runtime/texas.cpp:386-495 | What it leaves of an entry: an entry that is neither an access nor a region's is as it was; any entry keeps its address, affiliated region and information. |
| `Texas.Texas.LabelAll` | extra/texas/src/runtime/texas.cpp:497-576 | The second loop leaves on every access the label its region's class and the tracking flags call for. |
| `Texas.Texas.CleanBatch` | extra/texas/src/runtime/texas.cpp:383-585 | The pass over an entry buffer leaves the maps of `Cleaning.Clean` and every entry as specified, and nothing behind the batch's entries. Allocations, frees, escapes, commits and searches for cycles pass through untouched, region entries become redundant, and an access keeps its address, affiliated region and information. |
| `Texas.EntryAfter` | extra/texas/src/runtime/texas.cpp:386-576 | Every entry after the pass, by its kind: an access carries the region that was current when the pass met it and that region's class at the end of the batch if the class is reported, else stays an access if cycles are tracked and is redundant otherwise. |
| `Texas.TrackedByHalves` | extra/texas/src/runtime/texas.cpp:506-571 | A class is reported if and only if its input half is and input is asked for, or it is written and output is asked for, or it is at the level that cloneable or transfer asks for. |
| `Texas.CleanedAreLabels` | extra/texas/src/runtime/texas.cpp:497-576 | With every class tracked, what the pass leaves on an entry is the specification's label. |
| `Runtime.State.CommitState` | extra/texas/src/runtime/State.cpp:169-181 | A commit moves exactly the working facts to the final sets and clears the three maps. |
| `Runtime.CommitAndCleanSet` | extra/texas/src/runtime/State.cpp:152-167 | Merging adds the working offsets to the final ones, entry by entry. |
| `Runtime.State.Inject` | extra/texas/src/runtime/Allocation.cpp:58-115 | An allocation's uses and offsets join the region's sets, nothing else changing. |
| `Runtime.Allocation.Note` | extra/texas/src/runtime/Shadow.cpp:315-339 | Recording an offset adds exactly that fact to what the allocation holds, and the use to the region's uses unless it is 0; other regions' uses stay. |
| `Runtime.Allocation.DropShared` | extra/texas/src/runtime/Allocation.cpp:40-62 | The two loops over the parent chains erase exactly the regions that are on both. |
| `Runtime.Allocation.CommitStateInfo` | extra/texas/src/runtime/Allocation.cpp:38-139 | Each region that held something and is not on both chains gets exactly its offsets and its uses, every other region's sets and uses stay, and the allocation ends holding neither facts nor uses. |
| `Runtime.ChainVector` | extra/texas/src/runtime/Allocation.cpp:40-55 | Following the parents gives the region's chain. |
| `Runtime.ChainIsLeast` | extra/texas/src/runtime/Allocation.cpp:40-55 | The chain is the least set with the region and every parent of its members. |
| `Wrapper.Wrapper.TexasAddToStateLoad` | include/wrapper.cpp:761-812 | A load outside a region, or at an address already read since a region was left, issues nothing; any other is issued and remembered. |
| `Wrapper.Wrapper.TexasAddToStateWithInfoWrapper` | include/wrapper.cpp:708-759 | A store is issued element by element, unless it is outside a region or its address was already stored to. |
| `Instrumentation.ElementsAt` | include/wrapper.cpp:708-759 | The addresses of a store are its own and every element's length on, up to its size. |
| `Wrapper.Wrapper.CaratReportStateWrapper` | include/wrapper.cpp:985-1020 | Leaving a region forgets the remembered accesses and ends the active region. |
| `Wrapper.Wrapper.GetState` | extra/texas/src/runtime/texas.cpp:135-168 | The region in a place, by function name and line, is found by a loop over the regions or made with the next number and the active region as its parent; it becomes active and begins, and the most live memory at its entries is kept. |
| `Wrapper.SizeIsMaximum` | extra/texas/src/runtime/texas.cpp:154-159 | Over any run a region's kept size is the maximum of the live memory at its entrances. |
| `Wrapper.Wrapper.EndState` | extra/texas/src/runtime/texas.cpp:170-185 | Ending a region issues its end and goes on in its parent, whatever number is given; without an active one nothing is issued and the code is 1. |
| `Wrapper.Wrapper.Play` | include/wrapper.cpp:708-812 | Any sequence of calls puts exactly its stream, over the regions' places, into the slots. |
| `Instrumentation.ConsumerFollows` | extra/texas/src/runtime/texas.cpp:170-237 | Reading the stream alone, the cleaning pass is always in the region that was active when the entry was issued, and no access is outside one. |
| `Instrumentation.IdleOnceDone` | extra/texas/src/runtime/texas.cpp:399-477 | Repeating an access leaves all three maps as they are. |
| `Instrumentation.IdleStays` | extra/texas/src/runtime/texas.cpp:399-477 | An access that would change nothing still changes nothing after any other access of the same iteration. |
| `Instrumentation.DedupPreserves` | include/wrapper.cpp:731-738 | For every program whose dropped accesses are repeats of the running invocation, dropping them leaves every map of every region unchanged. |
| `Instrumentation.DedupPreservesScalar` | include/wrapper.cpp:784-791 | In particular for regions that are not nested and stores of one element. |
| `Instrumentation.NestedEntryMissesInput` | include/wrapper.cpp:1007-1013 | A region entered while an address read before is remembered loses it as an input: the class is none with dropping and Input without. |
| `Dropping.AgreeIffDropsIdle` | include/wrapper.cpp:731-791 | For every program: after each of its calls the maps are those of the program that drops nothing, if and only if every access that is dropped would have changed nothing where it is dropped. |
| `Dropping.ThroughoutIsPrefixes` | include/wrapper.cpp:731-791 | The agreement after each call is that of the maps after every prefix of the program. |
| `Dropping.CallAgreesIff` | include/wrapper.cpp:731-791 | The same for one call from any state. |
| `Dropping.VisitByLoadAgreesIff` | include/wrapper.cpp:784-791 | Entering a region, reading an address and leaving gives the right class if and only if the address is not remembered or the region has it as Input, TIO or TO. |
| `Dropping.VisitByStoreAgreesIff` | include/wrapper.cpp:731-738 | Entering a region, writing an address and leaving gives the right class if and only if the address is not remembered or the region has it as CIO, TIO, CO or TO. |
| `Dropping.NestedReadIsLost` | include/wrapper.cpp:784-791 | From start-up, a program that goes wrong: a region nested in one that has read the address. |
| `Dropping.LongerStoreIsLost` | include/wrapper.cpp:731-759 | From start-up, another: a store that is longer than the remembered one at its address. |
| `Instrumentation.DisciplinedIsBracketed` | extra/texas/src/runtime/texas.cpp:135-185 | A program that enters and leaves regions like brackets issues a stream in which no region is re-entered while open. |
| `Instrumentation.ProgramClasses` | extra/texas/src/runtime/texas.cpp:386-492 | For such programs, the classes after dropping are the closed forms of the histories of the program as written. |
| `StaticSkip.VisitInsts` | src/TouchSameObject.cpp:73-130 | The nested loops over instructions, regions and stops keep exactly the loads or stores that every region's start dominates and a stop of every region post-dominates. |
| `StaticSkip.ConsiderInst` | src/TouchSameObject.cpp:79-118 | The flag that the loops over regions and stops leave is that condition. |
| `StaticSkip.GetInstsToSkip` | src/TouchSameObject.cpp:208-230 | The loops collect exactly the instructions that have an object which is in their IN set. |
| `StaticSkip.SkippedIffAlwaysBefore` | src/TouchSameObject.cpp:132-230 | With the greatest solution of the equations, an instruction that can be reached is skipped if and only if on every path to it an access of its kind through its pointer runs before it. |
| `StaticSkip.AlwaysIsGreatest` | src/TouchSameObject.cpp:132-206 | There is a greatest solution: what always runs before. |
| `StaticSkip.SkipIff` | src/TouchSameObject.cpp:232-253 | The same for the loads and the stores of a function together. |
| `StaticSkip.SkippedIsCovered` | src/TouchSameObject.cpp:144-230 | For every solution of the equations and every path to a skipped instruction, an instruction that is not skipped, of the same kind and object, ran after the last execution of each dominating instruction. |
| `StaticSkip.SkippedIsRecent` | src/TouchSameObject.cpp:144-230 | In an execution, a skipped access repeats an address that was instrumented, in the same kind, since a region was last entered. |
| `StaticSkip.SkippingPreserves` | src/TouchSameObject.cpp:232-253 | For every path through a function, from any state, leaving the skipped loads and stores uninstrumented leaves every region's maps unchanged, for regions that are not nested; what callees do may be replaced by anything the pass cannot tell apart. |
| `CallTrees.TreeSkips` | src/TouchSameObject.cpp:232-253 | For any sequence and tree of executions, callees with regions of their own included, each function skipping for itself leaves every map as skipping nothing would. |
| `StaticSkip.SetUnionOfUnordered` | src/TouchSameObject.cpp:248-250 | The merge of the two skip sets, which are not sorted, still has exactly the instructions of either, in whatever order it meets them. |
| `Handoff.StepKeepsSound` | extra/texas/src/runtime/texas.cpp:289-343 | Every step of either thread keeps every buffer with one owner and the entries, by how far they have come, equal to those issued. |
| `Handoff.OneOwner` | extra/texas/src/runtime/texas.cpp:312-343 | In every reachable state each of the buffers is in exactly one place: the program's hand, the batch queue, the cleaning thread's hand or the free queue. |
| `Handoff.CleanedInOrder` | extra/texas/src/runtime/texas.cpp:588-607 | The batches cleaned are always a beginning of what was issued, in order and each entry once; when the cleaning thread has ended they are all of it. |
| `Handoff.NumbersFollow` | extra/texas/src/runtime/texas.cpp:312-330 | In every reachable state the batch being cleaned is numbered by how many were cleaned before it, and those in the queue follow it. |
| `Handoff.NoDeadlock` | extra/texas/src/runtime/texas.cpp:312-343 | Unless the program is free to go on or all is over, one of the waiting steps is possible. |
| `Handoff.ProgressEnds` | extra/texas/src/runtime/texas.cpp:588-607 | Each such step leaves strictly less to do. |
| `Handoff.WaitIsBounded` | extra/texas/src/runtime/texas.cpp:761-768 | What is left to do is bounded by the number of buffers. |
| `Merge.MatchCounts` | utils/prettyPrint/get-ward.cpp:131-174 | Of each ID a call moves as many as both sources have, from each of them to the destination. |
| `Merge.MatchContents` | utils/prettyPrint/get-ward.cpp:144-171 | What a call adds comes from its first source. |
| `Merge.DedupedCounts` | utils/prettyPrint/get-ward.cpp:87-106 | Duplicate removal keeps one element of each ID. |
| `Merge.FixKeepsJoin` | utils/prettyPrint/get-ward.cpp:131-174 | Each of the calls keeps the join of the classes an ID is in. |
| `Merge.MergeKeepsJoin` | utils/prettyPrint/get-ward.cpp:176-211 | The whole pass keeps, for every ID, the join of its classes; no ID is lost or made up. |
| `Merge.SingleIsJoin` | utils/prettyPrint/get-ward.cpp:176-211 | An ID that does not start stuck ends in the list of the join of its initial classes, and in no other. |
| `Merge.MergeSeparates` | utils/prettyPrint/get-ward.cpp:176-211 | An ID ends in at most one list if and only if it does not start from one of the stuck combinations of lists. |
| `Merge.StuckEndsInTwo` | utils/prettyPrint/get-ward.cpp:176-211 | An ID that starts stuck ends in exactly two lists, and in which two. |
| `Merge.StuckExample` | utils/prettyPrint/get-ward.cpp:176-211 | Such an ID: once each in I, O, IO and CIO it ends in IO and CIO. |
| `Merge.ThreeListsSeparate` | utils/prettyPrint/get-ward.cpp:229-234 | No combination of three lists or fewer is stuck. |
| `Merge.MergeListsCounts` | utils/prettyPrint/get-ward.cpp:229-234 | What the pass does to the lists is, for each ID, what it does to the ID's counts. |
| `Merge.MergeDisjoint` | utils/prettyPrint/get-ward.cpp:229-237 | The lists end pairwise disjoint if and only if no ID starts stuck. |
| `Merge.MergeDisjointThree` | utils/prettyPrint/get-ward.cpp:23-59 | When every ID is in at most three lists the lists end pairwise disjoint. |
| `Merge.MergedInJoin` | utils/prettyPrint/get-ward.cpp:176-211 | On the lists themselves: an element with the ID is in a list at the end exactly when the list is that of the join. |
| `Merge.MergeFrom` | utils/prettyPrint/get-ward.cpp:144-171 | Every element at the end is an element that was there at the start. |
| `Report.RemoveDuplicatesFromSet` | utils/prettyPrint/get-ward.cpp:87-106 | Erasing while iterating keeps the first element of each ID, in order. |
| `Report.Pair` | utils/prettyPrint/get-ward.cpp:135-166 | The two nested loops erase and collect what the matching says. |
| `Report.StateToSave.FixSet` | utils/prettyPrint/get-parallelfor.cpp:113-156 | A call reworks the three lists as specified and leaves the others. |
| `Report.StateToSave.FixSets` | utils/prettyPrint/get-ward.cpp:176-211 | The calls in their order are the run of all fixes. |
| `Report.IsThereIntersection` | utils/prettyPrint/get-ward.cpp:3-21 | The two sets of IDs meet exactly when the lists share an ID. |
| `Report.StateToSave.SanityCheck` | utils/prettyPrint/get-ward.cpp:23-59 | The check finds an intersection exactly when the lists are not pairwise disjoint. |
| `Report.StateToSave.Merge` | utils/prettyPrint/get-ward.cpp:229-237 | The whole report pass aborts exactly when some ID starts stuck. |
| `Blocks.LowerBound` | extra/texas/src/runtime/AllocationTable.cpp:49-49 | The least start that is not below the key. |
| `Blocks.InsertedWhere` | extra/texas/src/runtime/AllocationTable.cpp:82-95 | A block goes into the map that its length calls for and no other; blocks that are there stay as they are. |
| `Blocks.FindAgreesWithScan` | extra/texas/src/runtime/AllocationTable.cpp:42-80 | For disjoint blocks below the sentinel, none of them hashed and aligned to a registered length longer than its own, the lookup returns a block exactly when it covers the address, and nothing when none does. |
| `Blocks.LookupIsRightIff` | extra/texas/src/runtime/AllocationTable.cpp:42-80 | However many lengths are registered: every answer the lookup may give for every address is right if and only if no hashed block is aligned to a longer registered length (with room behind it below the sentinel). |
| `Blocks.LongerMaskMisleads` | extra/texas/src/runtime/AllocationTable.cpp:43-48 | Otherwise the lookup of the address just behind such a block can return the block, which does not have it. |
| `Blocks.NoSentinelIff` | extra/texas/src/runtime/AllocationTable.cpp:49-72 | Without the sentinel the search is right for an address if and only if the address is not strictly inside the last block. |
| `Blocks.SentinelFindsLast` | extra/texas/src/runtime/texas.cpp:771-774 | There it finds nothing, and with the sentinel it finds the last block. |
| `Blocks.InsertKeeps` | extra/texas/src/runtime/AllocationTable.cpp:82-95 | Adding a block that fits keeps the table well formed. |
| `Blocks.DeleteKeeps` | extra/texas/src/runtime/AllocationTable.cpp:97-104 | Removing a start keeps the table well formed. |
| `AllocationTables.AllocationTable.FindAllocation` | extra/texas/src/runtime/AllocationTable.cpp:42-80 | The loop over the masks and the search in the sorted map return what the specification of the lookup allows, with the block's own allocation. |
| `AllocationTables.AllocationTable.InsertAllocation` | extra/texas/src/runtime/AllocationTable.cpp:82-95 | A block goes to the hash map if its length is registered and to the sorted map otherwise; a start that is there stays; the other map does not change. |
| `AllocationTables.AllocationTable.DeleteAllocation` | extra/texas/src/runtime/AllocationTable.cpp:97-104 | Exactly the given start leaves the table. |
| `Ledger.BooksAreHistory` | extra/texas/src/runtime/Shadow.cpp:292-363 | Where a fact is after any run of record, free, hand-over and commit moves is determined by its own history. |
| `Ledger.Conservation` | extra/texas/src/runtime/Allocation.cpp:38-139 | The books hold a fact if and only if it was recorded and not dropped by a free before it was handed over. |
| `Ledger.CommitAll` | extra/texas/src/runtime/texas.cpp:816-823 | Committing every region leaves all facts in the final sets. |
| `Processing.LookupLocates` | extra/texas/src/runtime/Shadow.cpp:292-305 | The lookup in the table and a scan of all blocks give the same allocation. |
| `Processing.ProcessedKeeps` | extra/texas/src/runtime/Shadow.cpp:250-363 | Every permitted entry keeps: blocks disjoint, each start the pointer of its one allocation, facts only on live allocations and inside them. |
| `Processing.RunIsSound` | extra/texas/src/runtime/Shadow.cpp:25-104 | Over any run of entries from start-up the state stays sound, and the facts are exactly the moves the entries made. |
| `Processing.RunConserves` | extra/texas/src/runtime/Shadow.cpp:292-363 | After any run the facts anywhere are those recorded for a region or a descendant, less those that a free dropped. |
| `Processing.PendingIsFound` | extra/texas/src/runtime/Shadow.cpp:292-342 | The lookup at a pending fact's address returns the fact's own block and no other. |
| `Processing.LevelsRecord` | extra/texas/src/runtime/Shadow.cpp:342-348 | The recursion over the parents records the offset for the region and every ancestor, and freshens the allocation once for each. |
| `Lifetimes.RunTold` | extra/texas/src/runtime/Shadow.cpp:250-363 | After any run of entries: an entry that placed a block not freed since gave the allocation of its origin its place, length and region, on reuse of the origin too, and the table has no other block. |
| `Lifetimes.BooksTold` | extra/texas/src/runtime/Shadow.cpp:25-104 | After any run a fact is pending if and only if an access noted it and since then no free or commit took it; in the sets if and only if a free or commit handed it over while it was held; final if and only if its region was committed by then or later. All in terms of the entries. |
| `Lifetimes.FreeForgetsIff` | extra/texas/src/runtime/Allocation.cpp:38-62 | A free takes a fact that the block's allocation holds out of the books if and only if the region is on the chains both of the region named by the free and of the one named by the entry that placed the block. |
| `Lifetimes.ChainIsLeast` | extra/texas/src/runtime/Allocation.cpp:40-55 | The chain is the least set with the region and every parent of its members. |
| `Lifetimes.RunsIff` | extra/texas/src/runtime/Shadow.cpp:25-104 | The pass can take a run of entries if and only if each may come after those before it: in range, new blocks apart from standing ones, and one standing block for each origin. |
| `Lifetimes.AccessedIsFreshest` | extra/texas/src/runtime/Shadow.cpp:307-313 | When cycles are tracked, the allocation accessed last is fresher than every other. |
| `Lifetimes.OnlyAccessesFreshen` | extra/texas/src/runtime/Shadow.cpp:250-313 | No other entry changes how fresh an allocation is, not even adding a block to a known origin; a new allocation starts at 0. |
| `Shadow.Shadow.ProcessAddAlloc` | extra/texas/src/runtime/Shadow.cpp:250-272 | An added block goes into the table for the one allocation of its origin, made on first use. |
| `Shadow.Shadow.ProcessAddToState` | extra/texas/src/runtime/Shadow.cpp:292-349 | An access records its offset for all levels, or with no class only freshens the allocation when cycles are tracked. |
| `Shadow.Shadow.ProcessFreeAllocation` | extra/texas/src/runtime/Shadow.cpp:351-363 | A free takes every fact from the allocation with the address; each goes to its region unless the region is on the chains both of the free's region and of the allocation's; the block is removed only when the address is its start. |
| `Shadow.Shadow.CommitStateInfo` | extra/texas/src/runtime/Allocation.cpp:38-139 | A loop over the facts of an allocation: they go to the regions that are not on both parent chains, and nothing else moves. |
| `Shadow.Shadow.CommitStateInfoForAllocations` | extra/texas/src/runtime/AllocationTable.cpp:152-159 | A loop that lets one live allocation after the other hand over with no region to skip: afterwards nothing is pending anywhere and no fact was lost. |
| `Shadow.Shadow.ProcessCommit` | extra/texas/src/runtime/Shadow.cpp:55-62 | A commit entry hands over everything and then makes the region's facts final. |
| `Shadow.Shadow.ProcessBatch` | extra/texas/src/runtime/Shadow.cpp:25-104 | A batch takes the state of all entries before it to the state after them. |
| `Shadow.Shadow.ReportStatistics` | extra/texas/src/runtime/texas.cpp:816-823 | At the end the final sets hold exactly the facts that the entries say are held at the end or were handed over before, and nothing is left elsewhere. |
| `StateCleaning.CleanState` | extra/texas/src/runtime/State.cpp:81-99 | The offsets of one set leave the other, and allocations left without offsets leave it too. |
| `StateCleaning.EmptiedLeave` | extra/texas/src/runtime/State.cpp:81-99 | An allocation leaves the weaker set if and only if the stronger one has all its offsets there. |
| `StateCleaning.ReportState` | extra/texas/src/runtime/State.cpp:130-148 | The seven cleanings in their order. |
| `StateCleaning.CleaningLeavesStrongest` | extra/texas/src/runtime/State.cpp:130-148 | Which sets keep an offset, as a function of which had it. |
| `StateCleaning.CleaningKeepsStrongest` | extra/texas/src/runtime/State.cpp:130-148 | No offset is lost: a class gives it up only to a stronger one of its own side; at most one of IO, CIO, TIO and one of O, CO, TO keep it, and never both Input and IO. |
| `StateCleaning.InputStaysBesideStronger` | extra/texas/src/runtime/State.cpp:138-139 | Input keeps an offset exactly unless IO keeps it, so it can stay in Input beside CIO or TIO. |
| `StateCleaning.CommitThenReport` | extra/texas/src/runtime/texas.cpp:821-824 | At report time a commit has emptied the sets that are cleaned, so the final sets are saved as they are. |
| `Traces.CompareIsEquivalence` | include/utils.cpp:3-14 | The comparison of traces is an equivalence. |
| `Traces.MyHashPart1` | include/wrapper.cpp:210-224 | The loop computes the exclusive or of the addresses; an empty trace aborts. |
| `Traces.HashIsParity` | include/wrapper.cpp:210-224 | A bit of the hash says whether an odd number of the addresses has it. |
| `Traces.HashIgnoresOrder` | include/wrapper.cpp:219-221 | The hash does not depend on the order of the frames. |
| `Traces.CompareIff` | include/utils.cpp:3-14 | Two stacks of n frames compare equal if and only if their first n/8 addresses agree, and the low n%8 bytes of the next. |
| `Traces.ComparedAreEqualIff` | include/utils.cpp:3-14 | Stacks that compare equal are equal if and only if the remaining bytes agree as well. |
| `Traces.EveryStackHasATwin` | include/utils.cpp:8-11 | For every stack of any length there is a different one that compares equal. |
| `Traces.LongerStacksHashAlike` | include/wrapper.cpp:210-224 | For every stack of two frames or more there is a different one that compares equal and hashes alike. |
| `Traces.HashTellsOneFrameApart` | include/wrapper.cpp:210-224 | Comparison and hash together tell all stacks of n frames apart if and only if n is one. |
| `Recency.ReferredKeepsRecent` | include/wrapper.cpp:97-205 | For any notion of "same kind": one reference takes the list of the most recent kinds to that of the longer history. |
| `LruCache.LRUCache.Lookup` | include/wrapper.cpp:143-166 | The trace comes from the bucket of its hash, or is made and put there; no bucket gets two that compare equal. |
| `LruCache.LRUCache.Refer` | include/wrapper.cpp:97-205 | A reference returns a trace that compares equal and is now at the front; the map points every trace of the list at its own node. |
| `LruCache.HoldsMostRecent` | include/wrapper.cpp:97-205 | After any references the list holds exactly the most recently referenced kinds of trace, newest first, each once, as many as fit. |
| `Interning.SameIdIffAlike` | include/wrapper.cpp:560-625 | Two calls of a run, however far apart, have one number if and only if they are alike. |
| `Interning.NewIdIsNext` | include/wrapper.cpp:547-558 | A call gets a new number exactly when none before it is alike, and then the next one: numbers are never reused. |
| `Interning.TraceComesBack` | include/wrapper.cpp:1022-1037 | The trace behind a call's number has the call's length and hash and compares equal. |
| `Interning.GivesIffFirstHasIt` | include/wrapper.cpp:560-625 | For each call of each run: it gets its static number back if and only if the first call that is alike has it. |
| `Interning.RunRoundTripsIffNoCollision` | include/wrapper.cpp:1022-1037 | For each run: all calls get their static numbers back if and only if no two alike calls have different ones. |
| `Interning.InjectiveOnRunRoundTrips` | include/wrapper.cpp:226-232 | So they do whenever the hash is injective on the static numbers of the run. |
| `Interning.RoundTripsIffInjective` | include/wrapper.cpp:1022-1037 | For 64-bit static numbers and hashes: the static numbers come back for every call of every run if and only if the hash is injective. |
| `Interning.IdentityRoundTrips` | include/wrapper.cpp:226-232 | There is such a hash: the one that keeps the word. |
| `Interning.CollisionLoses` | include/wrapper.cpp:226-232 | Two static numbers that hash alike get one number, which gives the first; the second comes back only if they are the same. |
| `Interning.MatchIsAlike` | include/wrapper.cpp:588-600 | With equal keys and equal stack hashes the static numbers hash alike, because the exclusive or cancels. |
| `Interning.Callstacks.SaveCallstack` | include/wrapper.cpp:560-625 | The nested maps give a call the number of the first alike, or the next new one; no stack gives 0. |
| `Interning.Callstacks.GetTraceAndStaticID` | include/wrapper.cpp:1022-1037 | A number gives the trace and static number it stands for; an unknown one aborts. |
| `CallGraph.SinglePathIsOnly` | src/ClusterCallstackInstrumentation.cpp:3-17 | A path on which every function has one caller is the only path to its end, among those that do not come back to the entry. |
| `CallGraph.SinglePathIsShort` | src/ClusterCallstackInstrumentation.cpp:3-17 | Unless a path of single callers comes back to the entry, such a path has no repetition, so the search goes no deeper than there are functions. |
| `CallGraph.SearchEndsIff` | src/ClusterCallstackInstrumentation.cpp:3-17 | Exactly then are such paths bounded by the number of functions; otherwise they go round for ever, and so does the recursion. |
| `CallGraph.VisitDepthFirst` | src/ClusterCallstackInstrumentation.cpp:3-17 | When it can end, the search ends, collects exactly the functions beyond its path, and goes through each function's body once. |
| `CallGraph.GetUniqueCallstackFunctions` | src/ClusterCallstackInstrumentation.cpp:19-29 | The functions collected are exactly those a path of single callers leads to. |
| `CallGraph.CollectedIffOnePath` | src/ClusterCallstackInstrumentation.cpp:3-29 | When all functions can be reached, the functions collected are exactly those that one call path leads to, if and only if the entry does not have exactly one caller. |
| `Packing.ScanAll` | extra/texas/src/runtime/state_optimizer.cpp:127-141 | The search over all candidates finds a connection of the greatest weight, or there is none. |
| `Packing.TemporalHeaviestEdgeFirst` | extra/texas/src/runtime/state_optimizer.cpp:116-174 | The order is a permutation; each allocation has the heaviest remaining connection with the one before, or that one has none left and a heaviest connection of all remaining starts with it, or none remain. |
| `Layout.TargetIsWithin` | extra/texas/src/runtime/state_packer.c:100-120 | An allocation no longer than a cache line never straddles one, and one no longer than a page never straddles a page. |
| `Layout.PlacesAreDisjoint` | extra/texas/src/runtime/state_packer.c:81-124 | In any layout each allocation ends before a later one starts. |
| `Layout.EndIsBounded` | extra/texas/src/runtime/state_packer.c:81-124 | The final offset is at most the sum of the lengths and of alignment-1, line-1 and page-1 for each allocation. |
| `Layout.AlignedIffHalfWay` | extra/texas/src/runtime/state_packer.c:97-97 | The step meant to align does so exactly for offsets that are aligned or half way to it. |
| `Layout.StatePacker.Fit` | extra/texas/src/runtime/state_packer.c:101-117 | The offset moves to the first place, not below it, that starts a block or from which the bytes stay in their block; so it moves exactly when the bytes would cross. |
| `Layout.StartLayout` | extra/texas/src/runtime/state_packer.c:52-58 | A layout starts at offset 0; without a packer the code is 1. |
| `Layout.AddAllocation` | extra/texas/src/runtime/state_packer.c:81-124 | The target and next offset, with every sum wrapped around at 64 bits; those of the layout whenever the allocation ends below 2^64; without a packer the code is 1. |
| `Layout.FittedIsFirst` | extra/texas/src/runtime/state_packer.c:101-117 | An offset moves if and only if the bytes would cross a block's end, and then no further than to the first place where they may go. |
| `Layout.TargetIsFirst` | extra/texas/src/runtime/state_packer.c:81-120 | The target is the first such place in a line, then in a page, from the offset with its remainder by the larger alignment added (by 8 when none is given); it is that offset itself if and only if the bytes may start there. |
| `Layout.NoWrapIff` | extra/texas/src/runtime/state_packer.c:81-124 | They are those of the layout if and only if the allocation ends below 2^64 in it. |
| `EndToEnd.DeliveredStateIsProgramState` | extra/texas/src/runtime/texas.cpp:289-343 | However the threads interleave and batches are cut, the cleaning thread ends with the maps of the program's undropped stream. |
| `EndToEnd.DeliveredClasses` | extra/texas/src/runtime/texas.cpp:382-607 | Through dropping, buffers and cleaning, each address ends in the closed form of its history in the program; the labels join to it if and only if an iteration that touched it has ended by the last batch that touches it, or none does. |
| `EndToEnd.SkippingAndDroppingPreserve` | src/TouchSameObject.cpp:232-253 | For any sequence and tree of functions, each leaving out its redundant instrumentation, and then dropping repeats at run time: every map stays as it would be. |
| `EndToEnd.OptimisedDelivers` | extra/texas/src/runtime/texas.cpp:289-343 | Such a program optimised in both ways, through buffers and threads, ends with the maps of the program that issues everything. |
| `Outcome.LabelsArePermitted` | extra/texas/src/runtime/texas.cpp:497-506 | Whatever labels the cleaning pass leaves, and whether or not cycles are tracked, the processing pass can take the entries. |
| `Outcome.LabelsAreRecorded` | extra/texas/src/runtime/Shadow.cpp:292-349 | With or without cycle tracking, for an allocation that stays live, the facts on record after a stream of labelled accesses are those before and those the labels note for a region or its ancestors. |
| `Outcome.SavedBoundedIff` | extra/texas/src/runtime/Shadow.cpp:292-349 | The classes on record for an offset of a region join to the join of the labels of its address in the region and in all regions nested in it. |
| `Outcome.SavedIsHistory` | extra/texas/src/runtime/texas.cpp:382-607 | With no batch cut inside an iteration of a region or of one nested in it, the classes on record for an offset join to the join of the closed forms of its address's histories in all of them. |
| `Outcome.SavedIsOwnHistoryIff` | extra/texas/src/runtime/texas.cpp:382-607 | That is the region's own closed form if and only if none of a nested region is above it. |
| `Outcome.InnermostIsOwnHistory` | extra/texas/src/runtime/texas.cpp:382-607 | In particular when no nested region has a history of the address. |

## Left out

- The path with several shadow threads (`processShadowBatches`, overflow queues, merging of tables): it is not started; the live path cleans and processes each batch in one thread.
- The slot one past the end that `serialProcessShadowBatch` also visits (its bound is inclusive): the processing pass is modelled on the entries of the batch.
- Serial mode (`disableOptimizations`), in which the program's thread processes its own batches, is not part of the hand-off protocol.
- The commit of a region while a later batch is being filled: classes are stated between commits.
- `processStateRegionSet` and regions set directly, which only store end points; the sets of allocations made in each region; escapes, connection graphs and cycles.
- Shadow.Shadow.CommitStateInfo: uses are only in `Runtime.Allocation.CommitStateInfo`.
- Wrapper.Wrapper.GetState: `temporalTracking` is left out, as its one caller passes 0; the live memory is a parameter.
- StaticSkip.SkippingPreserves: regions that are not nested only, since an access of an inner region does not stand for one of the outer; callees may have regions of their own when they are called outside any. An execution's addresses are given.
- Shadow.Shadow.ProcessAddAlloc: the sets of allocations made in each region, which the pass only fills, are not kept.
- Shadow.Shadow.ProcessAddToState: names regions and allocations by number and keeps facts as sets, so aliasing between allocation objects is not captured there; the objects' own recording and commit are proved on the heap in `Runtime`. Uses (the entry's information) are only in `Runtime`.
- AllocationTables.AllocationTable.InsertAllocation: the length is kept with the block, not read through the allocation object, which agrees as long as an origin is live once; adding an origin that is still live is excluded by `Processing.Permitted`.
- Blocks.FindAgreesWithScan: the mask of a registered power of two is modelled as rounding the address down to a multiple of the length.
- StaticSkip.SkippedIsCovered: holds for any solution of the equations; the data-flow engine, which finds the greatest one, the dominator trees and LLVM IR are not modelled.
- Handoff.CleanedInOrder: the queues' own locking is taken as given, each push and pop being one step.
- Report.StateToSave.FixSet: the seven lists are a map from class to list, so that no two names can mean one list; the source never passes one list twice as a source.
- Merge.MergeFrom: which of two entries with one ID is kept is the first, as in the code; other fields of saved allocations are not merged there either.
- Interning.Callstacks.SaveCallstack: the numbers given are unbounded (they would wrap after 2^64 calls), and the per-thread caches and call-stack capture are not modelled; the static number's hash is a parameter.
- LruCache.LRUCache.Refer: cache sizes of at least 1 only, since the source pops an empty list otherwise.
- CallGraph.VisitDepthFirst: stated for programs in which no path of single callers comes back to the entry; in the others the recursion does not end (`CallGraph.SearchEndsIff`).
- Packing.TemporalHeaviestEdgeFirst: every allocation must have an entry in the connections, which the source dereferences without a check; sets are gone through in any order.
- Moving the packed allocations, huge pages and `mmap` are not modelled.
- Serialization, printing, PIN tools, patching and signals.
