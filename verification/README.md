# Binder and ashmem, modelled in Dafny

This project models the concurrent core of two kernel drivers, the binder IPC driver and the
ashmem shared-memory driver, and proves that they keep their promises over every run.
`dafny verify dfyconfig.toml` verifies the whole project.

Each part is a state machine whose steps are the sections the code runs under a lock.  Steps
are functions on an immutable state; an invariant is proved for each of them and then for every
run, so the theorems hold under any interleaving of any number of threads and processes.  The
loops of the code, and the structures it updates in place, are methods of classes whose
contracts equal these functions.  A BUG_ON, a BUG() or a WARN_ON that must not fire is an
`assert` at the same place, proved.

| modules | what they model |
|---|---|
| `SizeArith`, `SearchTree`, `BufferList`, `AllocTrees`, `AllocPages`, `AllocBudget`, `AllocRequests`, `BinderAlloc`, `AllocDelivery`, `AllocMapping`, `AllocLeak` | the buffer allocator of a process: list, two trees, pages, one-way budget, copies |
| `CallGraph`, `CallFrames`, `CallFailing`, `CallReading`, `CallReplies`, `CallSending`, `CallQueueing`, `CallRelease`, `CallRuns`, `CallAnswers`, `CallErrors`, `CallStacks`, `CallMethods`, `CallExample` | two-way calls, their nesting, their answers and error reports, and threads that die in the middle |
| `RefGraph`, `RefOps`, `RefCounts`, `RefEffects` | nodes, refs, handles and counts, one operation at a time |
| `RefUndo`, `RefRelease`, `RefNames`, `RefMethods` | translation of objects, what they arrive as, and its undoing; all of it in place |
| `RefBuffers`, `RefClaims`, `RefSystem`, `RefTeardown`, `RefProcs`, `RefRuns`, `RefDead`, `RefWork`, `RefStranded`, `RefHandshake`, `RefLedger` | the same operations with the transactions, buffers and objects that the counts stand for, over any run |
| `Fixups`, `FixupsDocumented` | scatter-gather buffers and what is written into them |
| `AsyncQueue`, `AsyncSteps`, `AsyncRelease`, `AsyncRuns`, `AsyncTable`, `AsyncProgress`, `AsyncStall`, `AsyncMethods` | one-way transactions and the queue of each node |
| `DeathGraph`, `Death`, `DeathMessages`, `DeathMethods` | death notifications |
| `AshmemRanges`, `Ashmem`, `AshmemOrder`, `AshmemChecks`, `AshmemMethods` | pin, unpin, status, and the shrinker that punches holes outside the mutex |
| `Common` | options, and lists of ids |

Conventions.  Objects on the heap are entries of maps, keyed by a number; freeing an object
removes its entry, so an access to a freed object would not verify.  Fields that exist for the
specification only are marked as such where they are declared; most are histories (what has
been freed, what was told, what was sent).  `RefGraph` keeps a ledger of who is entitled to a
count, so that each operation can be proved alone; `RefBuffers` says what every entry of it is,
a buffer, an object in a buffer, an operation in progress or the context manager, and the
theorems of `RefRuns` and `RefDead` speak of those and not of the ledger.
Answers of the page allocator, of memory allocation, of the security hooks
and of user space are parameters of the steps.  A machine word is unbounded except where
wrap-around matters: the size checks and the one-way budget of the allocator (64 bits) and the
argument checks of ashmem (32 bits).

Six places where the code does less than one would expect are stated as results, with the
exact condition:

- A zero-size one-way request is padded after its check and not when it is refunded: it costs
  the one-way budget 8 bytes for good (`AllocLeak`, `AllocBudget.PlainLawExactly`).
- `binder_validate_fixup` treats offset 0 as "no last buffer", so a buffer object at offset 0
  can never be written into, although the comment above the function allows it
  (`FixupsDocumented.AcceptsExactly`, `FixupsDocumented.PairIsRefused`).
- A one-way transaction queued to a thread that leaves before reading it is thrown away while
  its buffer stays outstanding: the queue of that node stands still until its process dies
  (`AsyncProgress.MovesUnlessStalled`, `AsyncStall`).
- "Everything onward" from the very end of an ashmem area passes the checks with an empty page
  range (`AshmemChecks.RestCanBeEmpty`), and unpinning it puts an empty range on the list
  (`AshmemMethods.Device.PinUnpin`).
- A node's local counts are zeroed when its process dies.  A count given back to it afterwards,
  as by a sender that fails late, makes them negative, and the node is never freed
  (`RefDead.DeadNodesGo`, `RefDead.ADeadNodeCanBeLeftBehind`).
- A thread that leaves has its list thrown away, with the work items of nodes on it.  A live node
  whose last reference goes while its item lies there is not announced to user space and stays
  until something queues the item again
  (`RefWork.UntoldIsListedUnlessThrown`, `RefWork.StrandedStays`,
  `RefStranded.ALiveNodeCanBeLeftBehind`).

## Model

| member | source | states |
|---|---|---|
| SizeArith.CheckedSizeExact | binder/binder_alloc.c:386-403 | In 64-bit wrapping arithmetic the two size checks accept exactly the requests whose three padded sizes add up to less than 2^64, and the size they let through is then the true one. |
| SearchTree.LinkInOrder | binder/binder_alloc.c:73-105 | Linking a node at the empty place a descent ends at puts it, in the in-order sequence, exactly between what the descent left on its two sides. |
| SearchTree.EraseInOrder | binder/binder_alloc.c:511-511 | Structural removal takes exactly the given node out of the in-order sequence and keeps the order of the rest. |
| AllocTrees.BestFit | binder/binder_alloc.c:416-434 | The descent over the size-ordered tree ends with an exact match, with the in-order first entry that is large enough, or with nothing when nothing is. |
| AllocTrees.FitIsBest | binder/binder_alloc.c:416-434 | What the search returns is a true best fit: free, large enough, and no free buffer that is large enough is smaller. |
| AllocTrees.NothingFits | binder/binder_alloc.c:435-467 | When the search finds nothing, no free buffer of the whole region is large enough. |
| AllocTrees.ShrunkKeyStaysInOrder | binder/binder_alloc.c:494-509 | Linking the remainder shrinks the key of the chosen buffer while it is still in the free tree; the tree stays ordered all the same, because the chosen entry was the first that is large enough. |
| AllocTrees.InsertFree | binder/binder_alloc.c:73-105 | Inserting by size adds the one entry somewhere in the in-order sequence and keeps it ordered by the sizes of the current list. |
| AllocTrees.InsertAllocated | binder/binder_alloc.c:107-131 | Inserting by address keeps the order and adds exactly this entry. |
| AllocTrees.FindAddress | binder/binder_alloc.c:133-166 | The lookup by user pointer finds an entry if and only if it is in the tree. |
| AllocTrees.FreeTreeAfterTake | binder/binder_alloc.c:494-511 | After the split, the insertion of the remainder and the erasure of the chosen buffer, the free tree holds exactly the free buffers, ordered by size. |
| BufferList.TakenGood | binder/binder_alloc.c:494-514 | A granted request keeps the list a partition of the region with no two free neighbours and every allocated buffer exactly as large as its request needs. |
| BufferList.ReleasedGood | binder/binder_alloc.c:667-690 | A free with its merging to both sides keeps the same. |
| BufferList.AllFreeIsOne | binder/binder_alloc.c:795-815 | When every buffer is free, in whatever order that came about, one buffer spans the whole region. |
| BufferList.ReleasedUndoesTaken | binder/binder_alloc.c:494-690 | Freeing what was just granted restores the layout, buffer by buffer. |
| AllocPages.TakenPages | binder/binder_alloc.c:484-492 | The page range an allocation claims contains no page already in use, and together with those in use it is exactly the pages in use afterwards. |
| AllocPages.ReleasedPagesExact | binder/binder_alloc.c:577-690 | A page is still in use after a free exactly when it was before and is neither inside the freed buffer nor one of the two edge pages that the merging gives back. |
| AllocPages.ReleasedPagesWereHeld | binder/binder_alloc.c:577-665 | All pages given back by a free overlap the buffer being freed, and none is given back twice. |
| BinderAlloc.AdmitIsRefusal | binder/binder_alloc.c:379-414 | The early checks, in wrapping arithmetic and in their order, refuse exactly the requests that unbounded arithmetic refuses, with the same error. |
| BinderAlloc.Alloc.constructor | binder/binder_alloc.c:759-767 | What a successful mapping sets up: one free buffer over the whole region, no page there, half the region as one-way budget, all of the structure valid. |
| AllocMapping.Mapping.MmapHandler | binder/binder_alloc.c:721-783 | The three exits, each exactly when it applies: -EBUSY when the process has mapped before, also when that mapping is gone; -ENOMEM for either allocation, with nothing left behind; else a valid allocator over at most 4 MiB. |
| BinderAlloc.Alloc.NewBuf | binder/binder_alloc.c:362-535 | A request either fails with the right error and changes nothing, or puts a buffer of the padded size at the best fit and charges the budget; that buffer then says the data, offsets and extra sizes and the kind asked for, has room for all three, is neither delivered nor in a transaction, and every other entry is as before; every request that passes the checks and fits succeeds when pages and memory are granted. All of the structure stays valid. |
| AllocRequests.TakenEntries | binder/binder_alloc.c:494-526 | By address, a granted request adds exactly one allocated buffer and changes no other. |
| AllocRequests.ReleasedEntries | binder/binder_alloc.c:667-690 | By address, a free takes exactly one allocated buffer away and changes no other, whatever is merged. |
| BinderAlloc.Alloc.Serve | binder/binder_alloc.c:469-534 | The part after the search: list, both trees, pages and budget move together or not at all. |
| BinderAlloc.Alloc.ClaimFor | binder/binder_alloc.c:484-534 | The pages held become exactly those of the new layout, or stay as they were when claiming fails midway or the second buffer struct is missing. |
| BinderAlloc.Alloc.UpdatePageRange | binder/binder_alloc.c:190-331 | An allocate pass is asked only for pages not held and takes all or none of them; a free pass is asked only for held pages and gives them all back; present pages keep their content. |
| BinderAlloc.Alloc.ClaimPages | binder/binder_alloc.c:239-290 | The claiming loop takes a prefix of the range and stops at the first page it cannot get; its warning about a missing mapping cannot fire. |
| BinderAlloc.Alloc.FreePages | binder/binder_alloc.c:297-323 | The loop from the last page down gives back exactly the range. |
| BinderAlloc.SplitOff | binder/binder_alloc.c:494-509 | List and free tree after the remainder has been linked. |
| BinderAlloc.Carve | binder/binder_alloc.c:494-514 | List and both trees of a granted request equal the specified layout. |
| BinderAlloc.Alloc.FreeBuf | binder/binder_alloc.c:630-691 | Freeing yields the merged layout, refunds the budget, gives back exactly the pages no longer used, and keeps all of the structure valid. |
| BinderAlloc.Alloc.DeleteFreeBuffer | binder/binder_alloc.c:577-628 | The deleted entry goes, and its first page with it exactly when no neighbour uses that page. |
| BinderAlloc.Alloc.Coalesce | binder/binder_alloc.c:667-690 | The two merging branches leave the list, both trees and the held pages as specified. |
| BinderAlloc.Alloc.Refund | binder/binder_alloc.c:637-658 | The refund is what the request was padded to; the BUG_ONs on sizes and addresses cannot fire. |
| BinderAlloc.Alloc.PrepareToFree | binder/binder_alloc.c:133-166 | User space may free exactly an allocated buffer it names by its address and that is marked as delivered, and the mark goes with it. |
| AllocDelivery.StepEntries | binder/binder_alloc.c:133-535 | What each event does to the buffer at an address, and that it does nothing to any other: a request leaves it undelivered with the sizes asked for. |
| AllocDelivery.FreeableExactly | binder/binder_alloc.c:133-166 | Over any run of requests, deliveries and frees, user space may free the buffer at an address if and only if the last thing that happened to it is its delivery: not before, not twice, not after the driver has freed it. |
| BinderAlloc.CheckedExactly | binder/binder_alloc.c:1114-1125 | The check on a copy accepts exactly the aligned spans that lie inside an allocated buffer in unbounded arithmetic, unless user space may free the buffer while a transaction still points to it. |
| BinderAlloc.Alloc.CopyTo | binder/binder_alloc.c:1207-1246 | The page-by-page copy is accepted exactly when the bounds check passes, touches only present pages, and is in effect one flat write of these bytes at this place and nowhere else. |
| BinderAlloc.Alloc.CopyFrom | binder/binder_alloc.c:1207-1246 | The page-by-page copy back returns exactly the flat bytes. |
| BinderAlloc.ReadAfterWrite | binder/binder_alloc.c:1207-1246 | Copying back what was copied in gives the same bytes. |
| BinderAlloc.OtherBuffersUntouched | binder/binder_alloc.c:1114-1160 | A write accepted for one buffer changes no byte of any other. |
| BinderAlloc.Alloc.DeferredRelease | binder/binder_alloc.c:785-845 | The final release, once the mapping is gone, frees what is left, ends with a single free buffer, so neither of its warnings fires, and no page is left. |
| BinderAlloc.Alloc.Rebalance | binder/binder_alloc.c:73-131 | Recolouring and rotation, as any change of tree shape with the same in-order sequences, cannot disturb anything. |
| AllocBudget.BudgetAfterTake | binder/binder_alloc.c:522-524 | Charging keeps the exact law: free budget, plus what live one-way buffers will give back, plus 8 bytes for every zero-size request ever accepted, is half the region modulo 2^64. |
| AllocBudget.BudgetRefunded | binder/binder_alloc.c:652-658 | Refunding keeps it. |
| AllocBudget.PlainLawExactly | binder/binder_alloc.c:404-414 | The plain law, free plus owed is half the region, holds if and only if no zero-size one-way request has been accepted (as long as 8 bytes for each of them stay below 2^64). |
| AllocBudget.RoundTripOfBudget | binder/binder_alloc.c:404-658 | Charging and refunding one buffer cancel, except that a zero-size request costs one pointer for good; its charge is the only one that can wrap around, and exactly when less than that pointer was to spare. |
| AllocLeak.ZeroSizeRequestCostsAPointer | binder/binder_alloc.c:404-414 | The concrete run on which the plain law fails: one zero-size one-way request, freed again, leaves the budget 8 bytes short. |
| CallFailing.PopKeepsInv | binder/binder.c:1848-1858 | Popping a call that is being failed finds it on top of its sender's stack with the sender as its `from`, so both BUG_ONs are unreachable, and all stacks stay well formed. |
| CallFailing.FailKeepsInv | binder/binder.c:2015-2080 | So does any one iteration of the failed-reply loop, with other sections in between. |
| CallGraph.LeafSilent | binder/binder.c:2024-2041 | A thread waiting for a call without a nested call has it on top, has no transaction on its list, and is idle or about to read. |
| CallSending.FoundFirst | binder/binder.c:3190-3205 | The search along `from_parent` returns the nearest enclosing call whose sender is in the target process. |
| CallSending.NobodyFound | binder/binder.c:3190-3205 | When it returns none, no enclosing call has a live sender in the target process. |
| CallSending.FoundWaits | binder/binder.c:3171-3206 | The thread it returns is alive and waits for a call that the new one is nested in; this needs the check that the top of the stack is incoming. |
| CallSending.BeginSendKeepsInv | binder/binder.c:3146-3207 | A call passing the checks on stack and todo head keeps the invariant. |
| CallSending.PushKeepsInv | binder/binder.c:3622-3637 | Pushing the call on its sender's stack keeps it. |
| CallQueueing.DestinationIsQuiet | binder/binder.c:2911-2915 | The thread a call is queued to has no other call, and is either on the waiting list or waits for an enclosing call. |
| CallQueueing.SubmitToThreadKeepsInv | binder/binder.c:2879-2928 | Queueing to a thread keeps the invariant. |
| CallQueueing.SubmitToProcKeepsInv | binder/binder.c:2879-2928 | Queueing to the process keeps it. |
| CallQueueing.SubmitRefusedKeepsInv | binder/binder.c:3638-3643 | A refused call is popped again from where it was pushed, whatever happened in between. |
| CallReading.TakeOwnKeepsInv | binder/binder.c:4512-4543 | Taking a call from the thread's own list keeps the invariant: it is the only call there. |
| CallReading.TakeProcKeepsInv | binder/binder.c:4512-4543 | Taking one from the process list keeps it. |
| CallReading.AcceptKeepsInv | binder/binder.c:4845-4852 | Delivering a call pushes it on the receiver's stack, which was empty or waits for an enclosing call. |
| CallReading.RefuseKeepsInv | binder/binder.c:4805-4826 | A call that cannot be written to user space is handed to the failing path. |
| CallReplies.ReplyToTop | binder/binder.c:3012-3042 | The call being answered is on top, held by this thread, and nothing is nested in it. |
| CallReplies.CallerWaits | binder/binder.c:3044-3066 | The caller, if alive, has the answered call on top: the error branch "bad target transaction stack" is unreachable. |
| CallReplies.BeginReplyKeepsInv | binder/binder.c:3012-3070 | Starting an answer keeps the invariant. |
| CallReplies.FinishReplyKeepsInv | binder/binder.c:3612-3627 | Finishing it, when the caller may have died meanwhile, keeps it. |
| CallRelease.ReleaseKeepsInv | binder/binder.c:5043-5140 | Taking a dying thread out of every transaction of its stack keeps the invariant. |
| CallRelease.DrainThreadKeepsInv | binder/binder.c:4885-4911 | Throwing a call out of a dead thread's list keeps it. |
| CallRelease.DrainProcKeepsInv | binder/binder.c:4885-4911 | So does throwing one out of a dead process's list. |
| CallRuns.StepKeepsInv | binder/binder.c:2974-3752 | Every section of send, queue, read, deliver, answer, fail and release keeps the invariant; every BUG_ON on the way is a proved assertion. |
| CallRuns.StacksWellFormed | binder/binder.c:5094-5117 | In every reachable state of any number of threads and processes: each stack entry is alive and has the thread as `from` or `to_thread`, the stack pointer is the top entry, and no two live calls share a `from_parent`. |
| CallRuns.LeavesOnce | binder/binder.c:1848-2080 | Over any run, a call that has left its sender's stack never returns to one, how it left never changes, and a freed call stays freed. |
| CallRuns.Accounted | binder/binder.c:1995-2103 | Every live call is on its sender's stack or has left it, never both, and exactly one place is responsible for it. |
| CallRuns.CallReturns | binder/binder.c:3012-3070 | Over any run, a call on its sender's stack keeps the stack below it unchanged until it leaves or the sender dies. |
| CallRuns.StepReturns | binder/binder.c:1848-1858 | The step that takes a call off leaves the stack exactly as it was when the call was made. |
| CallRuns.NothingLeaks | binder/binder.c:5138-5140 | When all threads are dead, all lists drained and nothing is left to be failed, no transaction is left over. |
| CallExample.CallbackGoesToTheWaitingThread | binder/binder.c:3171-3206 | A reachable state with a nested call: a callback into a process with a thread waiting for the outer call is queued to that thread. |
| CallMethods.FailAllReaches | binder/binder.c:2015-2080 | The whole loop, run through: the error reaches the nearest enclosing caller still alive, exactly the calls up to and including that caller's are freed, and that caller is left waiting for the next outer one. |
| CallMethods.Driver.SendFailedReply | binder/binder.c:2015-2080 | The loop in place equals that function; it ends because ids decrease along `from_parent`. |
| CallMethods.Driver.Pop | binder/binder.c:1848-1858 | The pop in place, with both BUG_ONs proved. |
| CallMethods.Driver.FindTargetThread | binder/binder.c:3190-3205 | The search loop equals the specified search. |
| CallMethods.Driver.StartCall | binder/binder.c:3132-3207 | A new call is accepted exactly when its checks pass, and then the state is as specified; a refused one changes no thread. |
| CallMethods.Driver.StartReply | binder/binder.c:3012-3070 | The four outcomes of the reply head, each exactly when it applies, with the resulting state. |
| CallMethods.Driver.DetachStack | binder/binder.c:5084-5117 | The walk over a dying thread's stack takes apart exactly the transactions on it; its BUG() is unreachable. |
| CallMethods.Driver.DetachThread | binder/binder.c:5049-5140 | The first section of a thread's release equals the specified step and returns the call to be failed. |
| CallMethods.Driver.DetachNext | binder/binder.c:5094-5115 | One turn of that walk. |
| CallMethods.Driver.DrainList | binder/binder.c:4885-4911 | Emptying a dead thread's list fails and frees every call on it and takes back nothing that had left or was freed. |
| CallMethods.Driver.ReleaseThread | binder/binder.c:5043-5143 | The whole release: the calls the thread had sent are recorded as left with their sender, the one it was serving and those on its list are freed, and its list is empty, so the BUG_ON in freeing it is unreachable. |
| CallAnswers.QueuesMove | binder/binder.c:2879-4943 | Every todo list, of threads and processes, is a queue, and the table says for each step exactly what it puts at the end and whether it takes the head: calls, answers, error reports and other work. |
| CallAnswers.AnsweredStep | binder/binder.c:3612-3627 | The step that ends a call with an answer appends exactly that answer to the list of the thread that sent the call; no other list gains a transaction. |
| CallAnswers.ArrivesExactly | binder/binder.c:3612-3627 | An answer to a call arrives on a list if and only if the step ends the call with it and the list is its sender's. |
| CallAnswers.AnsweredOnce | binder/binder.c:2974-3752 | Over any run, a call that was answered has put exactly one answer on its sender's list and none on any other; one that was not answered has put none anywhere. |
| CallErrors.FailedStep | binder/binder.c:2024-2053 | The step that ends a call with a failure appends one error report to the list of the thread that sent it, unless that thread has one pending, and changes no other list; afterwards one is pending. |
| CallErrors.FlagMoves | binder/binder.c:2034-2039 | A report is pending from such a failure until the thread has read it to its end, and nothing else sets or clears it. |
| CallErrors.OnlyFailuresReport | binder/binder.c:2024-2053 | A report comes on no other occasion. |
| CallErrors.ReportsHaveCodes | binder/binder.c:4545-4560 | In every reachable state a thread's list holds at most one report, no process's list any, and a report on a list has its error code: the warning on reading it is unreachable. |
| CallStacks.StacksMove | binder/binder.c:2974-5140 | The stack of every thread after every step: delivery and sending push one entry, starting an answer, an answer, a failure and a refusal pop one, and nothing else touches it. |
| CallStacks.HoldersMove | binder/binder.c:2974-5140 | Who is responsible for every call after every step. |
| CallStacks.CallsKeep | binder/binder.c:2974-5140 | A call keeps its caller until that thread dies, and what it is nested in for good. |
| CallStacks.TargetExactly | binder/binder.c:3171-3206 | The thread chosen when a call is started is the sender of the nearest enclosing call from the target process, and none only if there is no such call. |
| CallStacks.CallAsStarted | binder/binder.c:3622-3637 | A new call is from the thread that pushes it, nested in what was on top of its stack, and for the process and the thread chosen when it was started. |
| RefOps.DecNFacts | binder/binder.c:1280-1350 | A decrement lowers one count, never leaves a node that nothing keeps and user space does not know of, and puts the work that announces a last reference on the process's list unless it is on a list already. |
| RefOps.NodeWorkKeepsInv | binder/binder.c:4577-4636 | The handshake work keeps the invariant in every combination of strong and weak, including freeing the node. |
| RefOps.NodeWorkExact | binder/binder.c:4577-4637 | After the read a surviving node's flags say exactly what references there are; a pending mark and a local count come exactly with a flag that turns on; nothing else about it changes, and it survives if and only if something keeps it. |
| RefHandshake.StepAgrees | binder/binder.c:4588-4669 | One step: every BR_INCREFS, BR_ACQUIRE, BR_RELEASE and BR_DECREFS it sends for a node comes in its place, and what user space then believes is what the flags say. |
| RefHandshake.UserSpaceAgrees | binder/binder.c:4588-4669 | So it is over any run in which the node's process lives. |
| RefOps.ThrowWorkKeepsInv | binder/binder.c:4943-4944 | Throwing a node's work away with the list of a thread that left keeps refs, nodes and counts exact. |
| RefOps.DoneExact | binder/binder.c:3905-3976 | BC_INCREFS_DONE and BC_ACQUIRE_DONE take exactly the pending mark and the local count that went with it. |
| RefOps.DoneKeepsInv | binder/binder.c:3905-3976 | BC_INCREFS_DONE and BC_ACQUIRE_DONE keep it; the warning about a freed node cannot fire. |
| RefOps.LeastFreeIsLeast | binder/binder.c:1521-1528 | The handle chosen is the least one from 0 or 1 on that the process does not use. |
| RefOps.AddRefKeepsInv | binder/binder.c:1488-1555 | A new ref gets an unused handle, so the insertion cannot hit BUG(), and keeps the graph exact. |
| RefOps.IncRefForNodeKeepsInv | binder/binder.c:1815-1846 | Getting and incrementing a ref keeps the graph exact even when the increment is refused. |
| RefOps.DecRefKeepsInv | binder/binder.c:1648-1682 | Decrementing a ref, down to its removal, keeps it. |
| RefOps.CleanupKeepsInv | binder/binder.c:1557-1599 | Removing a ref whatever its counts keeps it. |
| RefOps.NodeDiesKeepsInv | binder/binder.c:5736-5802 | The death of a node's process keeps it: the node is freed or left without a process. |
| RefOps.DropTargetKeepsInv | binder/binder.c:2367-2368 | Giving back a transaction's strong reference on its target keeps it. |
| RefOps.SetCtxKeepsInv | binder/binder.c:5278-5291 | Becoming the context manager keeps it. |
| RefOps.GraphExact | binder/binder.c:1210-1350 | No ref points to a freed node; a node's list is exactly the refs that point to it; its internal count is the number of strong ones among them. |
| RefOps.TreesAgree | binder/binder.c:1488-1599 | The by-handle and by-node trees of a process hold exactly its refs, one per handle and one per node. |
| RefBuffers.BalancedKeepsInv | binder/binder.c:1210-1266 | What every section below is proved with: if a section changes the counts of a node by what it changes in the buffers that target it, the objects that name it and the operations that hold it, then counts and claims still agree and no claim is left on a freed node. |
| RefSystem.HoldKeepsInv | binder/binder.c:1363-1371 | Looking a node up and holding it for an operation keeps nodes, refs, buffers and operations in agreement. |
| RefSystem.PutKeepsInv | binder/binder.c:1407-1437 | Putting it back does, freeing included; that the count is there to give back follows from the operation holding it. |
| RefSystem.BeginKeepsInv | binder/binder.c:2951-2972 | Taking a strong and a temporary reference on the target of a new transaction and making it the target of the buffer does. |
| RefSystem.AppendHandleKeepsInv | binder/binder.c:2542-2596 | Translating an object of the sender into a handle of the receiver and adding it to the buffer does. |
| RefSystem.AppendBinderKeepsInv | binder/binder.c:2598-2674 | Translating a handle into the receiver's own object does: the buffer then holds the object that stands for the new local count. |
| RefTeardown.TargetIsDue | binder/binder.c:2367-2368 | The node a buffer targets is there when its strong reference is given back and, while its process lives, has that count. |
| RefTeardown.ReleaseKeepsInv | binder/binder.c:2353-2368 | Starting to release a buffer, by the failing sender or by its owner, keeps the agreement. |
| RefTeardown.ReleaseOtherKeepsInv | binder/binder.c:2416-2460 | Releasing an object that names no node of the owner keeps it: the handle is looked up, and a ref not found or not counted is passed over. |
| RefTeardown.PassOverKeepsInv | binder/binder.c:2401-2407 | An object whose node is not found is passed over, and that happens only while the buffer's owner is being released. |
| RefTeardown.LookupKeepsInv | binder/binder.c:2400-2401 | Looking up the node of an object by the pointer in the buffer keeps it. |
| RefTeardown.GivenIsDue | binder/binder.c:2400-2413 | The node so found has the very count that the object stands for, strong or weak as the object says, unless its process has died since. |
| RefTeardown.GiveKeepsInv | binder/binder.c:2411-2413 | Giving that count back keeps the agreement, whatever became of the process in between. |
| RefProcs.CreateKeepsInv | binder/binder.c:1125-1208 | A new node is claimed by nobody, and keeps it. |
| RefProcs.BecomeKeepsInv | binder/binder.c:5278-5291 | Becoming the context manager keeps it, also while an earlier manager's process is still being released. |
| RefProcs.CloseKeepsInv | binder/binder.c:5804-5830 | The start of a process's release, which gives up the context, keeps it. |
| RefProcs.DieKeepsInv | binder/binder.c:5736-5802 | The death of a node keeps it while buffers and operations may still refer to the node. |
| RefProcs.ForgetKeepsInv | binder/binder.c:5804-5890 | The end of a process with its buffers keeps it. |
| RefRuns.StepKeepsInv | binder/binder.c:1125-2674 | Every section of every operation on nodes, refs, buffers and transactions, and every thread that leaves and has its list thrown away, keeps the agreement, in any interleaving. No section is enabled by a ledger: a release looks its node up by the pointer in the buffer, and that the count is there is proved. |
| RefRuns.NodesOutliveRefs | binder/binder.c:1557-1599 | In every reachable state no live ref points to a freed node, and list and internal count are exact. |
| RefRuns.LocalCountsExact | binder/binder.c:1210-1266 | In every reachable state, while a node's process lives, its local strong count is exactly its pending handshake, one if it is the context manager's, the number of buffers that target it and the number of strong objects in its process's buffers that name its pointer; the weak count likewise; its temporary count is the number of operations that hold it; pending implies has, strong implies weak, and user space knows of a node that nothing keeps. |
| RefRuns.BuffersFindTheirNodes | binder/binder.c:2399-2413 | In every reachable state, every object in a buffer of a living process that names a node names a live one with such a count, and so does the buffer's target: a release never meets a bad node. |
| RefDead.DeadNodesGo | binder/binder.c:1280-1350 | In every reachable state, a node whose process has died, with no ref and no temporary reference, is still there if and only if some local count was given back to it after its death. |
| RefDead.LateNodesStay | binder/binder.c:5755-5765 | Over any run, such a node stays for ever. |
| RefDead.ADeadNodeCanBeLeftBehind | binder/binder.c:5755-5765 | A reachable state with such a node: its process dies while a transaction to it is under construction, and the failing sender gives the target reference back. |
| RefWork.StepWorks | binder/binder.c:1210-1350 | Apart from reading the work, throwing it away and the death of the node, every section leaves a node's work where it is, puts it on a thread's list, or puts idle work on the process's; and only a node user space does not know of can go. |
| RefWork.ThrownExactly | binder/binder.c:4885-4946 | Over any run, a live node's work is marked as thrown away if and only if some step of the run threw it away and it has been on no list since. |
| RefWork.UntoldIsListedUnlessThrown | binder/binder.c:1304-1313 | In every reachable state, when the last strong or the last reference on a live node has gone and user space has not been told, the work that tells it is on a list if and only if it was not thrown away from the list of a leaving thread since it was last on one. |
| RefWork.StrandedStays | binder/binder.c:4943-4944 | Over any run, a node that user space knows of and whose work is on no list stays and is not announced, as long as no increment or decrement puts the work on a list again and the process does not die. |
| RefWork.ProcessWorkStays | binder/binder.c:1306-1312 | Over any run, work on the process's list stays there until it is read, is moved to a thread's list, or the process dies: it is never lost there. |
| RefStranded.ALiveNodeCanBeLeftBehind | binder/binder.c:5429-5432 | A reachable state with such a node in a living process: a thread sends an object weak, reads and answers BR_INCREFS, sends it strong, the receiver gives both handles back, and the thread leaves before reading. Nobody refers to the node, user space still believes in a reference, and no work is queued. |
| RefUndo.TranslateWorks | binder/binder.c:2542-2674 | Translating one object leaves exactly one count behind, the one its translated form names; a failing one leaves none. |
| RefNames.TranslateNames | binder/binder.c:2542-2674 | An object goes over if and only if: its node is known or can be made, and the cookie is the node's, or the sender has the handle, strongly for a strong object; the transfer is allowed; and the receiver owns the node, or has or can be given a ref that user space can be told of. It then has the strength of the object sent and names, for the receiver, the node that the object sent names for the sender; pointer and cookie are the node's when the node is the receiver's. |
| RefNames.TranslateAllNames | binder/binder.c:3389-3608 | However far the offsets loop gets, the objects it has translated arrive as the same things, in order; it is complete exactly when it has translated all. |
| RefNames.IncRefForNodeOk | binder/binder.c:1210-1266 | The increment of a ref is refused if and only if it would be the first of its kind, user space does not know of one, and there is no list to put the work on. |
| RefLedger.StepLedger | binder/binder.c:1515-2674 | The strong and weak count of every ref after every step: exactly one more, exactly one less, or gone with its ref, as the table says. |
| RefLedger.RunLedger | binder/binder.c:1515-2674 | Over any run, every count of every ref is what the steps have added to it. |
| RefLedger.HandlesMove | binder/binder.c:1515-1528 | Handles after every step: those that stay are the same; a new one is the least that its process does not use, from 0 on for the context manager's node and from 1 on for any other. |
| RefLedger.StepObjects | binder/binder.c:2542-2674 | What every buffer holds after every step: one more object if the step writes one, with the strength asked for and naming, for the buffer's owner, the node that the sender holds; else the same objects. |
| RefLedger.ListTells | binder/binder.c:1227-1262 | The first strong reference puts the node's work on the list passed unless user space knows of one; the first weak one does unless user space knows or the work is on a list already. |
| RefLedger.ReferencesAreTold | binder/binder.c:1210-1266 | In every reachable state user space has been told of every strong or weak reference that a process holds on a node of a living process, unless the work that tells it is still on a list or was thrown away. |
| RefRelease.ReleaseUndoesTranslation | binder/binder.c:2353-2540 | Wherever the offsets loop stops, also at its end, releasing the objects done so far leaves all ref, local and temporary counts as they were. |
| RefRelease.AbortUndoesTransaction | binder/binder.c:3676-3715 | Aborting a new transaction at any object, with the references on its target node, leaves every count as it was. |
| RefRelease.FreeingUndoesTransaction | binder/binder.c:2353-2540 | So does a transaction that succeeds and whose buffer is freed, in its order: the temporary reference goes at once, the strong one and the objects with the buffer. |
| RefMethods.Context.LeastHandle | binder/binder.c:1521-1528 | The walk over the handle tree finds the least unused handle. |
| RefMethods.Context.GetRefForNode | binder/binder.c:1488-1555 | The lookup or insertion in place; its BUG() is unreachable. |
| RefMethods.Context.IncNode | binder/binder.c:1210-1266 | The increment of a node in place, with its refusals, equals the specified one. |
| RefMethods.Context.DecNode | binder/binder.c:1280-1350 | The decrement in place, with the node freed exactly when it says so, equals the specified one. |
| RefMethods.Context.IncForNode | binder/binder.c:1815-1846 | Getting or making a ref and incrementing it in place equals the specified operation, its failure included. |
| RefMethods.Context.CleanUp | binder/binder.c:1557-1605 | Taking a ref out of both trees and off its node in place, and freeing it. |
| RefMethods.Context.DecCount | binder/binder.c:1648-1682 | Decrementing a ref in place, a count that is 0 already included, down to its removal. |
| RefMethods.Context.TranslateBinderObject | binder/binder.c:2542-2596 | `binder_translate_binder` in place, every error exit included, equals the specified translation. |
| RefMethods.Context.TranslateHandleObject | binder/binder.c:2598-2674 | `binder_translate_handle` likewise. |
| RefMethods.Context.TranslateObjects | binder/binder.c:3389-3608 | The offsets loop, object after object in place until one fails, equals the function that `RefRelease` speaks of. |
| RefMethods.Context.ReleaseObject | binder/binder.c:2391-2460 | One object of the release in place: node or ref looked up, decremented, put back. |
| RefMethods.Context.ReleaseObjects | binder/binder.c:2370-2540 | The release loop in place equals the function that `RefRelease` speaks of. |
| RefMethods.Context.TransactAndRelease | binder/binder.c:3389-3715 | Build and fail anywhere, or complete and free, each in the order of the code: all counts as before. |
| RefMethods.Context.ReleaseNode | binder/binder.c:5736-5765 | The fate of one node of a dying process, in place. |
| RefMethods.Context.ThrowThreadWork | binder/binder.c:4885-4946 | The loop that takes the list of a leaving thread apart throws away exactly the node work on it and changes nothing else. |
| RefMethods.Context.ReleaseNodes | binder/binder.c:5845-5863 | The loop over a dying process's nodes leaves it none, frees exactly those with no ref and no temporary reference, changes no other node and no ref. |
| RefMethods.Context.ReleaseRefs | binder/binder.c:5866-5879 | The loop over its refs leaves it none and changes no ref of another process. |
| RefMethods.Context.ReleaseProcess | binder/binder.c:5804-5890 | Both together, including the context manager pointer. |
| Fixups.ParentIsEarlier | binder/binder.c:2182-2210 | A verified buffer's parent is a verified buffer at a smaller offset, which is why the climb ends. |
| Fixups.ValidateFixup | binder/binder.c:2251-2292 | The climbing loop answers exactly the specified question and terminates. |
| Fixups.AncestorIsFound | binder/binder.c:2251-2292 | Every ancestor of the last buffer is found by the climb ... |
| Fixups.FoundIsAncestor | binder/binder.c:2251-2292 | ... and nothing else is; an ancestor may be written from behind the pointer to the next buffer on the path. |
| Fixups.StepKeepsInv | binder/binder.c:3382-3608 | Each accepted object keeps buffers apart, writes inside their parents and apart, and the last buffer with all its ancestors free of writes beyond the allowed place. |
| Fixups.Place | binder/binder.c:3382-3608 | The offsets loop accepts exactly when every object passes; what it then has placed and written is exactly what the objects ask for, in order, and nothing is written into a buffer object at offset 0. |
| Fixups.StepSparesFirst | binder/binder.c:2251-2263 | No object is ever accepted whose parent is the buffer object at offset 0. |
| Fixups.ObjectsInside | binder/binder.c:2116-2158 | In an accepted transaction every object is a complete one of a known type, aligned, inside the data and behind all earlier ones. |
| Fixups.KnownExactly | binder/binder.c:2116-2158 | No such object is taken for unknown. |
| Fixups.BuffersApart | binder/binder.c:3542-3577 | In an accepted transaction any two buffers are disjoint and inside the extra area. |
| Fixups.WritesApart | binder/binder.c:2743-2860 | In an accepted transaction any two pointers or descriptors written are disjoint, inside their parent and inside the extra area. |
| FixupsDocumented.AllowedExactly | binder/binder.c:2212-2292 | Compared with the rule of the comment, which has no special case for offset 0: at any point of the loop, a fixup is allowed if and only if the comment allows it and the parent is not at offset 0. |
| FixupsDocumented.AcceptsExactly | binder/binder.c:3382-3608 | The whole loop accepts a transaction if and only if the loop with the rule of the comment does and no pointer with a parent, and no descriptor array, names a buffer object at offset 0 as its parent. |
| FixupsDocumented.PairIsRefused | binder/binder.c:2258-2262 | The smallest such transaction, two buffers of which the second is linked into the first: the comment accepts it, the code refuses it. |
| Fixups.ExtraAreaEndsBuffer | binder/binder.c:3382-3388 | The extra area as computed by the loop ends exactly where the allocated buffer's padded size does. |
| AsyncSteps.SendKeepsInv | binder/binder.c:2879-2928 | Accepting a one-way transaction, at once or behind others, and refusing it for a dead process keep the books of its node. |
| AsyncSteps.AdvanceKeepsInv | binder/binder.c:3765-3800 | Freeing the outstanding buffer keeps them; the two BUG_ONs are proved assertions. |
| AsyncSteps.LoseKeepsInv | binder/binder.c:4900-4911 | A transaction thrown off a dead list leaves its buffer behind as the outstanding one. |
| AsyncRelease.DropHeadKeepsInv | binder/binder.c:5742-5742 | Draining a dying node's queue keeps the books. |
| AsyncRelease.NoTransactionLeft | binder/binder.c:5014-5033 | When a dead process is freed, none of its buffers has a transaction and no list has work: three BUG_ONs are unreachable. |
| AsyncRuns.StepKeepsInv | binder/binder.c:2879-3800 | Every section keeps the books of every node. |
| AsyncTable.StepTable | binder/binder.c:2879-3800 | Every step changes the history of every node and the life of every buffer exactly as the table says, which knows no queue: sent to an open process, a transaction is accepted, and started at once if nothing of its node is outstanding; freeing the outstanding buffer starts the next in line. |
| AsyncRuns.OneAtATime | binder/binder.c:2889-2900 | In every reachable state a node has at most one outstanding one-way buffer outside its queue; a non-empty queue implies the flag and such a buffer, and while the process lives the flag implies it too. |
| AsyncRuns.ServedInOrder | binder/binder.c:3773-3795 | In every reachable state, a transaction that has become runnable finds every transaction accepted before it for that node already freed. |
| AsyncRuns.AcceptedIsAccountedFor | binder/binder.c:2879-3800 | While the process lives, what was accepted is, in order, what was freed, the outstanding buffer and the queue; queue and slot hold exactly the buffers in those phases. |
| AsyncRuns.RunExtends | binder/binder.c:2879-3800 | Over any run, acceptance, service and freeing only ever extend what was there. |
| AsyncProgress.StallStays | binder/binder.c:4900-4911 | Once the outstanding transaction was thrown away with the thread it was queued to, nothing of that node becomes runnable again while the process lives. |
| AsyncProgress.MovesUnlessStalled | binder/binder.c:2911-2919 | While the process lives, some run makes the next waiting transaction runnable if and only if the queue is not stalled in that way. |
| AsyncStall.AThreadThatLeavesStallsTheQueue | binder/binder.c:2911-2915 | The stall is reachable, with process and queue alive. |
| AsyncMethods.Driver.ProcTransaction | binder/binder.c:2879-2928 | The one-way path in place equals the step and answers whether the process was alive. |
| AsyncMethods.Driver.FreeBuf | binder/binder.c:3773-3795 | The queue part of freeing a buffer, in place. |
| AsyncMethods.Driver.NodeRelease | binder/binder.c:5736-5765 | The draining loop drops exactly what waited, in order, and nothing that had started. |
| AsyncMethods.Driver.FreeProcess | binder/binder.c:5014-5033 | The final release of a process's buffers, with the BUG_ON on their transactions proved. |
| Death.RequestKeepsInv | binder/binder.c:4150-4175 | Requesting a notification keeps one owner per record, also when the node is dead already. |
| Death.ClearKeepsInv | binder/binder.c:4176-4223 | Clearing keeps it; the BUG_ON on the work type is unreachable. |
| Death.VisitKeepsInv | binder/binder.c:5769-5793 | Announcing a death to one ref keeps it; the BUG_ON on a record already queued is unreachable. |
| Death.ReadKeepsInv | binder/binder.c:4670-4711 | Reporting a record to user space keeps it. |
| Death.FinishKeepsInv | binder/binder.c:4228-4282 | BC_DEAD_BINDER_DONE keeps it. |
| Death.DropRefKeepsInv | binder/binder.c:1589-1597 | Dropping a ref with its record keeps it, wherever the record is queued. |
| Death.ReleaseHeadKeepsInv | binder/binder.c:4930-4942 | Draining a list keeps it; only cleared records are found there. |
| Death.StepKeepsInv | binder/binder.c:4149-4282 | Every step keeps it. |
| Death.OneOwner | binder/binder.c:1731-1737 | In every reachable state a record is owned by exactly one ref, or by none and is then on exactly one list; a freed one is nowhere. |
| Death.DeathsArrive | binder/binder.c:5769-5793 | A notification requested on a node that has died is on its way to its process or has been told. |
| Death.StepGrows | binder/binder.c:4670-4711 | A step adds to the told records exactly the one it sends a BR_DEAD_BINDER for, which was untold before; a step that removes a record finds it unfreed. |
| Death.AnnouncedOnce | binder/binder.c:4670-4711 | Along any run the records for which a BR_DEAD_BINDER goes out are all different, and different from those told before. |
| Death.ToldAndFreedOnce | binder/binder.c:4670-4711 | Over any run, what was told or freed stays so and a freed record never comes back. |
| Death.NothingLeaks | binder/binder.c:4930-4942 | With no refs and empty lists no record is left. |
| DeathMessages.StepLife | binder/binder.c:4149-4711 | What happens to a record comes in its place: told at most once, acknowledged once after that, a cleared one confirmed only when its death is not told or has been acknowledged, and nothing after the end. |
| DeathMessages.StepCookies | binder/binder.c:4150-4175 | A record is made by a request, has the cookie and the process of that request, and never another. |
| DeathMessages.RequestIsProper | binder/binder.c:4149-4711 | From a request on, over any run: every event on its record comes in its place, and every BR_DEAD_BINDER and BR_CLEAR_DEATH_NOTIFICATION_DONE for it goes to the process that asked, with the cookie it gave. |
| DeathMessages.SentToAsker | binder/binder.c:4670-4711 | The list a record is reported from is that of the process that asked, or of one of its threads. |
| DeathMessages.StepLists | binder/binder.c:4149-4711 | Every list after every step: the record that moves is off its list and last on the new one, the others keep their order. |
| DeathMessages.StepPlaces | binder/binder.c:4149-4711 | Where the record of a step is afterwards. |
| DeathMethods.Notifier.FindDelivered | binder/binder.c:4239-4252 | The search for a cookie finds a delivered record with it, or there is none. |
| DeathMethods.Notifier.DeadBinderDone | binder/binder.c:4228-4282 | The command in place: nothing changes exactly when no delivered record has the cookie, else the step is the specified one. |
| DeathMethods.Notifier.NodeRelease | binder/binder.c:5769-5793 | The loop over a dead node's refs tells, or queues, every record on it. |
| DeathMethods.Notifier.Tell | binder/binder.c:5775-5792 | One turn of that loop equals the specified visit. |
| DeathMethods.Notifier.ReleaseWork | binder/binder.c:4885-4951 | The draining loop frees exactly the records on the list, leaves it empty and changes no other record. |
| AshmemRanges.PinExact | ashmem/ashmem.c:745-811 | Pin removes exactly the requested pages from the unpinned set, keeps the purged marks of the others, and leaves a disjoint descending list. |
| AshmemRanges.PinAnswer | ashmem/ashmem.c:745-811 | Pin answers "was purged" exactly when some requested page lay in a purged range. |
| AshmemRanges.PinCounts | ashmem/ashmem.c:745-811 | The page count changes as the unpurged total does, and the preallocated range is used exactly when the list grows, at most once. |
| AshmemRanges.PinLru | ashmem/ashmem.c:213-295 | The LRU list keeps holding exactly the unpurged ranges. |
| AshmemRanges.UnpinExact | ashmem/ashmem.c:818-849 | Unpin adds exactly the requested pages, with its restart loop ending because the list shrinks. |
| AshmemRanges.UnpinKeepsPurged | ashmem/ashmem.c:818-849 | No page loses its purged mark when ranges are joined. |
| AshmemRanges.UnpinBooks | ashmem/ashmem.c:818-849 | Page count, LRU list and the use of the preallocated range after unpin. |
| AshmemRanges.StatusExact | ashmem/ashmem.c:857-875 | The status query answers whether the request meets the unpinned set. |
| Ashmem.StepKeepsInv | ashmem/ashmem.c:578-942 | Every section, the shrinker's two included, keeps the invariant over all areas. |
| Ashmem.HolesAreUnpinned | ashmem/ashmem.c:589-614 | In every reachable state all pages of a hole being punched in an open area are unpinned. |
| Ashmem.PinnedPagesStayOut | ashmem/ashmem.c:895-921 | From a pin on, along any run in which no unpin covers the page, a pinned page is never unpinned, never in a hole being punched in its area, and never punched: no page is punched between a pin returning and its next unpin. |
| Ashmem.PinTellsOfPunches | ashmem/ashmem.c:745-811 | Pin never answers "not purged" when a requested page was punched while unpinned. |
| Ashmem.LruExact | ashmem/ashmem.c:213-295 | In every reachable state the global count is the total size of the unpurged ranges of all areas and the LRU list holds exactly those. |
| AshmemOrder.OldestFirst | ashmem/ashmem.c:213-230 | In every reachable state the range the shrinker takes is the one of all unpurged ranges of all areas that was made first. |
| AshmemMethods.Device.PinEntry | ashmem/ashmem.c:772-796 | Of a range that meets the request and is not split, exactly the pages outside the request are left, in at most one range with the same mark; the count changes by the unpurged pages that go, and the range leaves the LRU list only when nothing of it is left. |
| AshmemMethods.Device.PinRanges | ashmem/ashmem.c:745-811 | The loop down the list, with all four overlap cases, equals the specified pin. |
| AshmemMethods.Device.UnpinRanges | ashmem/ashmem.c:818-849 | The loop with its restarts equals the specified unpin and terminates. |
| AshmemMethods.Device.PinStatus | ashmem/ashmem.c:857-875 | The query loop equals the specified status. |
| AshmemMethods.Device.PinCommand | ashmem/ashmem.c:895-921 | ASHMEM_PIN on the set of unpinned pages, all areas and the shrinker included, with the purged answer exactly when a page was in a purged range, and always when one was punched. |
| AshmemMethods.Device.UnpinCommand | ashmem/ashmem.c:895-924 | ASHMEM_UNPIN likewise; on an empty range it puts that range on the list, and exactly then the structure is not valid any more. |
| AshmemMethods.Device.StatusCommand | ashmem/ashmem.c:925-927 | ASHMEM_GET_PIN_STATUS is set intersection. |
| AshmemMethods.Device.Release | ashmem/ashmem.c:347-365 | Closing an area takes all its ranges off the books. |
| AshmemMethods.Device.ShrinkFirst | ashmem/ashmem.c:589-603 | The shrinker marks the oldest range and announces its hole in one section. |
| AshmemChecks.AcceptedExactly | ashmem/ashmem.c:901-912 | Arguments are accepted if and only if offset and length are multiples of a page and offset plus length stays inside the area, rounded up to pages, and below 4 GiB, all in unbounded arithmetic; the length is the one given, or for 0 what the area has left, modulo 4 GiB where the area is that large. |
| AshmemChecks.PagesCovered | ashmem/ashmem.c:914-915 | The pages handed on are exactly those that the bytes cover. |
| AshmemChecks.PagesInOrder | ashmem/ashmem.c:901-915 | They are in order and inside the area unless the length is 0. |
| AshmemChecks.RestCanBeEmpty | ashmem/ashmem.c:901-915 | Length 0 passes the checks in every area below 4 GiB, for "everything onward" at the very end and for no other arguments: in an area of one page it asks for page 1 to page 0. |
| AshmemMethods.Device.PinUnpin | ashmem/ashmem.c:879-942 | The command from its byte arguments: which of the answers it gives, each exactly when it applies; pin takes exactly the covered pages out of the unpinned set and tells of a purge exactly when a covered page was purged, unpin adds exactly them, the query answers whether one is unpinned; all other areas stay. The structure stays valid if and only if it was not an unpin of length 0, which leaves an empty range on the list. |

## Left out

Parts of the drivers that are not modelled:

- Red-black colouring and rotation: every contract speaks of in-order sequences only, and `Rebalance` allows any reshaping that keeps them.
- Page reclaim (`binder_alloc_free_page` and the list_lru): its list operations are stubs in this repository and its shrinker scans nothing, so pages once present stay present.
- Faults while copying from or to user space beyond their effect on transactions, scheduling priority, poll wake-ups, spawning of looper threads, debugfs, tracing and statistics.
- Security hooks and page or memory allocation: their answers are parameters. The security context is always empty here, so the extra area holds buffers only.
- Installing and closing file descriptors: objects that carry descriptors hold no counts and count as inert in the translation.
- Wrap-around of handles, reference counts and debug ids.
- binderfs, symbol lookup and compatibility glue, `ashmem/ion/*`, `ashmem/vsoc.c`, `ipcverify/` and the scripts.

What the modelled parts do not capture:

- The heap: lists and trees of pointers are sequences, sets and maps of ids (the allocator keeps real search trees); aliasing shows as equal ids, a list with its head embedded in objects as a sequence or a set. Refs and buffers on an unordered list are sets.
- Locks: each section under a lock is one step, and lock order is not modelled. In `binder_proc_transaction` the node lock is held throughout, so it is one step.
- Waiting threads: which of the listed threads `binder_select_thread_ilocked` picks, and when a thread goes to sleep or wakes, is left open; the steps for a thread's own bookkeeping allow more than the code does.
- The stack pointer of a dead thread, which the code leaves as it was and nobody reads.
- Two-way calls and one-way transactions are separate modules; one-way work on a thread's list is present in the call model only as work that is a transaction. The contents of an answer and the error code of a report are not modelled.
- `AsyncProgress` says what can still happen, not that it does: scheduling and user space are free.
- A closed ashmem area keeps its number in the model; the statements about holes are about open areas, because closing does not wait for holes being punched.
- AshmemMethods.Device.PinUnpin: in an area of 4 GiB or more, "everything onward" whose length comes to 0 modulo 4 GiB is not covered; nor is what the commands do after an empty range has been put on a list. The area's size is a parameter, because nothing changes it once the area is mapped.
- The number of objects the ashmem shrinker is asked to scan and its give-up on a busy mutex are left open: any number of its steps may run, at any time.
- Buffers in the call, one-way and reference models are not the allocator's: the reference model keeps their target and their objects, the one-way model only their phase. In the reference model the buffers of a process go with it, unreleased, as in the code.
