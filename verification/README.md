# Verified models of the transfer protocol and of the MentOS kernel parts

The repository holds two systems. `system_call/` is a file transfer between one client, which forks a child for each
file, and one server: every child cuts its file into four parts and sends one part over each of four channels (two
FIFOs, a message queue, a shared memory of 50 slots), under counting semaphores; the server polls the four channels,
collects the parts and writes each file out when its four parts are there. `Mentos/` is a teaching kernel, of which four
parts are modelled: the banker's algorithm with the semaphores built on it, the kernel heap, the top-down red-black
tree, and the round-robin run queue.

Every `.dfy` file is one module. `Basics` holds what all share; the others come in five groups.

| group | files |
|---|---|
| file transfer | `FileParts` (splitting, the size filter, the output text), `Transfer` (the processes as steps of a state machine), `TransferInv` (the invariant), `TransferLocal`, `TransferChildren`, `TransferServer` (each step keeps it), `TransferSafety` (all runs), `TransferOnce` (each part once), `TransferProgress` (the work left never grows, and a round can always be completed), `TransferLiveness` (under fairness every round ends), `TransferStarvation` (under less fairness not), `TransferCollector` (the server's tables), `TransferPasses` (one pass of a loop, left alone) |
| banker and semaphores | `ArrMath`, `Banker` (theory), `DeadlockPrevention`, `DeadlockSimulation` (arrays), `SmartSem`, `SmartSemRuns` (theory), `SmartSemKernel` (tables) |
| kernel heap | `Heap`, `HeapRuns` (values and runs), `KernelHeap` (headers in memory) |
| red-black tree | `RbTree`, `RbInsert`, `RbRemove`, `RbQueries`, `RbIterator`, `RbObject` |
| run queue | `RunQueue` (sequence and runs), `RunQueueList` (the circular list) |

How the source is rendered:

- The transfer is a step relation. Each semaphore operation, read, write, slot copy and flag write is one step of one
  process; a non-blocking operation that would have to wait is a step that moves on. N, the files, the capacities of the
  three queues (any positive number of messages) and the order of steps are arbitrary, and rounds follow each other
  without end. What a run can do wrong is in the model: `Failed` is the child that finds no slot, `Broken` the server
  that reads something that is no part of a file.
- Words of 32 bits are natural numbers below 2^32 with the wrap-around written out, in the vectors of the banker and in
  the sizes and the break of the heap.
- Arrays stay arrays, the kernel's tables and objects are classes whose methods are proved against functions on values,
  and the properties are proved of those functions. The heap's block headers are a map from addresses to records. The
  links of the red-black tree are a tree with an explicit path to the current node.

Where the code and its comments or intentions differ, the model follows the code, and what follows from it is stated:

- `sys_sem_create` puts the new resource into the creator's first free slot, and `fill_max` takes the slot number for the
  resource number. `SmartSemRuns.CreateKeepsSlotsIff` says when the two stay equal, `SmartSemRuns.CreatorPanicsIff`
  that a creator's acquisition of its own new semaphore panics exactly when they do not, and
  `SmartSemRuns.CreatorWithGapPanics` shows it after five calls from boot.
- `sys_exit` empties the slots of a task and gives nothing back; for init it panics. `SmartSemRuns.ExitKeepsInvIff` and
  `SmartSemRuns.ExitKeepsSafeIff` say when the semaphores survive that, `SmartSemRuns.ExitWithListedStops` what happens
  when they do not, and `SmartSemRuns.HolderExitDeadlocks` shows it after five calls from boot.
- The tree's size counter changes for a duplicate and for an absent key; `RbObject.TreeObject.Insert` and `Remove` say
  when it still is the number of nodes, `RbObject.MiscountedCalls` shows calls after which it is not.
- The tree's self-test compares a node with its children only: `RbQueries.SelfTestExact` and
  `RbQueries.SelfTestAcceptsUnordered`.
- `kmalloc` of a size within 15 of 2^32 rounds up to nothing (`HeapRuns.RoomGrantedIff`, at an input
  `HeapRuns.HugeSizeGetsNoRoom`), and a break that wraps around is accepted (`HeapRuns.MallocValidIff`, at an input
  `HeapRuns.TopHeapWraps`).
- A file with a NUL byte is cut at the first NUL of each part when written (`FileParts.WrittenTextIff`, at an input
  `FileParts.NulIsLost`).
- The branch of `__do_malloc` that would merge the rest of a split block with a free right neighbour is never taken:
  `KernelHeap.Kernel.PlanSplit` has it as dead code.

## Model

| member | source | states |
|---|---|---|
| TransferSafety.StepKeeps | system_call/server.c:140-220 | every step of every process, from any state of the invariant and for any number of files, leads to a state of the invariant |
| TransferSafety.ReachableInv | system_call/server.c:259-320 | every state of every run of any number of rounds satisfies the invariant: where each token, each message and each process is |
| TransferSafety.NobodyFails | system_call/client_0.c:59-75 | in no reachable state has a child failed to find a slot, or the server read anything but a part of a file |
| TransferSafety.OneAtTheSlots | system_call/client_0.c:59-75 | at most one process at a time is between taking and giving back the shared memory mutex |
| TransferSafety.TokensConserved | system_call/client_0.c:85-147 | for each queue channel, semaphore, tokens in hand, messages queued and message read but not credited always sum to 50; for the shared memory semaphore, tokens and raised flags sum to 50, and to 51 exactly between crediting and clearing |
| TransferSafety.NoneBeforeAll | system_call/client_0.c:190-193 | if any child is past the barrier, every child has been forked and has decremented it |
| TransferSafety.HandshakeOrder | system_call/client_0.c:266-299 | past the greeting client_0 has read what the server wrote for this N; at the end it has read the end message, all children have exited and the server is past its loop |
| TransferSafety.ClientEnds | system_call/client_0.c:295-299 | when client_0 can read its last message, the queue holds the end message and nothing else |
| TransferSafety.WrittenWhole | system_call/server.c:126-137 | in every reachable state from the moment the server has opened its tables for the round, what has been written is files of this round, each with its own whole text, none twice, and exactly those whose four parts have been received |
| TransferSafety.RoundLeaves | system_call/server.c:283-313 | at the end of any round every file has been written exactly once with its own text, nothing is in transit, and all semaphores, queues and flags have their initial values |
| TransferSafety.ResetClears | system_call/server.c:296-297 | whatever the shared memory held, after the server's reset no flag is raised, and nothing else has changed |
| TransferOnce.PartsStoredOnce | system_call/server.c:156-219 | over a whole round, in any interleaving, update_parts is called exactly once for each part of each file |
| TransferOnce.LogOnlyGrows | system_call/server.c:126-137 | over any run within a round nothing that has been written is written again or taken back |
| TransferOnce.SlotKept | system_call/server.c:204-210 | no step overwrites or clears a flagged slot before its message is in the server's table |
| TransferProgress.RoundCanComplete | system_call/client_0.c:85-148 | from every reachable state there is a run, without a new announcement, that completes the round |
| TransferLiveness.EveryRoundEnds | system_call/client_0.c:201-300 | in every infinite run in which client_0 and the server go on when they can for ever and a child when it can again and again, from any moment on there is a later one at which the round is over, each file has been written exactly once with its own text, and nothing is in transit |
| TransferProgress.StepNotAbove | system_call/server.c:157-219 | no step of a round makes the outstanding work grow: stage of client_0, messages not received, what the children have still to do, last steps of the server |
| TransferProgress.CausePersists | system_call/server.c:157-219 | whatever reason there is in a state for the work to go down lasts, whoever moves, until it goes down: polling in vain and attempts in vain do not destroy it |
| TransferProgress.UnfinishedStirs | system_call/client_0.c:85-148 | in every unfinished state of the invariant there is a process that will bring the outstanding work down, or a child waiting for a mutex that the server only takes in vain |
| TransferLiveness.MutexComesFree | system_call/server.c:200-216 | while nothing is to be read, the server, which keeps taking the mutex, also keeps giving it back |
| TransferStarvation.WeakFairnessIsNotEnough | system_call/server.c:200-216 | for any file and any capacities there is an infinite run in which no process can go on for ever without going on, and the round never ends: the fairness towards children that EveryRoundEnds asks for cannot be weakened to that |
| TransferPasses.ChildPass | system_call/client_0.c:85-147 | a child left alone sends, in one pass of its loop, exactly the parts not yet sent whose channel has a token, each over its own channel, takes one token for each, and changes nothing else |
| TransferPasses.ChildFinishesAlone | system_call/client_0.c:190-193 | a child past the barrier that finds a token and room in every channel is done after one pass, one part at the end of each queue and one in the first free slot |
| TransferPasses.ServerPass | system_call/server.c:157-217 | from every reachable state the server left alone takes, in one pass, exactly one message from every channel that has one, gives one token back for each, files them in the order of the channels and counts them |
| TransferPasses.AloneIsRun | system_call/server.c:140-220 | steps of one process alone are a run of the whole system |
| TransferChildren.ChildKeeps | system_call/client_0.c:77-149 | every step of a child keeps the invariant |
| TransferChildren.SlotIsFree | system_call/client_0.c:64-65 | a child with a token and the mutex finds a free slot, although the server credits the token before clearing the flag |
| TransferChildren.RoundComplete | system_call/server.c:157-220 | once 4N messages are counted every child has sent everything, every counter is 4, no part is queued and no flag is raised but the one being cleared |
| TransferChildren.ChildSends | system_call/client_0.c:85-131 | writing a message to a FIFO or to the message queue keeps the invariant: one token in hand becomes one message queued, which no other place holds |
| TransferChildren.ChildFlags | system_call/client_0.c:67-71 | raising the flag of the slot keeps the invariant: the token in hand becomes a flag, and no two flagged slots hold the same file's part |
| TransferServer.ServerKeeps | system_call/server.c:156-219 | every step of the server keeps the invariant |
| TransferServer.StoreFlow | system_call/server.c:165-171 | a part read from a queue is the part its sender made for that channel, it goes into an empty cell, and tokens, messages and books stay in order |
| TransferServer.ShmStoreFlow | system_call/server.c:204-209 | a flagged slot holds the part its sender made for the shared memory, it goes into an empty cell, and tokens, messages and books stay in order |
| TransferServer.OverIsDrained | system_call/server.c:296-313 | once the server has left its loop both FIFOs are empty, the message queue holds at most the end message, no flag is raised and every child has sent all |
| TransferLocal.UpdateKeeps | system_call/server.c:126-137 | storing a part in an empty cell adds one to the count, fills that cell and no other, and writes the file, with its own text, exactly with the fourth part |
| TransferCollector.Collector.UpdateParts | system_call/server.c:126-137 | on the server's own tables: the tables and the files written are those of the step of the model |
| TransferCollector.FourthPartFindsThree | system_call/server.c:132-136 | with the cell empty, the counter is about to reach 4 exactly when the other three parts are there |
| TransferCollector.WriteOnFile | system_call/server.c:84-124 | the text written is the four sections in order, which FileParts.PartTextIs spells out |
| FileParts.PartTextIs | system_call/server.c:101-121 | each of the four sections letter by letter: part number, file name, process and channel name in the heading, the text, the empty line after all but the last |
| FileParts.HeadingText | system_call/server.c:102-108 | the four headings letter by letter, FIFO1, FIFO2, msgQueue and ShdMem in this order |
| FileParts.DecimalReads | system_call/server.c:106-108 | the digits printed for a number stand for it, without a leading zero |
| FileParts.NumeralIsDecimal | system_call/server.c:106-108 | every string of digits without a leading zero is what is printed for the number it stands for |
| Transfer.FileTextIs | system_call/server.c:101-121 | the whole output file of an accepted file letter by letter |
| Transfer.Find | system_call/defines.c:103-112 | the lowest slot whose flag has the value, or -1 exactly when there is none |
| Transfer.FindSHM | system_call/defines.c:103-112 | the search loop over the 50 flags returns that slot |
| FileParts.AcceptedIffNoEmptyPart | system_call/defines.c:92 | below 4096 bytes a file is accepted exactly when none of its four parts is empty, and then each part fits its message |
| FileParts.SplitFile | system_call/client_0.c:165-187 | the reading loop gives four parts that join to the file, three of one length and a last one at most three bytes shorter |
| FileParts.PartLengths | system_call/client_0.c:165-168 | the first three parts are a quarter of the file rounded up, one after the other, and the last is the rest |
| FileParts.PartsJoin | system_call/client_0.c:160-188 | the four parts of an accepted file, joined, are the file; each has 1 to 1024 bytes |
| FileParts.WrittenTextIff | system_call/server.c:101-121 | the text of the four parts as written, joined, is the file exactly when the file has no NUL |
| FileParts.CTextStops | system_call/server.c:114 | what is written of a part ends at its end or before a NUL, not earlier |
| FileParts.NulIsLost | system_call/server.c:114 | an accepted file of four bytes, one of them NUL, that is written one byte short |
| Banker.GreedyNeverStuck | Mentos/mentos/src/experimental/deadlock_prevention.c:57-72 | while some completing order exists, whatever tasks have finished so far, another task can finish |
| Banker.CompletesAppend | Mentos/mentos/src/experimental/deadlock_prevention.c:67-71 | a task whose need fits extends any completing order found so far |
| Banker.StuckMeansUnsafe | Mentos/mentos/src/experimental/deadlock_prevention.c:59-66 | when no unfinished task fits, no order of all tasks completes |
| Banker.RunConserves | Mentos/mentos/src/experimental/deadlock_prevention.c:81-105 | over any run of requests and releases each resource keeps its number of instances, and each task keeps held plus needed when releases restore the need |
| Banker.RunStaysSafe | Mentos/mentos/src/experimental/deadlock_prevention.c:81-105 | every state any run reaches from a safe state is safe, whether releases restore the need or not |
| Banker.ReleaseKeepsSafe | Mentos/mentos/src/experimental/deadlock_simulation.c:226-243 | giving back held instances keeps a safe state safe, with or without restoring the need |
| Banker.SafeStateServesSomeTask | Mentos/mentos/src/experimental/deadlock_prevention.c:81-105 | in a safe state, among any tasks that include all holders, some task is answered SAFE for every request within its need |
| Banker.SomeHolderIsServed | Mentos/mentos/src/experimental/deadlock_prevention.c:81-105 | in a safe state in which something is held, some holder is answered SAFE for every request within its need |
| Banker.EachIsServedWhenIdle | Mentos/mentos/src/experimental/deadlock_prevention.c:81-105 | in a safe state in which nothing is held, every task is |
| Banker.RunNeverDeadlocks | Mentos/mentos/src/experimental/deadlock_prevention.c:81-105 | after any run from a safe state, among any tasks that include all holders, some task is answered SAFE for every request within its need |
| Banker.SafeStateCanFinish | Mentos/mentos/src/experimental/deadlock_prevention.c:81-105 | from a safe state there are calls, every request among them answered SAFE, after which no task holds or needs anything |
| Banker.RunCanFinish | Mentos/mentos/src/experimental/deadlock_prevention.c:81-105 | the same after any run from a safe state |
| Banker.LeavingKeepsSafe | Mentos/mentos/src/process/scheduler.c:388-391 | dropping the row of a task keeps a safe state safe when no other task needs what it holds |
| Banker.LostResourceUnsafe | Mentos/mentos/src/experimental/deadlock_prevention.c:46-79 | a state in which a task needs a resource that is neither free nor held by anybody is not safe |
| Banker.NothingGrantedWhenUnsafe | Mentos/mentos/src/experimental/deadlock_prevention.c:95-104 | in an unsafe state no request of any task is answered SAFE |
| DeadlockPrevention.FindTask | Mentos/mentos/src/experimental/deadlock_prevention.c:59 | the lowest-numbered unfinished task whose need fits, or none exactly when no such task exists |
| DeadlockPrevention.StateSafe | Mentos/mentos/src/experimental/deadlock_prevention.c:46-79 | when totals fit a word, the answer is true exactly when some order of all tasks completes; nothing is changed |
| DeadlockPrevention.MoveThenMoveBack | Mentos/mentos/src/experimental/deadlock_prevention.c:91-101 | the rollback restores the three structures word for word, wrap-around or not |
| DeadlockPrevention.GrantFits | Mentos/mentos/src/experimental/deadlock_prevention.c:91-93 | granting within need and within what is free wraps no word and keeps every total |
| DeadlockPrevention.Request | Mentos/mentos/src/experimental/deadlock_prevention.c:81-105 | on every answer but SAFE the structures are word for word what they were; when totals fit a word, answer and new state are those of the banker's specification |
| DeadlockSimulation.SimulationFree | Mentos/mentos/src/experimental/deadlock_simulation.c:226-252 | refused exactly when the task holds less than it gives back; otherwise, when totals fit a word, the new state is that of a release that does not restore the need |
| DeadlockSimulation.SimulationStaysSafe | Mentos/mentos/src/experimental/deadlock_simulation.c:254-274 | from the initial state, with no maximum beyond what exists, any run of locks and frees stays safe, keeps every resource's number of instances, and can go on, with no request refused, until every task has had all it may need and finished |
| DeadlockSimulation.FirstRequest | Mentos/mentos/src/experimental/deadlock_simulation.c:254-274 | at the start a request is answered SAFE when it is within the task's maximum, and ERROR otherwise |
| ArrMath.All | Mentos/mentos/src/experimental/math/arr_math.c:9-15 | sets the first words to the value, leaves the rest |
| ArrMath.Sub | Mentos/mentos/src/experimental/math/arr_math.c:17-23 | wrapping subtraction word by word, also of an array from itself |
| ArrMath.Add | Mentos/mentos/src/experimental/math/arr_math.c:25-31 | wrapping addition word by word, also of an array to itself |
| ArrMath.AddSubUndo | Mentos/mentos/src/experimental/math/arr_math.c:17-31 | adding and subtracting the same vector undo each other in either order, wrap-around or not |
| ArrMath.GreaterAny | Mentos/mentos/src/experimental/math/arr_math.c:33-41 | true exactly when some word of the left is greater |
| ArrMath.LessAny | Mentos/mentos/src/experimental/math/arr_math.c:53-61 | true exactly when some word of the left is smaller |
| ArrMath.Equal | Mentos/mentos/src/experimental/math/arr_math.c:93-101 | true exactly when all words are equal |
| SmartSem.RebuiltMeaning | Mentos/mentos/src/experimental/resource.c:65-146 | under the invariant the rebuilt matrices say what a task holds, may hold and still needs |
| SmartSem.TryAcquireMeaning | Mentos/mentos/src/experimental/smart_sem_kernel.c:43-104 | an acquisition panics exactly when the running task does not list the resource or already holds it, waits when another task does, and never panics over a SAFE answer for a taken semaphore |
| SmartSemRuns.OneInstanceEach | Mentos/mentos/src/experimental/resource.c:65-127 | free and held instances of each resource sum to one |
| SmartSemRuns.AssignMatchesGrant | Mentos/mentos/src/experimental/resource.c:208-215 | the matrices rebuilt after an assignment are those request computed |
| SmartSemRuns.UnassignMatchesRelease | Mentos/mentos/src/experimental/resource.c:217-222 | the matrices rebuilt after a release are those of the banker's release that restores the need |
| SmartSemRuns.AcquireKeepsInv | Mentos/mentos/src/experimental/smart_sem_kernel.c:155-171 | an acquisition, granted or not, keeps the invariant: safety, slots by resource number, value equal to assigned instances |
| SmartSemRuns.AcquireIff | Mentos/mentos/src/experimental/smart_sem_kernel.c:43-104 | a semaphore is acquired exactly when the running task lists it, nobody holds it, and the matrices rebuilt after the assignment are safe |
| SmartSemRuns.AcquireMeaning | Mentos/mentos/src/experimental/smart_sem_kernel.c:155-171 | an acquisition sets the semaphore to 1 and its resource to one instance held by the running task, and changes nothing else; any other answer, -1 for an id not in use, changes nothing |
| SmartSemRuns.ReleaseKeepsInv | Mentos/mentos/src/experimental/smart_sem_kernel.c:173-185 | a release by any task keeps the invariant |
| SmartSemRuns.ReleaseMeaning | Mentos/mentos/src/experimental/smart_sem_kernel.c:173-185 | a release by any task, the holder included, answers 0, sets the semaphore to 0 and its resource to held by nobody, and changes nothing else; for an id not in use it answers -1 and changes nothing |
| SmartSemRuns.AcquireThenRelease | Mentos/mentos/src/experimental/smart_sem_kernel.c:155-185 | a release after an acquisition gives back the state before it |
| SmartSemRuns.ReleasedIsAcquired | Mentos/mentos/src/experimental/smart_sem_kernel.c:155-185 | after a release, any queued task that lists the semaphore acquires it next, where nothing else is held |
| SmartSemRuns.HeldUntilReleased | Mentos/mentos/src/experimental/smart_sem_kernel.c:43-185 | over every run that does not release or initialise it, any creations, forks and exits included, a taken semaphore keeps its holder, and nobody acquires it |
| SmartSemRuns.MutualExclusion | Mentos/mentos/src/experimental/smart_sem_kernel.c:43-185 | between two acquisitions of a semaphore it is released or initialised |
| SmartSemRuns.CreateMeaning | Mentos/mentos/src/experimental/smart_sem_kernel.c:111-128 | a creation takes the first unused semaphore and the creator's first free slot for a new resource nobody holds, and changes nothing else; it fails exactly when all semaphores are used or all slots full |
| SmartSemRuns.CreateKeepsSlotsIff | Mentos/mentos/src/experimental/resource.c:148-177 | a successful creation keeps slot number equal to resource number exactly when the creator's first free slot is the number of resources so far |
| SmartSemRuns.CreateKeepsInv | Mentos/mentos/src/experimental/smart_sem_kernel.c:111-128 | such a creation keeps the invariant, safety included |
| SmartSemRuns.ForkKeepsInv | Mentos/mentos/src/process/process.c:133 | a forked task, which copies the resource slots of its parent, keeps the invariant, safety included |
| SmartSemRuns.ForkMeaning | Mentos/mentos/src/process/process.c:133 | the child comes last in the queue with its parent's slots, the parent goes on running, and nothing else changes |
| SmartSemRuns.CreatorPanicsIff | Mentos/mentos/src/experimental/resource.c:84-102 | after a successful creation, in any state of the invariant with fewer than 32 resources, the creator's acquisition of the new semaphore panics exactly when its first free slot was not the number of resources |
| SmartSemRuns.CreatorWithGapPanics | Mentos/mentos/src/experimental/resource.c:84-102 | two children of init: after the first has created a semaphore the second creates one, and its acquisition of it panics |
| SmartSemRuns.OtherCreatedReached | Mentos/mentos/src/experimental/resource.c:148-177 | that state is the one this run from boot ends in |
| SmartSemRuns.ExitDropsRow | Mentos/mentos/src/process/scheduler.c:116-125 | the matrices rebuilt after an exit are the old ones without the row of the task |
| SmartSemRuns.ExitMeaning | Mentos/mentos/src/process/scheduler.c:349-395 | an exit takes the task alone out of the queue and empties its slots, and leaves resources and semaphores as they are; for init it panics and changes nothing |
| SmartSemRuns.ExitKeepsInvIff | Mentos/mentos/src/process/scheduler.c:349-395 | an exit keeps the invariant exactly when the task holds nothing |
| SmartSemRuns.ExitKeepsSafeIff | Mentos/mentos/src/process/scheduler.c:349-395 | an exit keeps the state safe exactly when no task left lists a resource the exiting task holds |
| SmartSemRuns.ExitWithListedStops | Mentos/mentos/src/process/scheduler.c:361-391 | otherwise no task left acquires any semaphore |
| SmartSemRuns.ReleaseMendsExit | Mentos/mentos/src/experimental/smart_sem_kernel.c:173-185 | releasing the one semaphore the task held, after its exit, brings the invariant back |
| SmartSemRuns.HolderExitDeadlocks | Mentos/mentos/src/process/scheduler.c:361-391 | a child of init creates a semaphore, forks, acquires it and exits: the state is not safe, its own child waits for the semaphore, and neither that child nor init acquires anything |
| SmartSemRuns.HeldByParentReached | Mentos/mentos/src/experimental/smart_sem_kernel.c:155-171 | that state is the one this run from boot ends in |
| SmartSemRuns.RunKeepsSane | Mentos/mentos/src/experimental/smart_sem_kernel.c:43-185 | over every run of any calls, any creation below 32 resources and any exit, init stays first in the queue, the tables refer to resources that exist, semaphore values agree with them, no total of the banker's test reaches 2^32, and no call panics over a SAFE answer for a taken semaphore |
| SmartSemRuns.SaneFromBoot | Mentos/mentos/src/experimental/smart_sem_kernel.c:43-185 | the same from boot |
| SmartSemRuns.RunKeepsInv | Mentos/mentos/src/experimental/smart_sem_kernel.c:43-185 | every state of every run of acquisitions, releases, forks, switches, creations within CreateKeepsSlotsIff's condition and exits within ExitKeepsInvIff's keeps the invariant, safety included, and no call there panics over a SAFE answer for a taken semaphore |
| SmartSemRuns.RunFromBoot | Mentos/mentos/src/experimental/smart_sem_kernel.c:43-185 | the same for every such run from boot |
| SmartSemRuns.SomeTaskAcquires | Mentos/mentos/src/experimental/smart_sem_kernel.c:155-171 | in every state of such a run, among any tasks that include all holders, some queued task, once running, acquires any semaphore it lists and does not hold |
| SmartSemRuns.SomeHolderAcquires | Mentos/mentos/src/experimental/smart_sem_kernel.c:155-171 | where something is held, some holder does |
| SmartSemRuns.EachAcquiresWhenFree | Mentos/mentos/src/experimental/smart_sem_kernel.c:155-171 | where nothing is held, every queued task does |
| SmartSemKernel.Semaphores.FillAvailable | Mentos/mentos/src/experimental/resource.c:65-77 | the free instances of each resource |
| SmartSemKernel.Semaphores.FillMax | Mentos/mentos/src/experimental/resource.c:84-102 | the maximum matrix, slot numbers as columns |
| SmartSemKernel.Semaphores.FillAlloc | Mentos/mentos/src/experimental/resource.c:109-127 | the matrix of held instances |
| SmartSemKernel.Semaphores.FillNeed | Mentos/mentos/src/experimental/resource.c:135-146 | maximum minus held, word by word |
| SmartSemKernel.Semaphores.InitStructures | Mentos/mentos/src/experimental/resource.c:224-251 | the structures rebuilt from the resource list are those of the model, with rows that share no memory |
| SmartSemKernel.Semaphores.CurrentTaskIndex | Mentos/mentos/src/experimental/resource.c:258-269 | the index of the running task in the run queue |
| SmartSemKernel.Semaphores.SemTryAcquire | Mentos/mentos/src/experimental/smart_sem_kernel.c:43-171 | outcome and tables are those of the model's acquisition |
| SmartSemKernel.Semaphores.SemCreate | Mentos/mentos/src/experimental/smart_sem_kernel.c:111-128 | outcome and tables are those of the model's creation |
| SmartSemKernel.Semaphores.SemRelease | Mentos/mentos/src/experimental/smart_sem_kernel.c:173-185 | outcome and tables are those of the model's release |
| SmartSemKernel.Semaphores.Exit | Mentos/mentos/src/process/scheduler.c:356-391 | a panic for init; otherwise slots emptied, task out of the queue, nothing given back: outcome and tables are those of the model's exit |
| Heap.BestFitIsBest | Mentos/mentos/src/mem/kheap.c:148-170 | nothing on the free list that fits is smaller than the block chosen, and none is chosen only when nothing fits |
| Heap.BestFitIsFirst | Mentos/mentos/src/mem/kheap.c:148-170 | among equally small blocks the one nearest to the front of the free list is chosen |
| Heap.Rounded | Mentos/mentos/inc/libc/math.h:22 | rounded up to a multiple of 16, except within 15 of 2^32, where the result is 0 |
| HeapRuns.MallocKeepsValid | Mentos/mentos/src/mem/kheap.c:212-373 | while the break does not wrap around, kmalloc keeps the heap valid: blocks tile the heap up to the break, no two free neighbours, exact free list |
| HeapRuns.MallocValidIff | Mentos/mentos/src/mem/kheap.c:31-62 | kmalloc keeps a valid heap valid exactly when it does not make the break wrap around |
| HeapRuns.LowHeapNeverWraps | Mentos/mentos/src/mem/kheap.c:31-62 | a heap in the lower half of the address space never wraps |
| HeapRuns.LowRunsAreProper | Mentos/mentos/src/mem/kheap.c:31-62 | there, every run of 32-bit sizes and live pointers keeps the invariant |
| HeapRuns.RunValidIff | Mentos/mentos/src/mem/kheap.c:212-716 | over any run of 32-bit sizes and live pointers, anywhere, the heap stays valid exactly as long as the break does not wrap around |
| HeapRuns.TopHeapWraps | Mentos/mentos/src/mem/kheap.c:31-62 | a fresh heap of one page, the last but one, on which kmalloc(8192) returns a pointer, moves the break down and leaves an invalid heap |
| HeapRuns.FreeKeepsValid | Mentos/mentos/src/mem/kheap.c:639-716 | kfree of a live pointer keeps the heap valid in all four ways of merging |
| HeapRuns.NeighboursOfSplit | Mentos/mentos/src/mem/kheap.c:270-321 | splitting a free block, in a list without two free neighbours, leaves one without two free neighbours |
| HeapRuns.MallocPicksBest | Mentos/mentos/src/mem/kheap.c:240-244 | the block kmalloc takes from the free list is one of the smallest that fit |
| HeapRuns.OutOfSpaceIff | Mentos/mentos/src/mem/kheap.c:31-62 | on any valid heap kmalloc runs out of space exactly when every free block is smaller than the rounded size and the increment is 2^31 or more or leads past the end without wrapping around; it answers NULL exactly for size 0, and changes nothing in either case |
| HeapRuns.MallocLive | Mentos/mentos/src/mem/kheap.c:212-373 | while the break does not wrap around, a new pointer was not live before, gets a listed block whole when less than 20 bytes beyond the rounded size would remain and the rounded size otherwise, and every other live pointer keeps its block |
| HeapRuns.FreeLive | Mentos/mentos/src/mem/kheap.c:639-716 | kfree ends exactly that pointer and changes no other live block |
| HeapRuns.FreedIsReused | Mentos/mentos/src/mem/kheap.c:699-715 | a block freed behind one in use, merged with what was free to its right, is what the next kmalloc of its size returns |
| HeapRuns.FreeThenMalloc | Mentos/mentos/src/mem/kheap.c:639-716 | where nothing is merged, kmalloc of the same size after kfree gives back the pointer and the very heap, blocks and free list |
| HeapRuns.SplitRestIsNext | Mentos/mentos/src/mem/kheap.c:270-321 | the rest of a split block is what the next kmalloc of its size returns |
| HeapRuns.MallocKeepsOrder | Mentos/mentos/src/mem/kheap.c:111-146 | blocks on the free list before and after kmalloc keep their order in it |
| HeapRuns.FreeKeepsOrder | Mentos/mentos/src/mem/kheap.c:111-146 | the same for kfree |
| HeapRuns.LiveDisjoint | Mentos/mentos/src/mem/kheap.c:212-373 | two live allocations never overlap each other, any header, or the ends of the heap |
| HeapRuns.RoomGrantedIff | Mentos/mentos/src/mem/kheap.c:235-242 | a pointer has at least the room asked for exactly when the size is at most 2^32 - 16 |
| HeapRuns.HugeSizeGetsNoRoom | Mentos/mentos/src/mem/kheap.c:235-242 | on a fresh heap of one page kmalloc(2^32 - 1) returns a pointer to a block of no room |
| HeapRuns.RunKeepsInv | Mentos/mentos/src/mem/kheap.c:212-716 | over every run of kmalloc, while the break does not wrap around, and kfree on live pointers the invariant holds and the break only grows |
| HeapRuns.RunFromInit | Mentos/mentos/src/mem/kheap.c:718-750 | from kheap_init on, over every such run, headers and payloads add up to the bytes obtained from the break, which stays below the end |
| KernelHeap.Kernel.FindBestFitting | Mentos/mentos/src/mem/kheap.c:148-170 | walking the free list in memory finds the best fit of the model |
| KernelHeap.Kernel.RemoveFromFreelist | Mentos/mentos/src/mem/kheap.c:111-135 | the list in memory without the block, sizes and next links untouched |
| KernelHeap.Kernel.AddToFreelist | Mentos/mentos/src/mem/kheap.c:138-145 | the list in memory with the block in front, sizes and next links untouched |
| KernelHeap.Kernel.GetPreviousBlock | Mentos/mentos/src/mem/kheap.c:173-192 | the block before in address order, or NULL for the first |
| KernelHeap.Kernel.GetNextBlock | Mentos/mentos/src/mem/kheap.c:195-209 | the block after in address order, or NULL for the last |
| KernelHeap.Kernel.PlanSplit | Mentos/mentos/src/mem/kheap.c:246-321 | where the rest of a split block goes, at an address that is on no list; the branch for a free right neighbour is dead |
| KernelHeap.Kernel.ExtendHeap | Mentos/mentos/src/mem/kheap.c:328-372 | a new last block at the old break, or nothing, exactly when the increment is 2^31 or more or leads past the end of the heap |
| KernelHeap.Kernel.Malloc | Mentos/mentos/src/mem/kheap.c:212-373 | pointer and heap in memory are those of the model |
| KernelHeap.Kernel.Free | Mentos/mentos/src/mem/kheap.c:639-716 | the heap in memory is that of the model, in all four ways of merging |
| RbTree.RotateKeepsOrder | Mentos/mentos/src/libc/rbtree.c:79-91 | a single rotation keeps the values in order |
| RbTree.Rotate2KeepsOrder | Mentos/mentos/src/libc/rbtree.c:93-102 | a double rotation keeps the values in order |
| RbInsert.Rotations | Mentos/mentos/src/libc/rbtree.c:263-277 | two reds in a row are rotated away; when that happens the helper pointers are the real ancestors |
| RbInsert.DoubleDownReady | Mentos/mentos/src/libc/rbtree.c:263-292 | after a double rotation the loop is sound again although two helper pointers are out of date for two rounds |
| RbInsert.InsertNode | Mentos/mentos/src/libc/rbtree.c:231-303 | from any valid tree a valid tree with the new value in its place, or the same values when the key was there |
| RbRemove.PushRed | Mentos/mentos/src/libc/rbtree.c:347-392 | before going down a red node is brought within reach, order and balance kept |
| RbRemove.RemovalDone | Mentos/mentos/src/libc/rbtree.c:394-414 | unlinking the last node visited, its value moved to the node found, leaves a valid tree without exactly that key |
| RbRemove.RemoveKey | Mentos/mentos/src/libc/rbtree.c:310-420 | from any valid tree a valid tree with the same values except the key's, or all of them when it was absent |
| RbObject.TreeObject.Insert | Mentos/mentos/src/libc/rbtree.c:231-303 | the tree as above; below the counter's limit it stays the number of nodes exactly for a fresh key |
| RbObject.TreeObject.Remove | Mentos/mentos/src/libc/rbtree.c:310-420 | the tree as above; the size counter stays the number of nodes exactly for a present key, or an empty tree |
| RbObject.MiscountedCalls | Mentos/mentos/src/libc/rbtree.c:281-416 | a key inserted twice and an absent key removed twice: the counter says 2 and then 0 for a tree of one node |
| RbObject.InsertThenRemove | Mentos/mentos/src/libc/rbtree.c:231-420 | removing a key just inserted afresh gives the values there were |
| RbObject.RotatedAwayKeeps | Mentos/mentos/src/libc/rbtree.c:158-172 | rotating a left link away keeps the values in order and lengthens the right spine by one |
| RbObject.Destroy | Mentos/mentos/src/libc/rbtree.c:147-176 | the callback gets every node exactly once, in ascending order, for every finite tree |
| RbQueries.Find | Mentos/mentos/src/libc/rbtree.c:178-199 | on any tree what following the comparisons leads to; on a valid one the stored value with the key, or none exactly when no value has it |
| RbQueries.SelfTestExact | Mentos/mentos/src/libc/rbtree.c:545-589 | the self-test accepts exactly the balanced trees without two reds in a row whose nodes are in order with their own children |
| RbQueries.ValidPassesSelfTest | Mentos/mentos/src/libc/rbtree.c:545-589 | every valid tree passes, with its black height plus one |
| RbQueries.SelfTestAcceptsUnordered | Mentos/mentos/src/libc/rbtree.c:545-589 | a tree with a black root passes although its values are not in order, and a stored key is not found |
| RbQueries.HeightAtMost64 | Mentos/mentos/inc/libc/rbtree.h:14 | a valid tree with fewer than 2^32 nodes has height at most 64 |
| RbIterator.Iterator.Start | Mentos/mentos/src/libc/rbtree.c:476-495 | the smallest or the largest value, with the stack below its 64 entries |
| RbIterator.Iterator.Move | Mentos/mentos/src/libc/rbtree.c:498-523 | one value on in the chosen direction, or none exactly at the end, with the stack below its 64 entries |
| RbIterator.Ascending | Mentos/mentos/src/libc/rbtree.c:476-543 | first and then next visits exactly the values in order |
| RbIterator.Descending | Mentos/mentos/src/libc/rbtree.c:476-543 | last and then previous visits exactly the values in reverse order |
| RunQueue.ScheduleNearer | Mentos/mentos/src/process/scheduler.c:99-153 | every call of kernel_schedule brings each waiting task exactly one turn nearer, also when the running task leaves as a zombie |
| RunQueue.ArrivalDelays | Mentos/mentos/src/process/scheduler.c:79-89 | a task that arrives delays, by one turn, exactly those before the running task in the list |
| RunQueue.RunKeeps | Mentos/mentos/src/process/scheduler.c:79-153 | over every run of arrivals, exits and schedules the queue has no repeats, num_active is its length, and init and the running task are in it |
| RunQueue.RunFromBoot | Mentos/mentos/src/process/scheduler.c:64-77 | the same for every run from the queue the kernel starts with |
| RunQueue.RunningStaysQueuedIff | Mentos/mentos/src/process/scheduler.c:114-131 | after kernel_schedule the running task is in the queue exactly when it was not a zombie alone there |
| RunQueue.LeavesIff | Mentos/mentos/src/process/scheduler.c:116-125 | over every run a queued task that does not arrive anew is out of the queue at the end exactly when it exited, in the run or before, and kernel_schedule was called later |
| RunQueue.ExitedIsGone | Mentos/mentos/src/process/scheduler.c:361-363 | a task that has exited is out of the queue once kernel_schedule has been called, whatever else happens, and is never served again unless it arrives again |
| RunQueue.StaysOut | Mentos/mentos/src/process/scheduler.c:99-153 | a task not queued is neither queued nor served until it arrives |
| RunQueue.OrderKept | Mentos/mentos/src/process/scheduler.c:79-153 | tasks that stay queued over a run keep their order, whoever comes and goes |
| RunQueue.NoExitNoLeave | Mentos/mentos/src/process/scheduler.c:99-153 | without an exit the queue only grows, at its end |
| RunQueue.NoStarvation | Mentos/mentos/src/process/scheduler.c:79-153 | a queued task at distance d has run once kernel_schedule has been called d times plus once for each arrival |
| RunQueueList.List.EnqueueTask | Mentos/mentos/src/process/scheduler.c:79-89 | the links form the ring of the old tasks with the new one last; it runs if none did |
| RunQueueList.List.Delete | Mentos/mentos/inc/libc/list_head.h:84-94 | the links form the ring without the element |
| RunQueueList.List.PickNextTask | Mentos/mentos/src/process/scheduler_algorithm.c:19-30 | following the link past the list head gives the successor of the running task |
| RunQueueList.List.Exit | Mentos/mentos/src/process/scheduler.c:349-363 | the running task is a zombie in the model's sense, except init, which is refused |
| RunQueueList.List.KernelSchedule | Mentos/mentos/src/process/scheduler.c:99-153 | queue, running task and num_active are those of the model, and the links form its ring |

## Left out

- KernelHeap.Kernel.Malloc: asks that the break does not wrap around, because past that the block list no longer describes the memory; HeapRuns.MallocValidIff says on values exactly when that is.
- KernelHeap.Kernel.ExtendHeap: the same.
- KernelHeap.Kernel.Free: asks for a live pointer; what the source does with any other pointer depends on the bytes before it.
- SmartSemKernel.Semaphores.SemTryAcquire: asks for sane tables, which every run has below 33 resources, and that the id is not the size of the table, which the source's range test lets through to a read past the table's end.
- SmartSemKernel.Semaphores.SemRelease: the same.
- RunQueueList.List.KernelSchedule: asks that the running task is in the queue; a second call after a zombie that was alone has left it is not described. Registers, FPU and run-time statistics are not modelled.
- RbInsert.InsertNode: works on a tree and a path, so the identity of nodes and the sharing of pointers are not captured; that the helper pointers are out of date for up to two rounds after a rotation is, as a counter.
- RbRemove.RemoveKey: the same for the links of the nodes.
- TransferLiveness.EveryRoundEnds: a child is taken to get a semaphore that is free again and again; TransferStarvation.WeakFairnessIsNotEnough shows what happens without that.
- DeadlockPrevention.StateSafe: exact when no resource has 2^32 instances or more; beyond that the working vector wraps around and nothing is claimed.
- DeadlockPrevention.Request: the same for the SAFE and WAIT_UNSAFE answers; ERROR, WAIT and the exact rollback hold for all words.
- DeadlockSimulation.SimulationFree: the same for the new state.
- HeapRuns.RunKeepsInv: covers runs whose break never wraps around; HeapRuns.RunValidIff says that these are exactly the runs on which the heap stays valid.
- HeapRuns.RunFromInit: the same.
- SmartSemRuns.RunKeepsInv: covers runs whose creations keep slot number equal to resource number and whose exiting tasks hold nothing; CreatorPanicsIff and ExitKeepsInvIff say what any other creation or exit leads to. A task descriptor that is freed and used again for a new task is not modelled, nor a 33rd resource, for which fill_max reads past the slots.
- Opening and closing the FIFOs, creating and removing System V objects, signals, fork, wait and every ErrExit path: calls into the system are taken to succeed.
- The walk through directories of enumerate_dir: the list of files is given.
- The name of the output file, and the truncation of an older output file.
- Semaphore and resource destruction: it does not renumber resources, so slot and resource number part.
- kmalloc with alignment, realloc and the user heap: they leave words and gaps that the block list does not describe.
- The priority and CFS schedulers, the buddy system and the zone allocator: unfinished or without a claim to state.
- Parents, children and waiting in sys_vfork, sys_exit and sys_waitpid; exit codes and process images.
- The lists of libc other than the run queue's, hash map, string routines, drivers and shell.
