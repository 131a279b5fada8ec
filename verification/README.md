# FaSS, verified

FaSS is a fair-share scheduler for OpenNebula. Each cycle it fetches the pending
VMs and the accounting records, turns the records into half-life usage figures
per user, divides them by the total and by the user's share, ranks the VMs, and
publishes the pool document in that order. Beside it the Terminator deletes
or suspends dynamic VMs that outlive their time. This project models both
and proves what the ranking, the document, the threads and the clean-up
guarantee. `dafny verify dfyconfig.toml` checks all of it.

| file | part of the daemon |
|---|---|
| `Accounting.dfy`, `Users.dfy` | accounting pool, cumulative usage windows, user records |
| `FairShare.dfy`, `Fairness.dfy` | decay, totals, priority formula; normalisation and order of priorities |
| `PriorityMap.dfy` | the descending priority map and what it drops |
| `StdString.dfy`, `QueueDocument.dfy`, `Pool.dfy` | string edits, node trimming, priority splice, queue text, VM pool |
| `Scheduling.dfy`, `QueueFairness.dfy` | one cycle as a function of its inputs; fairness of the published order |
| `Overtaking.dfy`, `FailingCycles.dfy` | bounded overtaking in a cycle and over a run; concrete cycles in which the code's totals or its priority map fail |
| `PriorityManager.dfy` | the manager's state, its cycle and its runs |
| `Terminator.dfy` | lifetime policy, usage reports, runs of the loop, locking as one thread sees it |
| `Protocol.dfy` | all threads, mutexes, stop flags and the shared pool as a step machine |
| `Shares.dfy` | shares configuration, colon records, initial shares |
| `StdMap.dfy`, `Wrappers.dfy` | `std::map` insertion and traversal order; options and results |

Numbers are exact reals except where rounding decides the order. There the
model has one monotone function `float`, used for the `float` reciprocal of the
id and for the `float` map key; it is exact when the binary exponent changes.
The identity is such a function, so each result also holds without rounding.
`pow(2, -x)` is any positive, strictly decreasing function that is 1 at 0 and
halves per unit; `FairShare.ExactArithmeticExists` gives one.

## Where the code does not do what it aims at

The model keeps the code as it is. Each item below names the members that show
the failure and say exactly when the intended behaviour holds.

- The running sum in `evaluate_total_usage` is lost, because `insert` does not
  overwrite. The total is the first listed user's usage
  (`KeptTotalIsFirstUser`). It is the sum exactly when nobody else used anything
  (`KeptTotalIsTrueIff`, `KeptRatiosNormalisedIff`). From accounting records to
  totals, `TotalMissesSecondUser` gives cycles in which it is one second
  instead of `1 + n`, so that a ratio can be any number, and an idle first user
  switches fair share off (`IdleFirstUserMeansIdOrder`).
- With the sums it aims at, overtaking is bounded once and for all: over any number
  of cycles at most `v * (b - 1)` younger VMs outrank VM `v`, where `b` is
  `2^(1/share)`, or with rounding the next power of two (`NoStarvation`). With
  the totals the code keeps a VM is protected exactly while its owner's usage
  stays within a stated multiple of the first user's, or that user is idle
  (`KeptTotalsProtectIff`).
  For others there is no bound: `KeptTotalsOvertakeFromAfar` gives a cycle for
  every younger VM, and `KeptTotalsStarve` runs in which VM 1, whose owner holds
  half of the shares, is outranked by every one of any number of VMs.
- `kill_running` and `kill_pending` return from a failed fetch with the mutex
  held (`FailedFetchLeaks`). That happens exactly on the runs with a failed fetch
  (`LeakedIffFetchFailed`); nobody passes the lock again, and main, unless it was
  done before, cannot finalise the Terminator (`LeakNeverEnds`). With the intended release there is
  no deadlock and shutdown completes.
- VMs whose rounded priorities coincide are dropped from the queue, all but the
  one with the smallest id (`QueueContents`); nothing is dropped exactly when
  the priorities are pairwise distinct (`NothingDroppedIff`). Without rounding a
  VM is dropped exactly when an older one's usage per share is greater by just
  what its smaller id gains (`DroppedIff`), as happens to an idle user's VM in the
  cycle of `IdleUserDropped`.
- An edit of a node can throw, and with it the run of the manager ends. That
  happens exactly when a VM to be published has a dump without `<VM>`, or one that
  contains the text `USER_PRIORITY` without its opening tag, or a short one with
  neither element (`SpliceThrowsIff`, `CycleThrowsIff`). An element whose
  longer name merely contains `USER_PRIORITY` is enough (`AlienNameThrows`).
- An edit that does not throw can still destroy the node. With neither a priority
  nor a user template `npos + 15` wraps around to position 14, which breaks the
  closing `</VM>` of a node shorter than 19 (`SpliceWithoutTemplate`,
  `SpliceBreaksNode`); with an opening priority tag alone the erase count wraps
  around unless the tag starts by position 15, and all behind it is lost.
  `SpliceKeepsNodeIff` says exactly which nodes stay nodes, and
  `SpliceReadsBackIff` from which nodes the priority reads back.
- A missing start time is -1, which the test for 0 does not skip: such a VM is
  named by a command exactly from the moment the clock itself reaches the time
  to live (`MissingStartIsOverdue`).
- `doc/using-fass.md` says the time to live is set in `fassd.conf`; the code
  reads it from the shares records, and so does the model.

## Model

| member | source | states |
|---|---|---|
| Users.User.FlushUsage | include/User.h:78-81 | both usage maps become empty, so the next insertions take effect |
| Accounting.ClampedIntervalCounts | src/xml/AcctPool.cc:59-76 | clamping a record to a window adds exactly the record's load for each second of the window in which it runs; end 0 means still running |
| Accounting.WindowsAdd | src/xml/AcctPool.cc:59-77 | usages of adjacent windows add up |
| Accounting.AcctPool.AddOverlap | src/xml/AcctPool.cc:62-76 | one window cell grows by load times the seconds the clamped record covers, other cells stay |
| Accounting.AcctPool.AddRecord | src/xml/AcctPool.cc:55-77 | after the period loop every window holds the second-by-second sum of all records so far |
| Accounting.AcctPool.StoreUsage | src/xml/AcctPool.cc:81-92 | the user's maps are exactly the truncated window sums, whatever they were before |
| Accounting.AcctPool.EvalUsage | src/xml/AcctPool.cc:19-106 | every user's maps hold, per window, the truncated per-second usage of the user's own records; all else about the users is unchanged |
| Accounting.AcctPool.MakeUserObject | src/xml/AcctPool.cc:121-145 | one malformed entry and the user gets no list; otherwise the whole list is inserted |
| Accounting.AcctPool.SetUp | src/xml/AcctPool.cc:147-222 | after a failed fetch every user has no records; after an answer each known user has exactly its own records in the answer, each as often as listed, or none if one of them is malformed |
| Accounting.AcceptedUsage | src/xml/AcctPool.cc:53-76 | over any window the pooled records of a user amount to the second-by-second load of all records in the answer with that uid, or to 0 after a failure or a malformed entry of the user |
| Scheduling.CycleFigures | src/pm/PriorityManager.cc:288-307 | from the answer to the stored figures: figure k of every user is that load from the start of the span to k periods before now, cut off toward zero; configured values stay |
| FairShare.SuffixSums | src/pm/PriorityManager.cc:288-307 | the slots of one period tile the accounting span, and cumulative entry k is the sum of the slots from k on, for any number of periods |
| FairShare.DecayedIsWeightedSlots | src/pm/BasicPlugin.cc:95-111 | the decayed usage weighs the three newest slots 1, 1/2, 1/4; the oldest cancels out |
| FairShare.EntriesNonincreasing | src/xml/AcctPool.cc:83-89 | for nonnegative loads the truncated entries are nonnegative and nonincreasing |
| FairShare.TruncationBound | src/xml/AcctPool.cc:83-89 | with stored whole numbers the decayed usage is nonnegative and within one of the weighted slots |
| FairShare.KeptEqualsAccumulatedIff | src/pm/BasicPlugin.cc:42-53 | the kept total at an index is the sum exactly when the figures of the users after the first one having that index add up to zero |
| FairShare.BasicPlugin.AddUser | src/pm/BasicPlugin.cc:41-53 | one user's row only fills indices that are still free |
| FairShare.BasicPlugin.EvaluateTotalUsage | src/pm/BasicPlugin.cc:23-73 | both totals are cleared and then hold the first figure met at each index |
| Fairness.EvaluationIsRegular | src/xml/AcctPool.cc:81-92 | an evaluation over three periods leaves four nonnegative, nonincreasing entries that decay to the user's decayed usage |
| Fairness.DecayIsLinear | src/pm/BasicPlugin.cc:110-123 | with true totals the decayed total is the sum of the users' decayed usages |
| Fairness.RatiosNormalised | src/pm/BasicPlugin.cc:110-128 | with true totals all ratios lie in [0,1] and add up to 1, or are all 0 when the total is 0 |
| Fairness.KeptTotalIsFirstUser | src/pm/BasicPlugin.cc:28-53 | with the code's totals the decayed total is the first listed user's decayed usage |
| Fairness.KeptTotalIsTrueIff | src/pm/BasicPlugin.cc:42-53 | at each index the code's total is the true one exactly when no later user used anything there |
| Fairness.KeptRatiosNormalisedIff | src/pm/BasicPlugin.cc:110-128 | with the code's totals the ratios add up to one, or to zero if nobody has decayed usage, exactly when nobody but the first listed user has any |
| Fairness.IdleFirstUserDisablesFairShare | src/pm/BasicPlugin.cc:125-131 | if the first listed user is idle every exponent is 0 |
| Fairness.LessUsageNeverRanksLower | src/pm/BasicPlugin.cc:131-135 | at equal id, less usage per share never ranks lower, rounding included |
| Fairness.OlderNeverRanksLower | src/pm/BasicPlugin.cc:131-135 | at equal usage per share, the smaller id never ranks lower, rounding included |
| Fairness.UnitOfUsageDoublesId | src/pm/BasicPlugin.cc:131-135 | one more unit of usage per share ranks a VM exactly like one with twice its id |
| Fairness.NotOvertakenFromAfar | src/pm/BasicPlugin.cc:131-135 | with an exponent of at most x a VM ranks no lower than any VM with an id at least b times its own, for every b >= 2^x in exact arithmetic, where it ranks strictly higher beyond b, and with rounding for every power of two that is at least 2^x |
| Fairness.StandsIff | src/pm/BasicPlugin.cc:131-135 | in exact arithmetic a VM v with exponent q ranks no lower than w, whatever w's usage, exactly when w >= 2^q * v, and strictly higher exactly when w > 2^q * v |
| Fairness.FarYoungerNeverOvertakeIff | src/pm/BasicPlugin.cc:131-135 | in exact arithmetic the exponent is at most m exactly when no VM with an id at least 2^m times as large can ever outrank the VM |
| Fairness.ExponentBound | src/pm/BasicPlugin.cc:125-131 | with true totals the exponent lies in [0, 1/share] |
| Fairness.KeptExponentAtMostIff | src/pm/BasicPlugin.cc:114-131 | with the code's totals the exponent is at most x exactly when the user's usage is at most x * share times the first listed user's, or that user is idle |
| PriorityMap.HoldsFirst | src/pm/PriorityManager.cc:366-396 | the map has an entry for every priority that occurs, and it holds the first id inserted with it |
| PriorityMap.FirstIsSmallest | src/pm/PriorityManager.cc:366-391 | inserted in id order, the first id with a priority is the smallest one |
| PriorityMap.QueueContents | include/PriorityManager.h:113-114 | the queue is strictly descending in rounded priority and holds only first ids |
| PriorityMap.FirstIsPublished | include/PriorityManager.h:113-114 | every first id of its priority is in the queue |
| PriorityMap.PermutationIffInjective | src/pm/PriorityManager.cc:366-396 | the queue is a permutation of the pending ids exactly when rounded priorities are pairwise distinct |
| PriorityMap.OlderAndNoSmallerComesFirst | src/pm/PriorityManager.cc:366-396 | if an older VM's key is no smaller, it or a still older one with its key stands before the younger VM |
| QueueDocument.TrimsExactly | include/VMObject.h:47-57 | a node between other texts is cut out exactly, if no opening VM tag starts before it and no closing one before its end |
| QueueDocument.DumpIsNodeIff | include/VMObject.h:47-57 | trimming gives a node that starts with VM and has its only closing tag at the end exactly when a closing tag follows the first opening tag |
| QueueDocument.SpliceReadsBack | src/xml/VMPool.cc:43-57 | after a splice the priority reads back, the text before and after the element is unchanged, and the node can be spliced again there |
| QueueDocument.SpliceReadsBackIff | src/xml/VMPool.cc:43-57 | the priority reads back exactly when the edit does not throw and no closing priority tag comes before the first opening one |
| QueueDocument.SpliceTwice | src/xml/VMPool.cc:43-57 | setting p and then q is setting q, also when the first splice inserted and the second replaced |
| QueueDocument.ReplacesElement | src/xml/VMPool.cc:43-50 | an old priority element is replaced by the new one and nothing else changes |
| QueueDocument.InsertsBehindTemplate | src/xml/VMPool.cc:51-57 | without one the new element lands right behind the first USER_TEMPLATE tag and nothing else changes |
| QueueDocument.SpliceKeepsNodeIff | src/xml/VMPool.cc:43-57 | a spliced node still starts with VM and has its only closing tag at the end exactly when the priority tags stand in order, or the closing one is right in front of the opening one, or the opening one stands alone by position 15, or without either there is a template or a length of at least 19 |
| QueueDocument.SplicePublishesIff | src/xml/VMPool.cc:43-57 | the exact condition for both at once: the node stays a node and its priority reads back |
| QueueDocument.SpliceWithoutTemplate | src/xml/VMPool.cc:51-57 | without either element the priority lands at position 14, or the insertion throws on a shorter node |
| QueueDocument.SpliceBreaksNode | src/xml/VMPool.cc:51-57 | a concrete node in which position 14 is inside its closing VM tag: whatever the priority, the result is no node |
| QueueDocument.DumpThrowsIff | include/VMObject.h:47-57 | trimming throws exactly when the dump has no opening VM tag |
| QueueDocument.SpliceThrowsIff | src/xml/VMPool.cc:43-57 | the edit throws exactly when the priority's name occurs without its opening tag, or name and template are both absent and the node is shorter than 14 |
| QueueDocument.AlienNameThrows | src/xml/VMPool.cc:43-50 | a concrete node whose element name merely contains USER_PRIORITY: the edit throws |
| QueueDocument.DocumentThrowsIff | src/xml/VMPool.cc:34-64 | the document cannot be made exactly when one of its dumps throws |
| QueueDocument.QueueRoundTrip | src/xml/VMPool.cc:34-64 | the document splits into exactly the rendered nodes in order, each reading back its priority and being otherwise the node text of its dump |
| Pool.FirstNodeStays | src/xml/VMPool.cc:80-80 | of several selected nodes with one id the first in the document is pooled |
| Pool.VMPool.SetUp | src/xml/VMPool.cc:98-165 | the pool becomes exactly the selected nodes of this snapshot, and empty if the fetch failed |
| Pool.VMPool.GetPending | include/VMPool.h:81-90 | the pool holds exactly the ids the snapshot shows pending or to be rescheduled, of everybody for -1 and else of that user |
| Pool.VMPool.GetRunning | include/VMPool.h:73-79 | the pool holds exactly the ids the snapshot shows in state 3 for that user |
| Pool.VMPool.SplicePriority | src/xml/VMPool.cc:43-57 | the in-place erase and insert computes the splice, out-of-range edits included |
| Pool.VMPool.MakeQueue | src/xml/VMPool.cc:29-69 | the text is the document of the mapped VMs in descending priority order, or the edit throws |
| Scheduling.SupportedIsReady | src/pm/PriorityManager.cc:366-391 | configured owners and three periods are all the plugin needs in order to read every entry it reads |
| Scheduling.OwnerIsLast | src/pm/PriorityManager.cc:374-381 | the owner of a VM is the last configured account with its uid |
| Scheduling.PublishedComesFromSnapshot | src/pm/PriorityManager.cc:190-206 | every published id is shown pending or to be rescheduled by this cycle's snapshot; the order is strictly descending in rounded priority |
| Scheduling.NothingDroppedIff | src/pm/PriorityManager.cc:366-396 | the published ids are the pooled ids, each once, exactly when rounded priorities are pairwise distinct |
| Scheduling.FailedFetchPublishesNothing | src/pm/PriorityManager.cc:190-206 | a cycle whose VM fetch fails publishes the empty pool document |
| Scheduling.CycleThrowsIff | src/pm/PriorityManager.cc:200-228 | a cycle throws exactly when the dump of one of the VMs it would publish throws |
| Scheduling.PublishedDocumentRoundTrip | src/xml/VMPool.cc:29-69 | the published text splits into the nodes of the published VMs in queue order, each carrying its rounded priority and being otherwise the node text of its own VM's dump |
| QueueFairness.PrecededOnlyByOlderOrLighter | src/pm/BasicPlugin.cc:125-135 | a published VM stands behind another only if that one is older or its owner has less usage per share |
| QueueFairness.SameUserInIdOrder | src/pm/BasicPlugin.cc:132-135 | within one user the published order is by id |
| Overtaking.ExponentAtMost | src/pm/BasicPlugin.cc:98-131 | from accounting records to exponents: with true totals a share of at least 1/x keeps the exponent in [0,x]; with the code's totals it is in [0,x] exactly for owners within x * share times the first user's usage, or if that user is idle |
| Overtaking.PriorityFormula | src/pm/BasicPlugin.cc:98-135 | the priority a cycle publishes is 2^-q / v, scaled and rounded, where q is the owner's decayed usage over the first listed user's, by the owner's share |
| Overtaking.ServedBeforeFarYounger | src/pm/PriorityManager.cc:337-407 | in the published order of such a cycle: whenever a VM with an id b times as large is published, the older VM, or a still older one of equal priority, stands before it |
| Overtaking.OvertakersInRange | src/pm/BasicPlugin.cc:98-135 | in such a cycle every VM that outranks an older one v has an id strictly between v and b * v |
| Overtaking.NoStarvation | src/pm/PriorityManager.cc:163-207 | over any sequence of such cycles, whatever arrives, the VMs that ever outrank v have ids strictly between v and b * v and are at most v * (b - 1) in all; b is any number >= 2^(1/share) in exact arithmetic |
| Overtaking.KeptTotalsProtectIff | src/pm/BasicPlugin.cc:98-135 | with the code's totals and exact arithmetic, a VM's priority in a cycle stands against every id 2^m times as large and every usage exactly when its owner's usage is within m * share times the first user's, or that user is idle |
| FailingCycles.TotalMissesSecondUser | src/pm/BasicPlugin.cc:50-50 | a cycle, given by its accounting records, whose decayed total is 1 where the sum is 1 + n, so that the second user's ratio is n, for any n |
| FailingCycles.KeptTotalsOvertakeFromAfar | src/pm/BasicPlugin.cc:28-70 | for every w >= 2 a cycle in which VM w outranks VM 1, whose owner has share 1/2; with the sums no VM from 4 on does |
| FailingCycles.KeptTotalsStarve | src/pm/BasicPlugin.cc:28-70 | runs in which VM 1 is outranked by each of any number of younger VMs, and with the sums by at most three |
| Overtaking.PublishedIff | src/pm/PriorityManager.cc:366-396 | a pending VM is published exactly when no older one has its rounded priority |
| Overtaking.KeysCoincideIff | src/pm/BasicPlugin.cc:98-135 | in exact arithmetic two VMs u and v of a cycle coincide in priority exactly when 2^-q(u) * v = 2^-q(v) * u for their usages per share q |
| Overtaking.DroppedIff | src/pm/PriorityManager.cc:366-396 | in exact arithmetic a pending VM is missing from a cycle's queue exactly when some older one coincides with it in that sense |
| FailingCycles.IdleUserDropped | src/pm/PriorityManager.cc:366-396 | a cycle in which the idle user's pending VM 4 coincides with VM 1 in priority and is not published |
| QueueFairness.NoAccountingMeansNoUsage | src/xml/AcctPool.cc:147-176 | without accounting records every exponent of the cycle is 0 |
| QueueFairness.AccountingFailureMeansIdOrder | src/pm/PriorityManager.cc:289-307 | if accounting fails the queue is ascending by id, and with exact arithmetic it is the whole pool |
| QueueFairness.IdleFirstUserMeansIdOrder | src/pm/BasicPlugin.cc:114-135 | with the code's totals an idle first user makes the queue ascending by id, whatever the others used, and with exact arithmetic it is the whole pool |
| QueueFairness.PluginOffReversesIds | src/pm/BasicPlugin.cc:84-91 | with the plugin flag off a VM's priority is its id, rounded, and the published order is descending by id |
| PriorityManager.PriorityManager.GetPending | src/pm/PriorityManager.cc:325-335 | the manager's own pool is refreshed with everybody's pending VMs |
| PriorityManager.PriorityManager.HistoricalUsage | src/pm/PriorityManager.cc:245-311 | every user is measured over the span ending now, from this cycle's records alone |
| PriorityManager.PriorityManager.Prioritize | src/pm/PriorityManager.cc:374-385 | the last configured user with the VM's uid decides the priority, which is rounded |
| PriorityManager.PriorityManager.DoPrioritize | src/pm/PriorityManager.cc:337-407 | the map is filled with the pooled ids under their rounded priorities, in id order |
| PriorityManager.PriorityManager.MakeQueue | src/pm/PriorityManager.cc:214-228 | the queue is published and the priorities cleared; if an edit throws both stay |
| PriorityManager.PriorityManager.Cycle | src/pm/PriorityManager.cc:180-206 | the published text is a function of configuration and this cycle's inputs; every id handed to the queue is found in the pool; the priorities are empty again |
| PriorityManager.PriorityManager.Run | src/pm/PriorityManager.cc:163-207 | over every run each cycle publishes what its own inputs determine, nothing of earlier cycles |
| PriorityManager.ConfiguredSuffices | src/pm/PriorityManager.cc:200-206 | usage figures left by earlier cycles change neither what a cycle needs nor what it publishes |
| Terminator.PoolSumIsActive | src/terminator/Terminator.cc:252-261 | with distinct ids the sum over the pool, which a report carries, is the sum over the snapshot's VMs in state 3 with that uid |
| Terminator.Terminator.KillRunning | src/terminator/Terminator.cc:230-290 | cpu and memory grow by the sums over the snapshot's VMs in state 3 of that user and exactly the policy's commands are issued; after a failed fetch nothing changes and the mutex stays held |
| Terminator.Terminator.KillPending | src/terminator/Terminator.cc:292-333 | exactly the overdue dynamic VMs are deleted; after a failed fetch the mutex stays held |
| Terminator.Terminator.Tick | src/terminator/Terminator.cc:137-180 | each report carries the user's sums; the commands issued are, user by user, the policy's on the VMs just fetched; the thread blocks exactly when the fetch of a user other than the last fails |
| Terminator.Terminator.Loop | src/terminator/Terminator.cc:109-186 | over any sequence of passes the commands issued are those of the run, up to and with the user of the first failed fetch, where the thread stands still |
| Terminator.CommandedIff | src/terminator/Terminator.cc:270-277 | a command is issued exactly if the policy picks it for some pooled VM |
| Terminator.PendingCommandedIff | src/terminator/Terminator.cc:317-326 | a pending VM is deleted exactly if it waits for longer than allowed and is dynamic |
| Terminator.UserNamesIff | src/terminator/Terminator.cc:252-284 | the commands for one user name a VM exactly if the fetch has it active, it is overdue and the action is known |
| Terminator.PassNamesIff | src/terminator/Terminator.cc:137-180 | a pass names a VM exactly if it finds it overdue for some user |
| Terminator.RunNamesIff | src/terminator/Terminator.cc:109-186 | the commands of a run name a VM exactly if those of one of its passes do |
| Terminator.NamedWasShown | src/terminator/Terminator.cc:239-284 | whoever a run names was shown by a snapshot fetched for a configured user as a VM in state 3 of that very user, dynamic, with a start time, older than that user's time to live; and the action is one of the four |
| Terminator.NamedIffShown | src/terminator/Terminator.cc:239-284 | if no snapshot repeats an id, a run names exactly those VMs |
| Terminator.ExemptNeverNamed | src/terminator/Terminator.cc:262-284 | a VM of no configured user is never named, nor is one that is static or has start time 0 wherever it is shown |
| Terminator.RunOfKind | src/terminator/Terminator.cc:270-277 | every command of a run is a deletion for the action kill and the operation of that name otherwise |
| Terminator.UserCommandsInOrder | src/terminator/Terminator.cc:252-284 | the commands for one user come in id order, each VM once |
| Terminator.PendingDeletions | src/terminator/Terminator.cc:300-326 | from snapshot to deletions: in id order, exactly the dynamic VMs shown pending, of that user or of everybody, that have waited for longer than allowed |
| Terminator.LifetimeBound | src/terminator/Terminator.cc:109-186 | over a run of passes and snapshots, users with distinct ids: a user's dynamic VM shown active at every pass, examined at most G apart and first within its time to live, is first named by a command at an age in (ttl, ttl+G], and is named at all exactly if some pass examines it beyond its time to live |
| Terminator.StaticNeverCommanded | src/terminator/Terminator.cc:109-186 | no command of a run names a VM that is static whenever it is fetched, and with an unknown action none names any VM |
| Terminator.MissingStartIsOverdue | src/terminator/Terminator.cc:262-284 | a fetched dynamic VM without start time is named by the commands of its user, for any known action, exactly when the clock itself has reached the time to live |
| Protocol.InvRun | include/Manager.h:44-60 | locks, pool, copied pointers and stop flags stay consistent after every run of all threads |
| Protocol.PointersStayAlive | src/terminator/Terminator.cc:230-333 | while a thread iterates over its copied map all its objects are alive and no other thread refreshes the pool |
| Protocol.CopyIsRestOfPool | src/terminator/Terminator.cc:248-252 | after every run, what an iterating thread still has to visit is the rest of the pool, in pool order |
| Protocol.VisitsEachOnce | src/terminator/Terminator.cc:248-285 | a fetch of n VMs fills the pool with n new objects; however the threads interleave, after its next k steps the thread has visited the first k of them in order, and it unlocks only after all n |
| Protocol.CanVisitAll | src/terminator/Terminator.cc:309-328 | a thread left alone can take all those steps |
| Protocol.FetchesAreDue | src/terminator/Terminator.cc:137-153 | over every run a thread fetches once per user, or once for the priority manager, in each cycle body it begins, less what the running body still owes |
| Protocol.LeakedIffFetchFailed | src/terminator/Terminator.cc:239-245 | as written the mutex is left behind exactly on runs with a failed fetch |
| Protocol.FailedFetchLeaks | src/terminator/Terminator.cc:300-306 | a concrete run in which the first pool fetch fails and leaks the mutex |
| Protocol.LeakAbsorbs | src/terminator/Terminator.cc:234-245 | no step releases or passes a leaked mutex |
| Protocol.LeakNeverEnds | src/terminator/Terminator.cc:295-306 | after a leak, also one during the last cycle body, in every continuation the same thread owns the mutex, no thread is in a pool call, and main, if not yet done, never finalises the Terminator |
| Protocol.IntendedStaysBalanced | src/terminator/Terminator.cc:230-333 | with release on every exit each held mutex belongs to a thread inside its section, after every run |
| Protocol.NoLostWakeup | include/Manager.h:44-49 | a worker asleep with its stop flag set is about to be signalled |
| Protocol.AtMostOneMoreBody | src/pm/PriorityManager.cc:163-207 | each manager begins at most one cycle body after its stop flag is set |
| Protocol.EndsOnlyWhenTold | src/pm/PriorityManager.cc:163-207 | no manager's thread ends before its stop flag is set |
| Protocol.WaitsForTimeout | src/terminator/Terminator.cc:109-123 | a thread that was not told to stop begins no cycle body before its wait has timed out, however often it is woken |
| Protocol.NoDeadlock | src/terminator/Terminator.cc:109-121 | with the intended release some step is enabled until all threads have ended |
| Protocol.ShutdownStep | src/terminator/Terminator.cc:109-181 | once both managers are finalised every step brings its thread closer to its end |
| Protocol.ShutdownCompletes | src/terminator/Terminator.cc:109-186 | with the intended release every schedule stops both managers after finitely many steps |
| Shares.SplitJoinIff | src/config/SharesConfigurator.cc:65-86 | a joined record splits into its fields exactly when no field contains a colon |
| Shares.JoinOfSplit | src/pm/PriorityManager.cc:54-55 | splitting loses no text |
| Shares.CompleteIff | src/config/SharesConfigurator.cc:67-80 | a section is complete exactly if it has uid, gid, share and ttl and its name has no dot |
| Shares.NumberReadsBack | src/pm/PriorityManager.cc:60-70 | the decimal text of a number, with or without sign, is read back as that number or rejected when it does not fit |
| Shares.SharesConfigurator.LoadOne | src/config/SharesConfigurator.cc:67-84 | appending field and colon and erasing the last colon gives the joined record; a missing property fails |
| Shares.SharesConfigurator.LoadShares | src/config/SharesConfigurator.cc:42-92 | one record per section in order; at an incomplete section loading fails and the earlier records stay |
| Shares.CalculateInitialShares | src/pm/PriorityManager.cc:409-460 | one distinct user per record with the accounts the records determine, or the failure of the first bad record |
| Shares.MadeShares | src/pm/PriorityManager.cc:416-430 | each share times the sum is the configured number, and so is the total of all shares |
| Shares.SharesNormalised | src/pm/PriorityManager.cc:409-444 | for nonnegative configured shares the normalised ones lie in [0,1], add up to 1 and keep the proportions |
| Shares.SectionReadsBack | src/pm/PriorityManager.cc:52-73 | the record of a section without colons is read as the section's own uid, gid, share and ttl, and throws exactly if one of them is no number that fits |
| Shares.ConfigurationReadsBack | src/pm/PriorityManager.cc:409-460 | from the configuration to the users: every section with fitting numbers becomes one user with its own uid, gid and time to live, and its share times the sum of all shares is its own share |

## Left out

- XML-RPC, the request proxy, sockets and the registry: a fetch is an input that is a snapshot, a refusal or a failure.
- libxml and XPath: VM and accounting attributes are given, with the defaults the code puts for missing ones; a search is a predicate on them.
- InfluxDB writes, logging, the configuration file parser, daemonising and signals.
- The `start_time` date: its value is overwritten before use; its format check, which throws, is not modelled.
- FairShare.BasicPlugin.UpdatePrio: needs a positive share, a positive id and a configured owner in plugin mode; a zero share gives infinities or NaN in the code, and an unknown owner is undefined behaviour there.
- FairShare.Score: double arithmetic before the conversion to `float` is exact; `float` halves exactly, which excludes overflow and underflow.
- Terminator.Terminator.Tick: users come with their id and time to live; a record without five fields, at which the loop ends the daemon, is not modelled there.
- Shares.SectionReadsBack: reads the share as the summing loop does, a 16-bit integer; the loop over users reads it as a float, but is reached only if all shares are such integers.
- Shares.CalculateInitialShares: shares whose sum is zero end in an outcome of their own, because the code divides by zero in floating point.
- Accounting.AcctPool.EvalUsage: integer overflow of times and periods, and rounding of the double sums.
- Pool.VMPool.MakeQueue: the text of a float key is a parameter; string lengths are below the maximum of `size_t`.
- QueueDocument.QueueRoundTrip: assumes that each dump trims to a node that stays a node and reads its priority back (the exact condition is `SplicePublishesIff`), and that priority texts hold no `<`.
- Fairness.NotOvertakenFromAfar: with rounding the factor is a power of two, because rounded reciprocals keep the ratio of two ids only there.
- Overtaking.NoStarvation: for the totals as kept it assumes the owner's usage to be within the stated multiple in every cycle; without that it fails, as `KeptTotalsStarve` shows.
- Protocol.Step: `Manager`'s lock and condition variable, `pm_loop` and `tm_loop` are steps of a value-level machine, so aliasing and the memory model (the unlocked read of the stop flag) are not captured; freed addresses are not reused.
- Protocol.ShutdownCompletes: starts once main has finalised both managers; before that an unfair scheduler can starve main.
- Terminator.Terminator.KillRunning: the calls `terminate` and `operate` are recorded as commands; their failures, which the code ignores, are not modelled.
- The reading of the queue string by the RPC thread and the start-up order of the managers.
- Group shares, memory in the priority and the over-quota flag, which the code does not use.
