# Order tracking, verified

A Dafny model of the deterministic engines of a WhatsApp order tracker: the
working-hours calendar, the segmentation and threading of group chats, the
ambiguity queue, the order and fulfilment store with its workers, the sender
buffer with its replay loop, and the eval issue tracker.  Where the program
changes things step by step the model does too: methods with loops are proved
against specification functions and predicates, and what the design promises
is proved about those, mostly over whole runs of operations.

`dafny verify dfyconfig.toml` checks the project.

| file | models |
|---|---|
| `Calendar.dfy`, `WorkingHours.dfy` | the calendar and the two day-walking loops |
| `Messages.dfy`, `Ordering.dfy`, `Options.dfy`, `Severities.dfy` | messages, Python's stable sort, optional values, severities |
| `ScrapDetector.dfy` | cutting a sender's messages into scraps |
| `ConversationLabels.dfy`, `ConversationManager.dfy` | what label a scrap gets, and the loop that assigns it |
| `ReplyTree.dfy`, `ThreadEnhancement.dfy` | reply threads, and spreading assignments along them |
| `ConversationFlush.dfy` | the steps of a flush together |
| `ConversationRouter.dfy` | the buffers of the shared groups |
| `Database.dfy` | the tables that the workers share |
| `AmbiguityQueue.dfy`, `AmbiguityRuns.dfy` | the queue's producer and its polling worker, and all runs of both |
| `TaskStore.dfy`, `Fulfilment.dfy` | triggers, items, links, reconciliation and pruning |
| `RouterWorker.dfy`, `LinkageWorker.dfy` | applying an agent's output, and one linkage event with its retries |
| `MessageBuffer.dfy`, `BufferRuns.dfy`, `Replay.dfy` | sender scraps, all runs of the buffer, and the replay loop |
| `IssueTracker.dfy` | eval issues over any sequence of runs |

## Where the code does less than one might expect

Each of these has a lemma with the exact condition or a concrete case.

- A fractional amount of working hours before 1970 is truncated towards zero and falls short (`RoundTrip`, `FractionFallsShort`, `FractionsCompose`).
- A payment that is about the reference `singleton:bookkeeping` itself is entered twice (`HeldAtMostOnce`, `PaymentHeldTwice`). It takes an alias or a client id of that name: apart from those the shipped extraction only yields references that begin with `unit:` or `supplier:`, and without it nothing is held twice (`HeldOnceUnlessNamed`).
- A low flag that times out gives back a node that a high flag still blocks (`PollKeepsBlocks`, `BlockedNodeReleased`).
- A high flag for a task that does not exist violates a foreign key when its alert is stored; the poll ends there, and rows behind it starve (`PollCompletes`, `OrphanStarves`, `OrphanArises`).
- "Completed" does not cover demand that is split over two items with one description (`CompletedMeansCovered`).
- A confirmed link without a quantity makes every later event that affects its client fail and end as a dead letter, and each attempt inserts its links again (`FailurePoisons`, `PoisonFails`, `ProcessWithRetry`). A confident candidate without a quantity is enough (`ConfidentCandidatePoisons`).
- The linkage worker makes an order ready without firing the trigger that depends on it (`ReconcileKeepsClosed`, `ReconcileLeavesTriggerDue`); the next output of the router worker repairs that (`ApplyOutput`).
- A flag that blocks the confirmation hides an item change in the same output (`ItemChangeRaised`, `FlagHidesItemChange`).
- Issue ids of two cases can meet if a case id contains a colon (`IssueIdsCollide`, `OtherCasesUntouched`).

## Model

| member | source | states |
|---|---|---|
| Calendar.DateOfDayNumber | src/conversation/working_hours.py:90-115 | walking the calendar day by day from 1970 and the closed day-count formula are inverse: the date that carries the holiday table is the right one for every timestamp |
| Calendar.DayNumberOfDateOf | src/conversation/working_hours.py:113-115 | the n-th step of the walk is the date with day number n, forwards and backwards |
| Calendar.KnownDays | src/conversation/working_hours.py:90-115 | day numbers of known dates: the first of every month of 2026, and 1 March of 1900, 2000, 2024 and 2100 |
| WorkingHours.WorkingHoursBetween | src/conversation/working_hours.py:71-117 | for timestamps in either order the day-walking loop returns exactly the number of seconds that lie in a 09:00-19:00 slot of a working day, as hours |
| WorkingHours.WorkSecondsAdditive | src/conversation/working_hours.py:71-117 | the measure is additive over every intermediate moment |
| WorkingHours.WorkSecondsMonotone | src/conversation/working_hours.py:71-117 | a shorter interval never measures more |
| WorkingHours.WorkSecondsBounded | src/conversation/working_hours.py:71-117 | the measure is at most the time that passes |
| WorkingHours.WorkSecondsInDay | src/conversation/working_hours.py:97-110 | within one local day the working seconds are the overlap of the interval with the slot, nothing on Sundays and holidays |
| WorkingHours.DayIsMeasured | src/conversation/working_hours.py:19-68 | the same in numbers: the slot of local day d lasts from second 86400 d + 12600 to second 86400 d + 48600, and d counts unless it is a Sunday or one of the 24 dates listed month by month |
| WorkingHours.HolidayRun | src/conversation/working_hours.py:30-59 | the recurring table has one run of three holidays, 14 to 16 April, in any year |
| WorkingHours.HolidayGap | src/conversation/working_hours.py:30-59 | no holiday lies two days before or after a pair that a Sunday could bridge |
| WorkingHours.FiveDaysHoldAWorkingDay | src/conversation/working_hours.py:24-68 | any five consecutive days, in any year, hold a working day |
| WorkingHours.FourDaysOff | src/conversation/working_hours.py:24-68 | four consecutive days are off iff they are 14 to 16 April with a Sunday right after or right before them |
| WorkingHours.FourDaysOffIn2022 | src/conversation/working_hours.py:24-68 | the bound of five is tight: the four days from 14 April 2022 are off |
| WorkingHours.WorkingHoursAgo | src/conversation/working_hours.py:120-157 | the backward search terminates for every timestamp and amount and returns the latest moment with the amount of work up to ts, truncated towards zero as int() does |
| WorkingHours.Adjunction | src/conversation/working_hours.py:71-157 | measure and search are adjoint: t leaves at least n working seconds before ts iff t is not after the moment searched for |
| WorkingHours.LatestAttains | src/conversation/working_hours.py:120-157 | the moment searched for leaves exactly n working seconds |
| WorkingHours.LatestComposes | src/conversation/working_hours.py:120-157 | searching back n and then m seconds of work is searching back n + m |
| WorkingHours.LatestIsStrict | src/conversation/working_hours.py:120-157 | different amounts of work lead to different moments |
| WorkingHours.RoundTrip | src/conversation/working_hours.py:71-157 | between(ago(ts, h), ts) reaches h iff h is a whole number of seconds or that much work lies after 1970; then it is h rounded up to a second and no later moment would do |
| WorkingHours.FractionFallsShort | src/conversation/working_hours.py:120-157 | the failing case occurs: half a second of work, looked for from the epoch, leads to a moment with no work at all |
| WorkingHours.AgoComposes | src/conversation/working_hours.py:120-157 | ago(ago(ts, a), b) = ago(ts, a + b) for all whole-second amounts |
| WorkingHours.FractionsCompose | src/conversation/working_hours.py:120-157 | for fractional amounts after 1970 the composition law holds iff rounding up distributes over the sum |
| ScrapDetector.GreedyIsShortest | src/conversation/scrap_detector.py:352-417 | every message of a part of the greedy cut comes at most 900 s after the one before it and is about nothing, or the first in the part to be about anything, or about something an earlier one is about; no partition of the strand with this property has fewer parts (exchange argument) |
| ScrapDetector.GreedyIsCoherent | src/conversation/scrap_detector.py:352-417 | no message is lost, doubled or reordered, and every prefix of the strand is cut into such parts |
| ScrapDetector.GreedyIsTheCut | src/conversation/scrap_detector.py:376-411 | a partition is the greedy one iff all its parts are like that and the first message of every part but the first comes over 900 s after the part before, or is about something while that part is too and they share nothing |
| ScrapDetector.MentionsMeans | src/conversation/scrap_detector.py:401-411 | a run is about exactly what one of its messages is about |
| ScrapDetector.Scrap.AddMessage | src/conversation/scrap_detector.py:312-317 | the scrap gains the message; its first time is the first non-zero one and its last time the latest one |
| ScrapDetector.TakeMessage | src/conversation/scrap_detector.py:376-411 | a message joins the current scrap unless it breaks with it; otherwise a fresh scrap starts and the old one is left as it was |
| ScrapDetector.Advance | src/conversation/scrap_detector.py:359-411 | one message keeps: finished scraps and the current one hold the parts of the greedy cut, with the union of their evidence |
| ScrapDetector.PartitionStrand | src/conversation/scrap_detector.py:352-417 | the scraps of a strand hold exactly the runs of the greedy cut, each naming the entities of its run once |
| ScrapDetector.RunsStartInOrder | src/conversation/scrap_detector.py:343-344 | in chronological order one sender's scraps start in order, so sorting by first message keeps them in sequence |
| ScrapDetector.SenderStrands | src/conversation/scrap_detector.py:329-335 | every sender's strand is that sender's messages in order |
| ScrapDetector.SortByFirst | src/conversation/scrap_detector.py:343-344 | sorting by first message permutes the scraps into ascending order, ties in list order |
| ScrapDetector.DetectScraps | src/conversation/scrap_detector.py:320-349 | the scraps are distinct, ordered by first message, and each sender's scraps hold the greedy runs of that sender's messages |
| ConversationLabels.LabelsAreOwn | src/conversation/conversation_manager.py:82-179 | a scrap's label depends on its own sender's scraps alone: other senders' interleaved scraps can be removed |
| ConversationLabels.NothingWaits | src/conversation/conversation_manager.py:150-161 | while a sender has a context none of the sender's scraps is buffered |
| ConversationLabels.BufferEmpty | src/conversation/conversation_manager.py:150-161 | so the carry branch always scans for the last assigned scrap, never the buffer |
| ConversationLabels.LabelMeans | src/conversation/conversation_manager.py:101-179 | a scrap is labelled with an entity iff its own evidence names it; or, without evidence, iff it is the context carried from the last evidence of its sender over gaps of at most 1800 s; or, with neither, iff the sender's next evidence names it first and begins within 3600 s |
| ConversationLabels.HeldAtMostOnce | src/conversation/conversation_manager.py:101-193 | with evidence lists free of repetitions every conversation holds every scrap at most once iff no payment is about the bookkeeping reference by its own, its carried or its next evidence |
| ConversationLabels.HeldOnceUnlessNamed | src/conversation/conversation_manager.py:181-193 | so nothing is held twice if no scrap's evidence names that reference |
| ConversationLabels.PaymentHeldTwice | src/conversation/conversation_manager.py:103-193 | one payment whose evidence names it is held twice |
| ConversationLabels.BookOnlyGrows | src/conversation/conversation_manager.py:82-193 | the list of a conversation only grows at its end, by scraps taken so far: entries are never dropped or reordered |
| ConversationLabels.ScrapsJoinInOrder | src/conversation/conversation_manager.py:101-193 | what a scrap brings into a conversation is put behind what was there: the scrap itself first, then the older ones it reaches back to, in their order |
| ConversationLabels.BookIsTight | src/conversation/conversation_manager.py:82-193 | a conversation exists iff some label or payment puts a scrap into it, and it holds only scraps taken so far |
| ConversationLabels.KeptByEvidence | src/conversation/conversation_manager.py:101-148 | taking a scrap with evidence keeps every conversation's count of every scrap equal to its labels, back-propagation included |
| ConversationLabels.KeptWithoutEvidence | src/conversation/conversation_manager.py:150-193 | the same for a scrap that carries its sender's context or is buffered |
| ConversationManager.AddTo | src/conversation/conversation_manager.py:103-107 | the scrap is appended to its entity's conversation and to no other; the conversation dates from its first scrap and was active until the latest end of its scraps |
| ConversationManager.RecentOf | src/conversation/conversation_manager.py:125-132 | of the buffered scraps exactly those that ended at most 3600 s before the evidence are kept |
| ConversationManager.Propagate | src/conversation/conversation_manager.py:134-141 | the recent buffered scraps join the conversation of the first entity, in order, and are marked |
| ConversationManager.LastAssignedEnd | src/conversation/conversation_manager.py:156-161 | the reverse scan finds the end of the sender's previous scrap |
| ConversationManager.Carries | src/conversation/conversation_manager.py:150-165 | a scrap without evidence continues the context iff the previous one ended at most 1800 s before it |
| ConversationManager.CarryOrBuffer | src/conversation/conversation_manager.py:150-179 | a scrap without evidence joins the conversation of its sender's context if it continues it, and is buffered otherwise; the buffer stays the list of the sender's waiting scraps |
| ConversationManager.AssignScrap | src/conversation/conversation_manager.py:101-179 | one scrap takes the assignment from the labels of n scraps to those of n + 1 |
| ConversationManager.TakePayment | src/conversation/conversation_manager.py:181-193 | a payment is entered in the bookkeeping conversation as well |
| ConversationManager.TakeScrap | src/conversation/conversation_manager.py:82-193 | one iteration of the loop keeps conversations, sender states and scrap marks in step with the labels |
| ConversationManager.BuildConversations | src/conversation/conversation_manager.py:51-201 | the scraps are taken in order of their first message, ties in list order; a scrap that names entities keeps them, one that names none names the one its items fit, if there is one; a conversation holds a scrap iff the scrap names its entity, or is a payment and the entity is the bookkeeping reference, or names nothing and is about the entity by what its sender said before or next; the conversations are the book of these labels in the order of the back-propagating loop, dated by their scraps, and exactly the labelled scraps are marked |
| ReplyTree.ChooseParent | src/conversation/reply_tree.py:109-132 | on a chronological list the backward search with its early break picks the nearest of the best-scoring messages among the last 15 and at most 900 s back, if it scores 2.0 or more |
| ReplyTree.BestParentIsUnique | src/conversation/reply_tree.py:109-132 | that specification leaves one choice |
| ReplyTree.ThresholdMeans | src/conversation/reply_tree.py:142-198 | with the shipped weights a message within the gap reaches the threshold iff it is one's own within 120 s, or another's within 60 s, or another's that is affirmed or shares a keyword, or within 300 s a question that gets no question back or both name numbers |
| ReplyTree.QuickRepliesAreNotRoots | src/conversation/reply_tree.py:142-198 | with the shipped weights a message that follows another within 60 s is never a thread root |
| ReplyTree.ScoreMessages | src/conversation/reply_tree.py:93-134 | every message gets its position, its fields and its best parent |
| ReplyTree.ChildrenLookup | src/conversation/reply_tree.py:212-215 | the children table lists exactly the children of every message, in order |
| ReplyTree.FindRoots | src/conversation/reply_tree.py:217-219 | the roots are the messages without a parent, in order |
| ReplyTree.FrontierStep | src/conversation/reply_tree.py:230-239 | the popped message was never visited before, and the queue stays the border of the visited part of the tree |
| ReplyTree.LabelThread | src/conversation/reply_tree.py:225-239 | breadth-first search from a root labels exactly the messages of its tree |
| ReplyTree.AssignThreadIds | src/conversation/reply_tree.py:207-245 | every message gets the number of its root, in root order; no message is left for the orphan fallback |
| ReplyTree.ThreadsAreComponents | src/conversation/reply_tree.py:207-245 | two messages have the same number iff a chain of parent links connects them |
| ReplyTree.SameRankSameRoot | src/conversation/reply_tree.py:217-239 | the same number means the same root, and numbers follow the order of the roots |
| ReplyTree.ThreadIdsAreDense | src/conversation/reply_tree.py:221-239 | the numbers in use are exactly those of the roots |
| ReplyTree.BuildReplyTree | src/conversation/reply_tree.py:79-139 | every message has its best parent, and two messages share a thread iff replies connect them |
| ReplyTree.SilenceSeparates | src/conversation/reply_tree.py:114-245 | no thread reaches across a silence of more than 900 s |
| AmbiguityQueue.CheckDuplicate | src/router/worker.py:664-676 | finds a live row on the same task, category and node that is at most an hour old, iff there is one |
| AmbiguityQueue.CheckRateLimit | src/router/worker.py:679-691 | tells whether the task already has as many rows in the last hour as the profile allows |
| AmbiguityQueue.HandleAmbiguity | src/router/worker.py:694-806 | a flag is dropped as a repeat or over the limit, or queued once; a blocking one is never rate-limited and blocks its gate; a low one that does not block is stored as expired |
| AmbiguityQueue.FlagIsQueued | src/router/worker.py:694-806 | a flag is dropped iff a live row of the last hour is on its task, category and node, or it stops no gate and its task has as many rows in the last hour as the limit; any other one is queued once, behind the others, with the target of its severity; one that stops a gate waits and its gate reads blocked, a low one that stops none is expired at once |
| AmbiguityQueue.ProcessEntry | src/alerts/ambiguity_worker.py:44-125 | one row is escalated, escalated again, resolved or left, with its alert and its node; it raises iff an alert is due for a task that does not exist |
| AmbiguityQueue.AutoResolve | src/alerts/ambiguity_worker.py:176-198 | the row expires, and a blocking row gives its node back as provisional |
| AmbiguityQueue.CheckQueue | src/alerts/ambiguity_worker.py:26-41 | a poll treats the rows in order up to the first one that raises, and leaves the rest untouched |
| AmbiguityRuns.RateLimitHolds | src/router/worker.py:679-691 | over any run, with limit L, each task has at most L rows that do not block in any closed hour, whatever the clock does |
| AmbiguityRuns.DedupHolds | src/router/worker.py:661-676 | over any run two live rows on one subject were created more than an hour apart |
| AmbiguityRuns.RunOnward | src/alerts/ambiguity_worker.py:52-125 | over any run rows are never lost, status only moves from waiting to escalated to expired, and an expired row never changes |
| AmbiguityRuns.OnlyLowExpires | src/alerts/ambiguity_worker.py:99-125 | high and medium rows stay live for ever |
| AmbiguityRuns.LowRowsExpireLate | src/alerts/ambiguity_worker.py:122-125 | over any run a live row that has expired later was low and escalated, and the poll that let it expire came at its escalation plus the low timeout or later; until then an escalated low row does not change |
| AmbiguityRuns.PollGivesBack | src/alerts/ambiguity_worker.py:176-198 | a poll sets a node to provisional iff a row that blocks it expires in that poll, and changes no other node |
| AmbiguityRuns.EarlyPollLeavesLow | src/alerts/ambiguity_worker.py:122-125 | a poll before the low timeout leaves the row as it is, and its node comes back only if another row expires on it |
| AmbiguityRuns.EscalationsKeepTheirDistance | src/alerts/ambiguity_worker.py:51-120 | with a monotone clock a high row was escalated at created + n * T or later after n repeats, a medium one at created + 900 + n * 2T or later |
| AmbiguityRuns.PollTwice | src/alerts/ambiguity_worker.py:26-125 | with positive timeouts a second poll at the same time sends nothing and changes nothing |
| AmbiguityRuns.AlertsAccountedFor | src/alerts/ambiguity_worker.py:128-173 | the alerts sent are, as a multiset, one escalation for every row ever escalated and its count of repeats |
| AmbiguityRuns.PollCompletes | src/alerts/ambiguity_worker.py:35-41 | a poll reaches every row iff no row due for an alert names a task that does not exist |
| AmbiguityRuns.OrphanStarves | src/store/db.py:149-151 | a high row of a task that does not exist stops every poll: as long as nobody creates the task, no row behind it ever changes |
| AmbiguityRuns.OrphanArises | src/store/db.py:149-151 | it occurs: after a high flag for an unknown task a second high flag is due at every poll, and no number of polls escalates it |
| AmbiguityRuns.PollKeepsBlocks | src/alerts/ambiguity_worker.py:176-198 | a poll keeps every such node blocked iff no low row times out on a node that another live row still blocks |
| AmbiguityRuns.BlockedNodeReleased | src/alerts/ambiguity_worker.py:182-191 | that case occurs: a low and a high flag on dispatched, and after four hours the node is provisional while the high one is live |
| TaskStore.CascadeTriggers | src/store/task_store.py:498-529 | fires exactly the triggers whose condition holds, both read before either is written |
| TaskStore.StockMeans | src/store/task_store.py:457-495 | order_ready takes the status of filled_from_stock iff that one is active or completed, supplier_indent is missing, skipped or pending, and order_ready is neither completed nor active; every other node stays |
| TaskStore.CascadeMeans | src/store/task_store.py:498-529 | a pending or skipped checklist becomes active iff order_ready is completed or partial, a pending or skipped photo check iff dispatched is completed; every other node stays |
| TaskStore.CascadeCloses | src/store/task_store.py:498-529 | afterwards no trigger of the task is due, from any state, and only the two trigger nodes changed |
| TaskStore.CascadeFixpoint | src/store/task_store.py:498-529 | the cascade changes nothing iff no trigger is due |
| TaskStore.TriggersIdempotent | src/store/task_store.py:457-529 | stock check and cascade, done twice, do what they do once |
| TaskStore.ApplyItemExtractions | src/store/task_store.py:363-406 | the right table gets the extractions in order, the other table is untouched, and the result lists what changed |
| TaskStore.OtherTasksUntouched | src/store/task_store.py:363-406 | extractions of one task leave every other task's items alone, in order |
| TaskStore.ExtractionsMean | src/store/task_store.py:363-406 | each extraction appends its item, or rewrites in place the items of the task under the existing description or else its own, or removes exactly these |
| Fulfilment.AllocatedMap | src/store/task_store.py:422-431 | the running map holds for every description the sum of its counting links, and raises iff a counting link has no quantity |
| Fulfilment.AllocatedAppend | src/store/task_store.py:418-431 | one link more allocates its quantity to the item it names iff it is confirmed or auto-allocated; no links allocate nothing |
| Fulfilment.ReconcileOrderReady | src/store/task_store.py:409-454 | sets order_ready to the verdict and reports it; without a verdict nothing changes; raises iff the client has items and a counting link without a quantity |
| Fulfilment.VerdictMeans | src/store/task_store.py:433-445 | completed iff there are items and each is allocated what it asks for, partial iff some are and some are not; an item without a quantity asks for nothing |
| Fulfilment.VerdictMonotone | src/store/task_store.py:426-445 | more allocated under every description never lowers the verdict |
| Fulfilment.NewLinkNeverLowers | src/store/task_store.py:324-360 | a new link with a quantity that is not negative lowers no client's verdict |
| Fulfilment.CompletedMeansCovered | src/store/task_store.py:433-440 | for non-negative quantities "completed" guarantees that demand is covered iff no two items of the client under one description both ask for something |
| Fulfilment.SharedDescription | src/store/task_store.py:433-440 | two such items can be met by one quantity that does not cover them together |
| Fulfilment.UpsertLink | src/store/task_store.py:324-360 | a known id is updated in place; a new one is appended if its orders exist; confidence of 0.92 or more confirms a candidate |
| Fulfilment.Prune | src/store/task_store.py:269-321 | the links of an order go, and it closes, iff it has links and all are done |
| Fulfilment.FilterKeepsVerdict | src/store/task_store.py:275-321 | dropping links that do not count changes no verdict |
| RouterWorker.ApplyOutput | src/router/worker.py:39-87 | queue, nodes and the items of the order type are those of the specification, the other items table is untouched; from any state and for any output no trigger of the task is due at the end, and with silent resolution off items that change behind a completed lock leave a live quantity row from the last hour |
| RouterWorker.NodesReadTheirUpdates | src/router/worker.py:39-55 | a node that no trigger and no flag of the output may write reads the status of its last update if that one has a confidence of 0.75 or more or is pending or provisional, and provisional otherwise; without an update it is unchanged |
| RouterWorker.QueueKeepsClosed | src/router/worker.py:790-799 | whatever flags and polls follow, no trigger of a closed task becomes due |
| RouterWorker.RunGatesOnly | src/router/worker.py:715-719 | over any run only gate nodes are blocked by rows |
| RouterWorker.LockFlagRaised | src/router/worker.py:809-848 | the lock flag is never lost: a row is there afterwards, new with the node blocked, or the one it repeats |
| RouterWorker.LockAfterFlags | src/router/worker.py:71-84 | the lock still reads completed behind the flags of an output iff it did before and none of them blocked it |
| RouterWorker.ItemChangeRaised | src/router/worker.py:71-84 | an item change of a locked order is on the queue afterwards iff no flag of the same output blocked the lock or the flags put it there themselves |
| RouterWorker.FlagHidesItemChange | src/router/worker.py:71-84 | that case occurs: with a flag on order_confirmation in the same output no quantity row is queued at all, without the flag one is |
| LinkageWorker.InsertLinks | src/linkage/linkage_worker.py:160-176 | links are appended under new ids until one names an order that does not exist |
| LinkageWorker.ReconcileAll | src/linkage/linkage_worker.py:191-199 | whatever the order of the visits, each affected client gets its verdict and no other node changes; fails iff a client's sum raises, and then a proper part of the clients has been visited |
| LinkageWorker.PruneOneMore | src/linkage/linkage_worker.py:201-213 | whether an order is pruned does not depend on the orders pruned before it |
| LinkageWorker.PruneAll | src/linkage/linkage_worker.py:201-213 | whatever the order of the visits, exactly the orders that could be pruned at the start lose their links, read completed at task_closed and are closed; every other node and task is as before |
| LinkageWorker.PrunesKeepVerdicts | src/store/task_store.py:269-321 | no prune changes any client's verdict |
| LinkageWorker.CountingLinksStay | src/store/task_store.py:269-321 | a link that counts is never pruned |
| LinkageWorker.FlagsReachTheirTasks | src/linkage/linkage_worker.py:218-233 | every row that an answer adds to the queue is that of one of its flags for a task the flag names, or for the event's own if it names none; and each flag leaves a row of the last hour on each such task, unless it stops no gate and the task is at its limit |
| LinkageWorker.FlagsStopGates | src/linkage/linkage_worker.py:218-233 | flags change nothing but gates of such tasks, which read blocked |
| LinkageWorker.OutputCloses | src/linkage/linkage_worker.py:160-213 | the links gain one row for each update, confirmed if a candidate has 0.92 or more; a task is closed behind an applied answer iff it was, or an update with fulfilled, failed or invalidated names it as supplier and all its links have such a status, or an update with completed names it as client and all the links it then has left are completed; a link survives iff neither its supplier nor its client is such an order |
| LinkageWorker.OutputSettles | src/linkage/linkage_worker.py:191-233 | once an answer is applied every client that one of its updates names reads its verdict on the final links, whatever was pruned behind the reconciliation, or is blocked by a flag |
| LinkageWorker.OutputExplained | src/linkage/linkage_worker.py:178-233 | after an applied answer every node reads its last update in the answer, or what it did; but order_ready of a client that the answer names reads the verdict, task_closed of an order that is done reads completed, and a gate that a flag of the answer stops may read blocked |
| LinkageWorker.ProcessEvent | src/linkage/linkage_worker.py:120-253 | acknowledged iff there is nothing to do or the answer can be applied; then links, nodes, tasks and queue are exactly those of the answer: links inserted, verdicts set, exactly the pruned orders closed, flags raised; a failed attempt leaves tasks and queue alone and keeps the links up to the first that names no order |
| LinkageWorker.FailurePoisons | src/linkage/linkage_worker.py:160-176 | a failed attempt poisons a client with items iff one of its updates for that client, before the first that names no order, has no quantity and is confirmed, auto-allocated, or a candidate of 0.92 or more |
| LinkageWorker.SuccessNeverPoisons | src/linkage/linkage_worker.py:160-213 | an answer that is applied neither poisons a client nor heals one |
| LinkageWorker.ConfidentCandidatePoisons | src/store/task_store.py:324-360 | it occurs: one confident candidate without a quantity fails and leaves its client poisoned |
| LinkageWorker.PoisonFails | src/store/task_store.py:427-431 | a client with items and a counting link without a quantity stays so over failed attempts, and every attempt whose answer affects it fails |
| LinkageWorker.ProcessWithRetry | src/linkage/linkage_worker.py:260-283 | acknowledged once in any case; attempt k runs on the links and nodes that the k failed ones before it left, the attempts before the last fail, and the last one works unless all three fail, which is exactly when the event is dead-lettered; a failed attempt writes at most the agent's updates and the verdicts of some affected clients to the nodes; an event whose answers all affect a poisoned client always ends in the dead letters |
| LinkageWorker.ReconcileKeepsClosed | src/linkage/linkage_worker.py:191-199 | reconciling leaves a trigger due iff it makes an order ready whose checklist has not started |
| LinkageWorker.ReconcileLeavesTriggerDue | src/linkage/linkage_worker.py:191-199 | that case occurs with one item and one confirmed link |
| MessageBuffer.Buffer.Add | src/router/worker.py:272-297 | a live scrap that is silent for longer than the gap, or full, is handed over and a new one starts; otherwise the message joins it |
| MessageBuffer.Buffer.FlushStale | src/router/worker.py:299-310 | exactly the scraps idle for the gap or longer go, in insertion order |
| BufferRuns.BufferConserves | src/router/worker.py:256-316 | for any calls, under each key the scraps handed over followed by the live one carry the messages and event ids put in: in order, once each |
| BufferRuns.ScrapsSized | src/router/worker.py:284-297 | every scrap has at least one message and at most the limit |
| BufferRuns.MessageJoins | src/router/worker.py:272-297 | a message joins the live scrap of its sender and entity iff that one is heard within the gap and has room; otherwise that scrap is handed over whole and a new one starts behind the others; nothing else changes |
| BufferRuns.ScrapsPaced | src/router/worker.py:284-297 | no silence inside a scrap is longer than the gap, if the messages carry their timestamps |
| BufferRuns.StaleFlushLeavesFresh | src/router/worker.py:299-310 | a stale flush hands over exactly the scraps not heard within the gap, the others stay live |
| Replay.ToEntities | src/router/worker.py:423-433 | a message goes to every entity it is routed to, then the stale scraps go, so that every live scrap was heard within the gap |
| Replay.HandleScraps | src/router/worker.py:376-396 | every scrap is processed once; the errors grow by the number of scraps that raise, the calls by that of the others |
| Replay.ReplayMessages | src/router/worker.py:338-452 | routed, unrouted and noise are counted as the routes say and add up to the total; the errors are the scraps handed over that raise and the calls the others; shared messages are fed on in order |
| Replay.AllHandedOver | src/router/worker.py:423-436 | after the last flush nothing is live and every routed message has been handed over in order, once for each route |
| ConversationRouter.Router.Feed | src/conversation/conversation_router.py:151-180 | a message after more than the gap flushes its group's buffer and starts a new one in its place; otherwise it joins |
| ConversationRouter.Router.FlushStale | src/conversation/conversation_router.py:182-200 | exactly the groups silent for longer than the gap go |
| ConversationRouter.Router.FlushAll | src/conversation/conversation_router.py:202-209 | all buffers go |
| ConversationRouter.RouterConserves | src/conversation/conversation_router.py:151-209 | for any calls a group's segments followed by its buffer are the messages fed to it, in order, once each |
| ConversationRouter.SegmentsSound | src/conversation/conversation_router.py:151-209 | segments are never empty and never mix groups |
| ConversationRouter.MessageJoins | src/conversation/conversation_router.py:151-180 | a message joins its group's buffer iff that one is empty or heard within the gap; otherwise the buffer goes as a segment and the message starts a new one in its place |
| ConversationRouter.SilentGroupsGo | src/conversation/conversation_router.py:182-200 | a flush sends off exactly the non-empty buffers whose silence is longer than the gap |
| ConversationRouter.SegmentsUnbroken | src/conversation/conversation_router.py:164-180 | no silence inside a segment is longer than the gap, if the messages carry their timestamps |
| ThreadEnhancement.MessageEntities | src/conversation/conversation_router.py:319-326 | the lookup knows exactly the messages of the conversations with a non-empty id, each under an entity that holds it |
| ThreadEnhancement.SpreadThread | src/conversation/conversation_router.py:337-374 | a thread with an assigned message becomes assigned as a whole: the first conversation of one entity that a message of the thread already has gains one scrap, the missing messages as the lookup holds them, in thread order; nothing else lands anywhere, and any other thread stays as it is |
| ThreadEnhancement.EnhanceWithReplyTree | src/conversation/conversation_router.py:309-380 | no assignment is lost, every thread with an assigned message is assigned as a whole; whatever a conversation gains are messages of the segment that were in none, each in one scrap, of several with one id the last, and another message of the thread is in a conversation of the same entity; if ids are not shared between threads that one was assigned before, and nothing else is assigned |
| ThreadEnhancement.AssignByReplies | src/conversation/conversation_router.py:244-251 | the messages with text are threaded by their best parents under the given score; whoever is connected by replies with an assigned message is assigned, and if no two messages with text share an id, only to a conversation of an entity that a connected message had before, and nobody else is |
| ThreadEnhancement.SplitSegment | src/conversation/conversation_router.py:285-295 | the ids of a segment fall exactly into those of its conversations and those left over, which keep their order |
| ConversationFlush.SenderMessages | src/conversation/scrap_detector.py:320-349 | scraps that hold the greedy cut of a sender's messages hold exactly that sender's messages of the segment, are in no conversation yet and name no entity twice |
| ConversationFlush.CutNamesOnce | src/conversation/conversation_router.py:235-241 | so the evidence lists that the manager works with have no repetitions |
| ConversationFlush.ConversationsOf | src/conversation/conversation_router.py:233-241 | detecting scraps and building conversations: each sender's scraps are the greedy cut of that sender's messages and name the entities of their evidence; the conversations are the book of the labels, each with the messages of its scraps in order; no scrap is held twice iff no payment is about the bookkeeping reference |
| ConversationFlush.Flush | src/conversation/conversation_router.py:211-307 | scraps, conversations, reply threads and split together: greedy cuts by sender and evidence, the conversations of their labels, and behind that only messages of the segment that none had, each gained once; replies of a held message are assigned, and if ids are distinct every gained message is connected by replies with one that its entity held; every id of the segment is in its conversations or left over, never both |
| IssueTracker.IssueIdInjective | src/tracing/issue_tracker.py:80-83 | without colons in case, message and dimension an id determines all four parts |
| IssueTracker.IssueIdsCollide | src/tracing/issue_tracker.py:80-83 | with a colon in a case id two cases can meet in one id |
| IssueTracker.StoredIssueWithout | src/tracing/issue_tracker.py:63-77 | a stored issue that lost some fields reads as the issue with the defaults in their places, and cannot be read without its id or status |
| IssueTracker.StoredIssueReturns | src/tracing/issue_tracker.py:48-77 | storing an issue and loading it again gives the same issue |
| IssueTracker.CurrentFailures | src/tracing/issue_tracker.py:255-264 | collects the failing assertions by id |
| IssueTracker.HandleFailures | src/tracing/issue_tracker.py:273-329 | new failures are detected, resolved ones regress, the others stay open; each id is listed once |
| IssueTracker.HandlePasses | src/tracing/issue_tracker.py:331-353 | open issues of the case that do not fail are resolved and listed once, no others |
| IssueTracker.UpdateIssuesFromEval | src/tracing/issue_tracker.py:234-356 | the whole run: exactly which issues change and how, and the four lists of changes, each id once |
| IssueTracker.RunTreatsIssue | src/tracing/issue_tracker.py:273-353 | a known issue regresses iff it was resolved and fails, is resolved iff it is an open or regressed one of the case and does not fail, and stays as it is otherwise |
| IssueTracker.RunOpensIssue | src/tracing/issue_tracker.py:281-306 | an unknown id becomes an open issue iff it fails, with the parts of the last check that failed, high for forbidden, medium for routing and node_update, low otherwise |
| IssueTracker.RunSettles | src/tracing/issue_tracker.py:273-353 | every failing id is known; an issue of the case that nobody gave up is alive iff it fails |
| IssueTracker.RunTwice | src/tracing/issue_tracker.py:234-356 | the same run once more finds every failure still open and changes nothing |
| IssueTracker.OtherCasesUntouched | src/tracing/issue_tracker.py:273-335 | a run leaves the other cases alone iff no failing id is taken by a resolved issue of one of them |
| IssueTracker.CasesAreIndependent | src/tracing/issue_tracker.py:80-353 | over any runs without colons a run of one case leaves every other case alone |
| IssueTracker.HistoriesAreWords | src/tracing/issue_tracker.py:279-353 | over any runs each history reads detected (resolved regressed)* [resolved] and the status tells its last event |
| IssueTracker.HistoriesGrow | src/tracing/issue_tracker.py:279-353 | issues are never lost and histories only grow |

## Left out

- ConversationManager.BuildConversations: scraps are values referred to by position, so that two conversations share one scrap object is not captured; conversation and scrap uuids and the assignment table are not modelled, and the group of a conversation is not stated.
- ScrapDetector.DetectScraps: the order of senders in the dictionary of strands is left open, so ties between senders in the sorted list are too.
- WorkingHours.WorkingHoursBetween: the zone is the fixed offset of +5:30 and hours are exact; the range of `datetime`, microsecond rounding and floating point are not modelled.
- ReplyTree.BuildReplyTree: message lists are chronological, as the source asks of its callers; texts are taken as trimmed and every message has an id.
- ThreadEnhancement.AssignByReplies: messages without the key `message_id` are not modelled; which of several entities a thread gets is left open, as in the source.
- ConversationFlush.Flush: the order of the conversations is left open, and the matching by dates and by the language model between reply threads and split is not modelled.
- RouterWorker.ApplyOutput: the clock is read once for all flags of an output; confidence, message id and author of a node update, node data and the stream event are not kept.
- LinkageWorker.ProcessEvent: which of the affected clients a failed reconciliation had reached is left open, as in the source. Node ids are pairs, so a task id that ends in another's node name cannot collide; audit rows and new task candidates are not kept.
- IssueTracker.UpdateIssuesFromEval: the evidence and commit diffs of an event are not kept, and the file itself is not modelled; a stored field of the wrong type reads as its default.
- Replay.ReplayMessages: `CacheMissError`, which ends a replay, and the errors of the final conversation flush are not modelled.
- Acknowledging messages that are routed to several entities is not modelled: one event id then sits in several scraps.
- Entity extraction, payment keywords, item matching, reply keywords, routing and every answer of a language model are parameters.
- Conversations built from threads, OCR enrichment and entity learning are not modelled.
- Template ordering, time-trigger alerts, task creation, per-message processing and the retry loop of the router worker are not modelled: they are tables, single writes and calls to services.
- Crashes between two transactions and races between the worker processes are not modelled: each step is atomic, and runs interleave whole steps.
