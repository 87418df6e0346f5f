# Trader rating service: a model and its proofs

The service keeps a weekly rating of traders. A listener folds client messages into a buffer; once a
minute the announcer's thread swaps buffers, waits for the workers to park, and recalculates; workers
send every connected trader the top ten and the surroundings of the trader's own place.

## What is modelled

- `Users.dfy`, `Incoming.dfy`: users, client messages, the incoming buffer and the dispatcher.
- `RankingOrder.dfy`: what the rating ought to be after a batch of deals. An order on users, the one
  sequence sorted by it, and a simple algorithm that deletes the changed users and re-inserts them.
- `PatchPass.dfy`: the patch multiset and the right-to-left walk over it.
- `RatingCalculator.dfy`: the recalculation itself, a class over maps, online sets and an array of
  user objects that is resized, block-moved and overwritten in place.
- `Batching.dfy`: a minute of messages at once compared with one message at a time; money over runs.
- `History.dfy`: what is known of a user and which errors are reported, read directly off the messages.
- `RefreshProtocol.dfy`, `RefreshProgress.dfy`, `HandOver.dfy`: listener, announcer and workers as a
  state machine of sequentially consistent steps; how long a refresh takes and when it waits; and
  that the hand-over assumptions are exactly what is needed.
- `MpscQueue.dfy`, `JobQueue.dfy`: the lock-free queue with nodes in a heap whose addresses are used
  again, and the round-robin distribution of jobs.
- `BinaryStorage.dfy`, `Transport.dfy`, `RatingMessage.dfy`, `ClientMessages.dfy`: byte streams,
  frames, the cached rating message and its reader, client messages and their parser.
- `Reports.dfy`: the rating message on top of the recalculated core data.
- `DateTime.dfy`, `RatingAnnouncer.dfy`: the announcer's minutes and the turn of the week.
- `Announcing.dfy`: clock, announcer and online sets together: who is announced in which second.
- `Listener.dfy`: the listener's loop from the bytes of a connection to the buffer.
- `Service.dfy`: any number of minutes of dispatching and recalculating, without the threads.

`CMakeLists.txt:6` defines `PASS_NAMES_AROUND`, so names and renames are part of the model.

## What was found

- The patch pass relies on an assertion (`service/rating_calculator.cpp:85-88`) that fails for some
  batches: it needs that no user the batch leaves alone gets a better place. Positive deals ensure
  that; nothing in the service rejects a deal of zero or less, and one of zero is enough to break it.
  The exact condition, in numbers of overtaken and overtaking users, is `NobodyRisesExactly`.
  Whenever two neighbours have won the same, a deal of zero for the first makes the recalculation
  fail (`ZeroDealFails`); a new service can be brought there in two minutes (`ServiceFails`).
- Batching differs from handling messages one at a time in two ways. Of two renames of a user within
  one minute the first one stays, because names are emplaced (`service/message_dispatcher.cpp:21`);
  one at a time keeps the last (`SecondRenameIsLost`). And what comes before a user's registration in the
  same minute counts, because registrations are processed first (`service/rating_calculator.cpp:126`);
  one at a time rejects it (`EarlyDealIsKept`). `BatchRefinesSequence` has the exact condition for all
  batches, user by user.
- The reader barrier needs two hand-over assumptions: the buffers are not switched while the listener
  is between them (`SwapGuardIsExact`), and the flag is not set again while a worker is between
  finding it reset and entering the reader count (`FlagGuardIsExact`). In every reachable state these
  are exactly the conditions under which the step is safe, and with any number of workers the service
  can get into a state where they fail (`LateListener`, `LateWorker`).
- A pointer in a queue may outlive its user exactly if the flag is set for a weekly drop while a
  worker that has not come back from the last refresh has pointers in its queue (`QueueGuardIsExact`,
  `SleepingWorker`).
- A refresh ends after a bounded number of steps, exactly unless the listener has looked up the old
  buffer for the last message and no other message comes: then the announcer waits for the next message
  (`RefreshEnds`, `OnlyAMessageHelps`), which is enough (`AMessageIsEnough`). It can come to that with
  any number of workers (`ARefreshMayWait`).
- The announcer is started before the worker pool sets the reader count (`service/overseer.cpp:79-80`).
  That does no harm: the listener has claimed its buffer by then (lines 75-76), so the first
  recalculation waits for it, and it reads its first message only when the pool is started (line 86).
  All invariants hold from there on (`AnnouncerMayStartFirst`).
- The repository's own README (line 13) promises a report to every connected user each minute; the
  announcer serves those who also have a deal since the last drop. Each second's set is exactly the
  users connected in it who do (`WhoIsAnnounced`, `RatedExactly`); the first minute after a start or a
  drop announces only the sets from the present second on (`AnnounceAll`). A user who registers and
  connects is not announced (`ConnectedWithoutDeals`). The model follows the code.

## Model

| member | source | states |
|---|---|---|
| RankingOrder.SortedUnique | service/rating_calculator.cpp:75-80 | two sequences of the same users that are both sorted by the new amounts and the tie rules are equal |
| RankingOrder.ReferenceIsRanking | service/rating_calculator.cpp:139-163 | deleting the changed users and inserting them again by ascending id gives the sorted ranking of all users |
| RankingOrder.RankingIsReference | service/rating_calculator.cpp:139-163 | whatever is sorted is what deleting and re-inserting gives |
| RankingOrder.WinsLiftNobodyElse | service/rating_calculator.cpp:288-302 | if every ranked user touched by a batch ends up with more, no untouched user gets a better place |
| RankingOrder.NewPlace | service/rating_calculator.cpp:139-163 | an untouched user's new place is the old one plus those who come past minus those who fall behind |
| RankingOrder.NobodyRisesExactly | service/rating_calculator.cpp:85-88 | no untouched user rises exactly if for each of them no more users fall behind than come past |
| RankingOrder.ZeroDealLifts | service/rating_calculator.cpp:85-88 | a deal of nothing by the first of two users with equal amounts lifts the second, the case the assertion excludes |
| PatchPass.EmplaceKeepsOrder | service/rating_calculator.cpp:30-39 | a multiset insertion keeps the patches ordered, entries with equal keys by insertion |
| PatchPass.AddRanked | service/rating_calculator.cpp:292-302 | the two patches of a ranked user extend a batch's patch list by that user, and the vector's size stays |
| PatchPass.AddFresh | service/rating_calculator.cpp:305-324 | the one patch of a new user extends the list by that user, and the vector grows by one |
| PatchPass.PatchListPlaced | service/rating_calculator.cpp:131-163 | the spots of all patches lie in the old rating and move left, a user's old place before anything behind it |
| PatchPass.PatchedIsRanking | service/rating_calculator.cpp:139-163 | walking the patches of any batch builds exactly the ranking sorted by the new amounts, everybody once |
| PatchPass.PatchedIsReference | service/rating_calculator.cpp:139-163 | the walk agrees with deleting and re-inserting the changed users |
| PatchPass.MovedTo | service/rating_calculator.cpp:145-156 | a user of a moved block ends up `offset` places to the right of the old place |
| PatchPass.MovesRightExactly | service/rating_calculator.cpp:85-88 | no block is moved to the left exactly if the batch lifts no untouched user |
| PatchPass.MoveKeepsLayout | service/rating_calculator.cpp:90-93 | a block move overwrites no user the walk has not reached, and puts the block in front of the finished part |
| PatchPass.WalkEnds | service/rating_calculator.cpp:131-163 | at the end the offset is zero and the vector is the new ranking |
| RatingCalculator.RatingCalculatorImpl.RatingElementsAfter | service/rating_calculator.cpp:75-80 | binary search finds how many ranked users have won less, and these are the last ones |
| RatingCalculator.RatingCalculatorImpl.PatchRanked | service/rating_calculator.cpp:297-301 | a ranked user's two patches, from the stored place and the search for the new total, extend the batch's patch list |
| RatingCalculator.RatingCalculatorImpl.PatchFresh | service/rating_calculator.cpp:318-323 | a new user's patch does, and one more element is counted |
| RatingCalculator.RatingCalculatorImpl.RatingMoveBlock | service/rating_calculator.cpp:82-94 | the block is copied to the right, or nothing happens, or the assertion fails, exactly as its conditions say |
| RatingCalculator.RatingCalculatorImpl.RatingInsert | service/rating_calculator.cpp:96-100 | one element is overwritten, or the assertion fails |
| RatingCalculator.RatingCalculatorImpl.RatingRefreshPositions | service/rating_calculator.cpp:102-106 | every user stores the own place |
| RatingCalculator.RatingCalculatorImpl.DropRating | service/rating_calculator.cpp:170-182 | everybody is silent, nobody is forgotten, rating and online sets are empty, names and seconds stay |
| RatingCalculator.RatingCalculatorImpl.ProcessRegistrations | service/rating_calculator.cpp:186-211 | unknown ids become silent users, known ones are reported in order, all invariants stay |
| RatingCalculator.RatingCalculatorImpl.ProcessRenames | service/rating_calculator.cpp:215-241 | known users get their new name, unknown ids are reported in order, all invariants stay |
| RatingCalculator.RatingCalculatorImpl.ChangeConnection | service/rating_calculator.cpp:249-266 | an active user moves between online sets, which still hold exactly the users connected in their second |
| RatingCalculator.RatingCalculatorImpl.ProcessConnectionChanges | service/rating_calculator.cpp:245-284 | known users get their new second, unknown ids are reported in order, all invariants stay |
| RatingCalculator.RatingCalculatorImpl.Activate | service/rating_calculator.cpp:310-325 | a silent user becomes an active one with the deal as amount, joins the online set of the own second, and is silent no more |
| RatingCalculator.RatingCalculatorImpl.ProcessDeal | service/rating_calculator.cpp:288-333 | one deal adds its user to the batch with the new total and keeps patches, maps and online sets consistent, or is reported |
| RatingCalculator.RatingCalculatorImpl.ProcessDeals | service/rating_calculator.cpp:288-336 | after the deal map the patch list is that of all users with deals, new users are active and online |
| RatingCalculator.RatingCalculatorImpl.ApplyPatch | service/rating_calculator.cpp:139-163 | one step of the pass keeps finished part, unread part, offset and counters in step; it fails exactly if its block would move left |
| RatingCalculator.RatingCalculatorImpl.ApplyPatches | service/rating_calculator.cpp:131-163 | the pass succeeds exactly if no untouched user rises, and then the vector is the patched ranking and amounts are the new totals |
| RatingCalculator.RatingCalculatorImpl.Begin | service/rating_calculator.cpp:121-124 | a drop, if asked for, takes all amounts and the rating, nothing else |
| RatingCalculator.PositiveDeals | service/rating_calculator.cpp:288-302 | if all deals of known users are positive the pass succeeds |
| RatingCalculator.RatingCalculatorImpl.Recalculate | service/rating_calculator.cpp:121-166 | success exactly if no untouched user rises, ensured by positive deals; then all invariants hold, the rating is the sorted ranking, known users and errors are those of the stages, and the buffer is empty |
| RatingCalculator.RatingCalculatorImpl.WhoIsAnnounced | service/rating_announcer.cpp:111-115 | the users announced in a second are exactly those connected in it who take part in the rating |
| Incoming.MessageDispatcher.SetBuffer | service/message_dispatcher.cpp:9-9 | the other buffer is used from now on, queued jobs stay |
| Incoming.MessageDispatcher.Dispatch | service/message_dispatcher.cpp:11-36 | a message changes the buffer as the fold says; a connection queues a job whose promise tells if the registration is in the same buffer |
| Batching.StagesAreRecalculation | service/rating_calculator.cpp:126-129 | the stages together give the recalculated users and the errors of the batch in order |
| Batching.FoldSplits | service/message_dispatcher.cpp:11-36 | a buffer keeps registrations apart from everything else |
| Batching.BatchIsSequential | service/rating_calculator.cpp:126-129 | a batch gives the same users as its registrations followed by its other messages one at a time, exactly if no known user is renamed twice to different ends |
| Batching.BatchRefinesSequence | service/rating_calculator.cpp:126-129 | any batch gives the same users as its messages one at a time, exactly if for known users first and last rename agree and for new ones what comes before the registration makes no difference; if nobody is addressed before being registered, exactly if renames agree |
| Batching.EarlyDealIsKept | service/rating_calculator.cpp:126-129 | a deal before the registration in the same minute is credited by the batch and rejected one at a time, though no rename disagrees |
| Batching.SecondRenameIsLost | service/message_dispatcher.cpp:19-23 | two renames in one batch keep the first name, one at a time the second |
| Batching.KnownIsRegistered | service/rating_calculator.cpp:170-211 | after any number of recalculations and drops exactly the users ever registered are known |
| Batching.RatedExactly | service/rating_calculator.cpp:170-182 | after any number of recalculations exactly those users take part in the rating who, being registered, have a deal not followed by a drop |
| Batching.MoneyIsConserved | service/rating_calculator.cpp:288-336 | over any run a user's deals are the present amount plus what drops took plus what was rejected while unknown |
| History.BufferIs | service/message_dispatcher.cpp:11-36 | the buffer holds each user's first registration, first rename, last connection or disconnection, and the sum of the deals if there are any |
| History.RecordIs | service/rating_calculator.cpp:170-284 | after any minutes, with or without drops, exactly the registered users are known, their second is that of the last connection since the minute of the registration, 60 if none, and their name the first one of the last minute with a rename, else the registered one |
| History.DropsTakeAmountsOnly | service/rating_calculator.cpp:170-182 | any minutes leave the same users with the same names and seconds as the same minutes without drops |
| History.ErrorsAre | service/rating_calculator.cpp:186-336 | a recalculation reports a multiple registration exactly for registrations of users known before, then an unrecognized user exactly for renames, then connections, then deals of users neither known nor registered, each once by ascending id |
| Announcing.SecondsAreSets | service/rating_announcer.cpp:64-65 | a whole minute announces the online sets of all 60 seconds, each once, in order |
| Announcing.AnnouncedInOwnSecond | service/message_dispatcher.cpp:25-28 | a user in the rating connected at a time is in the set of the second of that time, 59 included, and in no other |
| Announcing.DisconnectedIsNotAnnounced | service/core_data.h:27-27 | a user whose second is 60 is in no set |
| Announcing.WhoIsAnnouncedWhen | service/rating_announcer.cpp:64-65 | from the messages alone: in a second's set are exactly the users who have connected last in that second and have a deal since the last drop |
| Listener.DispatchOne | service/overseer.cpp:102-109 | the message object for the code is dispatched, a connection with the second of the time |
| Listener.Listen | service/overseer.cpp:85-109 | of a connection over which messages were written, exactly these are folded into the buffer, in order, to the last byte |
| Service.FoldIsPositive | service/message_dispatcher.cpp:34-36 | if all deals of a minute are positive, so are the totals in its buffer |
| Service.Serve | service/rating_calculator.cpp:121-166 | over any number of minutes, all invariants hold and the users are those the messages call for, until a recalculation fails; then its batch lifts a user it leaves alone, and one of its deals is not positive |
| Service.ZeroDealFails | service/rating_calculator.cpp:85-88 | in any valid state in which two neighbours in the rating have won the same, a deal of zero for the first makes the recalculation fail |
| Service.ServiceFails | service/rating_calculator.cpp:85-88 | a new service gets into such a state with one minute of two equal deals, and fails in the next one |
| Service.ConnectedWithoutDeals | service/rating_announcer.cpp:64-65 | a user who has registered and connected, but made no deal, is in no second's set of users to be announced |
| RefreshProtocol.InitOk | service/worker_pool.cpp:36-45 | the state after the worker pool has started satisfies all protocol invariants |
| RefreshProtocol.WorkersStep | service/worker_pool.cpp:72-87 | every step keeps lock ownership, flag, reader count and worker states in agreement, if the flag is not set before all returning workers are counted |
| RefreshProtocol.ListenerStep | service/overseer.cpp:86-99 | every step keeps the writer counts right and the listener behind only while the announcer waits for it |
| RefreshProtocol.DataStep | service/rating_calculator.cpp:352-373 | every step keeps each dispatched message in exactly one recalculation or buffer, in order |
| RefreshProtocol.RewritesAlone | service/rating_calculator.cpp:359-373 | in every run, while core data is rewritten all workers are parked and the listener does not write the drained buffer |
| RefreshProtocol.ReadersAreCounted | service/worker_pool.cpp:78-84 | in every run the reader count is the number of workers not between parking and rejoining |
| RefreshProtocol.DispatchedAsRead | service/overseer.cpp:85-109 | in every run the messages dispatched, followed by the one in hand, are the messages read, unchanged and in order |
| RefreshProtocol.DropsAsRequested | service/rating_calculator.cpp:352-373 | in every run the recalculations done and the one under way drop the rating exactly if they have been called to |
| RefreshProtocol.ServedAsAnnounced | service/worker_pool.cpp:139-150 | in every run the jobs a worker has taken, followed by those in its queue, are the jobs announced to it, in order |
| RefreshProtocol.NothingIsLost | service/overseer.cpp:74-109 | in every run the messages read are those recalculated, then the old buffer's, then the current one's, then the one in hand, and core data is what the recalculations made of them |
| RefreshProtocol.MoneyInARun | service/message_dispatcher.cpp:34-36 | in every state of every run a user's deals in the messages read are in hand, in the buffers, the amount, the drops or the rejected deals |
| RefreshProtocol.NobodySleepsOn | service/rating_calculator.cpp:375-383 | between two refreshes every sleeping worker has been notified |
| RefreshProtocol.PointersNeverDangle | service/worker_pool.cpp:139-150 | if workers who are late for a drop have empty queues, queued pointers always point to existing users; if that holds for every refresh, queues are empty while core data is rewritten |
| RefreshProgress.MeasureStep | service/worker_pool.cpp:72-84 | every step but a message, a job, a wakeup and the start of a refresh lowers the measure, and these raise it by a fixed amount |
| RefreshProgress.StepsArePaid | service/rating_calculator.cpp:352-384 | in every run any stretch of steps is bounded by the measure at its start and the messages, jobs, wakeups and refreshes in it |
| RefreshProgress.NeverStuck | service/rating_calculator.cpp:361-369 | if nobody can go on without something from outside, no refresh is under way, or the announcer waits for a listener without a message |
| RefreshProgress.RestExactly | service/worker_pool.cpp:64-120 | nothing is left to do without something from outside exactly if the listener has no message and either no refresh is under way, all workers are back and every queued job is taken, or the announcer waits for a message and all workers sleep |
| RefreshProgress.OnlyAMessageHelps | service/overseer.cpp:86-99 | in that state only a message moves announcer and listener, whatever the workers do |
| RefreshProgress.WaitsUntilMessage | service/overseer.cpp:86-99 | whether a refresh is going to wait is decided when its buffers are switched, and changed by nothing but a message |
| RefreshProgress.RefreshEnds | service/rating_calculator.cpp:352-384 | without anything from outside a refresh comes to rest within the measure, and is then over exactly unless it was going to wait |
| RefreshProgress.ComesToRest | service/rating_calculator.cpp:352-384 | every run can be continued to a state at rest without anything from outside |
| RefreshProgress.AMessageIsEnough | service/overseer.cpp:86-99 | after one message, the refresh under way ends without another one |
| RefreshProgress.ARefreshMayWait | service/rating_calculator.cpp:365-365 | with any number of workers there is a run that comes to rest with the announcer waiting for a message |
| HandOver.SwapGuardIsExact | service/overseer.cpp:92-99 | in every reachable state switching the buffers is safe exactly if the listener is not between them: otherwise it may write the buffer being drained |
| HandOver.FlagGuardIsExact | service/worker_pool.cpp:79-84 | in every reachable state setting the flag is safe exactly if no worker has found it reset without entering the reader count: otherwise it may read core data being rewritten |
| HandOver.QueueGuardIsExact | service/worker_pool.cpp:72-84 | in every reachable state setting the flag keeps pointers valid, or queues empty during the rewrite, exactly if workers not back have empty queues |
| HandOver.AnnouncerMayStartFirst | service/overseer.cpp:75-86 | whatever the announcer has done before the first message is read, starting the worker pool then gives a state with all invariants, from which no clash can be reached |
| HandOver.LateListener | service/overseer.cpp:92-99 | with any number of workers a run without the listener's assumption leads to writing into the buffer being drained |
| HandOver.LateWorker | service/worker_pool.cpp:79-84 | with any number of workers a run without the workers' assumption leads to any one of them reading core data while it is rewritten |
| HandOver.SleepingWorker | service/worker_pool.cpp:72-84 | with both, and any number of workers, any one of them asleep for a minute may keep a pointer to a destroyed user |
| MpscQueue.NewKeeps | service/job_queue.cpp:37-40 | allocating a node, at an address that may have been used before, keeps the queue's invariants |
| MpscQueue.ExchangeKeeps | service/job_queue.cpp:41-41 | the tail exchange keeps them |
| MpscQueue.LinkKeeps | service/job_queue.cpp:42-42 | the link store keeps them |
| MpscQueue.ConsumerKeeps | service/job_queue.cpp:45-52 | every step of the consumer, loading the next pointer, moving the head, taking the value and deleting the old head, keeps them |
| MpscQueue.PoppedInOrder | service/job_queue.cpp:37-58 | in every run what has been popped is a prefix of what has been pushed in the order of the exchanges |
| MpscQueue.NoUseAfterFree | service/job_queue.cpp:37-58 | in every run nobody touches a node that is not allocated, and the node a producer will link from is still the one it got from its exchange, not linked yet, not passed by the head and not about to be deleted |
| MpscQueue.NothingLeaks | service/job_queue.cpp:52-52 | in every run the allocated nodes are exactly those from the head on, those about to be pushed, and the old head about to be deleted |
| MpscQueue.PushedAsAsked | service/job_queue.cpp:37-43 | in every run what a producer has pushed, and the value it is about to push, are what it was called with, in order |
| MpscQueue.FirstInFirstOut | service/job_queue.cpp:37-58 | in every run the consumer gets the values of each producer in the order of its calls without gaps, and all of them when the queue is drained |
| MpscQueue.EmptyOrDelayed | service/job_queue.cpp:45-48 | the queue looks empty exactly if everything is popped or the next push is not linked yet |
| MpscQueue.QuietQueueDrains | service/job_queue.cpp:45-58 | with no push under way repeated pops return all that was pushed |
| JobQueue.RoundRobin.Enqueue | service/job_queue.cpp:88-110 | the next job goes behind the earlier ones of the next queue, and queue q keeps jobs q, n + q, 2n + q and so on |
| JobQueue.RoundRobin.JobIsInItsQueue | service/job_queue.cpp:88-110 | job j is entry j / n of queue j mod n |
| JobQueue.RoundRobin.QueuesAreEven | service/job_queue.cpp:88-110 | no queue ever gets two of a thread's jobs more than another one |
| JobQueue.RoundRobin.JobsArriveInOrder | service/job_queue.cpp:88-152 | through the queues, whatever the interleaving, worker q gets a thread's jobs q, n + q, 2n + q and so on in that order, and all of them when its queue is drained |
| JobQueue.Quotient | service/job_queue.cpp:88-110 | a job number belongs to one place of one queue only |
| BinaryStorage.BinaryOStream.WritePod | utils/binary_storage.h:103-112 | bytes are written over the buffer from the cursor on, which grows only if they do not fit |
| BinaryStorage.BinaryOStream.WriteBuffer | utils/binary_storage.h:114-128 | a short buffer is written behind its length in the same way |
| BinaryStorage.BinaryOStream.SetPos | utils/binary_storage.h:80-88 | the cursor moves within the buffer, nothing else changes |
| BinaryStorage.BinaryOStream.Rewind | utils/binary_storage.h:90-99 | everything behind the position is cut off, or nothing happens |
| BinaryStorage.BinaryIStream.ReadBytes | utils/binary_storage.h:31-40 | the next bytes are returned and passed, or the underflow is reported and nothing is passed |
| BinaryStorage.BinaryIStream.ReadBuffer | utils/binary_storage.h:42-56 | a length and as many bytes are returned and passed, or the underflow is reported |
| BinaryStorage.OverlayTwice | utils/binary_storage.h:103-128 | writing two things one after the other is writing both at once |
| BinaryStorage.OverlayAt | utils/binary_storage.h:103-128 | each byte of the result is the one written, or the one that was there |
| BinaryStorage.WordLayout | utils/binary_storage.h:103-112 | exactly the numbers from -2^31 to 2^31 - 1 fit four bytes, which are in two's complement with the low one first |
| BinaryStorage.LongLayout | utils/binary_storage.h:103-112 | the same for eight bytes |
| BinaryStorage.TakesExactly | utils/binary_storage.h:31-56 | reading an integer or a buffer fails exactly if bytes are missing, and otherwise takes those in front |
| BinaryStorage.TakesInt | utils/binary_storage.h:31-40 | an integer that fits its width is read back from its bytes |
| BinaryStorage.TakesBuffer | utils/binary_storage.h:42-56 | a buffer of at most 255 bytes is read back from its bytes |
| Transport.FrameRefused | ipc/transport.h:107-121 | a frame is refused exactly if its size is missing or below two, or bytes are missing |
| Transport.TakesFrame | ipc/transport.h:107-121 | a framed payload that fits the size field is received whole, and what follows stays |
| Transport.WriteMessage | ipc/transport.h:197-202 | the size goes over the space kept for it and the frame of the rest is sent |
| RatingMessage.CountsAgree | ipc/protocol.h:404-407 | for all lengths and positions the reader's three-term count is the number of lines written, at most 31 |
| RatingMessage.WhoIsShown | service/worker_pool.cpp:222-226 | the lines are the first ten places and those at most ten places away, each once and in order |
| RatingMessage.FrameFits | ipc/transport.h:197-202 | every frame, with names of up to 255 bytes, is small enough for its two-byte size field, which therefore holds the true size |
| RatingMessage.OnTheWire | ipc/protocol.h:365-368 | the frame is, byte by byte, its size, code 2, the user's id, the length of the rating, the place, and the lines |
| RatingMessage.LineOnTheWire | ipc/protocol.h:370-384 | a line is the id, the amount, and the name behind its length |
| RatingMessage.StorePackHeader | ipc/protocol.h:365-368 | the twelve bytes of the header go over the buffer from the cursor on |
| RatingMessage.StorePackEntry | ipc/protocol.h:370-384 | so do the bytes of one line |
| RatingMessage.RatingBufferData.CacheTopRatings | service/worker_pool.cpp:191-211 | whatever was in the buffer, it then holds exactly the top of the rating |
| RatingMessage.RatingBufferData.ProcessRatingImpl | service/worker_pool.cpp:215-243 | the frame sent is byte for byte the one encoded from scratch, and the cache is as before |
| RatingMessage.RatingBufferData.ProcessRating | service/worker_pool.cpp:160-177 | active users get their place, silent and promised ones the place behind the last, others an error |
| RatingMessage.PackRoundTrip | ipc/protocol.h:396-418 | reading an encoded rating returns the same header and lines and consumes every byte |
| RatingMessage.RatingPackMessage.Init | ipc/protocol.h:396-418 | the message object is filled as the parser says, or the input is refused |
| ClientMessages.Client.Store | ipc/protocol.h:91-192 | the fields of a message are appended to the buffer |
| ClientMessages.Client.Send | ipc/transport.h:235-248 | a buffer used again and again sends exactly the encoding of each message |
| ClientMessages.OnTheWire | ipc/protocol.h:91-192 | the frame is, byte by byte, its size, the code from 1 to 5, the id, and the name behind its length or the amount |
| ClientMessages.BodyRefused | ipc/protocol.h:209-240 | a body is refused exactly if the code is none of the five, or bytes are missing |
| ClientMessages.TakesMessage | ipc/protocol.h:209-240 | code and fields of every well-formed message are read back |
| ClientMessages.MessageBuilder.Receive | ipc/transport.h:107-121 | the payload of the next frame is taken off the connection, or there is a transport error |
| ClientMessages.MessageBuilder.InitBody | service/message_builder.h:58-66 | the message object for the code is filled, or the code is unknown or the payload too short |
| ClientMessages.MessageBuilder.Build | service/message_builder.h:51-69 | the message object for the returned code holds the next message on the connection |
| ClientMessages.MessageBuilder.BuildAll | service/overseer.cpp:84-86 | of a connection over which messages were written, exactly these are read, to the last byte |
| ClientMessages.MessagesRoundTrip | service/message_builder.h:51-69 | well-formed messages framed and strung together are read back in order, and what follows stays |
| Reports.KnownFits | service/rating_calculator.cpp:186-241 | if ids and names of all messages fit the wire, those of all known users do, after any number of minutes |
| Reports.OwnLine | service/worker_pool.cpp:154-156 | the message to an active user, read back, has the user's place in the recalculated rating and the user's own line, and everybody with more is in front |
| Reports.ReportById | service/worker_pool.cpp:160-177 | on recalculated core data known or promised users get a message with their place, behind the last one if they have none, and others do not |
| DateTime.WeekStartsOnMonday | utils/date_time.h:19-27 | the week start is the greatest Monday midnight not after the time, in the calendar in which 1970-01-01 was a Thursday |
| DateTime.CurrentSecondIndex | utils/date_time.h:41-47 | the second within the minute is below 60 |
| DateTime.SecondOfTheMinute | utils/date_time.h:41-47 | the second index is the second of the minute in which the time lies |
| DateTime.UsualLengths | utils/date_time.h:41-47 | in nanoseconds the second index is the second count modulo 60, and a week start is less than seven days ago |
| DateTime.WeekOf2024 | utils/date_time.h:19-27 | all times in the first week of 2024 have the midnight of January 1st as week start |
| RatingAnnouncer.NextMinute | service/rating_announcer.cpp:56-105 | every minute keeps the shape of the events around turns of the week |
| RatingAnnouncer.TurnThenDrop | service/rating_announcer.cpp:90-104 | after a turn is noticed come one recalculation without a drop, all 60 seconds, and the drop |
| RatingAnnouncer.DropEndsQuietMinute | service/rating_announcer.cpp:90-104 | every drop but one at the start ends such a minute |
| RatingAnnouncer.NextDates | service/rating_announcer.cpp:57-62 | every drop is for a later week than all before |
| RatingAnnouncer.RatingAnnouncer.constructor | service/rating_announcer.cpp:35-53 | a first start takes the present week, a later one drops at once if the kept week is not the present one |
| RatingAnnouncer.RatingAnnouncer.AnnounceAll | service/rating_announcer.cpp:64-74 | the seconds from the index to the end of the minute are announced once each, in order |
| RatingAnnouncer.RatingAnnouncer.FinishMinute | service/rating_announcer.cpp:90-104 | a turn is noticed, or the one noticed before calls for a drop, and the next minute begins with the right second |
| RatingAnnouncer.RatingAnnouncer.WorkAMinute | service/rating_announcer.cpp:56-105 | one minute appends the events it should, and the date grows strictly at a drop and stays otherwise |

## Left out

- Recalculate: states nothing about users and errors when the pass fails on its assertion, because the service then aborts; a build without assertions is not modelled.
- Money and ids are unbounded integers in the rating; the wire formats state the widths they need. An amount is a `long`, whose width is a constant of four bytes (Windows, `CMakeLists.txt:9`) or eight; everything is proved for both.
- Error text and the error message format, which is a rating message without a cache.
- Class boundaries of the core data: the fields of `CoreRatingData`, `IterationData` and `RatingCalculatorImpl` are in one class, the error queue is a sequence.
- Iteration order of the unordered maps and online sets, which no result depends on.
- A worker's view of a rated user is a value with id, amount and name, so aliasing between the message and the user objects is not captured.
- The recalculation is one step of the protocol model that always succeeds; `Recalculate` states what it does and exactly when it fails on its assertion, after which there is no service.
- Queues of ids and errors in the protocol model; they hold no pointers to users.
- Shutdown, exceptions and reconnects, after which reader counts are not restored.
- Weak memory orderings; every atomic operation is one sequentially consistent step.
- Mutual exclusion of socket writes, sockets themselves, sleeping and reading clocks; times and bytes are inputs.
- Frames with a size below two, which make the service fail on an allocation, are transport errors here.
- A round-robin index that outlives its queue: it is thread-local and starts at zero here.
- The handshake, which fixes a protocol version before any other message.
