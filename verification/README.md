# tgin: a verified model of its limiters, queue and protocols

tgin routes Telegram updates from bots to consumers. What is hard in it is a
handful of small state machines. This project models them in Dafny and proves,
for every input and every run, what the code and its documentation promise.
Time is in whole nanoseconds on unbounded integers.

| files | what they hold |
|---|---|
| `Gcra.dfy`, `Calendar.dfy`, `CalendarRuns.dfy` | the quota, the GCRA step, the slot calendar with its `earliest` search, and whole runs of it |
| `Keyed.dfy` | the keyed limiter with stamped, undoable bookings and its sweep |
| `SortedSets.dfy`, `QueueModel.dfy`, `QueueIndex.dfy`, `LeaseQueue.dfy`, `QueueRuns.dfy` | the lease queue: the naive model, the indexes, the class that maintains them step by step, and what every run keeps |
| `Admission.dfy`, `AdmissionRuns.dfy`, `AdmissionCopies.dfy` | admissions and retirements as interleaved atomic steps over many queues, whole runs of them, an admission nobody disturbs, and what the queued copies are copies of |
| `Reload.dfy`, `ReloadRuns.dfy` | planning and committing a reload, ending drains, and every sequence of them |
| `Breaker.dfy`, `Webhook.dfy`, `LongPoll.dfy` | the lock-free breaker, webhook acknowledgement against shutdown, the long-poll offset |
| `JsonText.dfy` | the JSON string decoder and writer |

How the pieces are stated. The calendar is described by one pairwise condition
on sorted starts (`Gcra.Conforms`) that mentions no algorithm; `earliest`,
folding and the GCRA are each proved against it. The lease queue is a class with
the source's fields; each method is proved to do what the naive model
`QueueModel.Step` does and to leave every index equal to what recomputing it
from the entries gives. Ordering, wake-ups, limits and conservation are then
lemmas about every run of that model. Concurrency is a transition system whose
steps are the source's atomic steps (one lock section, one load, one
compare-exchange), with any number of threads.

Three documented properties are not true of the code. The code is followed, a
concrete run shows each failing, and the exact condition is proved:

- `crates/tgin-core/src/sink.rs:11` says that an admitted update is queued for at
  least one consumer. `AdmissionRuns.AdmittedNowhere` is a run that ends admitted
  with no copy anywhere; `AdmissionRuns.AdmissionAlone` says when this happens to
  an admission that nobody disturbs.
- `crates/tgin-runtime/src/breaker.rs:48` says that the breaker opens after
  `failure_threshold` consecutive failures. `Breaker.OpensDespiteSuccess` is a run
  with a success between the failures; `Breaker.OpensAtThreshold` proves the
  property when no call's steps are split by another call.
- The comment at `crates/tgin-botapi/src/webhook.rs:344-352` says that every
  acknowledged update is visible to the shutdown's drain.
  `Webhook.RevivalHidesCopy` and `Webhook.EndingHidesCopy` are runs in which the
  first `pending` misses one, because a reload moves its instance between the two
  reads of `pending`, or because its drain is being ended;
  `Webhook.AcknowledgedCopiesAreSeen` proves that nothing else is ever missed.

## Model

| member | source | states |
|---|---|---|
| Gcra.Interval | crates/tgin-runtime/src/limit.rs:89-98 | the emission interval is the least whole nanosecond count whose rate does not exceed the quota; only a zero period is an error |
| Gcra.NewQuota | crates/tgin-runtime/src/limit.rs:46-57 | a quota of `burst` has tolerance `T * (burst - 1)`, with `T` the least interval whose rate is not above `count / per` |
| Gcra.DeniedUntil | crates/tgin-runtime/src/limit.rs:138-143 | the delay of a booking and a denial's `retry_after` are exact: a request that will not wait is admitted from then on and not before |
| Gcra.ConformsIffAdmitted | crates/tgin-runtime/src/limit.rs:264-270 | sorted starts satisfy the pairwise distance condition if and only if the GCRA lets each of them start at once |
| Gcra.ConformsSplit | crates/tgin-runtime/src/limit.rs:378-381 | a prefix of starts constrains the rest only through the arrival time it leaves |
| Gcra.WindowHolds | crates/tgin-runtime/src/limit.rs:264-276 | starts that keep the documented distance never exceed `burst + w / T` in any window of length `w` |
| Calendar.Earliest | crates/tgin-runtime/src/limit.rs:399-465 | for every conforming calendar and start, the scan returns the least instant at or after the start whose booking keeps the calendar conforming, and always finds one |
| Calendar.SuffixMin | crates/tgin-runtime/src/limit.rs:422-425 | each entry is the smallest lead from that position on |
| Calendar.PrefixMax | crates/tgin-runtime/src/limit.rs:427-431 | the largest of the floor and the leads before the start position |
| Calendar.FeasibleIffFits | crates/tgin-runtime/src/limit.rs:399-405 | a booking at a position keeps every pair of starts and the floor bound exactly when it meets the three comparisons with the largest lead before and the smallest shifted lead after |
| Calendar.ScanStep | crates/tgin-runtime/src/limit.rs:433-462 | a position that passes holds the earliest instant, one that fails holds none, and the last position always passes |
| Calendar.FoldingChangesNoAnswer | crates/tgin-runtime/src/limit.rs:378-397 | after folding the past, the earliest instant for every start from `now` on is the same, and the calendar still conforms |
| Calendar.SlotCalendar.FoldBefore | crates/tgin-runtime/src/limit.rs:382-397 | the floor becomes the arrival time after the bookings before `now`, which leave the calendar; the rest conform to it |
| Calendar.SlotCalendar.Acquire | crates/tgin-runtime/src/limit.rs:325-345 | the answer is the earliest instant of the unfolded calendar if it is within the delay, else when it would be; only an admitted request is booked |
| Calendar.SlotCalendar.Cancel | crates/tgin-runtime/src/limit.rs:352-358 | one booking at that instant goes, nothing if it is already gone, and the calendar still conforms |
| Calendar.SlotCalendar.RetainRecent | crates/tgin-runtime/src/limit.rs:361-367 | folds exactly the bookings before `now` |
| CalendarRuns.InOrderItIsTheGcra | crates/tgin-runtime/src/limit.rs:325-345 | asked in time order without a start, a calendar gives every request the delay or the denial that the single-TAT GCRA gives it |
| CalendarRuns.NeverCancelledConform | crates/tgin-runtime/src/limit.rs:259-276 | over every run of out-of-order bookings, cancellations and folds, the starts never cancelled, folded ones included, keep `t_j - t_i >= (j - i + 1 - burst) * T`, and so the window bound |
| CalendarRuns.AnswersAreUnfolded | crates/tgin-runtime/src/limit.rs:271-273 | in every run each answer is the one the whole unfolded history gives |
| CalendarRuns.CancelUndoesAcquire | crates/tgin-runtime/src/limit.rs:347-358 | cancelling a booking right away leaves the calendar as if it had only been folded |
| CalendarRuns.BookingsStayBounded | crates/tgin-runtime/src/limit.rs:273-276 | with every booking within `d` of its `now`, at most `burst + d / T` bookings are kept, at every point of every run |
| Keyed.KeyedLimiter.Acquire | crates/tgin-runtime/src/limit.rs:175-203 | books for the key alone, within the delay, with a stamp no booking had, remembering the entry it replaced; a denial changes nothing |
| Keyed.KeyedLimiter.Cancel | crates/tgin-runtime/src/limit.rs:212-227 | puts back the entry the booking replaced when the entry still carries its stamp, else nothing; other keys are untouched |
| Keyed.KeyedLimiter.RetainRecent | crates/tgin-runtime/src/limit.rs:232-245 | keeps exactly the keys whose arrival time is past `now` |
| Keyed.ToldIsExact | crates/tgin-runtime/src/limit.rs:175-203 | what a caller is told, admitted or denied, is exactly when a request for that key that will not wait is let through |
| Keyed.SweepForgetsExactlyIdle | crates/tgin-runtime/src/limit.rs:229-237 | a sweep forgets a key if and only if it would answer every later request as a fresh key |
| Keyed.SweepsChangeNoAnswer | crates/tgin-runtime/src/limit.rs:229-245 | every run, with cancellations, answers as the same run without its sweeps, if time does not go back past a sweep |
| Keyed.CancelIsExact | crates/tgin-runtime/src/limit.rs:121-128 | in every run, cancelling restores exactly the entry before the booking when it is the key's latest still in effect, and otherwise changes nothing |
| Keyed.ChargedStartsObeyQuota | crates/tgin-runtime/src/limit.rs:175-245 | in every run, the starts the callers of a key were told, for bookings still charged, keep the documented distance, and any window of length `w` holds at most `burst + w / T` of them |
| LeaseQueues.Reservations.Grow | crates/tgin-runtime/src/queue.rs:78-93 | the totals stay the number and the bytes of the outstanding permits |
| LeaseQueues.Reservations.Shrink | crates/tgin-runtime/src/queue.rs:70-76 | dropping a permit takes exactly it off the totals, which never underflow |
| LeaseQueues.LeaseQueue.constructor | crates/tgin-runtime/src/queue.rs:356-373 | an empty queue with consistent indexes |
| LeaseQueues.LeaseQueue.Rekey | crates/tgin-runtime/src/queue.rs:215-242 | after a change to items of one key, moving that key's seq is enough to make the eligible set right again |
| LeaseQueues.LeaseQueue.Link | crates/tgin-runtime/src/queue.rs:245-255 | the unleased indexes now also show the entry |
| LeaseQueues.LeaseQueue.Unlink | crates/tgin-runtime/src/queue.rs:259-276 | the unleased indexes no longer show the entry, whether or not they did |
| LeaseQueues.LeaseQueue.StartLease | crates/tgin-runtime/src/queue.rs:280-296 | the entry is leased and every index but the holders' is right again |
| LeaseQueues.LeaseQueue.EndLease | crates/tgin-runtime/src/queue.rs:300-322 | the lease is gone from the entry and from the leased indexes |
| LeaseQueues.LeaseQueue.Requeue | crates/tgin-runtime/src/queue.rs:325-333 | the entry is unleased under its seq and every index is right |
| LeaseQueues.LeaseQueue.Remove | crates/tgin-runtime/src/queue.rs:336-345 | exactly that entry goes, leased or not, and every index is right |
| LeaseQueues.LeaseQueue.TryReserve | crates/tgin-runtime/src/queue.rs:379-408 | gives the naive model's result and evictions for the totals it saw, also when permits are dropped on other threads after it loaded them, with every index equal to its recomputation |
| LeaseQueues.LeaseQueue.MakeRoom | crates/tgin-runtime/src/queue.rs:385-394 | next to the totals seen: no room is an error and changes nothing, else the naive model's evictions and their number |
| LeaseQueues.LeaseQueue.EvictForRoom | crates/tgin-runtime/src/queue.rs:390-394 | for any totals seen, the loop evicts as the naive model does and never runs out of unleased items |
| LeaseQueues.LeaseQueue.Cancel | crates/tgin-runtime/src/queue.rs:412-414 | the room goes back to the queue that granted the permit |
| LeaseQueues.LeaseQueue.Commit | crates/tgin-runtime/src/queue.rs:419-452 | stores the item under the next seq and releases the reservation at once; a foreign permit comes back and nothing changes |
| LeaseQueues.LeaseQueue.Lease | crates/tgin-runtime/src/queue.rs:457-483 | leases what the naive greedy walk in seq order leases, and returns it in seq order with the item and ack id stored |
| LeaseQueues.LeaseQueue.Held | crates/tgin-runtime/src/queue.rs:488-509 | returns the holder's leases from the given ack id in seq order and renews exactly those |
| LeaseQueues.LeaseQueue.AckBelow | crates/tgin-runtime/src/queue.rs:512-520 | removes exactly the holder's leases with an ack id below the given one, leaves every other entry as it was, reports in seq order, and wakes the waiters as the model says |
| LeaseQueues.LeaseQueue.AckAll | crates/tgin-runtime/src/queue.rs:523-531 | removes exactly the holder's leases |
| LeaseQueues.LeaseQueue.AckWhere | crates/tgin-runtime/src/queue.rs:665-697 | removes the holder's leases that match, counts and reports them, and wakes the waiters when a key was freed under `PerKey` |
| LeaseQueues.LeaseQueue.AckSeq | crates/tgin-runtime/src/queue.rs:534-547 | removes the item if and only if the holder leases it |
| LeaseQueues.LeaseQueue.ReleaseSeq | crates/tgin-runtime/src/queue.rs:550-559 | unleases the item if and only if the holder leases it |
| LeaseQueues.LeaseQueue.Expire | crates/tgin-runtime/src/queue.rs:563-583 | unleases exactly the items whose deadline has passed |
| LeaseQueues.LeaseQueue.Statistics | crates/tgin-runtime/src/queue.rs:592-600 | the numbers recomputed from the entries and the permits |
| LeaseQueues.LeaseQueue.Purge | crates/tgin-runtime/src/queue.rs:603-615 | removes every unleased item; the wholesale clear leaves every index right |
| LeaseQueues.LeaseQueue.PurgeWhere | crates/tgin-runtime/src/queue.rs:624-634 | removes exactly the unleased items that match and leaves every other entry as it was |
| LeaseQueues.LeaseQueue.DrainAll | crates/tgin-runtime/src/queue.rs:638-652 | removes and returns every item in seq order; permits stay valid and every index is right |
| LeaseQueues.LeaseQueue.SetConfig | crates/tgin-runtime/src/queue.rs:660-663 | changes the config alone and wakes the waiters |
| QueueIndex.PickedIsTake | crates/tgin-runtime/src/queue.rs:1541-1561 | the greedy walk of the naive model leases exactly the first `max` leasable items in seq order |
| QueueIndex.EligibleRekeyed | crates/tgin-runtime/src/queue.rs:223-242 | changing items of one key changes the eligible set only by that key's own seq |
| QueueRuns.EntriesAfter | crates/tgin-runtime/src/queue.rs:419-652 | each operation but a lease and a reservation does to every entry what it does to that entry alone, and a commit adds the given item, key, ack id and size |
| QueueRuns.AckBelowRenewFrom | crates/tgin-runtime/src/queue.rs:488-520 | what a poll acknowledges and what it renews are apart and together all the holder leases; leases from the ack id on stay as they were |
| QueueRuns.GrantedIffFits | crates/tgin-runtime/src/queue.rs:190-207 | a reservation is granted without eviction if and only if the item is within both limits, with `drop_oldest` if and only if it is once some unleased items are gone, and which reason a refusal gives |
| QueueRuns.ReserveEvictsShortestPrefix | crates/tgin-runtime/src/queue.rs:375-408 | a failed reservation changes nothing; a successful one evicted the shortest prefix of the oldest unleased items that makes room next to the permits it saw, and there is room next to those outstanding |
| QueueRuns.LatePermitsOnlyCostRoom | crates/tgin-runtime/src/queue.rs:78-80 | permits dropped while a reservation runs at worst make it see less room than there is: what it is granted it would have been granted without them, evicting no more |
| QueueRuns.StepKeepsLimits | crates/tgin-runtime/src/queue.rs:190-207 | no operation but a config change takes stored plus reserved items or bytes above the limit, or further above it |
| QueueRuns.RunKeepsLimits | crates/tgin-runtime/src/queue.rs:654-663 | after a config change, totals above a limit only fall until back under, and others stay under |
| QueueRuns.PermitAccount | crates/tgin-runtime/src/queue.rs:410-452 | a commit turns its permit's room into the item's exactly, a cancelled permit gives back exactly what it took, and only a config change changes the config |
| QueueRuns.EachItemLeavesOnce | crates/tgin-runtime/src/queue.rs:1770-1776 | in every run each committed item is stored or was removed, once, and none comes back |
| QueueRuns.ExpiryUndoesLease | crates/tgin-runtime/src/queue.rs:561-583 | leases nobody renews come back at their deadline, each item where it was, and not before |
| QueueRuns.RenewedOutlasts | crates/tgin-runtime/src/queue.rs:485-509 | a renewed lease outlasts every expiry before its new deadline |
| QueueRuns.LeaseIsExclusive | crates/tgin-runtime/src/queue.rs:454-483 | under `PerKey`, in any state, a lease goes only to the lowest live item of a key with no leased item, so after a live switch a key waits for its old leases to end |
| QueueRuns.RunKeepsLowest | crates/tgin-runtime/src/queue.rs:40-44 | in every run under `PerKey` each leased item is the lowest live one of its key |
| QueueRuns.AcksFollowKeyOrder | crates/tgin-runtime/src/queue.rs:534-547 | in every run under `PerKey` the acknowledgements of one key happen in strictly increasing seq order, through releases, expiries, evictions and holders |
| QueueRuns.AcksAtMostOnePerKey | crates/tgin-runtime/src/queue.rs:665-697 | one acknowledgement removes at most one item of a key |
| QueueRuns.NoLostWakeUp | crates/tgin-runtime/src/queue.rs:585-590 | from every state, an operation that wakes nobody never makes an item leasable when none was, for either ordering |
| Admission.StepKeepsInv | crates/tgin-core/src/admission.rs:58-206 | every atomic step of any thread, consumer or retirement keeps permits, copies, drops and drained instances accounted for |
| AdmissionRuns.RetiredIsEmpty | crates/tgin-core/src/engine.rs:570-595 | once a retirement and the admissions have finished, the instance holds nothing and each update committed to it left in exactly one step of the run: acknowledged, evicted, purged, or dropped by a drain and counted |
| AdmissionRuns.RetireAlone | crates/tgin-core/src/engine.rs:570-595 | a retirement nobody disturbs closes its instance, takes out all it holds and counts it, and touches nothing else |
| Admission.LeftOnce | crates/tgin-core/src/engine.rs:431-444 | no operation changes how an item left, or stores it again |
| AdmissionRuns.LeavesOnce | crates/tgin-core/src/engine.rs:431-444 | over every run an item leaves its queue at most once, has left if and only if some step took it out, and keeps its reason to the end |
| AdmissionCopies.AdmittedOncePerTarget | crates/tgin-core/src/admission.rs:108-206 | an admitted update got from each of its targets exactly one queued copy or exactly one counted drop, and neither from others; the copy is the update that arrived, with its key and size, under one seq, acknowledged by its update id |
| AdmissionCopies.ClosedGetsNothing | crates/tgin-core/src/admission.rs:115-120 | an admission that had not looked at an instance before it closed never queues a copy in it |
| AdmissionCopies.RefusedOnlyAfterRetry | crates/tgin-core/src/admission.rs:58-82 | an update whose target was found closed is refused only after a second attempt |
| AdmissionCopies.RefusedLeavesNothing | crates/tgin-core/src/admission.rs:58-82 | a refused update leaves no reservation and no copy anywhere, and no reservation of its run took an item out unless it found a target closed or a queue whose `on_full` was not the state's |
| Admission.NoReservationLeaks | crates/tgin-core/src/admission.rs:161-206 | when every admission has finished, no queue has a reservation left |
| AdmissionRuns.AdmittedNowhere | crates/tgin-core/src/admission.rs:133-157 | a run that ends admitted although no instance ever held a copy |
| AdmissionRuns.AdmissionAlone | crates/tgin-core/src/admission.rs:58-157 | with live targets and nobody else moving: refused if and only if a `backpressure` target is full, else one copy exactly where there is room; admitted without a copy if and only if every target drops the update as too large or as full under `drop_oldest` |
| AdmissionRuns.UnroutableAtOnce | crates/tgin-core/src/admission.rs:94-106 | an update no rule routes is answered at once and touches no queue |
| Reload.Build | crates/tgin-core/src/reload.rs:156-287 | the loops compute the plan of the next generation, with one target of the right name and mode for each consumer and the source names only extended; the ids are exhausted if and only if the new bots do not fit among 65536 |
| Reload.SharedEngine.Commit | crates/tgin-core/src/reload.rs:366-412 | revived instances leave the retired list with their drains called off, retiring ones join it with a fresh drain each, every other drain is untouched, and the state is swapped in |
| Reload.SharedEngine.Retire | crates/tgin-core/src/engine.rs:570-582 | closes the instance if and only if its drain was not called off and it still drains; nothing else changes |
| ReloadRuns.ChooseOk | crates/tgin-core/src/reload.rs:222-287 | each consumer keeps its previous instance of the same mode, else gets a draining one back, else a new one, and exactly the replaced instances retire |
| ReloadRuns.ReloadKeepsSources | crates/tgin-core/src/reload.rs:169-199 | a bot that stays keeps its source id and a new bot gets one never used |
| ReloadRuns.StepKeepsEngine | crates/tgin-core/src/reload.rs:366-412 | a reload or a drain ending keeps every instance in exactly one place, every drain its own, and the source names growing by appending |
| ReloadRuns.OneOpenInstancePerConsumer | crates/tgin-core/src/reload.rs:384-412 | over every sequence of reloads and drain endings, an instance not closed is current or draining and not both, and at most one of a name and mode exists |
| ReloadRuns.DrainsEndTheirOwn | crates/tgin-core/src/engine.rs:570-582 | a drain called off never closes an instance, and one not called off ends only the drain it was started for |
| ReloadRuns.SourceIdsArePermanent | crates/tgin-core/src/reload.rs:169-199 | a source id never passes to another bot, however many reloads lie between |
| Breaker.PackingIsExact | crates/tgin-runtime/src/breaker.rs:33-46 | the state survives packing always, and `opened_at` exactly up to the cap |
| Breaker.Offset | crates/tgin-runtime/src/breaker.rs:161-168 | offsets never exceed what the word can hold |
| Breaker.OneProbePerOpening | crates/tgin-runtime/src/breaker.rs:72-114 | in every interleaving probes never outnumber openings, each replaces an open word whose time had come, and between two probes lies an opening |
| Breaker.ProbesWaitForReady | crates/tgin-runtime/src/breaker.rs:125-141 | a probe is granted only when `ready_in` of the word it replaced had run out |
| Breaker.ProbeWaitsOpenFor | crates/tgin-runtime/src/breaker.rs:72-92 | in every interleaving a probe comes, by the instants its callers gave, at least `open_for` after the failure that opened |
| Breaker.DatedByCallers | crates/tgin-runtime/src/breaker.rs:72-114 | in every run openings are dated by the failures that made them and probes by the calls to `allow` |
| Breaker.AllowsAfterOpenFor | crates/tgin-runtime/src/breaker.rs:72-141 | after every run an undisturbed `allow` lets the call go if the breaker is closed, as the probe if and only if `open_for` has passed since it opened, and never while half-open; `ready_in` counts down to it |
| Breaker.SucceedsAndReopens | crates/tgin-runtime/src/breaker.rs:94-114 | an undisturbed success closes and forgets the failures; a failed probe opens again from its own instant; failures while open change nothing |
| Breaker.OpensAtThreshold | crates/tgin-runtime/src/breaker.rs:94-114 | after every run in which no call is split by another, a failure opens a closed breaker, dated by its own instant, if and only if it makes `failure_threshold` failures since the last success |
| Breaker.OpensDespiteSuccess | crates/tgin-runtime/src/breaker.rs:94-114 | a run of split calls that opens with one failure since the last success at a threshold of two |
| Webhook.AcknowledgedCopiesAreSeen | crates/tgin-botapi/src/webhook.rs:307-357 | every copy of a request answered 200 was queued before ingest was cancelled, and after the coordinator's first `pending` it was counted or is gone, except exactly when it is held by an instance revived between the two reads of `pending` or whose drain was being ended |
| Webhook.NothingPendingMeansNothingHeld | crates/tgin/src/app.rs:537-566 | a first `pending` of zero, with no reload at work and the same instances at both reads, means that every such copy is gone |
| Webhook.OkWasTaken | crates/tgin-botapi/src/webhook.rs:337-367 | a request answered 200 was admitted or unroutable |
| Webhook.StopsAtNextCheck | crates/tgin-botapi/src/webhook.rs:307-336 | once ingest is cancelled a request stops at its next check and queues nothing |
| Webhook.EndedDrainEmpties | crates/tgin-core/src/engine.rs:570-582 | ending a drain closes the instance and takes out exactly what it held |
| Webhook.RevivalHidesCopy | crates/tgin-core/src/reload.rs:384-438 | a run in which reviving the instance between the two reads hides an acknowledged copy |
| Webhook.EndingHidesCopy | crates/tgin-core/src/engine.rs:570-582 | a run in which the end of the instance's drain hides an acknowledged copy that is still held |
| LongPoll.NothingUnansweredIsConfirmed | crates/tgin-botapi/src/longpoll.rs:332-442 | over every run, restarts included, the offset, a request on its way and the server's confirmation pass an update only if some step offered it and the sink answered admitted or unroutable |
| LongPoll.TakenInOrder | crates/tgin-botapi/src/longpoll.rs:389-442 | between a start and its stop the updates taken are in ascending order, each once, the sink took each, and the offset is behind the last of them |
| LongPoll.OfferOutcome | crates/tgin-botapi/src/longpoll.rs:415-442 | a sink that pushes back is offered the same update again with nothing moved; one that takes it is offered the next, and the offset is behind it |
| LongPoll.SeenIsForgotten | crates/tgin-botapi/src/longpoll.rs:340-350 | what lies before the offset of a request the server saw is never sent again |
| LongPoll.DrainHolds | crates/tgin-botapi/src/longpoll.rs:389-396 | a poller held by a drain asks for nothing until the drain is called off or it is cancelled |
| LongPoll.HoldsOnlyDrained | crates/tgin-botapi/src/longpoll.rs:332-369 | a poller holds only after a drain began and an empty batch came |
| LongPoll.EmptyBatchHolds | crates/tgin-botapi/src/longpoll.rs:332-396 | a drain makes the poller ask once more and hold at an empty batch, and called off leaves only the request behind |
| LongPoll.AsksAgain | crates/tgin-botapi/src/longpoll.rs:340-386 | whatever ends a poll without a batch, the next request asks from the same offset |
| LongPoll.CancelledDoesNothing | crates/tgin-botapi/src/longpoll.rs:332-386 | a cancelled poller asks for nothing and offers nothing until it is started again |
| LongPoll.RestartGetsUnconfirmed | crates/tgin-botapi/src/longpoll.rs:312-350 | in every state, a reply holds nothing the server forgot, and whatever it leaves out below its first update was answered before |
| JsonText.Floor | crates/tgin-botapi/src/facts.rs:264-273 | stepping back from the limit to a char boundary yields the longest prefix in whole chars that fits |
| JsonText.CutIsLongest | crates/tgin-botapi/src/facts.rs:173-183 | no longer prefix in whole chars fits the limit |
| JsonText.Unescape | crates/tgin-botapi/src/facts.rs:184-210 | the text is verbatim exactly when there is no backslash, and is the decoded text cut to the limit, appended after what the buffer held |
| JsonText.DecodesMeaning | crates/tgin-botapi/src/facts.rs:214-261 | every string body of the grammar decodes to what it stands for, surrogate pairs joined and lone surrogates replaced |
| JsonText.EscapedTextReadsBack | crates/tgin-botapi/src/facts.rs:226-261 | every text written in `\u` escapes of its UTF-16 units, in either case of hex digits, decodes to itself |
| JsonText.UnescapeWithinLimit | crates/tgin-botapi/src/facts.rs:173-210 | for every valid body and limit the result is the longest whole-char prefix of the decoded text that fits, and takes at most `min(input length, limit)` bytes |
| JsonText.PushString | crates/tgin-botapi/src/gateway/errors.rs:76-98 | the bytes written are the escaped bytes of the text between quotes, which are the UTF-8 of a quoted string of the grammar |
| JsonText.EncodeAllInjective | crates/tgin-botapi/src/gateway/errors.rs:76-98 | no two texts have the same UTF-8 bytes |
| JsonText.WrittenTextReadsBack | crates/tgin-botapi/src/gateway/errors.rs:76-98 | whatever text the written bytes are the UTF-8 of, it is quoted and decodes to the text that was written, for every text |

## Left out

- Platform limits of instants and durations (`Tat::Never`, saturating tolerance, leases and starts past the last instant): time is unbounded, so the branches for unrepresentable instants do not exist here.
- The 16 shards of the keyed limiter and their hashing: one map stands for them, since stamps only have to be unique within it.
- LeaseQueues.LeaseQueue.CountWhere: states the count of matching entries by the same comprehension that computes it; there is nothing further to it.
- The shutdown's phase check at the start of a reload: the webhook model lets a reload or the end of a drain begin at any time, and any number of them.
- Items are records of source and update id instead of an arbitrary type; holders and keys are strings and numbers.
- Route matching and rule compilation: routing is an arbitrary choice of distinct targets, and compiling the rules an arbitrary outcome.
- Consumer bodies, gauges, metrics, logging, task supervision, endpoints, usernames, tokens and the reload report.
- The saturating add of the long-poll offset at the last `i64`, and update ids below zero, which the Bot API server does not send.
- Decoding text outside the JSON grammar: the decoder model covers it, but the size bound is stated for valid bodies only, which is all `serde_json` lets through.
- HTTP, TLS, process signals, the command line, file serving, configuration parsing and validation, backoff and exit codes.
