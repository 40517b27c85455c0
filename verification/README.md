# MeshCheck agent: a verified model of its standing-assignment engine

The agent probes targets on behalf of a platform. The platform hands it
standing assignments; the agent fires each of them once per time slot, signs
the results and delivers them over a connection that comes and goes. This
project models that engine and the code it leans on, and proves what they
promise.

| module | models |
|---|---|
| `Outbox`, `OutboxFacts` | what the result outbox computes, as functions on values, and what one operation conserves |
| `OutboxArrays` | the outbox as Go keeps it: slices as windows over shared backing arrays, proved to compute the functions of `Outbox` and to keep the windows apart |
| `Delivery`, `DeliverySafety`, `DeliveryTheorems` | the outbox together with the send channel, the connections, a network that delays, repeats and loses, and the platform: one step system with a history, its invariant, and the promises about every run |
| `Overflow`, `Sending`, `Progress` | which results an overflowing queue drops, when batches are built, and what can still be delivered |
| `Agent` | the outbox on arrays driven through the steps of `Delivery`: messages that share memory with batches show what the protocol says they do |
| `Reconciler`, `ReconcilerTheorems` | applying assignment sets, with one cancellable context per firing loop |
| `Slot`, `Fire` | slot arithmetic in wrapping int64, and the firing loop |
| `ResultSig` | the two byte forms that are hashed and signed |
| `Version`, `Update` | the version order, the gates of self-update, and chains of updates across restarts |
| `Traceroute`, `Rtt` | the accounting of the ping Check against any reply stream, and its statistics over the reals |
| `GoInts`, `Options`, `Sequences`, `Messages` | fixed-width integers, optional values, facts about sequences and the protocol messages |

How to read it: a class or a method with loops is what the Go code does step by
step; its `ensures` ties it to a function or predicate, and the lemmas listed
below say what that function is good for. `dafny verify dfyconfig.toml` checks
everything.

## Assumptions

- A batch id stands for one call of `ulid.Make`; ids are fresh and only ever
  compared. Results are pointers, so two results are the same only if they are
  the same object, and addresses grow in the order of enqueueing.
- The platform acknowledges only batches it has taken, and takes only messages
  that were written to a connection. Messages may be lost, delayed and repeated.
- Ages (wall clock) and send times (monotonic clock) are on one clock that does
  not run backwards. A result is queued no earlier than it completed.
- The scheduler's clock is arbitrary. Where a lemma needs it not to step back,
  or timers not to fire early, it says so.
- The order in which a Go map is iterated is arbitrary: every result holds for
  all orders. The set of overdue batches is fixed when the loop in `flush`
  starts, which is what deleting only the visited entry amounts to.
- `checkspec.Validate` is an arbitrary function of the check type and the
  parameters. Hash, signing and verification are arbitrary functions; the two
  lemmas about signatures assume them ideal.
- A binary's `--version` output, trimmed, is the version it then runs as.

## Where the code and its comments disagree

The code is what is modelled.

- pkg/version/semver.go:20-21 says a malformed component keeps a version from
  ever being treated as newer. It counts as 0, but the other components still
  decide (`Version.MalformedCanBeNewer`); `Version.NewerThanSomething` says
  exactly which versions are newer than none.
- cmd/agent/update.go:53-54 says a target is acted on at most once per process.
  Only the last target is remembered: a target is acted on again if and only if
  another was offered in between (`Update.AttemptedTwice`).
- cmd/agent/update.go:36-41 says a failed attempt is remembered for six hours.
  The marker, too, remembers one target only: within the six hours a target is
  attempted again if and only if another was attempted in between
  (`Update.AttemptedAgain`, `Update.CooldownRefuses`). Two newer targets offered
  in turn are attempted every time (`Update.AlternatingAttempted`).
- cmd/agent/assign.go:55-56 says the oldest results are dropped first on
  overflow. `Overflow.OlderOutlivesYounger` is a run in which a younger result
  is dropped and an older one kept. Oldest first holds if and only if it does
  among the results at the front of the queue that were sent before
  (`Overflow.OldestDroppedFirst`), and however many are dropped if and only if
  the queue is in age order (`Overflow.AnyCut`); a reconnect leaves it so only
  if it visits the younger batches first (`Overflow.ReconnectInAge`), and Go
  promises no order. From a flush until the next reconnect it always holds
  (`Overflow.OldestFirstUntilReconnect`). Results never sent do go last, and oldest first
  (`DeliveryTheorems.OverflowOrder`).
- The limit of 10,000 in the same comment holds after each enqueue. A reconnect
  exceeds it if and only if the queue and the batches in flight together do
  (`Overflow.ReconnectLength`, `Overflow.LimitExceeded`).
- cmd/agent/assign.go:42-43 says a batch also goes out as soon as 100 results
  wait. `Sending.HundredWait` is a run in which the hundredth is not sent, nor
  the one after it, and `Sending.ResultsWait` one for any number up to the limit.
  A batch is built if and only if the once-a-second flush comes and finds
  something to send (`Sending.BatchesOnlyAtFlushes`); in between nothing is,
  whatever happens (`Sending.NothingSentBetween`).
- pkg/resultsig/resultsig.go:73 says the zero byte keeps an assignment id from
  running into the slot. That needs ids without a zero byte
  (`ResultSig.SlotRoundTrip`, `ResultSig.SlotCollides`). Likewise the domain
  prefix (pkg/resultsig/resultsig.go:64-65) separates the two forms only for
  the ids `ResultSig.DomainsMeet` describes.
- pkg/slot/slot.go:42-43 promises a phase in [0, interval) for every interval;
  the conversion to int32 breaks it above 2,147,483 seconds
  (`Slot.PhaseInRange`).

## Model

| member | source | states |
|---|---|---|
| `DeliveryTheorems.ExactlyOnePlace` | cmd/agent/assign.go:233-303 | in every run, a result that was ever enqueued is in exactly one of: the outbox, acknowledged, aged out, dropped for lack of room; if acknowledged, the platform took a message about exactly the batch it was acknowledged in |
| `DeliveryTheorems.Conservation` | cmd/agent/assign.go:233-303 | as multisets, everything enqueued equals queue + in-flight batches + acknowledged + aged + overflowed, whatever order map iteration takes |
| `DeliveryTheorems.AckRemovesOnlyTaken` | cmd/agent/assign.go:254-262 | after any run, an ack leaves the queue alone, removes exactly the results of its batch if that is in flight and nothing otherwise, and only if the platform took a message with just these results |
| `DeliveryTheorems.RetiredForGood` | cmd/agent/assign.go:244-262 | once a batch id was acknowledged or requeued it is never in flight again, so a late, repeated or stale ack changes nothing at any later time |
| `DeliveryTheorems.BoundedRetention` | cmd/agent/assign.go:279-298 | right after any flush the queue is empty, every batch was sent at most 10 s ago, and every result held was completed at most 310 s ago |
| `DeliveryTheorems.FlushDropsOnlyStale` | cmd/agent/assign.go:281-290 | a flush takes a result out of the outbox if and only if it completed more than 300 s ago and was queued or in a batch sent more than 10 s ago; it brings none in |
| `DeliveryTheorems.FlushKeepsRecent` | cmd/agent/assign.go:283-287 | a batch stays in flight through a flush, unchanged, if and only if it was sent at most 10 s ago |
| `Progress.CanBeDelivered` | cmd/agent/assign.go:233-303 | from every reachable state, every result in the outbox that is at most 5 minutes old can still be delivered and acknowledged, with nothing new enqueued |
| `Progress.DeliverableIfYoung` | cmd/agent/assign.go:288-290 | a queued result can ever be delivered and acknowledged if and only if it is at most 5 minutes old |
| `Progress.FirstInFirstOut` | cmd/agent/client.go:297-318 | over one connection, what was in the send channel and what was put in with room is, in this order, what came out and what is in it |
| `Progress.ComesOutInTurn` | cmd/agent/client.go:311-318 | a message put in with room comes out after exactly the ones before it |
| `Progress.ChannelBounded` | cmd/agent/client.go:119 | the send channel never holds more than 64 messages |
| `Progress.PutOnce` | cmd/agent/assign.go:300-302 | over a whole run no message is put in a send channel twice |
| `DeliveryTheorems.ReturnedBound` | cmd/agent/assign.go:244-251 | over any continuation of any run, reconnects give one result back at most once each |
| `DeliveryTheorems.ResendBound` | cmd/agent/assign.go:46-53 | a result is placed in at most 30 + R batches, R being the reconnects after it was enqueued |
| `DeliveryTheorems.OverflowOrder` | cmd/agent/assign.go:233-240 | after an enqueue the queue holds at most 10,000 results, the new one included; what is dropped is a prefix, so a never-sent result goes only once no requeued one is left, and then oldest first |
| `Overflow.OldestDroppedFirst` | cmd/agent/assign.go:55-56 | in every reachable state, an enqueue drops oldest first if and only if, among the results sent before, those dropped are older than those kept |
| `Overflow.OldestFirstUntilReconnect` | cmd/agent/assign.go:55-56 | from any state with an empty queue, as a flush leaves it, every overflow drops oldest first until the next reconnect |
| `Overflow.AnyCut` | cmd/agent/assign.go:55-56 | a queue drops oldest first however many results overflow, if and only if it is in age order |
| `Overflow.OlderOutlivesYounger` | cmd/agent/assign.go:55-56 | the run that fails: two results sent, a reconnect that visits the older batch first, and overflow drops the younger result and keeps the older |
| `Overflow.ReconnectInAge` | cmd/agent/assign.go:244-251 | a reconnect leaves the queue in age order if and only if it was before, each batch is, and younger batches are visited before older ones |
| `Overflow.ReconnectLength` | cmd/agent/assign.go:244-251 | after a reconnect the queue is as long as it was plus all in flight; it exceeds 10,000 if and only if these together did |
| `Overflow.LimitExceeded` | cmd/agent/assign.go:55-57 | the run that exceeds the limit: a full queue is sent, one result comes in, and a reconnect leaves 10,001 |
| `Sending.BatchesOnlyAtFlushes` | cmd/agent/assign.go:42-45 | in every reachable state an event builds a batch if and only if it is a flush that finds something to send |
| `Sending.NothingSentBetween` | cmd/agent/assign.go:264-277 | over any continuation without a flush, no batch is built |
| `Sending.ResultsWait` | cmd/agent/assign.go:42-45 | for any number up to 10,000, the run in which that many results wait and no batch was ever built |
| `Sending.HundredWait` | cmd/agent/assign.go:42-45 | the run against the comment: with 100 results waiting no batch is built, nor is one when the next result comes |
| `Agent.Work` | cmd/agent/client.go:118-134 | whatever the outside world chooses (enqueues, flushes, sends, writes, takes, acks, reconnects), the outbox on slices and arrays goes through a run of the protocol, and no step that is possible there is refused |
| `Agent.PossibleIfEnabled` | cmd/agent/client.go:118-134 | a choice of the outside world is possible if and only if the protocol has an event for it |
| `Agent.Agent.Flush` | cmd/agent/assign.go:279-303 | a flush on slices is a flush of the protocol; every batch in flight keeps a message that holds its very window |
| `Agent.Agent.Write` | cmd/agent/client.go:298-309 | a message written is what the shared window shows at that moment, and that is exactly the results of its batch while it is in flight: what the protocol takes for granted about shared arrays |
| `Agent.StillCarried` | cmd/agent/assign.go:294-297 | a flush leaves the batches that stay the messages they have, and makes one, on the same window, for each new batch |
| `DeliverySafety.RunInvariant` | cmd/agent/assign.go:233-303 | every run of enqueues, flushes, sends, losses, delays, takes, acks and reconnects keeps the whole invariant: conservation, intact messages, send times, pacing, order |
| `DeliverySafety.StepIntact` | cmd/agent/client.go:298-318 | every step keeps: a message about a batch still in flight carries exactly its results (that writing does so is Agent.Agent.Write), and for every batch acknowledged the platform took a message with just its results |
| `DeliverySafety.FlushTimely` | cmd/agent/assign.go:286-296 | a flush keeps: no batch is dated later than now, and none held results over 5 minutes old when it was sent |
| `DeliverySafety.FlushedBatch` | cmd/agent/assign.go:281-298 | after a flush a batch is either an old one, not overdue and not visited, or a new one dated now made of collected results |
| `DeliverySafety.CollectedOnce` | cmd/agent/assign.go:281-290 | a flush never collects one result twice, nor one that stays in another batch |
| `DeliverySafety.FlushPaced` | cmd/agent/assign.go:281-298 | a flush keeps the pace: sends not explained by reconnects are more than 10 s apart and none is past age 5 min |
| `DeliverySafety.ReconnectReturns` | cmd/agent/assign.go:244-251 | a reconnect empties the in-flight map and queues, once each, exactly the results that were in it |
| `DeliverySafety.ReconnectPaced` | cmd/agent/assign.go:244-251 | a reconnect keeps the pace, counting one more return for what it gives back |
| `DeliverySafety.EnqueueOrdered` | cmd/agent/assign.go:233-240 | an enqueue keeps the order: requeued results first, then never-sent ones in enqueue order, everything in flight older than all of those |
| `DeliverySafety.FlushOrdered` | cmd/agent/assign.go:279-298 | a flush keeps the order |
| `DeliverySafety.ReconnectOrdered` | cmd/agent/assign.go:244-251 | a reconnect keeps the order |
| `Delivery.StepConserves` | cmd/agent/assign.go:233-303 | every single step conserves the results |
| `OutboxFacts.FlushBatches` | cmd/agent/assign.go:282-298 | the batches one flush builds, in order, are exactly the age-filtered requeued-then-queued sequence; there are ceil(n/100), all but the last have 100 results, none is empty, their ids are new and distinct |
| `OutboxFacts.BatchedInOrder` | cmd/agent/assign.go:291-298 | the batching loop cuts the queue into consecutive batches, all but the last full and none empty |
| `OutboxFacts.BatchedShape` | cmd/agent/assign.go:291-298 | the batching loop adds ceil(n/100) batches under new ids, dated now, and leaves the others as they were |
| `OutboxFacts.RequeuedConserves` | cmd/agent/assign.go:247-250 | requeueing in any order moves results and loses or duplicates none |
| `OutboxFacts.BatchedConserves` | cmd/agent/assign.go:291-298 | the batching loop empties the queue and keeps the contents of the outbox |
| `OutboxFacts.FreshInOrder` | cmd/agent/assign.go:288-290 | the age filter keeps, in order, exactly the results that completed at most 300 s ago |
| `OutboxFacts.FreshMember` | cmd/agent/assign.go:288-290 | the age filter keeps each result that is not stale as often as it was there, and no stale one |
| `OutboxArrays.Append` | cmd/agent/assign.go:248 | append writes in place exactly when the capacity allows, else moves to a new array; elements outside the spare capacity keep their values |
| `OutboxArrays.IndexFunc` | cmd/agent/assign.go:288-290 | finds the first stale result |
| `OutboxArrays.MoveDown` | cmd/agent/assign.go:288-290 | the in-place loop leaves, at the front of the window, exactly the results that are not stale in order, and nothing outside the window changes |
| `OutboxArrays.DeleteFunc` | cmd/agent/assign.go:288-290 | slices.DeleteFunc in place: the window shows the filtered results, the vacated slots are nil, the rest of the array is as it was |
| `OutboxArrays.RequeuedAlone` | cmd/agent/assign.go:284-290 | a batch requeued onto an empty queue shares its array with envelopes still unsent; the next delete leaves those as they were if and only if none of the results is stale |
| `OutboxArrays.SplitSeparated` | cmd/agent/assign.go:294-296 | the clipped slice [:n:n] and the rest of the queue share no element or spare capacity, so separation is kept |
| `OutboxArrays.RequeueSeparated` | cmd/agent/assign.go:236-238 | a queue on later elements of its old window, or apart from the batches, keeps separation |
| `OutboxArrays.WindowSeparated` | cmd/agent/assign.go:248-249 | a batch taken out of the map can itself become the queue, apart from all other batches |
| `OutboxArrays.Undisturbed` | cmd/agent/assign.go:288-290 | writes inside the window of the queue alter no batch in flight, even on the same backing array |
| `OutboxArrays.ResultOutbox.constructor` | cmd/agent/assign.go:90-97 | a new outbox is empty and separated |
| `OutboxArrays.ResultOutbox.Enqueue` | cmd/agent/assign.go:233-240 | appends a result, drops from the front beyond 10,000, and keeps separation |
| `OutboxArrays.ResultOutbox.RequeueOne` | cmd/agent/assign.go:248-249 | prepends a batch to the queue and forgets it; onto an empty queue the window of the batch becomes the queue, else the queue moves to a new array |
| `OutboxArrays.ResultOutbox.RequeueAll` | cmd/agent/assign.go:247-250 | the map loop requeues exactly the batches due, each once, in some order |
| `OutboxArrays.ResultOutbox.Reconnected` | cmd/agent/assign.go:244-251 | requeues every batch |
| `OutboxArrays.ResultOutbox.Ack` | cmd/agent/assign.go:254-257 | drops the batch, if it is in flight, and nothing else; the other batches keep their windows |
| `OutboxArrays.ResultOutbox.Collect` | cmd/agent/assign.go:280-290 | requeues exactly the overdue batches and drops exactly the stale results of the queue |
| `OutboxArrays.ResultOutbox.BatchOne` | cmd/agent/assign.go:293-297 | puts the front of the queue in flight under a new id; the message carries the very window kept in the map |
| `OutboxArrays.ResultOutbox.BatchAll` | cmd/agent/assign.go:291-299 | the loop on slices computes the batches of the value model and announces each, in order |
| `OutboxArrays.ResultOutbox.Flush` | cmd/agent/assign.go:279-299 | the locked part of flush on slices and arrays computes the flush of the value model, keeps the separation invariant, and leaves every batch that stays its window, so an envelope sent earlier still shows its results |
| `Reconciler.Assigner.Upsert` | cmd/agent/assign.go:131-155 | one turn of the upsert loop: unchanged goes on, changed is cancelled and restarted if it can run, unrunnable is removed; contexts and running assignments stay in correspondence |
| `Reconciler.Assigner.StopAll` | cmd/agent/assign.go:165-170 | the stop loop, duplicates and unknown ids included, cancels once and removes exactly the ids listed |
| `Reconciler.Assigner.LeftOut` | cmd/agent/assign.go:157-163 | a full set stops exactly the running ids it does not upsert, in any order of the map |
| `Reconciler.Assigner.Apply` | cmd/agent/assign.go:125-171 | apply computes the new assigner state, and keeps exactly one live context for each running assignment |
| `ReconcilerTheorems.RunningCanRun` | cmd/agent/assign.go:143-153 | in every reachable state each running assignment has an advertised check type and valid parameters |
| `ReconcilerTheorems.FullSetExactly` | cmd/agent/assign.go:122-171 | after any history and then a full set, exactly those assignments run that are the last upsert of their id, have an advertised check type and have valid parameters |
| `ReconcilerTheorems.DeltaSetExactly` | cmd/agent/assign.go:122-171 | after any history and then a delta, an assignment runs if and only if its id is not removed and it is the last upsert and can run, or there is no upsert and it ran before |
| `ReconcilerTheorems.VersionFollows` | cmd/agent/assign.go:125-131 | the version is that of the last set; before the first connection, sets change nothing |
| `ReconcilerTheorems.FullSet` | cmd/agent/assign.go:122-171 | after a full set an id runs if and only if its last upsert can run, and runs exactly that, whatever ran before and whatever removes says |
| `ReconcilerTheorems.DeltaSet` | cmd/agent/assign.go:122-171 | after a delta an id runs its last upsert if that can run, else what it ran before if not upserted; removed ids do not run |
| `ReconcilerTheorems.UpsertsWin` | cmd/agent/assign.go:131-155 | the upsert loop amounts to last upsert wins, an unrunnable one deleting |
| `ReconcilerTheorems.RunSound` | cmd/agent/assign.go:61-83 | in every reachable state there is exactly one uncancelled context for each running id, for exactly its assignment, which is runnable; every other context was cancelled |
| `ReconcilerTheorems.LiveContexts` | cmd/agent/assign.go:80-83 | in every reachable state the uncancelled contexts are exactly those of the running assignments, and no two share one |
| `ReconcilerTheorems.FullSetForgets` | cmd/agent/assign.go:122-171 | two histories that end in the same full set run the same assignments |
| `ReconcilerTheorems.LoopKept` | cmd/agent/assign.go:131-142 | a firing loop goes on under its context if and only if every upsert of its id repeats its assignment and the set does not stop it |
| `ReconcilerTheorems.ReapplyFullSet` | cmd/agent/assign.go:131-171 | applying a full set again cancels and starts nothing if and only if no two different upserts share an id while one of them can run |
| `Slot.SlotsInMillis` | pkg/slot/slot.go:20-35 | slot k is the interval in seconds times 1000, k times on from the phase, and as long; a malformed interval is one second |
| `Slot.SlotUnique` | pkg/slot/slot.go:20-35 | every instant is in exactly one slot, the floor quotient |
| `Slot.OfIsFloor` | pkg/slot/slot.go:22-30 | truncating division corrected for a negative remainder is floor division, in int64 |
| `Slot.OfExact` | pkg/slot/slot.go:20-30 | Of yields the k with Start(k) <= t < Start(k+1) if and only if t - phase does not overflow |
| `Slot.StartExact` | pkg/slot/slot.go:33-35 | Start is exact if and only if the instant fits int64 |
| `Slot.OfStart` | pkg/slot/slot.go:22-35 | Of(Start(k)) = k if and only if k times the interval fits int64 |
| `Slot.OfMonotone` | pkg/slot/slot.go:22-30 | a later instant is never in an earlier slot, where neither difference overflows |
| `Slot.PhaseIsRemainder` | pkg/slot/slot.go:45-58 | up to that interval, Phase is the hash modulo the interval in milliseconds, so every millisecond of it is the phase of some hash |
| `Slot.PhaseInRange` | pkg/slot/slot.go:45-58 | Phase is in [0, interval) for every hash if and only if the interval is at most 2,147,483 s |
| `Fire.Fire` | cmd/agent/assign.go:179-194 | every slot fired is the first one not begun at the reading, and its wait ends exactly at its start |
| `Fire.WaitExact` | cmd/agent/assign.go:182-185 | the wait is in (0, interval] and exact in int64 nanoseconds, even where Start itself wraps around |
| `Fire.WaitInMillis` | cmd/agent/assign.go:182-185 | the wait is the distance to the first slot start after the reading, in nanoseconds, and that is at most an interval away |
| `Fire.NextSlotExact` | cmd/agent/assign.go:182-184 | the next slot is k + 1 plus the whole intervals by which this wake-up is late: lateness does not accumulate |
| `Fire.RunClosedForm` | cmd/agent/assign.go:176-194 | the n-th slot of any run, clock steps included, is the first plus n plus the whole intervals lost at each wake-up |
| `Fire.WakeUp` | cmd/agent/assign.go:176-194 | the next slot is later if and only if the clock has reached the start of this one, and consecutive if and only if it is also less than an interval past it |
| `Fire.StepBack` | cmd/agent/assign.go:176-194 | a clock that steps back by d ms during the wait computed for slot k leads to a slot of at least k + 1 - ceil(d / interval) |
| `Fire.SlotsIncrease` | cmd/agent/assign.go:176-194 | with a platform clock that advances by at least each computed wait (it never steps back, no timer fires early), the slots of a run strictly increase |
| `Fire.SlotsConsecutive` | cmd/agent/assign.go:176-194 | on such a clock, no slot is missed if and only if every loop reads it less than an interval after its slot began |
| `ResultSig.CanonicalBytes` | pkg/resultsig/resultsig.go:26-35 | the bytes written, cut at the lengths of the two ids, give back exactly the fields |
| `ResultSig.SlotBytes` | pkg/resultsig/resultsig.go:74-86 | the bytes written decode to exactly the signed fields if and only if the assignment id has no zero byte |
| `ResultSig.TaskLayout` | pkg/resultsig/resultsig.go:21-35 | which byte of the task form stands where: the ids, the outcome, the measurements and both times, integers most significant byte first |
| `ResultSig.SlotLayout` | pkg/resultsig/resultsig.go:66-86 | which byte of the slot form stands where: the domain text, 0, the id, 0, the slot and then as in the task form |
| `ResultSig.Digest` | pkg/resultsig/resultsig.go:37-46 | if the hash is free of collisions, a digest recomputed from fields with ids of these lengths is this one if and only if the signed fields are equal |
| `ResultSig.SlotDigest` | pkg/resultsig/resultsig.go:68-86 | if the hash is free of collisions, the digest of a result with a zero-free id is that of another such if and only if their signed fields are equal |
| `ResultSig.SlotRoundTrip` | pkg/resultsig/resultsig.go:68-86 | a decoder reads back the signed fields if and only if the assignment id has no zero byte |
| `ResultSig.DecodesToSameBytes` | pkg/resultsig/resultsig.go:68-86 | whatever the id, the slot form reads back as a result with a zero-free id and exactly the same bytes |
| `ResultSig.SlotInjective` | pkg/resultsig/resultsig.go:68-86 | with zero-free ids two results have the same slot form if and only if their signed fields are equal |
| `ResultSig.SlotCollides` | pkg/resultsig/resultsig.go:73-79 | every result whose id has a zero byte shares its slot form with a different one: the separator alone does not keep ids apart |
| `ResultSig.TaskInjective` | pkg/resultsig/resultsig.go:21-35 | with the lengths of both ids fixed, the task form is equal if and only if the signed fields are |
| `ResultSig.TaskAmbiguous` | pkg/resultsig/resultsig.go:21-35 | with the lengths unknown, a result shares its task form with a different one if and only if its ids or its measurements are not empty |
| `ResultSig.DomainsMeet` | pkg/resultsig/resultsig.go:64-86 | a task result with given ids can have the bytes of a slot result if and only if one of the ids and the domain is a prefix of the other |
| `ResultSig.DomainsApart` | pkg/resultsig/resultsig.go:64-66 | for zero-free ids that do not begin the domain text, no task form is a slot form |
| `ResultSig.SlotSignatureBinds` | pkg/resultsig/resultsig.go:89-100 | under ideal crypto a slot signature verifies for a result if and only if it was made for the same signed fields |
| `ResultSig.NoCrossUse` | pkg/resultsig/resultsig.go:51-66 | under ideal crypto a task signature never verifies for a slot result nor the other way round, for such ids |
| `Version.Parse` | pkg/version/semver.go:45-63 | the loop yields the components of the part before the first suffix mark |
| `Version.Less` | pkg/version/semver.go:22-41 | true if and only if at the first differing component, absent ones being 0, a is smaller |
| `Version.StrictWeakOrder` | pkg/version/semver.go:16-41 | Less is irreflexive, asymmetric and transitive, being neither older nor newer is an equivalence, and equivalent versions compare alike |
| `Version.NewerThanSomething` | pkg/version/semver.go:20-21 | a version is newer than some version if and only if one of its components is positive |
| `Version.MalformedCanBeNewer` | pkg/version/semver.go:20-21 | "0.1.0" is older than "9.x": a malformed component does not keep a version from being newer |
| `Version.ParsedRender` | pkg/version/semver.go:45-63 | a plain dotted version parses to its components, each too large for the machine int becoming 0 |
| `Version.NumericPrecedence` | pkg/version/semver.go:16-41 | against all plain versions that fit the machine int, the order is the numeric precedence of Semantic Versioning 2.0.0, section 11, if and only if no component of the version is too large |
| `Version.LeadingV` | pkg/version/semver.go:46 | a leading "v" changes nothing |
| `Version.MalformedIsZero` | pkg/version/semver.go:53-62 | a component that is empty or has a character other than a digit counts as 0, wherever it is |
| `Version.TrailingZero` | pkg/version/semver.go:18 | a further zero component, in front of any suffix, changes nothing in the order |
| `Version.SuffixIgnored` | pkg/version/semver.go:18-20 | a pre-release or build suffix changes nothing |
| `Update.Updater.Admit` | cmd/agent/update.go:53-62 | an offer is acted on if and only if no update is active and the last one acted on had another target |
| `Update.Updater.Apply` | cmd/agent/update.go:77-145 | installs if and only if every gate holds; a refusal leaves the binary alone; the attempt is recorded, as far as the file can be written, if and only if all gates before the download hold |
| `Update.Updater.HandleUpdate` | cmd/agent/update.go:50-72 | one offer from start to finish: what becomes of binary, marker and guard |
| `Update.HandleOffers` | cmd/agent/update.go:50-145 | over offers that arrive one after the other, until one replaces the process: the targets acted on, and what becomes of binary, marker and guard through guard, gates and cooldown |
| `Update.Live` | cmd/agent/update.go:50-145 | a node through any offers and restarts, a new process after each installation: its final state and the versions it ran |
| `Update.AttemptedAgain` | cmd/agent/update.go:283-306 | across any restarts, two attempts at a target less than six hours apart have an attempt at another target between them |
| `Update.CooldownRefuses` | cmd/agent/update.go:283-306 | an eligible offer within six hours of the last attempt at its target is attempted if and only if another target was attempted since |
| `Update.CooldownEnds` | cmd/agent/update.go:283-297 | over any run, an offer that configuration, build, host and version order allow and that passes the guard is attempted if and only if the last attempt was at another target or six hours ago or more |
| `Update.FirstAttempt` | cmd/agent/update.go:283-297 | before any attempt, the marker found at the start decides the same way |
| `Update.InstalledExactly` | cmd/agent/update.go:101-145 | a node comes to run another version if and only if the offer is attempted and manifest, artifact, self-test and swap succeed |
| `Update.AlternatingAttempted` | cmd/agent/update.go:36-41 | the run that defeats the cooldown: two newer targets offered in turn, a millisecond apart, are attempted every time |
| `Update.VersionsIncrease` | cmd/agent/update.go:87-139 | over any offers and restarts, each version a node runs is newer than all before it, and none comes back |
| `Update.AttemptedTwice` | cmd/agent/update.go:53-62 | a target is acted on twice in a process if and only if it was offered, then another, then it again |
| `Update.ChainIncreases` | cmd/agent/update.go:87-139 | versions each of which was installed by the one before strictly increase and never repeat |
| `Rtt.MsOfNanos` | cmd/agent/checks.go:729-732 | a duration in milliseconds is short of it by less than a microsecond, and exact for whole microseconds |
| `Rtt.Scan` | cmd/agent/checks.go:705-718 | the first loop finds the least and greatest sample and the sum |
| `Rtt.SquaredDistances` | cmd/agent/checks.go:720-724 | the second loop sums the squared distances from the average |
| `Rtt.RttStats` | cmd/agent/checks.go:705-727 | least, average, greatest, variance and standard deviation of the samples, for any math.Sqrt; min <= avg <= max, and where the root is exact it is at most half the range |
| `Rtt.StatsVariance` | cmd/agent/checks.go:719-725 | the variance is the mean of squares less the squared mean, and at most (max - avg)(avg - min) |
| `Rtt.StatsZero` | cmd/agent/checks.go:719-725 | the variance is zero if and only if all samples are equal |
| `Rtt.StatsCoherent` | cmd/agent/checks.go:705-727 | min <= avg <= max and variance <= (max - avg)(avg - min) <= ((max - min)/2)^2 |
| `Rtt.DeviationBound` | cmd/agent/checks.go:725 | the standard deviation is at most half the range |
| `Traceroute.Read` | cmd/agent/checks.go:240-252 | one message: only the first answer to a probe of this hop still pending is taken |
| `Traceroute.CollectHop` | cmd/agent/checks.go:220-277 | against any reply stream, a hop records exactly the first answer of each of its own probes, in order; answered plus pending are the probes sent; the target was reached if and only if some first answer was its own reply |
| `Traceroute.SendProbes` | cmd/agent/checks.go:179-195 | the probes pending are the next three numbers, but for those that could not be sent; the numbering goes on across hops |
| `Traceroute.NeverAtAnotherHop` | cmd/agent/checks.go:181-193 | no probe number belongs to two TTLs, so a late answer to an earlier hop is never recorded |
| `Traceroute.HeardBy` | cmd/agent/checks.go:222-237 | a wait reads errors before replies, goes on after an interruption, and ends when time is up, polling fails or nothing comes |
| `Traceroute.AcceptedAt` | cmd/agent/checks.go:240-274 | what is accepted, in the order it was read, are the first answers to the probes of the hop: router errors and echo replies count, other datagrams do not |
| `Traceroute.EndsAtFirst` | cmd/agent/checks.go:170-212 | the route ends at the first TTL that is cut short, refused or answered by the target |
| `Traceroute.AddHop` | cmd/agent/checks.go:204-212 | adds the hop, closing the route exactly when the target answered |
| `Traceroute.Traceroute` | cmd/agent/checks.go:147-215 | the route ends at the first TTL cut short, refused or answered by the target, and lists every TTL probed before it; TTLs strictly increase within 1..30; only the last hop, and only when reached, is the target; the final round-trip times all come from it, 1 to 3 and no more than were sent |
| `Traceroute.Measure` | cmd/agent/checks.go:111-132 | received <= sent <= 3, loss within [0, 100] and 0 when none were sent, Pass and statistics if and only if the target was reached, Timeout if and only if it was not and time ran out |

## Left out

- WebSocket, protobuf and JSON encoding, sockets, DNS, TLS, SMTP and HTTP checks, downloads, archives, files and logging: input and output, or library code. What they yield is a parameter.
- The handshake, heartbeats, reconnect backoff, tasks and their ceiling, configuration: easy by comparison. A reconnect is a step that may happen at any time.
- The limit of 8 probes at once and the probe timeout in `probe`: a skipped slot is a result never enqueued.
- Goroutines below the grain of the locks: each locked section, each send, each channel receive and each write is one step.
- The result of one `trySend` is free: the channel may be full of other messages.
- Batches reach the platform at least once, not exactly once, and requeued batches come back in no set order: the code promises neither.
- The content of an envelope still unsent when its batch was requeued: it may be rewritten. `OutboxArrays.RequeuedAlone` says exactly when it is not, for a batch requeued onto an empty queue.
- Update.AttemptedTwice: leaves out the empty target, which equals the initial value of the guard and is newer than no version.
- Update.HandleOffers: offers arrive one after the other; an offer during an active update is dropped, as `Update.Updater.Admit` states.
- Update.Updater.Apply: the marker is a value rather than a line of text, which is the same for targets without white space. A write that fails may leave any marker; `AttemptedAgain` and `CooldownRefuses` are about attempts whose marker could be written.
- Rtt.RttStats: over the reals; float64 rounding is not modelled, and `math.Sqrt` is any function.
- Traceroute.CollectHop: a ready socket yields two finite queues, and the time of each reply is part of the message.
- Traceroute.Traceroute: targets that are not IPv4 and failures to open the socket end the run before the loop and are not modelled.
- The internals of SHA-256, Ed25519 and FNV.
