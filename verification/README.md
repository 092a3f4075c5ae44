# WuKongIM in Dafny

A model of the stateful protocols of WuKongIM, a distributed instant-messaging server, with proofs of
what they keep over every input and every run. `dafny verify dfyconfig.toml` verifies the whole
project.

## What is modelled

**Invalidating channel tags** (`internal/api/channel_tag_retry.go`). Membership changes are queued,
coalesced per channel, dispatched in order of due time to a fixed number of workers, and retried
until they succeed. `TagRetryProtocol` interleaves callers, the dispatcher and the workers at the
granularity of mutex regions and channel operations. `TagRetryQueue` is the in-place state behind
the mutex, and each of its regions is proved to be one step of the protocol.

**The tag cache itself** (`internal/manager/manager_tag.go`, `bucket.go`). `TagUsers` partitions,
merges and removes users by the leader of their slot; `TagCache` is the cache as a state machine with
active tags, retired tags and channel mappings; `TagManager` is the object with buckets and shared tag
objects, each operation proved to be one step of `TagCache`.

**The search source** (`internal/plugin/rpc_search_source.go`, `search_source_bootstrap.go`).
`SearchSource` has the even and odd configuration revisions, rosters and pages; `SearchReader` and
`SearchMessages` the fenced replies; `BootstrapPass` one pass over the configuration table, and
`BootstrapMarkers` the seven marker files over any sequence of startups with a crash at any point,
between which channels grow, the configuration table changes and watermarks fall behind.

**Message retry** (`internal/manager/in_flight_pqueue.go`, `retry_queue.go`, `manager_retry.go`).
`HeapOrder` and `InFlightPqueue` are the hand-written heap with back-indices, `RetryQueue` the keyed
map beside it, its lock regions and the scan that re-inserts what it pops, `Keys` the textual map keys.
`RetryProtocol` interleaves the lock regions of additions, acknowledgements and scans.

**Tokens and sessions** (`internal/api/user.go`, `user_session_revoke.go`, `pkg/wkdb/device.go`,
`internal/eventbus/user_task.go`). `TokenFence` is the versioned register with commands that arrive
late, twice or out of order, `SessionSweep` the sweep that closes stale sessions across nodes,
`TokenUpdate` the two requests that propose to the register and then sweep, and `UserTask` the
compare-and-swap protocol between a queue thread and a caller that gives up.

**Conversations** (`internal/manager/manager_conversation.go`). `Conversation` is the cache of pending
updates with its inverted user index, its shards, the rule for what reaches it, and the pass that
stores a limited batch.

**Wire formats** (`internal/eventbus/conn.go`, `event.go`, `internal/track/track.go`,
`pkg/client/common.go`, `internal/server/proto.go`). `Wire`, `ConnCodec` and `EventCodec` are the
encoding between nodes, `Framing` the cutting of packets out of a byte stream.

## How to read it

Code that changes things in place is a class or a method with a loop, proved against functions; code
that decides is a function. Concurrency is a state machine whose steps are what the source does
between two lock or channel operations, and theorems range over every run. What comes from outside
(clocks, leaders, failing reads, the order in which Go walks a map) is a parameter. Every lemma turns
Dafny's automatic induction off, so that a proof by induction is the one written in its body.

Some promises are false of the code as it stands. For these there is a witness or a refutation, and
the exact condition under which the promise holds:

- `Conversation.PassConservesIff`, `LimitInsideLoses`: a batch limit that falls inside a channel loses the
  rest of it.
- `Conversation.LatePassConservesIff`, `LatePushIsLost`: what is pushed on a channel being stored is lost.
- `RetryProtocol.ScanEndsIff`, `BreakLeavesDue`: an acknowledgement of the message just shifted ends a scan.
- `RetryProtocol.ResentAfterAckIff`, `AckDuringRetry`: an acknowledgement during a retry does not stop the write.
- `RetryProtocol.NothingLostIff`, `StaleSlotLosesAnother`: an acknowledgement of a message still being
  added removes another one.
- `RetryQueue.Queue.StartInFlightTimeout`: a key that is already in flight makes map and heap disagree.
- `TagUsers.FailedAdditionIff`, `FailedAdditionRemoves`: a failed addition has already removed users.
- `TagUsers.RemovedEverywhereIff`, `MovedUserStays`: a user whose slot moved is not removed.
- `TagCache.RenameKeepsIff`: renaming a tag to its own key drops it.
- `UserTask.GivingUpPreventsIff`, `LosingTheSwapMayStillPrevent`: giving up may come too late, or not.
- `BootstrapMarkers.ConsumedMayLag`, `ClosingSurvivesIff`: a consumed marker says nothing about later
  growth, and closing the window is not crash-safe.
- `SearchMessages.FencedWhereSlotIsLed`, `NotFencedElsewhere`: the revision fences the ownership of a
  channel only on the node that leads its slot.
- `SearchMessages.UnfencedIffWaiting`, `PendingReplyMayBeStale`: the one reply that may be out of date.
- `TokenFence.FencedIffVersioned`, `UnversionedIsNotFenced`: without a version an older update may win.
- `ConnCodec.RoundTripIff`, `EventCodec.EventRoundTripIff`, `EventCodec.BatchRoundTripIff`: lengths that
  do not fit their prefix.

## Model

| member | source | states |
|---|---|---|
| `TagRetryProtocol.StepKeepsInv` | internal/api/channel_tag_retry.go:106-252 | every step keeps: outstanding jobs and items in flight correspond one to one, a current invalidation is younger than the last Enqueue, no wakeup is lost |
| `TagRetryProtocol.ReachableInv` | internal/api/channel_tag_retry.go:71-252 | the invariant holds in every state of every interleaving |
| `TagRetryProtocol.DispatcherKeepsWakeups` | internal/api/channel_tag_retry.go:145-184 | a dispatcher that goes to sleep on an outdated view of the heap is about to be woken |
| `TagRetryProtocol.WorkerKeepsWakeups` | internal/api/channel_tag_retry.go:224-252 | a worker that makes an item due again owes a notification until it has given it |
| `TagRetryProtocol.RunIsHonest` | internal/api/channel_tag_retry.go:106-245 | the recorded steps of enqueues, receptions and returns are what the events of the run say |
| `TagRetryProtocol.OnlyCompleteRemoves` | internal/api/channel_tag_retry.go:224-245 | only a worker whose successful call began after the last Enqueue removes an item |
| `TagRetryProtocol.OwedUntilInvalidated` | internal/api/channel_tag_retry.go:52-54 | no membership change is ever discarded: in every interleaving a target stops being owed only after an invalidation that began after its last Enqueue returned nil, and the item was in flight throughout that call |
| `TagRetryProtocol.CompleteFindsItsItem` | internal/api/channel_tag_retry.go:224-242 | a completing job always finds its own item, in flight |
| `TagRetryProtocol.FailureIsRetried` | internal/api/channel_tag_retry.go:236-268 | a failed invalidation is due again 200 milliseconds to half a minute later, and no sooner than after the failure before |
| `TagRetryProtocol.InFlightIsBounded` | internal/api/channel_tag_retry.go:71-84 | in every state of every run, also while stopping, at most 2n + 1 items are in flight with n workers |
| `TagRetryProtocol.NeverStuck` | internal/api/channel_tag_retry.go:145-210 | while something owed is due or in flight and the queue is not stopping, some thread of the queue can move |
| `TagRetryProtocol.InternalStepsDescend` | internal/api/channel_tag_retry.go:145-252 | every step the queue takes by itself, by any thread and with any answer, lowers one measure |
| `TagRetryProtocol.Settles` | internal/api/channel_tag_retry.go:145-252 | left to itself the queue takes a bounded number of steps, and when it can take no more nothing owed is in flight or due |
| `TagRetryProtocol.EnqueuedIsReceived` | internal/api/channel_tag_retry.go:106-210 | an enqueued target does not wait for time to pass: when the queue, left to itself, can take no more steps, a worker has received a job for it |
| `TagRetryProtocol.AttemptsAreFailures` | internal/api/channel_tag_retry.go:106-245 | the attempts of an item are its failures since it was enqueued last |
| `TagRetryProtocol.FailureIsPutOff` | internal/api/channel_tag_retry.go:236-268 | the first failure after an Enqueue is due again 200 milliseconds after its completion, the next after 1, 3, 10 and then always 30 seconds |
| `TagRetryProtocol.OwedAfterCompletionIff` | internal/api/channel_tag_retry.go:224-245 | after a completion the target is still owed if and only if the invalidation failed or the target was enqueued again meanwhile, and no other target changes |
| `TagRetryQueue.DueHeap.Swap` | internal/api/channel_tag_retry.go:25-29 | trading two slots keeps every item's back-index |
| `TagRetryQueue.DueHeap.Push` | internal/api/channel_tag_retry.go:31-35 | the heap stays ordered by due time and indexed, and gains exactly the item |
| `TagRetryQueue.DueHeap.Pop` | internal/api/channel_tag_retry.go:37-45 | the head leaves with index -1, the rest stays ordered |
| `TagRetryQueue.DueHeap.Fix` | internal/api/channel_tag_retry.go:126-131 | an item whose due time changed finds its place again |
| `TagRetryQueue.Queue.Enqueue` | internal/api/channel_tag_retry.go:106-137 | is the protocol's enqueue step; each item stays either in the heap at its index or in flight with index -1 |
| `TagRetryQueue.Queue.Look` | internal/api/channel_tag_retry.go:145-197 | is the protocol's look step: nothing pending, a head that is not yet due, or the least due item taken in flight |
| `TagRetryQueue.Queue.Complete` | internal/api/channel_tag_retry.go:224-245 | is the protocol's complete step: requeued at once, removed, or requeued with back-off |
| `TagRetryQueue.Queue.Requeue` | internal/api/channel_tag_retry.go:231-242 | an item out of flight is back in the heap exactly once |
| `TagUsers.CalcUsersInNode` | internal/manager/manager_tag.go:449-484 | fails exactly when some user's slot has no leader, and otherwise gives one node per leader with exactly the users it leads, in order, and their slots once |
| `TagUsers.PartitionKeepsUsers` | internal/manager/manager_tag.go:221-231 | partitioning loses no user and invents none |
| `TagUsers.SlotsOfUsers` | internal/manager/manager_tag.go:449-484 | the slots of a node are those of its users, each once |
| `TagUsers.RemoveExisting` | internal/manager/manager_tag.go:164-175 | takes one entry of each listed user out of every node |
| `TagUsers.MergeNodes` | internal/manager/manager_tag.go:406-447 | computes the merge of the nodes, leader by leader |
| `TagUsers.AdditionIsUnion` | internal/manager/manager_tag.go:141-162 | after an addition the tag has its earlier users and the added ones, and no others |
| `TagUsers.AddedAreWithTheirLeader` | internal/manager/manager_tag.go:141-162 | every added user is found with the node that leads the user's slot |
| `TagUsers.FailedAdditionIff` | internal/manager/manager_tag.go:150-157 | a failed addition leaves the tag as it was exactly when none of the listed users was in it |
| `TagUsers.FailedAdditionRemoves` | internal/manager/manager_tag.go:150-157 | an addition that fails for one user and has removed another |
| `TagUsers.RemoveUsers` | internal/manager/manager_tag.go:177-206 | removes up to the first user without a leader and fails exactly if there is one |
| `TagUsers.RemovalIsAtTheLeader` | internal/manager/manager_tag.go:187-204 | a user loses one entry per mention with the node that leads its slot now, and none elsewhere |
| `TagUsers.RemovedEverywhereIff` | internal/manager/manager_tag.go:187-204 | a removed user is listed nowhere any more if and only if only the node of the present leader listed it, no more often than it is named |
| `TagUsers.MovedUserStays` | internal/manager/manager_tag.go:187-204 | a user whose slot has moved is still listed after its removal |
| `TagCache.NextKeepsInv` | internal/manager/manager_tag.go:80-299 | every operation keeps tags under their own keys and active and retired keys apart |
| `TagCache.ReachableInv` | internal/manager/manager_tag.go:80-387 | this holds after every sequence of operations |
| `TagCache.MadeIsRead` | internal/manager/manager_tag.go:80-109 | what was made is what readers get, through any run that neither removes nor rewrites the key: its users for versions that are not newer, and nothing for newer ones |
| `TagCache.ActiveIsFrozen` | internal/manager/manager_tag.go:80-299 | a key leaves the active tags exactly by being retired, invalidated, dropped, renamed or expired, and keeps its users unless they are rewritten |
| `TagCache.OthersAreLeftAlone` | internal/manager/manager_tag.go:80-387 | an event leaves every key alone that it does not name, active or retired, and only mapping, unmapping, invalidation and expiry touch what channels resolve to |
| `TagCache.DroppedIsGone` | internal/manager/manager_tag.go:208-213 | a dropped key is unreadable until a tag is made for it or renamed to it |
| `TagCache.RetiringRetires` | internal/manager/manager_tag.go:339-351 | a retired tag is no longer active and readable with its users until its time is over |
| `TagCache.SettingNodesIsRead` | internal/manager/manager_tag.go:141-206 | users that replace others are what readers get at once |
| `TagCache.ReadingKeepsAlive` | internal/manager/bucket.go:74-115 | a tag expires exactly when it has not been read for longer than the time set |
| `TagCache.ResolvesAsSet` | internal/manager/manager_tag.go:274-291 | a channel resolves to the key set for it until it is mapped anew, unmapped or invalidated, or expires with its tag |
| `TagCache.SettingIsLocal` | internal/manager/manager_tag.go:274-286 | setting the tag of a channel changes no other channel and no users, and ends a retirement of the key |
| `TagCache.RenameKeepsIff` | internal/manager/manager_tag.go:257-272 | renaming keeps the tag, with its users, if and only if the new key is another one |
| `TagCache.RetiredIsFrozen` | internal/manager/manager_tag.go:339-387 | a retired tag changes only by leaving retirement, and leaves only by being made, mapped, dropped or renamed to, or looked at after its grace period |
| `TagCache.SnapshotSurvives` | internal/manager/manager_tag.go:233-251 | through any run that does not end its retirement a key keeps the users it was retired with, and a reader gets them until the grace period is over |
| `TagCache.EntersAsItWas` | internal/manager/manager_tag.go:339-351 | a tag enters retirement only by being retired, and with the users it had while active |
| `TagCache.InvalidationRetires` | internal/manager/manager_tag.go:111-132 | invalidation unmaps the channel alone and retires the mapped and the expected tag with their users |
| `TagCache.NoTagUntilSet` | internal/manager/manager_tag.go:111-132 | an invalidated channel resolves to no tag until one is set for it |
| `TagManager.Manager.constructor` | internal/manager/manager_tag.go:41-55 | an empty cache over the given number of buckets |
| `TagManager.Manager.Change` | internal/manager/manager_tag.go:141-206 | changing one active tag object in place affects no other key, active or retired |
| `TagManager.Manager.Retire` | internal/manager/manager_tag.go:339-351 | is the retire step |
| `TagManager.Manager.MakeTag` | internal/manager/manager_tag.go:80-109 | is the make step with a partition of the users, and changes nothing when a slot has no leader |
| `TagManager.Manager.UpdateChannelTag` | internal/manager/manager_tag.go:114-132 | is the invalidation step |
| `TagManager.Manager.SetChannelTag` | internal/manager/manager_tag.go:274-286 | is the mapping step |
| `TagManager.Manager.GetChannelTag` | internal/manager/manager_tag.go:288-291 | finds the channel's key in the bucket of the channel |
| `TagManager.Manager.RemoveChannelTag` | internal/manager/manager_tag.go:293-299 | removes the mapping of one channel |
| `TagManager.Manager.RemoveTag` | internal/manager/manager_tag.go:208-213 | drops the key, active or retired |
| `TagManager.Manager.RenameTag` | internal/manager/manager_tag.go:257-272 | is the rename step, and fails exactly for a key that is not active |
| `TagManager.Manager.AddUsers` | internal/manager/manager_tag.go:141-162 | adds users on success, and says what a failure leaves behind |
| `TagManager.Manager.RemoveUsers` | internal/manager/manager_tag.go:177-206 | removes users up to the first without a leader |
| `TagManager.Manager.Get` | internal/manager/manager_tag.go:233-251 | gives the users of the active tag, or of the retired one within its grace period, unless made under an older node version |
| `TagManager.Manager.GetRetired` | internal/manager/manager_tag.go:353-371 | reads a retired tag without changing its users, or drops it when its time is over |
| `TagManager.Manager.CleanRetired` | internal/manager/manager_tag.go:379-387 | drops exactly the retired tags whose time is over |
| `TagManager.Manager.CheckExpireTags` | internal/manager/bucket.go:74-115 | one bucket drops its unread tags and then its channels whose tag is in no bucket |
| `TagManager.Manager.SetTag` | internal/manager/bucket.go:117-121 | a tag goes into the bucket of its key and no other |
| `TagManager.Manager.DeleteTag` | internal/manager/bucket.go:129-133 | exactly the key leaves |
| `SearchSource.CanonicalRoster` | internal/plugin/rpc_search_source.go:475-494 | accepts exactly rosters without zero or repetition that name the node, and returns their members in ascending order |
| `SearchSource.SortKeeps` | internal/plugin/rpc_search_source.go:475-494 | sorting keeps the members, and ascends exactly when nothing was repeated |
| `SearchSource.StableBetween` | internal/plugin/rpc_search_source.go:341-346 | the same even revision at two moments means that no configuration changed between them |
| `SearchSource.RevisionIdentifies` | pkg/wkdb/channel_cluster_config.go:147-159 | equal even revisions identify the configuration table |
| `SearchSource.SamplesAreFenced` | pkg/wkdb/channel_cluster_config.go:147-159 | successive reads of a changing table see one table between two equal even revisions |
| `SearchSource.PageIsTheSmallest` | internal/plugin/rpc_search_source.go:56-61 | a page starts right above its start id, leaves nothing out, and is short only at the end of the table |
| `SearchSource.NextPageStart` | internal/plugin/rpc_search_source.go:314-320 | continuing after a page continues right behind it |
| `SearchReader.ScanConfigs` | internal/plugin/rpc_search_source.go:314-327 | computes the scan of a page, with its error exits |
| `SearchReader.ScanReportsLed` | internal/plugin/rpc_search_source.go:314-327 | a successful scan has reported every configuration led by this node, in order, field by field, with the tail read for it and what follows from the tail |
| `SearchReader.ScanSucceedsIff` | internal/plugin/rpc_search_source.go:314-327 | a scan succeeds if and only if ids rise, configurations are valid and the tails of the led channels can be read and are in order |
| `SearchReader.PageIsGivenIff` | internal/plugin/rpc_search_source.go:284-339 | a page is given if and only if the request is in order, the scan succeeds, and revision and roster are stable and the same at the end |
| `SearchReader.PageSizes` | internal/plugin/rpc_search_source.go:589-600 | a page has 100 configurations unless another number is asked for, and never more than 500 |
| `SearchReader.PageFromOneSnapshot` | internal/plugin/rpc_search_source.go:284-339 | a returned page shows the table as it was at the page's revision, and the table did not change during the read |
| `SearchReader.ChainedPagesAreComplete` | internal/plugin/rpc_search_source.go:284-339 | chaining pages at one revision from id 0 returns every configuration led by this node exactly once, field by field, in increasing order of id |
| `SearchMessages.ValidateStoredPage` | internal/plugin/rpc_search_source.go:624-640 | accepts exactly non-empty contiguous pages of the right channel type within the applied watermark |
| `SearchMessages.OmitOne` | internal/plugin/rpc_search_source.go:666-676 | gives up the last payload, and says whether there was one |
| `SearchMessages.BoundMessages` | internal/plugin/rpc_search_source.go:657-680 | stops at the first reply that fits, and fails exactly if none does |
| `SearchMessages.FirstFitIsFirst` | internal/plugin/rpc_search_source.go:657-680 | every reply with fewer payloads given up was too large |
| `SearchMessages.BoundingKeepsMessages` | internal/plugin/rpc_search_source.go:657-680 | bounding keeps every message and sequence number and empties payloads from the tail only |
| `SearchMessages.OmitLastDropsOne` | internal/plugin/rpc_search_source.go:666-676 | each round empties exactly one payload, the last non-empty one, and so lowers the number of payloads by one |
| `SearchMessages.RepliesAreFenced` | internal/plugin/rpc_search_source.go:348-457 | for any reply but "apply pending" this node's table stood still at the requested revision from the first to the last reading, the roster was the requested one before and after, and if messages are delivered both answers of the channel's authority were the same and named this node |
| `SearchMessages.SameAnswerBetween` | pkg/cluster/store/store_apply.go:217-227 | since every saved configuration gets a higher version, two equal answers of the authority mean that it would have given no other in between |
| `SearchMessages.DeliveredWhileOwned` | internal/plugin/rpc_search_source.go:381-421 | a delivery reads its messages while this node owns the channel, at every moment from the first to the second answer of the authority |
| `SearchMessages.FencedWhereSlotIsLed` | pkg/cluster/cluster/iserver.go:62-73 | a node that leads the channel's slot asks its own table, and owns the channel from the first to the last reading of the revision |
| `SearchMessages.NotFencedElsewhere` | pkg/cluster/cluster/iserver.go:62-73 | elsewhere messages may be delivered at an unmoved revision although this node's table has no row of the channel and the authority's row is gone at the end |
| `SearchMessages.UnnumberedMayLapse` | internal/plugin/rpc_search_source.go:411-421 | without increasing versions the channel could change hands between two equal answers |
| `SearchMessages.PendingIffWaiting` | internal/plugin/rpc_search_source.go:400-425 | the reply is "apply pending" exactly when the channel was owned before and after the read and its watermark was behind its end |
| `SearchMessages.UnfencedIffWaiting` | internal/plugin/rpc_search_source.go:420-457 | a reply is given whatever the last revision and roster say if and only if the watermark was behind the end |
| `SearchMessages.PendingReplyMayBeStale` | internal/plugin/rpc_search_source.go:420-425 | a run in which such a reply is given after the table has moved on |
| `SearchMessages.DeliveryIsContiguous` | internal/plugin/rpc_search_source.go:391-437 | a delivery continues without a gap, moves while something is applied, and says "caught up" exactly at the end |
| `SearchMessages.DeliversIff` | internal/plugin/rpc_search_source.go:348-437 | messages are delivered if and only if the request is admitted, this node leads the channel as expected before and after, everything is applied, the rows are there without a gap, the reply can be made to fit, and nothing has moved at the end |
| `SearchMessages.DeliveryShowsRows` | internal/plugin/rpc_search_source.go:426-431 | a delivery shows the stored rows one by one: a payload is missing only where the message is marked, and marks beyond those of the store are at the tail |
| `SearchMessages.FittingIsUnchanged` | internal/plugin/rpc_search_source.go:642-680 | a reply that fits carries every row as it is stored |
| `SearchMessages.RedirectNamesTheOwner` | internal/plugin/rpc_search_source.go:381-421 | a client is sent elsewhere only to the leader, term and version that were found, with nothing delivered |
| `SearchMessages.FollowingIsComplete` | internal/plugin/rpc_search_source.go:391-437 | following the next sequence number from 1 yields 1 to the applied watermark, each once and in order, with at most one request per message before the last |
| `SearchMessages.FollowingShowsTheStore` | internal/plugin/rpc_search_source.go:391-437 | and each of these messages shows what is stored under its number |
| `BootstrapPass.Store.UpdateApplied` | pkg/wkdb/channel.go:489-506 | a watermark only rises, for any index; one at or below it is accepted and ignored |
| `BootstrapPass.Store.InitChannel` | internal/plugin/search_source_bootstrap.go:494-560 | success leaves the channel applied to its end, having moved it only from zero; a partial watermark that is refused was there before; if nothing outside fails and the watermark is zero or at the end, it succeeds |
| `BootstrapPass.Store.ReconcileChannel` | internal/plugin/search_source_bootstrap.go:374-440 | ends even if the channel grows meanwhile, and success leaves it applied to the end last read, from whatever was missing; if nothing outside fails and the channel stands still, it succeeds |
| `BootstrapPass.Store.DoPage` | internal/plugin/search_source_bootstrap.go:494-562 | a finished page is finished configuration by configuration |
| `BootstrapPass.Store.DoPages` | internal/plugin/search_source_bootstrap.go:480-566 | the paging loop ends, and finishes the whole table if its reads saw one table |
| `BootstrapPass.Store.RunPass` | internal/plugin/search_source_bootstrap.go:450-569 | a successful pass has visited every configuration at one stable revision and left every channel replicated here applied to the end read for it; if nothing fails or moves and no watermark is out of order it succeeds, first start or reconciliation, with every such channel at its end; a partial watermark is refused only on a first start, and only if it was there before |
| `BootstrapPass.SerenePassExists` | internal/plugin/search_source_bootstrap.go:450-569 | such an undisturbed first start exists for every node and every length of a channel |
| `BootstrapMarkers.PassOf` | internal/plugin/search_source_bootstrap.go:330-569 | the pass that the code runs, while channels grow, has the guarantees the marker machine relies on |
| `BootstrapMarkers.ConflictsChangeNothing` | internal/plugin/search_source_bootstrap.go:129-205 | a conflicting marker set fails without changing a file or a watermark |
| `BootstrapMarkers.AnswerIff` | internal/plugin/search_source_bootstrap.go:129-324 | a startup is ready if and only if one of six marker sets authorises a pass and it succeeds, with the files that are left then; it asks for a bootstrap if and only if there is no marker but that of the closed window |
| `BootstrapMarkers.AttemptStates` | internal/plugin/search_source_bootstrap.go:129-324 | every durable state of a startup carries watermarks of its pass, and a consumed marker appears only in the last one |
| `BootstrapMarkers.ReachableInv` | internal/plugin/search_source_bootstrap.go:129-324 | over every run of crashed and completed startups, operators and service a closed window and a normal consumed marker never coexist, nor two stages of one kind |
| `BootstrapMarkers.ReadyMeansApplied` | internal/plugin/search_source_bootstrap.go:129-440 | a startup that answers ready, by bootstrap or by reconciliation, has every channel of its table that is replicated here applied: to its end, or at least to where it ended when the startup began if it grows; what was there then stays applied over the rest of the run |
| `BootstrapMarkers.ConsumedMayLag` | internal/plugin/search_source_bootstrap.go:326-372 | a consumed marker may meet a channel that has grown since, which the next startup reconciles |
| `BootstrapMarkers.MarksOnlyRise` | internal/plugin/search_source_bootstrap.go:374-562 | no watermark ever falls, over any run |
| `BootstrapMarkers.ConsumedOnlyAfterPass` | internal/plugin/search_source_bootstrap.go:206-324 | a consumed marker appears only at the end of a successful pass, all of whose states carry the applying marker of its kind, and every channel of the pass's table that is replicated here is applied at that moment |
| `BootstrapMarkers.NeverPartial` | internal/plugin/search_source_bootstrap.go:450-569 | passes interrupted anywhere and restarted never meet a partial watermark of their own making, and none fails for one |
| `BootstrapMarkers.BootstrapSurvivesCrashes` | internal/plugin/search_source_bootstrap.go:206-253 | over any run that the operator leaves alone a normal bootstrap stays under way, and from the first finished successful attempt on it is consumed |
| `BootstrapMarkers.ClosingSurvivesIff` | internal/plugin/search_source_bootstrap.go:685-702 | after a crash while closing the window the next startup asks for a bootstrap exactly when the file was not left empty |
| `HeapOrder.RootIsLeast` | internal/manager/in_flight_pqueue.go:60-72 | the root of a heap is its least priority |
| `HeapOrder.SwapUp` | internal/manager/in_flight_pqueue.go:74-83 | one step up moves the only misplaced slot to its parent |
| `HeapOrder.SwapDown` | internal/manager/in_flight_pqueue.go:85-101 | one step down to the smaller child moves the only misplaced slot there |
| `InFlightPqueue.Pqueue.Swap` | internal/manager/in_flight_pqueue.go:11-15 | two messages trade slots and indices |
| `InFlightPqueue.Pqueue.Up` | internal/manager/in_flight_pqueue.go:74-83 | sifting up restores heap order and keeps the messages |
| `InFlightPqueue.Pqueue.Down` | internal/manager/in_flight_pqueue.go:85-101 | sifting down leaves at most the starting slot to rise, and keeps the messages |
| `InFlightPqueue.Pqueue.Push` | internal/manager/in_flight_pqueue.go:17-29 | exactly the message is added, order and indices hold |
| `InFlightPqueue.Pqueue.Pop` | internal/manager/in_flight_pqueue.go:31-45 | exactly the root leaves, with index -1 |
| `InFlightPqueue.Pqueue.Remove` | internal/manager/in_flight_pqueue.go:47-58 | exactly the message in the slot leaves, with index -1 |
| `InFlightPqueue.Pqueue.PeekAndShift` | internal/manager/in_flight_pqueue.go:60-72 | gives a most urgent message if any is due, and changes nothing otherwise |
| `RetryQueue.Queue.PushInFlightMessage` | internal/manager/retry_queue.go:58-69 | files the message, unless its key is taken |
| `RetryQueue.Queue.PopInFlightMessage` | internal/manager/retry_queue.go:71-82 | takes out what the key holds, and fails exactly if it holds nothing |
| `RetryQueue.Queue.RemoveFromInFlightPQ` | internal/manager/retry_queue.go:110-119 | removes a queued message, nothing for one queued before, and a most urgent one instead for one that never was |
| `RetryQueue.Queue.StartInFlightTimeout` | internal/manager/retry_queue.go:44-69 | map and heap agree afterwards if and only if the key was free |
| `RetryQueue.Queue.AddRetry` | internal/manager/manager_retry.go:58-61 | keeps the bound on re-sends in any case, and the whole invariant if and only if the key was free |
| `RetryQueue.Queue.FinishMessage` | internal/manager/retry_queue.go:101-119 | fails exactly for an unknown key, and otherwise takes the message out of map and heap |
| `RetryQueue.Queue.RemoveRetry` | internal/manager/manager_retry.go:63-66 | an acknowledgement takes exactly the messages of its key out, and fails exactly if there is none |
| `RetryQueue.Queue.FinishShifted` | internal/manager/retry_queue.go:130-134 | finishing a message already off the heap fails if and only if it was acknowledged in between |
| `RetryQueue.Queue.Take` | internal/manager/retry_queue.go:121-134 | takes a most urgent due message off the heap and out of the map, if there is one, and fails exactly if it is acknowledged in between |
| `RetryQueue.Queue.Retry` | internal/manager/manager_retry.go:75-115 | the message returns with one try less if one is left and its connection is online |
| `RetryQueue.Queue.Round` | internal/manager/retry_queue.go:121-137 | one round of a scan is one pop and one retry, or a pop that an acknowledgement overtakes |
| `RetryQueue.Queue.ProcessInFlightQueue` | internal/manager/retry_queue.go:121-137 | the scan ends whatever the clock says and is a sequence of such rounds; it ends stopped, with nothing due left, or broken off, the last if and only if something is due and the message just shifted is acknowledged before it is finished |
| `RetryQueue.RoundUsesATry` | internal/manager/manager_retry.go:75-90 | every round uses up a try, which is why scans end |
| `RetryQueue.DrainsExactlyTheDue` | internal/manager/retry_queue.go:121-137 | with a clock that does not run back and a positive interval a scan that is not cut short drains exactly the messages due, most urgent first and each once, and leaves the others untouched |
| `RetryQueue.DrainedAreHandled` | internal/manager/manager_retry.go:75-115 | each drained message is re-sent and due again one interval later if it has a try left and its connection is online, and given up otherwise |
| `RetryProtocol.StepKeepsInv` | internal/manager/retry_queue.go:44-137 | every lock region of every call keeps: a message is in one place, is filed unless acknowledged or being retried, and its writes done and to come never exceed its tries nor the maximum |
| `RetryProtocol.ReachableInv` | internal/manager/retry_queue.go:44-137 | this holds in every state of every interleaving |
| `RetryProtocol.ResendsAreBounded` | internal/manager/manager_retry.go:75-115 | over any run no message is written again more than the maximum number of times in its life |
| `RetryProtocol.FinishFailsIff` | internal/manager/retry_queue.go:127-134 | a scan cannot finish the message it shifted if and only if an acknowledgement of it was accepted before |
| `RetryProtocol.ScanEndsIff` | internal/manager/retry_queue.go:121-137 | a scan ends exactly when nothing due is left, when it is stopped, or when the message it shifted was acknowledged |
| `RetryProtocol.BreakLeavesDue` | internal/manager/retry_queue.go:130-134 | a run in which a scan nobody stopped ends with a due message on the heap |
| `RetryProtocol.ResentAfterAckIff` | internal/manager/manager_retry.go:75-115 | after an acknowledgement the message can be written again if and only if a scan was between finishing it, with a try left, and writing it |
| `RetryProtocol.AckDuringRetry` | internal/manager/manager_retry.go:75-115 | a run with such an acknowledgement, which is refused |
| `RetryProtocol.NothingLostIff` | internal/manager/retry_queue.go:44-119 | every filed message is on the heap or on its way there, in every state, if and only if no acknowledgement of a message still being added removes another one |
| `RetryProtocol.StaleSlotLosesAnother` | internal/manager/retry_queue.go:101-119 | a run in which that happens and an unacknowledged message is lost |
| `RetryProtocol.AgreeAtRest` | internal/manager/retry_queue.go:44-137 | then, with no call under way, the map holds exactly the unacknowledged messages on the heap |
| `Keys.InFlightKeyInjective` | internal/manager/retry_queue.go:91-99 | two in-flight keys agree only for the same node, connection and message |
| `Keys.ChannelKeyInjective` | pkg/wkutil/channel.go:8-15 | two channel keys agree only for the same channel |
| `TokenFence.RevokeDecision` | internal/api/user_session_revoke.go:100-122 | a conditional revocation writes exactly on its target, leaves its own row alone, and is superseded otherwise |
| `TokenFence.ApplyIsMonotone` | pkg/wkdb/device.go:595-603 | applying any command never lowers the version nor changes a row at its positive version |
| `TokenFence.VersionsDecide` | pkg/wkdb/device.go:595-603 | a newer row is always stored, an older one never, and one of the same version only without a version |
| `TokenFence.ProposalTakesHold` | internal/api/user.go:395-458 | what was decided to be written is what the store takes |
| `TokenFence.UpdateRefusedIff` | internal/api/user.go:395-402 | an unconditional update is refused if and only if its version is older, or the same positive one with another token or level |
| `TokenFence.RegisterIsFenced` | internal/api/user.go:346-475 | over any run, with commands applied in any order and any number of times, the version never falls, never exceeds 2^53 - 2, and what is stored at a positive version never changes |
| `TokenFence.ConditionalHitsOnlyItsTarget` | pkg/wkdb/device.go:213-283 | a conditional command changes the row only if version and hash are its target's at that moment |
| `TokenFence.ConfirmedStaysUntilNewer` | internal/api/user.go:346-475 | a confirmed versioned update stays in force until a newer version is stored |
| `TokenFence.UnversionedIsNotFenced` | internal/api/user.go:857-865 | for any two different updates without a version there is a run in which the older one, applied late, undoes the newer confirmed one |
| `TokenFence.FencedIffVersioned` | internal/api/user.go:346-475 | a confirmed update stays in force until something newer is stored, in every run, if and only if its version is positive |
| `TokenUpdate.Register.Update` | internal/api/user.go:346-484 | success means that this node led the slot before and after closing sessions, that the requested row was read back and nothing older is stored, and that sessions were ended by credential: without a condition all that do not hold the new token, and with a new master login the other logins, while other holders of the token are left alone; with a condition exactly the known sessions of the target up to its version; no session is touched before the row is read back, a refusal writes nothing, and if nothing goes wrong it succeeds |
| `TokenUpdate.Register.UpdateRow` | internal/api/user.go:390-467 | the row is proposed unless it is there or refused, and read back |
| `TokenUpdate.UpdateEnds` | internal/api/user.go:505-513 | a settled unconditional update has closed every session with another credential, and with a new master login every other login |
| `TokenUpdate.UpdateSpares` | internal/api/user.go:505-513 | a holder of the new token that no new master login ends is not even marked |
| `TokenUpdate.ConditionalEnds` | internal/api/user.go:500-510 | a settled conditional update has closed the sessions of its target and marks no other |
| `TokenUpdate.Register.Close` | internal/api/user.go:472-475 | closes only marked sessions out of the reports, and success means that this node led at the end and every report of every node is settled |
| `TokenUpdate.Register.Quit` | internal/api/user.go:113-165 | success means that this node led the slot after writing and at the end, that a row without a token was read back, one version further if it had one, that nothing older is stored, and that every reported session was closed; no session is marked or closed before the row is read back, it is refused exactly when no version is left, and if nothing goes wrong it succeeds |
| `SessionSweep.Merge` | internal/api/user.go:533-559 | a report is merged without listing a session twice and without losing what is known of it |
| `SessionSweep.CloseAll` | internal/api/user.go:562-589 | closes only marked sessions it is aimed at, and on success all of them, with none unclear |
| `SessionSweep.MarkAll` | internal/api/user.go:487-517 | what the leader knows is marked before any node is asked |
| `SessionSweep.Gather` | internal/api/user.go:519-560 | on success every node has answered and every report is represented |
| `SessionSweep.Sweep` | internal/api/user.go:486-589 | marks only what it may touch, closes only what it is aimed at, blocks known sessions before anything can fail, covers every report on success, and succeeds if nothing goes wrong outside |
| `SessionSweep.SettledIsClosed` | internal/api/user.go:486-589 | if reports of one session agree on its credential, a successful sweep has closed every session it was aimed at and left none of unknown generation |
| `SessionSweep.NewerIsSpared` | internal/api/user.go:488-514 | a newer generation or another credential is neither closed nor marked |
| `UserTask.StepKeepsInv` | internal/eventbus/user_task.go:24-86 | every step keeps the claim, the once-guard, the channel and the history consistent |
| `UserTask.ReachableInv` | internal/eventbus/user_task.go:24-86 | the invariant holds in every state of every interleaving |
| `UserTask.RunsAtMostOnce` | internal/eventbus/user_task.go:26-46 | the function is entered at most once, and by the leader if that was asked |
| `UserTask.CancelledNeverRuns` | internal/eventbus/user_task.go:79-85 | once the caller's swap has won, the function has not run and never will |
| `UserTask.FinishNeverBlocks` | internal/eventbus/user_task.go:24-24 | the result always finds room in the channel |
| `UserTask.AnswerIsTruthful` | internal/eventbus/user_task.go:58-86 | nil means that the function ran once and returned nil, on the leader if asked; a failure or a panic that it ran and ended so; "not the leader" that it did not run |
| `UserTask.AnswerIsOnItsWay` | internal/eventbus/user_task.go:24-86 | while the caller waits for a claimed task its answer is there or a thread is working on it |
| `UserTask.ClaimantGoesOn` | internal/eventbus/user_task.go:26-56 | that thread is never blocked, every step of it brings it nearer to sending the answer, and no other thread sets it back |
| `UserTask.OutcomeIsDelivered` | internal/eventbus/user_task.go:24-86 | undisturbed, the caller gets what the function came back with |
| `UserTask.GivingUpMayComeTooLate` | internal/eventbus/user_task.go:79-85 | a caller that gives up may be told so although the function has succeeded |
| `UserTask.GivingUpPreventsIff` | internal/eventbus/user_task.go:79-85 | after the caller gives up, the function runs in no continuation if and only if it has not run and no thread is on its way into it |
| `UserTask.GivingUpOnContextPreventsIff` | internal/eventbus/user_task.go:79-82 | when the context has ended only a thread that had already found it alive can still enter |
| `UserTask.LosingTheSwapMayStillPrevent` | internal/eventbus/user_task.go:34-44 | a run in which the caller loses the swap and the function is prevented all the same |
| `Conversation.Updater.UpdateUserIndex` | internal/manager/manager_conversation.go:333-353 | the index becomes that of the updates with the channel's update replaced |
| `Conversation.Updater.Push` | internal/manager/manager_conversation.go:286-330 | replaces the channel's update unless it is covered, under the same tag or without users; the index agrees |
| `Conversation.Updater.SetChannelUpdate` | internal/manager/manager_conversation.go:356-366 | sets the channel's update; the index agrees |
| `Conversation.Updater.RemoveChannel` | internal/manager/manager_conversation.go:414-431 | removes the channel's update; the index agrees |
| `Conversation.Updater.RemoveUserChannel` | internal/manager/manager_conversation.go:434-449 | removes one user from the channel's update; the index agrees and keeps no empty set |
| `Conversation.Updater.UserChannels` | internal/manager/manager_conversation.go:369-399 | the index alone finds exactly the pending channels of the wanted kind that list the user |
| `Conversation.Collect` | internal/manager/manager_conversation.go:162-191 | the batch is the first rows in order, cut at the limit but never before the first row |
| `Conversation.BatchSize` | internal/manager/manager_conversation.go:162-191 | the batch has as many rows as the limit lets through, and one in any case |
| `Conversation.RowsAreOwed` | internal/manager/manager_conversation.go:167-187 | the rows offered are exactly the pending ones with a user and a channel id |
| `Conversation.PassConservesIff` | internal/manager/manager_conversation.go:162-207 | a successful pass stores owed rows, each once, and nothing else is lost if and only if the limit does not fall inside a channel |
| `Conversation.LimitInsideLoses` | internal/manager/manager_conversation.go:162-207 | with a limit of one row the second user of any channel is lost |
| `Conversation.LatePassConservesIff` | internal/manager/manager_conversation.go:195-207 | if the cache has changed by the time the batch is stored, nothing owed then is lost if and only if no channel of the batch has gained a row and the limit does not separate rows of one channel |
| `Conversation.UntouchedPassConservesIff` | internal/manager/manager_conversation.go:195-207 | if no channel of the batch was touched, changes to others do not matter |
| `Conversation.LatePushIsLost` | internal/manager/manager_conversation.go:195-207 | a newer message of a user, pushed on a channel of the batch while it is stored, is lost |
| `Conversation.ReloadRestores` | internal/manager/manager_conversation.go:210-262 | loading what was saved brings every pending update back |
| `Conversation.Summarise` | internal/manager/manager_conversation.go:62-82 | the highest and the first number of the stored messages, and for each sender the highest of its own |
| `Conversation.Manager.Push` | internal/manager/manager_conversation.go:53-107 | replaces the channel's update exactly for a cached push with users, a higher number and another tag, listing exactly the users of the tag, each with the number of its own last message; no other channel is touched |
| `Conversation.WhatIsCached` | internal/manager/manager_conversation.go:53-107 | only command channels and the first messages of customer-service and unrestricted personal channels are cached |
| `Conversation.SendersHaveRead` | internal/manager/manager_conversation.go:310-325 | a listed sender has read up to its own last message, any other listed user nothing |
| `Conversation.Manager.DeleteFromCache` | internal/manager/manager_conversation.go:123-130 | removes one user from one channel, and nothing for a live channel |
| `Conversation.Manager.UserChannels` | internal/manager/manager_conversation.go:133-140 | finds exactly the user's pending channels over all shards |
| `Conversation.Manager.Load` | internal/manager/manager_conversation.go:233-262 | every update ends in the shard its channel hashes to, the last one for a channel winning |
| `Conversation.Manager.Restart` | internal/manager/manager_conversation.go:210-262 | what one process saves the next one holds, under any number of shards |
| `Conversation.Manager.StoreConversations` | internal/manager/manager_conversation.go:162-207 | with pushes coming in while the batch is stored: a failed pass forgets nothing, a successful one forgets exactly the channels it stored rows of, and what it loses is told by the two conditions above |
| `Wire.UintRoundTrip` | internal/eventbus/conn.go:71-95 | a number comes back exactly when it fits its bytes |
| `Wire.TextRoundTripIff` | internal/eventbus/conn.go:185-198 | a byte string comes back if and only if it is shorter than 2^16 |
| `Wire.MostSignificantFirst` | internal/eventbus/conn.go:71-95 | the first byte of a number is its most significant one |
| `Wire.PrimitiveLayout` | internal/eventbus/conn.go:70-95 | a flag is a byte that is 1 or 0, a byte string stands behind its length, a negative number is written in two's complement |
| `ConnCodec.FixedRoundTrip` | internal/eventbus/conn.go:70-152 | the twelve fixed fields come back, whatever follows them |
| `ConnCodec.FixedLayout` | internal/eventbus/conn.go:70-83 | the twelve fixed fields stand one behind the other in the order of the source |
| `ConnCodec.CutDecodes` | internal/eventbus/conn.go:154-180 | an encoding cut at any boundary of the optional tail decodes to the same fields up to there, and defaults behind |
| `ConnCodec.RoundTripIff` | internal/eventbus/conn.go:70-183 | a connection survives its encoding, a positive version becoming a known one, if and only if every byte string in it is short enough |
| `ConnCodec.OverlongConnIsLost` | internal/eventbus/event.go:180-186 | an encoding of 2^16 bytes or more never comes back from its two-byte length |
| `EventCodec.EncodeTrack` | internal/track/track.go:112-129 | the loop over the costs writes the 42 bytes of the trace |
| `EventCodec.DecodeTrack` | internal/track/track.go:131-158 | the loop reads them back, and short data is refused |
| `EventCodec.TrackRoundTrip` | internal/track/track.go:112-158 | a trace comes back |
| `EventCodec.FlagsTell` | internal/eventbus/event.go:176-176 | the flag byte tells exactly which parts follow |
| `EventCodec.EventLayout` | internal/eventbus/event.go:172-217 | flag byte, type and the parts of an event stand one behind the other, absent ones taking no room |
| `EventCodec.TrackLayout` | internal/track/track.go:112-129 | the path, sixteen costs and the start of a trace stand one behind the other |
| `EventCodec.EventRoundTripIff` | internal/eventbus/event.go:172-321 | an event comes back as its normal form, with the data behind it, for all combinations of parts, if and only if everything fits its length prefix |
| `EventCodec.EncodeBatch` | internal/eventbus/event.go:359-371 | the encoding of the count and of each event in turn, refused if one event is |
| `EventCodec.DecodeBatch` | internal/eventbus/event.go:373-388 | reads as many events as the count says, or fails |
| `EventCodec.BatchRoundTripIff` | internal/eventbus/event.go:357-388 | a batch comes back if and only if it has fewer than 2^32 events and each of them fits |
| `Framing.DecodeLength` | pkg/client/common.go:80-97 | computes the value and size of up to four 7-bit digits, or finds the data too short |
| `Framing.LengthRunsOutIff` | internal/server/proto.go:330-347 | a length runs out only where fewer than four bytes are left and all promise more; otherwise it is below 2^28 |
| `Framing.LengthRoundTrip` | internal/server/proto.go:330-347 | decoding inverts the 7-bit encoding of every length below 2^28 |
| `Framing.DigitsOfLength` | internal/server/proto.go:330-347 | digit i of a length is worth 128 to the power of i, and its upper bit says that more follow |
| `Framing.FirstByteDecides` | internal/server/proto.go:296-328 | the type is the upper half of the first byte; types 7 and 8 are single bytes, any other packet has the size its digits say |
| `Framing.PacketsAreTheFront` | pkg/client/common.go:46-78 | the packets are the front of the buffer, and what is left does not start with one |
| `Framing.ChunkingDoesNotMatter` | pkg/client/common.go:46-78 | reading a, and then the rest of a followed by b, gives the packets and the remainder of a + b |
| `Framing.FedIsWhole` | pkg/client/common.go:7-78 | however a stream is cut into chunks, the reader ends with the packets and the remainder of the whole stream |
| `Framing.WrittenIsRead` | internal/server/proto.go:296-328 | a written packet comes back as the first packet, and the rest follows |
| `Framing.Parse` | pkg/client/common.go:7-44 | the copying reader consumes exactly the complete packets at the front |
| `Framing.GnetUnpacket` | pkg/client/common.go:46-78 | the offset reader consumes the same prefix |
| `Framing.Unpacket` | internal/server/proto.go:296-328 | the server's reader consumes the same prefix and tells the type of the last packet looked at |
| `Framing.LastKindIs` | internal/server/proto.go:296-328 | that is the type of the incomplete packet behind the others if there is one, and of the last packet otherwise |

## Left out

- The HTTP, JSON and RPC layers around these cores, request forwarding, logging, metrics and jitter: plumbing without effect on the properties.
- The Raft and storage engines: their contracts appear as the command rule of `TokenFence`, the revision discipline of `SearchSource` and the watermark rule of `BootstrapPass`.
- The inner frame codec, SHA-256, UUIDs and hash functions: parameters, the frame codec with the assumption that it round-trips.
- Marker file contents, permissions and fsync: a marker is absent, broken or good, and each rename or creation is one durable step.
- BootstrapMarkers.NeverPartial: for runs in which no channel grows and no watermark moves but by a pass; a channel that has grown is refused on purpose on a first start.
- The outer retry of a bootstrap on a moving configuration: it repeats the modelled attempt.
- RetryProtocol.StepKeepsInv: a message is added once under its key, as message ids are unique; what a second one does is in `RetryQueue.Queue.StartInFlightTimeout`. The heap is its set of messages with due times, as `InFlightPqueue` justifies.
- RetryProtocol.NothingLostIff: where the source would remove from an empty heap by the slot number of a message never pushed, the process ends and so does the run.
- RetryQueue.Queue.ProcessInFlightQueue: between its regions only the acknowledgement of the shifted message is modelled; all other interleavings are in `RetryProtocol`. One queue; `Route` gives -1 where the source would index its queues with a negative remainder.
- SessionSweep.SettledIsClosed: assumes that reports of one session agree on its credential, which the source sets once when the session authenticates, and, where a changed login is compared, on whether it is authenticated and on its level.
- SessionSweep.Sweep: connections are closed in one thread; the per-connection task is `UserTask`.
- TagRetryQueue.Queue.Complete: requires that an item found is in flight, which `TagRetryProtocol.CompleteFindsItsItem` shows.
- Conversation.Manager.StoreConversations: pushes come in between the collection and the removals, not among them; the order in which maps are walked is a parameter.
- SearchMessages.DeliveredWhileOwned: assumes that the authority's versions rise as configurations are saved; a slot leader that answers from a state behind its predecessor's is not modelled.
- TagManager.Manager.Get: every operation of the manager is atomic, and the fields of a tag are one record that is replaced as a whole.
- TagUsers.MergeNodes: node lists are values; readers that hold a slice while it is shortened in place are not modelled.
- Framing.DecodeLength: digits are added, where the source ors them into clear bits.
- SearchSource.CanonicalRoster: the library sort is modelled by insertion.
- White space beyond the Latin-1 range in the check for blank channel ids.
- Event fields that are never encoded, size estimates, and the recording of trace positions.
- Webhooks and plugin hosts (calls to other processes), presence and permission lookups (reads of one table each), and the command-line tools.
