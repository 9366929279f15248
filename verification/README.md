# Liftbridge in Dafny

Liftbridge is a replicated, persistent message log. This project models the parts of it that hold its promises and
proves them for every input, every run and every interleaving.

| module | what it models |
|---|---|
| `Partition`, `Replication`, `InSyncRuns` | the leader's and followers' loops of one leader epoch, over a network that drops, duplicates and reorders |
| `Reporting`, `Progress` | what a leader knows of its ISR in an epoch, and that everything can always still be committed |
| `HandOver`, `Elections`, `Tracking`, `Durability` | many epochs: elections, both truncations, fetching, the ISR and committing |
| `Accounts` | what the state of a leader epoch says about the steps that led to it |
| `LateReplica`, `LostCommits` | runs of many epochs that go wrong |
| `Joining` | how a run of many epochs leads to runs of one |
| `EpochCache`, `EpochFence`, `LogEpochs` | the leader-epoch cache, and what it promises about the messages of a log |
| `Segments`, `CommitLog` | the segmented log as values and as objects with a log file and an index |
| `Reader`, `Serving`, `Resuming` | the committed reader, against a log that is appended to and rolled while it reads, and whose segments are replaced |
| `KeyScan`, `Compaction` | the parallel key scan and key compaction |
| `TimeSearch`, `Retention` | lookup by timestamp, and retention |
| `Index` | the memory-mapped index file |
| `Metadata`, `Proposals` | the Raft state machine for streams and partitions, and what is proposed to it |
| `MessageCodec`, `Encoder`, `MessageSet`, `Envelope`, `Fetch` | the message and message-set formats, the wire envelope, and filling replication responses |
| `Integers`, `Bytes`, `Sequences`, `Search` | integer widths, big-endian integers, joining blocks, and the binary search of Go's `sort.Search` |

`dafny verify dfyconfig.toml` checks the whole project.

## How the source becomes Dafny

- Objects whose fields the source updates are classes: the epoch cache, the partition, the segment and the log, the
  index file, the committed reader, the encoders, the protocol writer and the metadata store. Their methods are proved
  against functions on values, and the properties are proved of those functions.
- The protocols (`Replication`, `HandOver`, `KeyScan`, `Segments`, `EpochFence`) are state machines. A run is a sequence
  of states with a sequence of steps, and the main results hold at every state of every run. A step is possible whenever
  the code would take it; where a result needs more than that, what it needs is a hypothesis of the lemma
  (`HandOver.Sound`, `Durability.Trusted`, `Elections.Prompt`, `EpochFence.Orderly`, `Tracking.FreshAt`,
  `Replication.Truthful`), and there are runs that show what happens without it.
- Files are byte strings or message sequences. The checksum is any function of bytes to 32-bit words. The order in which
  a Go `range` visits a map is any order. What a goroutine sees of a changing log is any growing sequence of sights.
- Integer widths are written out where a value is narrowed: lengths, counts and positions in the codecs, index entries,
  the running position of a message set.

## Where the source falls short of a promise

Each of these is a concrete counterexample together with the exact condition under which the promise holds.

- An epoch start recorded by `append` is the first offset of the epoch, and truncation keeps the offset it is told. A
  late follower can keep a message the new leader does not have (`LateReplica.DivergenceIsReachable`), after which logs
  no longer match (`LateReplica.LogsStopMatching`). Its log becomes a prefix of the leader's if and only if the last
  message kept is of no later epoch in the leader's log (`Elections.HandOverAgrees`). A follower of the epoch just before
  has no such trouble, unless the new leader's log was empty (`Elections.PromptHandOver`).
- An epoch opened on an empty log starts at -1, which also means "not found"
  (`EpochFence.EmptyLogBreaksFence`, `EpochFence.EpochFence`).
- `ClearEarliest` puts the entry it re-adds at the end of the list (`EpochCache.ClearEarliestLosesLatestEpoch`); the
  cache is right if and only if the offset does not fall inside an epoch that others follow
  (`EpochCache.ClearEarliestRaises`).
- documentation/replication_protocol.md promises that a leader chosen from the ISR holds every committed message. It
  does if it has reported to the old leader all that was committed and all that was there when the epoch began, and was
  not put back into the ISR or taken out of it behind the old leader's back (`Durability.CommittedSurvive`). Each part
  is needed: a replica rejoins the ISR by elapsed time, without regard to its log (`LostCommits.RejoinedLoses`); one that
  was in it all through an epoch need not have caught up with its start (`LostCommits.AlwaysInSyncLoses`); and a leader
  that is behind the Raft log commits without the member that replaces it (`LostCommits.LaggingLeaderLoses`).
- A server keeps the offsets of its followers from one time it leads to the next, and commits by them
  (`LostCommits.StaleOffsetsCommit`). Over every run all tracked offsets have been reported in their epoch if and only if
  every new leader began with fresh ones (`Tracking.TrackedIsReported`). What was committed survives all the same as long
  as no offset is kept past the new leader's log and the next one chosen stores what is tracked of it
  (`Durability.CommittedSurvive`).
- Within such an epoch a message can be acknowledged for members that do not store it
  (`InSyncRuns.StaleOffsetAcknowledges`). Tracked offsets are stored in every state of an epoch if and only if it began
  so (`Replication.TrackedIsStored`), and a member misses an acknowledged message only if it began with an offset at or
  past it (`Replication.AckedStayStored`).
- A leader that was removed from its own ISR can commit a message before it is on the commit queue, and not acknowledge
  it (`InSyncRuns.RemovedLeaderMissesAck`); the acknowledgements keep up with the watermark exactly when it began within
  the log and no decision goes past the queue (`Replication.AcksKeepUp`), as when the leader is in the ISR with an own
  offset that began within the log (`Replication.AcksReachHW`).
- A server does not update its own offset when it becomes leader, so what it has from earlier epochs can wait for the
  next message although every replica has it (`InSyncRuns.CarriedOverWaits`). A leader at rest can commit the rest
  of its log without a new message if and only if the offset it tracks of itself is the end of the log or it is outside
  its ISR (`Progress.CommitsUnaided`); with one more batch it always can (`Progress.NextBatchCommits`).
- An epoch can begin with a follower whose high watermark is above the leader's (`LostCommits.WatermarkBeginsAbove`), and
  it is above as long as the one it began with is (`Replication.OneEpochSafety`).
- A message with an empty key can be removed in favour of one with none, because both use one slot
  (`Compaction.EmptyKeyCanBeLost`, `Compaction.CompactionKeepsView`).
- A lookup by timestamp can skip messages when a roll splits messages of the same time, and fails for recent times while
  the active segment is empty (`TimeSearch.OffsetForTimestamp`).
- The message limit of retention can delete the active segment too; a byte limit then panics (`Retention.Clean`).
- Headers with a nil value make the `Headers` accessor panic, 65536 headers or more are cut, and the accessors' 32-bit
  positions overflow from 2^31 bytes on (`MessageCodec.HeadersSurvive`, `MessageCodec.KeyAndValueSurvive`).
- A message that does not fit a replication response stops a follower for good (`Fetch.CatchesUp`).
- A removal from the ISR that was proposed before a leader change and is applied after it can leave a leader outside its
  own ISR (`Proposals.RacingShrinkRemovesLeader`); a leader stays in it if and only if no entry removes it or names one
  from outside (`Proposals.LeadersStayInSync`), and only stale or misdirected entries do (`Proposals.TimelyIsHarmless`).
- A change of the ISR that was proposed before its stream is deleted and is applied after it stops the servers
  (`Proposals.RacingDeleteStops`). A server comes through a log if and only if no entry changes a partition that is not
  there or moves a server that is no replica (`Metadata.ServerComesThrough`, `Proposals.ProposedStops`).
- The entry for a new leader does not carry the partition number (`Proposals.ElectionGoesAstray`), so an election takes
  effect on the partition it was for if and only if that is partition 0 (`Proposals.ElectionReachesFirst`).
- Applying a change again to a deleted partition stops the server (`Metadata.Redelivery`).

## Model

| member | source | states |
|---|---|---|
| `Search.SearchFindsFirst` | server/commitlog/util.go:11-20 | on a monotone predicate the binary search returns the first index at which it holds, or the length |
| `EpochCache.EpochIndex` | server/commitlog/leader_epoch_cache.go:221-229 | the result is a boundary: the entry there is at least the epoch, the one before it is below |
| `EpochCache.LookupSplits` | server/commitlog/leader_epoch_cache.go:221-229 | on an ordered cache the lookup separates exactly the entries below the epoch from the others |
| `EpochCache.AssignedKeepsOrder` | server/commitlog/leader_epoch_cache.go:231-251 | assigning keeps epochs strictly increasing and starts non-decreasing, whatever is assigned |
| `EpochCache.ClearedLatestKeeps` | server/commitlog/leader_epoch_cache.go:103-124 | clearing from an offset keeps exactly the entries that start before it, in order |
| `EpochCache.ClearEarliestRaises` | server/commitlog/leader_epoch_cache.go:129-165 | the cache stays ordered and every lookup is the old one, raised to the offset, if and only if the offset does not fall inside an epoch followed by another |
| `EpochCache.ClearEarliestOrder` | server/commitlog/leader_epoch_cache.go:129-165 | when it does not, exactly the entries below the offset go, the last one stays at the offset if all would go, and the latest epoch is unchanged |
| `EpochCache.ClearEarliestLookup` | server/commitlog/leader_epoch_cache.go:129-165 | and every lookup answers as before, raised to the offset |
| `EpochCache.ClearEarliestLosesLatestEpoch` | server/commitlog/leader_epoch_cache.go:149-157 | an ordered cache that comes out with its entries in the wrong order |
| `EpochCache.RebasedIs` | server/commitlog/leader_epoch_cache.go:169-188 | rebasing on an ordered cache keeps every entry and adds exactly those from the offset on that come after the last one, a suffix of the other cache |
| `EpochCache.LeaderEpochCache.constructor` | server/commitlog/leader_epoch_cache.go:41-47 | a new cache is empty |
| `EpochCache.LeaderEpochCache.Assign` | server/commitlog/leader_epoch_cache.go:75-79 | adds an entry only if both epoch and offset say so, and keeps the order |
| `EpochCache.LeaderEpochCache.ClearLatest` | server/commitlog/leader_epoch_cache.go:103-124 | the loop computes the cleared cache and keeps the order |
| `EpochCache.LeaderEpochCache.ClearEarliest` | server/commitlog/leader_epoch_cache.go:129-165 | the loop computes what the lemmas above are about |
| `EpochCache.LeaderEpochCache.Rebase` | server/commitlog/leader_epoch_cache.go:169-188 | assigns the other cache's entries from the offset on, and keeps the order |
| `EpochCache.LeaderEpochCache.Replace` | server/commitlog/leader_epoch_cache.go:191-198 | takes the other cache's entries over |
| `EpochCache.LeaderEpochCache.LastOffsetForLeaderEpoch` | server/commitlog/leader_epoch_cache.go:84-92 | on an ordered cache the start of the first entry of a later epoch, -1 if there is none; past the greatest epoch of 64 bits all entries are later again |
| `EpochFence.AppendKeepsInv` | server/commitlog/commitlog.go:245-265 | appending keeps the cache in agreement with the epochs of the messages |
| `EpochFence.OpenKeepsInv` | server/commitlog/commitlog.go:380-382 | so does opening an epoch |
| `EpochFence.TruncateKeepsInv` | server/commitlog/commitlog.go:516-516 | so does truncation to any offset |
| `EpochFence.RetainKeepsInv` | server/commitlog/commitlog.go:140-140 | so does retention, if and only if it does not cut inside an epoch that another follows |
| `EpochFence.RunKeepsInv` | server/commitlog/commitlog.go:245-265 | the agreement holds at every state of every run of these operations in which appended epochs do not fall and no retention cuts inside an epoch |
| `EpochFence.EpochFence` | server/commitlog/commitlog.go:387-393 | in every such run, the answer for an epoch puts all messages up to it at or below and all later ones at or above, if and only if the first later epoch was not opened on an empty log that holds two messages or more |
| `EpochFence.EmptyLogBreaksFence` | server/commitlog/commitlog.go:387-393 | a run in which the answer fails |
| `Partition.LeastOffset` | server/partition.go:1183-1193 | the minimum of a non-empty slice, 0 for an empty one |
| `Partition.PartitionObject.constructor` | server/partition.go:127-135 | tracked offsets start at -1, the server's own at its newest offset |
| `Partition.PartitionObject.UpdateISRLatestOffset` | server/partition.go:1097-1112 | the tracked offset of a member of the ISR becomes the reported one if that is greater, and no other changes |
| `Partition.PartitionObject.RemoveFromISR` | server/partition.go:980-1009 | removes the replica, or refuses one that is not a replica and changes nothing |
| `Partition.PartitionObject.AddToISR` | server/partition.go:1013-1033 | adds the replica with offset -1 and leaves the others alone, or refuses likewise |
| `Partition.PartitionObject.ProcessPendingMessage` | server/partition.go:658-677 | acknowledges at once for the leader policy, and queues for commit in order |
| `Partition.PartitionObject.ProcessBatch` | server/partition.go:587-653 | the log gets the batch with consecutive offsets, the commit queue all of it in order, the leader policy its acknowledgements, and the leader's own offset reaches the end of the log |
| `Partition.PartitionObject.CommitCheck` | server/partition.go:709-773 | below the minimum ISR size nothing changes; otherwise the minimum over the ISR is committed and its messages are taken off the queue and acknowledged |
| `Partition.PartitionObject.TakeCommitted` | server/partition.go:709-773 | takes exactly the longest front part of the queue at or below the offset |
| `Partition.PartitionObject.SendAcks` | server/partition.go:709-773 | acknowledges in order exactly those of policy ALL that have an inbox |
| `Partition.PartitionObject.HandleReplicationResponse` | server/partition.go:524-564 | a response of the current epoch raises the watermark to its own, and all its data is appended if it does not start before the next offset; otherwise nothing changes |
| `Replication.DueExact` | server/partition.go:643-677 | the acknowledgements due in a range of offsets are exactly those asked for, each once and in order |
| `Replication.ReceivedIsPrefix` | server/partition.go:524-564 | the one-sided check lets a follower append only where its log ends, so it stays a prefix of the leader's |
| `Replication.CommitServes` | server/partition.go:709-773 | a commit takes off the queue and acknowledges exactly the messages up to the decided offset that are on it |
| `Replication.CommitTakesEffect` | server/partition.go:709-773 | in every run, when a commit decision completes, the high watermark is at or above it and each queued message of the epoch up to it that asks for it is acknowledged |
| `Replication.ReportedIsCommitted` | server/partition.go:736-763 | in every run, once all of the ISR has reported a message, the next time the commit loop reads the offsets, one by one while they rise, the message is committed, and acknowledged if it is on the queue by then |
| `Reporting.MemberJoined` | server/partition.go:1013-1033 | in every run a member of the ISR was there from the start or was added at some step, and stayed since |
| `Reporting.TrackedIsGreatest` | server/partition.go:1097-1112 | in every run, what is tracked of it is exactly the greatest offset it has told the leader since then, by a handled request or its own report, or what it joined with |
| `Reporting.ToldIsTracked` | server/replicator.go:96-98 | so an offset once told stays covered until the member is removed or added anew |
| `Reporting.ToldIsCommitted` | server/partition.go:709-773 | and once every member of the ISR has told the leader of a message, the next turn of the commit loop commits it, and acknowledges it if it is on the queue |
| `Progress.Round` | server/replicator.go:85-139 | from every reachable state a follower can ask, be answered and take the answer; it then has exactly as many more of the leader's messages as were sent and at least its watermark, and the leader tracks what it had |
| `Progress.CatchUp` | server/partition.go:866-883 | two such rounds bring a follower up to date and let the leader know |
| `Progress.Settle` | server/partition.go:587-653 | from every reachable state the loops of the leader can come to rest |
| `Progress.NextBatchCommits` | server/partition.go:587-773 | from every reachable state with an ISR of the minimum size, the next batch can be stored by every replica and committed with all before it, without another message or a change of the ISR, and then exactly the messages that ask for it are acknowledged |
| `Progress.CommitsUnaided` | server/partition.go:327-341 | a leader at rest can come to commit its whole log without another message if and only if it is committed already, or the leader is outside its ISR or tracked at the end of its log |
| `Replication.RunGrows` | server/partition.go:587-653 | over every run logs and acknowledgements only grow |
| `Replication.OneEpochSafety` | server/partition.go:487-564 | in every run, whatever the epoch began with and whatever the ISR does to the leader, each follower log is a prefix of the leader's, each tracked offset is at most the follower's newest or what the epoch began with, every response in flight starts at or below the follower's next offset, and a follower watermark is at most the leader's if and only if the one it began with is |
| `Replication.TrackedIsStored` | server/partition.go:1097-1112 | over every run, each state has every tracked offset stored by its replica if and only if the epoch began so |
| `Replication.AcksAreExact` | server/partition.go:709-773 | in every run the acknowledgements for all replicas are exactly the offsets the queue has been served up to that ask for them, once and in order, none above the watermark; those of the leader policy likewise for the messages queued |
| `Replication.ServingKeepsUp` | server/partition.go:736-763 | a commit keeps the queue served up to the watermark if and only if it decides on nothing that is not on the queue yet |
| `Replication.AcksKeepUp` | server/partition.go:709-773 | over every run, each state has the queue served up to the watermark if and only if the watermark began within the log and each commit found all it decided on on the queue |
| `Replication.AcksReachHW` | server/partition.go:709-773 | in every run whose leader was in its ISR at each decision and began with a watermark and an own offset within its log, acknowledged are exactly the offsets up to the watermark that ask for it |
| `Replication.AckedStayStored` | server/partition.go:709-773 | in every run an acknowledged message is kept by the leader and by each of the at least minimum ISR size of members of that decision in every later state, but for those whose tracked offset began at or past it |
| `Replication.TruthfulAcksAreStored` | server/partition.go:709-773 | so by all of them in an epoch that began with offsets the members stored |
| `Replication.SteadyMembersHoldCommitted` | server/partition.go:980-1033 | a replica that never left the ISR stores everything committed in the epoch once the watermark is past the offset it began with |
| `InSyncRuns.RejoinedMemberMayLackCommitted` | server/replicator.go:154-186 | a run in which a replica that rejoined the ISR lacks a committed, acknowledged message |
| `InSyncRuns.RemovedLeaderMissesAck` | server/partition.go:980-1009 | a run in which a leader outside its ISR commits a message and does not acknowledge it |
| `InSyncRuns.StaleOffsetAcknowledges` | server/partition.go:127-135 | a run of an epoch that began with an offset its member does not store, in which a message is acknowledged for two members and stored by one |
| `InSyncRuns.CarriedOverWaits` | server/partition.go:327-341 | a start of an epoch with a message that both replicas have and that is not committed, however long, until another is published |
| `HandOver.KeepsCommon` | server/partition.go:889-919 | what a follower drops is of later epochs in the leader's log |
| `HandOver.TruncationAgrees` | server/partition.go:889-919 | truncation makes a follower a prefix of its leader if and only if the condition `Agreeable` holds, and never drops a message both hold |
| `HandOver.RunKeepsInv` | server/partition.go:427-448 | the logs of all replicas stay prefixes of their lines, each line a prefix of the one before and messages of its own epoch, in every run whose truncations are sound |
| `Elections.FollowersArePrefixes` | server/partition.go:427-448 | in every run with any number of epochs whose truncations so far were sound, a replica that follows a line holds a prefix of its leader's log |
| `Elections.LogsMatch` | server/partition.go:889-919 | in every such run, two logs that hold a message of the same epoch at the same offset agree on everything up to it; without the hypothesis this fails (`LateReplica.LogsStopMatching`) |
| `Elections.HandOverAgrees` | server/partition.go:889-919 | in every such run, a replica that truncates next against a leader of its own or a later line becomes a prefix of its log if and only if `Agreeable` holds, and loses nothing the leader holds |
| `Elections.AnswerWithin` | server/partition.go:467-482 | the leader's answer is an offset of its log with no later epoch below it and no earlier one above it, or its newest offset if the next epoch was opened on an empty log |
| `Elections.DisagreesAtFirstLaterOffset` | server/partition.go:889-919 | otherwise the check fails exactly where the answer is the first offset of the later epochs, as `append` records it, and the follower holds that offset |
| `Elections.PromptHandOver` | server/partition.go:427-435 | in every such run, a replica of the line before ends with a prefix of the new leader's log if and only if the leader's log was not empty when its epoch began or one of the two is empty, and loses nothing the leader had at that time |
| `Elections.PromptIsSound` | server/partition.go:889-919 | so following the lines one by one, or the own line again, truncates soundly |
| `Durability.CutToHWIsSound` | server/partition.go:949-960 | truncating to the high watermark leaves a prefix of every later leader's log |
| `Tracking.RunKeepsBounded` | server/partition.go:1097-1112 | in every run, without any hypothesis, offsets are at least -1 and a leader's log is its line's |
| `Tracking.TrackedIsReported` | server/partition.go:127-135 | over every run, each state has every tracked offset reported in its epoch if and only if every new leader began with fresh offsets |
| `Tracking.AlwaysInSyncReported` | server/partition.go:709-773 | in every run whose leaders began with fresh offsets a replica that never left the ISR in an epoch has reported all that was committed in it |
| `Accounts.BeginsWithOwn` | server/partition.go:327-341 | in every run an epoch begins with the log, the watermark and the offset map of the server elected |
| `Accounts.TrackedIsGreatest` | server/partition.go:1097-1112 | in every run of many epochs, what a leader tracks of a member is exactly the greatest offset it has been told since the member joined, or what it joined with |
| `Accounts.AddedFresh` | server/partition.go:1013-1033 | which is -1 for one that is added |
| `Accounts.SentIsGreatest` | server/partition.go:866-883 | what a follower has reported in an epoch is exactly the greatest offset it asked with |
| `Accounts.CommittedIsDecided` | server/partition.go:709-773 | what is committed is exactly what was decided last |
| `Accounts.CommitsAreDecided` | server/partition.go:716-745 | and that by an ISR of at least the minimum size, each member tracked that far |
| `Accounts.WatermarkIsGreatest` | server/partition.go:753-753 | a leader's watermark is exactly the greatest it was moved to, or the one it began with |
| `Accounts.WatermarkIsLast` | server/partition.go:540-540 | and a server's own is the greatest it has learned or moved to |
| `Accounts.LineIsWritten` | server/partition.go:587-653 | the log of an epoch is the one its leader began with and exactly the messages written since, in order |
| `Accounts.WrittenStays` | server/partition.go:587-653 | none of which is missing |
| `Accounts.FetchesAll` | server/partition.go:524-564 | a follower with part of the log has all of it after one fetch for each message it lacks |
| `Durability.RunKeepsSafe` | server/partition.go:709-773 | in every run whose elections are of caught-up replicas that store what is tracked of them and keep no offset past their log, and whose answered truncations are sound, tracked offsets stay within the leader's log, a successor stays in the old leader's ISR, and truncations to the watermark are sound too |
| `Durability.CommittedSurvive` | server/metadata.go:774-813 | in every such run, what a leader decided to commit by its ISR, deposed or not, is held unchanged by the leader of every later epoch |
| `Durability.CaughtUpTakesOver` | server/metadata.go:774-813 | a replica that has reported all it has takes over the log its leader began with and what was committed since if and only if it has reported that much |
| `Durability.WatermarksAreCommitted` | server/partition.go:540-540 | in every such run each replica's high watermark is below what some leader up to its own epoch committed, and what it stores up to there is that leader's |
| `Durability.AlwaysInSyncIsCaughtUp` | server/metadata.go:774-813 | in every run whose leaders began with fresh offsets, such a replica is caught up if and only if it has reported what the epoch began with and no removal of it is pending |
| `Durability.CarefulRunsAreTrusted` | server/partition.go:427-448 | if replicas follow the lines one by one, nothing needs to be assumed of the truncations: all these results hold |
| `LateReplica.DivergenceIsReachable` | server/commitlog/commitlog.go:253-261 | a run, sound up to then, whose late replica keeps a message the leader does not have |
| `LateReplica.LogsStopMatching` | server/partition.go:889-919 | and after one more write and fetch two logs hold the same message at one offset and different ones below it |
| `LostCommits.RejoinedLoses` | server/replicator.go:154-186 | a run in which a member of the ISR that rejoined it is elected and a committed message is lost |
| `LostCommits.AlwaysInSyncLoses` | server/metadata.go:774-813 | likewise for a member that was in the ISR since the epoch began, with a tracked offset not below anything committed in it |
| `LostCommits.LaggingLeaderLoses` | server/partition.go:709-773 | a run in which a leader that has not heard of its successor joining the ISR commits a message the successor lacks |
| `LostCommits.StaleOffsetsCommit` | server/partition.go:328-341 | a run in which a server leads a second time and may commit by offsets from the first a message no other member has |
| `LostCommits.WatermarkBeginsAbove` | server/partition.go:540-540 | a run with a trusted election after which the old leader follows with a watermark above the new leader's |
| `Joining.SoundRunBeginsEpoch` | server/partition.go:427-448 | in every run of many epochs whose truncations were sound, once all replicas follow a line its state is the start of a run of one epoch |
| `Joining.OffsetsByName` | server/partition.go:127-135 | with the tracked offsets of the line |
| `Joining.StateByName` | server/partition.go:427-448 | and the same epoch, logs and watermarks |
| `KeyScan.LatestIsLatest` | server/commitlog/compact_cleaner.go:206-223 | noting record after record yields the greatest offset at or below the watermark of each key, and nothing else |
| `KeyScan.LatestIsUnique` | server/commitlog/compact_cleaner.go:206-223 | there is only one such map |
| `KeyScan.ScanTerminates` | server/commitlog/compact_cleaner.go:181-223 | every interleaving of any number of workers ends within a bound on the number of moves |
| `KeyScan.ScanNeverStuck` | server/commitlog/compact_cleaner.go:181-223 | until all workers are done, some move is possible |
| `KeyScan.ScanFindsLatest` | server/commitlog/compact_cleaner.go:181-223 | every finished interleaving, including workers that quit early, leaves exactly the latest offset of each key |
| `Compaction.CompactionRetains` | server/commitlog/compact_cleaner.go:85-179 | a message survives if and only if it is in the last segment, has no key, is at or past the watermark or is the last of its slot; order is kept |
| `Compaction.CompactionKeepsSegments` | server/commitlog/compact_cleaner.go:85-127 | each segment left comes from one that was there, in order and with its base offset, and holds exactly what survives of it; none but the last is empty, and one that is gone had no survivors |
| `Compaction.CompactionKeepsPlaces` | server/commitlog/segment.go:321-323 | so if base offsets rise and each message lies between that of its segment and the next, they still do |
| `Compaction.CompactionKeepsView` | server/commitlog/compact_cleaner.go:85-179 | the last message of a key at every offset from the watermark on is the same before and after if and only if the key is not shadowed in its slot |
| `Compaction.ShadowedIsLost` | server/commitlog/compact_cleaner.go:206-223 | a shadowed key does lose its message |
| `Compaction.CompactionIsIdempotent` | server/commitlog/compact_cleaner.go:85-179 | compacting again at the same watermark changes nothing |
| `Compaction.EmptyKeyCanBeLost` | server/commitlog/compact_cleaner.go:206-223 | a log in which a message with an empty key disappears |
| `Compaction.CompactionRebuildsCache` | server/commitlog/compact_cleaner.go:85-127 | the rebuilt cache lists each retained epoch once, with its first retained offset |
| `Compaction.CleanSegment` | server/commitlog/compact_cleaner.go:129-179 | the loop keeps what is to be kept, counts what goes, drops an empty result and notes the epochs |
| `Compaction.ScanSegment` | server/commitlog/compact_cleaner.go:206-223 | one segment scanned in order; quitting at the first offset above the watermark loses nothing |
| `Compaction.ScanSegments` | server/commitlog/compact_cleaner.go:181-223 | the scan of all segments in one worker |
| `Compaction.CompactSealed` | server/commitlog/compact_cleaner.go:85-127 | the loop over all segments but the last |
| `Compaction.AssignEpochs` | server/commitlog/compact_cleaner.go:85-127 | the epochs of the last segment are noted in order |
| `Compaction.Compact` | server/commitlog/compact_cleaner.go:44-64 | the whole of compaction: result, new cache and number of messages removed; one segment is left alone |
| `Segments.SegmentIndexIs` | server/commitlog/util.go:11-20 | on an ordered log the binary search finds the first segment whose next offset is past the given one |
| `Segments.BelowExact` | server/commitlog/commitlog.go:490-511 | scanning up to the first message not to be kept keeps exactly those before the offset |
| `Segments.TruncatedFrames` | server/commitlog/commitlog.go:448-517 | truncation of any ordered segment list keeps exactly the messages before the offset, in order, in all three cases |
| `Segments.TruncatedOk` | server/commitlog/commitlog.go:448-517 | and leaves an ordered segment list |
| `Segments.TruncatedNewest` | server/commitlog/commitlog.go:448-517 | on a log without gaps the newest offset is then the one before |
| `Segments.FramesRise` | server/commitlog/commitlog.go:215-229 | read end to end, the offsets of an ordered segment list rise |
| `Segments.StepRefines` | server/commitlog/commitlog.go:538-582 | appending, rolling and truncating do to the messages read end to end what they would do to a plain sequence |
| `Segments.RunRefinesFlat` | server/commitlog/commitlog.go:215-279 | after every run of appends, rolls and truncations the segments read end to end are what a plain sequence would be |
| `Segments.RunStaysTight` | server/commitlog/commitlog.go:538-582 | if every append goes on where the log ends, offsets are consecutive, each base is the previous segment's next offset, and only the last segment may be empty |
| `CommitLog.EntryReads` | server/commitlog/segment.go:426-449 | an index entry leads to its message in the log file: position, size field and bytes |
| `CommitLog.LogSegment.constructor` | server/commitlog/segment.go:72-100 | an empty log file and index, no offsets yet |
| `CommitLog.LogSegment.Next` | server/commitlog/segment.go:167-176 | the base offset of an empty segment, otherwise one past the last |
| `CommitLog.LogSegment.CheckSplit` | server/commitlog/segment.go:137-150 | exactly a full or an old segment is rolled, and only one that was written to |
| `CommitLog.LogSegment.Write` | server/commitlog/segment.go:219-238 | appends the bytes; the first write, told by a zero write time, sets the first offset; the last offset follows |
| `CommitLog.LogSegment.WriteMessageSet` | server/commitlog/segment.go:208-215 | log file and index go on describing exactly the messages, now with the new ones |
| `CommitLog.IndexFileHolds` | server/commitlog/index.go:52-66 | the entries of a segment survive the 32-bit fields of its index file if and only if the last one does |
| `CommitLog.NoteEpochs` | server/commitlog/commitlog.go:245-265 | the loop notes the first offset of each epoch later than those before |
| `CommitLog.Scan` | server/commitlog/segment.go:426-449 | entry by entry returns each message's own bytes, and nothing past the end |
| `CommitLog.CopyMessage` | server/commitlog/commitlog.go:498-506 | one turn of the copying loop |
| `CommitLog.TruncateSegment` | server/commitlog/commitlog.go:490-511 | a new segment with exactly the messages before the offset, each at its old position |
| `CommitLog.Log.constructor` | server/commitlog/commitlog.go:200-206 | a new log has one empty segment at offset 0 |
| `CommitLog.Log.NewestOffset` | server/commitlog/commitlog.go:269-271 | one before the next offset of the active segment |
| `CommitLog.Log.Split` | server/commitlog/commitlog.go:561-582 | adds an empty segment based at the next offset |
| `CommitLog.Log.CheckAndPerformSplit` | server/commitlog/commitlog.go:538-559 | rolls exactly an active segment that is full or old, and only one that was written to |
| `CommitLog.Log.Append` | server/commitlog/commitlog.go:215-265 | the log is the old one followed by the batch, each message with its own data, time and epoch and the next offset; the last entries of the active segment's index delimit bytes that end in that data; a roll comes first exactly if it is time, and new epochs go into the cache |
| `CommitLog.Log.AppendMessageSet` | server/commitlog/commitlog.go:233-265 | a received set goes after the log as it is, indexed as the leader indexed it, and its new epochs into the cache |
| `CommitLog.Log.NewLeaderEpoch` | server/commitlog/commitlog.go:380-382 | notes the epoch at the newest offset |
| `CommitLog.Log.LastOffsetForLeaderEpoch` | server/commitlog/commitlog.go:387-393 | the cached start of the first later epoch, or the newest offset |
| `CommitLog.Log.FindSegment` | server/commitlog/util.go:11-20 | the search loop finds the first segment whose next offset is past the given one |
| `CommitLog.Log.Truncate` | server/commitlog/commitlog.go:448-517 | the objects follow the truncation of the segment list that the lemmas are about, and the epochs that start at or past the offset are forgotten unless there was nothing to truncate |
| `LogEpochs.AppendAgrees` | server/commitlog/commitlog.go:245-265 | what an append notes keeps the cache in agreement with the messages of the log |
| `LogEpochs.TruncateAgrees` | server/commitlog/commitlog.go:448-517 | so does a truncation of segments and cache together |
| `LogEpochs.OpenAgrees` | server/commitlog/commitlog.go:380-382 | so does opening an epoch |
| `LogEpochs.AnswerIsFence` | server/commitlog/commitlog.go:387-393 | so the log's answer for an epoch separates its messages at that epoch, but for an epoch opened on an empty log |
| `Reader.LookupFinds` | server/commitlog/reader.go:374-384 | the two binary searches find a message that is there |
| `Reader.SearchesFind` | server/commitlog/reader.go:355-363 | and otherwise the first message past the offset |
| `Reader.Serves` | server/commitlog/reader.go:253-267 | a message not past the watermark is read as a whole: the limit never cuts it |
| `Reader.MeetsEnd` | server/commitlog/reader.go:272-283 | at the end of an earlier segment the read meets the end of the file, with nothing read |
| `Reader.MeetsHW` | server/commitlog/reader.go:254-270 | at the watermark nothing is asked for |
| `Reader.HWRises` | server/commitlog/reader.go:285-303 | a later watermark is no earlier in the log |
| `Reader.CommittedReader.TryRead` | server/commitlog/reader.go:253-270 | one turn of the loop: everything asked for, the end of the segment, or the watermark |
| `Reader.CommittedReader.Sync` | server/commitlog/reader.go:285-303 | waits for the watermark to move and looks it up; afterwards there is something to read |
| `Reader.CommittedReader.Read` | server/commitlog/reader.go:248-307 | across segments and watermark advances, returns the bytes of the next message, or stops only at the last watermark seen |
| `Reader.CommittedReader.Start` | server/commitlog/reader.go:206-246 | a reader created past the watermark begins just after the watermark it knew |
| `Reader.CommittedReader.ReadMessage` | server/commitlog/reader.go:56-81 | returns the next message of the flat log, which is committed, and gives up only when everything committed was returned |
| `Reader.NewReader` | server/commitlog/reader.go:325-372 | the reader stands before the first message at or past the start offset if that is committed, and otherwise before the first one past the watermark |
| `Reader.ReadMessages` | server/commitlog/message_set.go:104-127 | message after message: consecutive, committed, no skip and no repeat, and all there are if fewer come than asked for |
| `Reader.ReadFrom` | server/commitlog/reader.go:325-372 | so the first message returned is that one, still the first when it is returned |
| `Resuming.NoneSkipped` | server/commitlog/reader.go:56-81 | between the start of a reader and the last message it returned, every message the log still holds when a segment is replaced was returned |
| `Resuming.ReadOn` | server/commitlog/reader.go:56-81 | a reader made anew at an offset returns committed messages in a row from the first one at or past it, or past the watermark, and all there are if fewer come than asked for |
| `Resuming.ReadAcross` | server/commitlog/reader.go:56-81 | over any number of replacements, whatever they remove, the offsets returned rise, none twice; every message from the start to the last one returned that all the logs hold is returned, and every committed one if the reader asked for more in the end |
| `Serving.RunIsHistory` | server/commitlog/reader.go:206-246 | what a reader sees of any run of appends and rolls is a history the reader is proved against |
| `Serving.AllAreFrames` | server/commitlog/reader.go:206-246 | the messages a reader counts are those of the flat log |
| `Serving.DeliversFrame` | server/commitlog/message_set.go:104-127 | and what it returns for one of them are its offset, time, epoch and data |
| `TimeSearch.FindSegmentIndexByTimestamp` | server/commitlog/util.go:40-55 | on a timed log the first segment whose first message is after the time; with an empty last segment an error if and only if the search gets to probe it |
| `TimeSearch.FindEntryByTimestamp` | server/commitlog/segment.go:383-399 | the first entry at or after the time, or none |
| `TimeSearch.SplitAt` | server/commitlog/commitlog.go:293-301 | the segment searched misses an earlier match exactly when the time is on both sides of a boundary |
| `TimeSearch.OffsetForTimestamp` | server/commitlog/commitlog.go:283-322 | equals a scan of the whole log if and only if no roll splits messages of that time, and otherwise is the first offset of the last segment that begins at it; with an empty active segment it fails if and only if the search gets to probe it, and otherwise answers likewise |
| `TimeSearch.SplitStampExists` | server/commitlog/commitlog.go:283-322 | such a log exists |
| `Retention.ApplyAgeLimit` | server/commitlog/delete_cleaner.go:154-183 | deletes the least that age asks for, never the active segment |
| `Retention.ApplyMessagesLimit` | server/commitlog/delete_cleaner.go:82-116 | deletes the least that brings the messages within the limit; a single segment is left alone |
| `Retention.ApplyBytesLimit` | server/commitlog/delete_cleaner.go:118-152 | deletes the least that brings the bytes within the limit, never the active segment |
| `Retention.LimitMessages` | server/commitlog/delete_cleaner.go:59-65 | the message pass after the age pass, seen from the whole list |
| `Retention.LimitBytes` | server/commitlog/delete_cleaner.go:67-73 | the byte pass after both, and its panic on an empty list |
| `Retention.PassesMeet` | server/commitlog/delete_cleaner.go:42-76 | three passes, each deleting the least, together delete the least that meets all limits |
| `Retention.Clean` | server/commitlog/delete_cleaner.go:42-76 | the longest end of the list that meets all limits together, not empty, unless the active segment alone is over the message limit; what happens then |
| `Index.EntryReadsBack` | server/commitlog/index.go:52-66 | an entry that fits 32 bits reads back as written, but for the leader epoch |
| `Index.GrownSizeFits` | server/commitlog/index.go:178-200 | in every expansion case the new size is a whole number of entries and holds the write |
| `Index.WriteMaps` | server/commitlog/index.go:178-200 | after a write the file is the entries followed by zeros |
| `Index.EncodeEntries` | server/commitlog/index.go:127-140 | the loop lays the entries out one after the other |
| `Index.IndexFile.WriteAt` | server/commitlog/index.go:178-200 | grows the file with zeros if the write reaches its end, and changes nothing else |
| `Index.IndexFile.WriteEntries` | server/commitlog/index.go:127-140 | the index is the old entries followed by the new ones |
| `Index.IndexFile.ReadEntryAtFileOffset` | server/commitlog/index.go:145-176 | an end-of-file error past the position |
| `Index.IndexFile.ReadEntryAtLogOffset` | server/commitlog/index.go:164-166 | entry k as written, or nothing past the end |
| `Index.IndexFile.constructor` | server/commitlog/index.go:74-111 | an existing file is taken as it is, a new one is zeros; everything can be read at first |
| `Index.EmptyFrom` | server/commitlog/index.go:235-244 | an entry reads as empty exactly from the number of entries on |
| `Index.IndexFile.InitializePosition` | server/commitlog/index.go:235-270 | the binary search recovers exactly the entries written and the last of them |
| `Metadata.StepIsLocal` | server/fsm.go:124-199 | an entry acts on each partition by itself, or is refused and changes nothing |
| `Metadata.PartStaysOk` | server/fsm.go:124-166 | in every reachable state the leader epoch is at most the epoch, which is at most the index, and the leader epoch names the entry that chose the leader |
| `Metadata.LeaderAgreement` | server/fsm.go:124-166 | two servers at any two points of one log that agree on a partition's leader epoch agree on its leader |
| `Metadata.EpochNamesState` | server/fsm.go:359-428 | a partition is, but for pausing, what it was right after the entry its epoch names |
| `Metadata.EpochAgreement` | server/fsm.go:359-428 | so agreement on the epoch is agreement on the partition |
| `Metadata.NeverStale` | server/partition.go:235-253 | the stale leader epoch error is unreachable |
| `Metadata.IsrWithinReplicas` | server/partition.go:980-1033 | the ISR stays within the replicas when creation puts it there |
| `Metadata.EpochCovers` | server/fsm.go:359-428 | the epoch of a partition is at least the index of every change applied to it |
| `Metadata.Redelivery` | server/fsm.go:340-428 | an entry delivered again changes nothing if and only if its partition is still there and, for a creation, not paused |
| `Metadata.EntryTakesEffect` | server/fsm.go:359-428 | no epoch check holds back an entry applied in order: each shrink, expansion and leader change in a log takes effect on its partition at its own index, and changes nothing else of it |
| `Metadata.StreamEntryTakesEffect` | server/fsm.go:124-199 | what creation, deletion and pausing leave behind on each partition, when they are not refused |
| `Metadata.PartitionsAreCreated` | server/fsm.go:124-199 | over every log a partition is there if and only if the log has created it and not deleted its stream since |
| `Metadata.EntryStops` | server/fsm.go:359-428 | in every reachable state an entry of any index stops the server if and only if it changes a partition that is not there, or moves a server that is no replica at an index above the partition's epoch |
| `Metadata.ServerComesThrough` | server/fsm.go:57-116 | a server comes through a log if and only if no entry is such |
| `Metadata.Refusals` | server/fsm.go:431-463 | when creation, deletion and pausing are refused, and with which answer |
| `Proposals.EntryKeepsInSync` | server/partition.go:980-1009 | an entry applied in order keeps every leader in its ISR if and only if it neither removes the leader of its partition nor names one from outside |
| `Proposals.LeadersStayInSync` | server/fsm.go:124-166 | over every log, each state has every leader in its ISR if and only if each entry is such |
| `Proposals.TimelyIsHarmless` | server/metadata.go:476-484 | an entry that passed the check when it was proposed is such, unless the leader epoch it names has passed, or, for an election, the partition has changed since or is not the one it was for |
| `Proposals.TimelyLogsStayInSync` | server/metadata.go:774-813 | so over every log of entries proposed by the checks and applied in time every leader is in its ISR |
| `Proposals.RacingShrinkRemovesLeader` | server/metadata.go:455-496 | a log, each entry of which passed its check when proposed, after which a leader is outside its ISR |
| `Proposals.ElectionReachesFirst` | server/metadata.go:774-813 | over every log of proposed entries, an election that is applied gives the partition it was for its new leader if and only if that is partition 0, and otherwise leaves it as it was |
| `Proposals.ElectionGoesAstray` | server/metadata.go:798-805 | a log after which the election for one partition has given another a leader that is not its replica |
| `Proposals.RacingDeleteStops` | server/fsm.go:359-379 | a log, each entry of which passed its check when proposed, that stops the server |
| `Proposals.ProposedStops` | server/fsm.go:359-404 | a proposed change of the ISR does so if and only if its stream was deleted since and the partition not created again, or the server moved is no replica |
| `Metadata.MetadataServer.CreatePartition` | server/metadata.go:598-630 | creates or replaces a paused partition with both epochs at the index, or refuses |
| `Metadata.MetadataServer.ShrinkISR` | server/fsm.go:359-379 | guarded by the epoch; errors for a missing partition and a foreign replica |
| `Metadata.MetadataServer.ExpandISR` | server/fsm.go:384-404 | likewise |
| `Metadata.MetadataServer.ChangePartitionLeader` | server/fsm.go:409-428 | likewise, and sets both epochs |
| `Metadata.MetadataServer.PauseStream` | server/stream.go:92-119 | pauses all or the listed partitions; a missing one leaves all as they were |
| `Metadata.MetadataServer.Apply` | server/fsm.go:124-199 | one entry changes the store as the lemmas have it |
| `Metadata.MetadataServer.Replay` | server/fsm.go:57-116 | replaying a log ends in the state the log determines, or at the entry that stops the server |
| `Bytes.ReadBack` | server/commitlog/encoder.go:11-11 | an unsigned integer of a given width survives big-endian encoding |
| `Bytes.WriteBack` | server/commitlog/encoder.go:11-11 | and so does every byte string read as one |
| `Bytes.FirstWeighsMost` | server/commitlog/encoder.go:11-11 | and the first byte weighs most |
| `MessageCodec.SizesAgree` | server/commitlog/message.go:41-48 | the size of the headers does not depend on the order they are visited in |
| `MessageCodec.PassesAgree` | server/commitlog/encoder.go:51-66 | the first pass allocates exactly what the second writes, whatever the two orders |
| `MessageCodec.CollectHeaders` | server/commitlog/message.go:129-139 | the loop over a 32-bit cursor reads header after header |
| `MessageCodec.ReadHeaders` | server/commitlog/message.go:121-141 | the accessor, with its panics and overflows |
| `MessageCodec.KeyAndValueSurvive` | server/commitlog/message.go:103-118 | key and value come back exactly, nil and empty told apart, if and only if their 32-bit ends do not overflow |
| `MessageCodec.HeadersSurvive` | server/commitlog/message.go:121-141 | all headers come back exactly if there are fewer than 65536, none is nil and the positions stay below 2^31; and only then, as long as key and value end below 2^32 |
| `MessageCodec.WrappedHeaders` | server/commitlog/message.go:121-162 | without headers and with a value that ends at 2^32 or later, no headers come back if and only if two of the first bytes, checksum included, are zero |
| `MessageCodec.CrcMatches` | server/commitlog/message.go:69-82 | the stored checksum is that of everything after it, and the magic byte and the attributes come back as signed |
| `Encoder.LenEncoder.PutBytes` | server/commitlog/encoder.go:111-121 | counts prefix and data, or refuses a slice too long for its prefix |
| `Encoder.LenEncoder.PutString` | server/commitlog/encoder.go:133-140 | likewise for strings |
| `Encoder.LenEncoder.EncodeMessage` | server/commitlog/message.go:30-51 | succeeds exactly for a message whose every field fits, with the exact size |
| `Encoder.ByteEncoder.Put` | server/commitlog/encoder.go:252-256 | what was written stays, the data follows |
| `Encoder.ByteEncoder.PutBytes` | server/commitlog/encoder.go:259-268 | length prefix and data, or -1 for nil |
| `Encoder.ByteEncoder.PutString` | server/commitlog/encoder.go:271-276 | length prefix and data |
| `Encoder.ByteEncoder.Push` | server/commitlog/encoder.go:329-333 | leaves room for the digest and remembers where |
| `Encoder.ByteEncoder.Pop` | server/commitlog/encoder.go:336-341 | fills in the digest of all that was written after it, and touches nothing else |
| `Encoder.ByteEncoder.PutHeaders` | server/commitlog/message.go:41-48 | the loop writes each header in turn |
| `Encoder.ByteEncoder.EncodeMessage` | server/commitlog/message.go:30-51 | the buffer is filled exactly with the encoded message |
| `Encoder.Encode` | server/commitlog/encoder.go:51-66 | encoding succeeds exactly for messages within the limits and yields the bytes the accessors are proved against |
| `MessageSet.EntryDelimits` | server/commitlog/message_set.go:51-98 | each index entry delimits exactly its message's bytes |
| `MessageSet.EntriesAppend` | server/commitlog/message_set.go:51-98 | entries of a set written after another are those of the joined set |
| `MessageSet.HeaderReadsBack` | server/commitlog/message_set.go:129-143 | every header field reads back wherever the message stands |
| `MessageSet.EntriesForMessageSet` | server/commitlog/message_set.go:23-49 | the loop computes the entries of the bytes, panics, or never ends |
| `MessageSet.ParsingIs` | server/commitlog/message_set.go:23-49 | whatever the bytes are, it goes from header to header as their sizes say, and stops at the end, at a size of -28 or where it cannot go on |
| `MessageSet.ParseUndoesPrint` | server/commitlog/message_set.go:23-98 | the entries parsed from a set's bytes are the ones the leader built directly |
| `MessageSet.NewMessageSet` | server/commitlog/message_set.go:51-98 | as long as the set is shorter than 2^31, each entry has its message's offset, time and epoch, and delimits bytes that end in its data |
| `Envelope.HeaderAccepted` | server/protocol/envelope.go:361-396 | the header written for replication responses passes the check |
| `Envelope.EnvelopeAccepted` | server/protocol/envelope.go:361-396 | data is taken if and only if it has the magic number, version 0, the expected type, a header within the data and, if flagged, a right checksum; the payload is what follows the header |
| `Envelope.ChangedHeaderRefused` | server/protocol/envelope.go:361-396 | so no response is taken after a change of its magic number, version or type |
| `Envelope.ResponseReadsBack` | server/protocol/envelope.go:332-349 | epoch, watermark and messages of a response come back exactly |
| `Fetch.ProtocolWriter.constructor` | server/replicator.go:313-322 | a new writer holds the prefix only |
| `Fetch.ProtocolWriter.Reset` | server/replicator.go:353-365 | back to the prefix |
| `Fetch.ProtocolWriter.Write` | server/replicator.go:324-333 | the message follows what is there |
| `Fetch.ProtocolWriter.Flush` | server/replicator.go:335-347 | sends the response with the current watermark in its place, and resets |
| `Fetch.Replicate` | server/replicator.go:224-258 | sends the longest front part of the messages that fits one response |
| `Fetch.BatchReadsBack` | server/replicator.go:335-347 | a response is at most 1 MiB and decodes to what was put in |
| `Fetch.BatchNotEmpty` | server/replicator.go:239-243 | it holds a message if and only if the first one fits by itself |
| `Fetch.BatchUnique` | server/replicator.go:224-258 | there is only one longest front part |
| `Fetch.GoesToFirstLarge` | server/replicator.go:73-139 | round by round a follower goes at least one message further, up to the first message that does not fit a response, and never past it |
| `Fetch.CatchesUp` | server/replicator.go:224-258 | after one round per message it lacks a follower has the whole log if and only if each of those messages fits a response by itself |
| `Fetch.ReaderFollows` | server/replicator.go:104-120 | what the leader's reader returns from a log without gaps runs on from the requested offset to the log end |
| `Fetch.RoundDelivers` | server/partition.go:524-564 | one round joined: the response decodes to the leader's epoch and watermark and exactly the next messages, starting at the follower's next offset and indexed as on the leader |

## Left out

- The network, Raft, gRPC and the file system: a lossy network and a totally ordered Raft log are given, files are byte strings, renames are atomic.
- A follower that restarts within an epoch, or before it has applied all of the Raft log: truncation happens when a server learns of a new leader.
- Races between rolling a segment and the list of segments, and cleaning at the same time as appending: these are single steps.
- Partition objects made anew over an existing log, on restart or after a pause: `HandOver` starts from a new partition.
- The uncommitted reader: it is the same walk without a limit.
- The moment a reader notices that its segment was replaced: `Resuming` lets it happen after any number of whole messages.
- Snapshot and restore, recovery flags, resuming a paused stream, and counting witnesses of a failed leader.
- Rebasing segments after a concurrent clean: `Rebase` itself is modelled, its caller is not.
- Clocks: the time limits of retention and rolling are parameters, and shrinking and expanding the ISR are steps that may happen at any time.
- CommitLog.Log.Append: takes the batch already encoded, and the batch must be shorter than 2^31 bytes.
- CommitLog.LogSegment.WriteMessageSet: the index is a list of entries; `Index.IndexFile` stores such a list, and `CommitLog.IndexFileHolds` says when its 32-bit fields hold it.
- CommitLog.LogSegment.Write: the first offset is right only if the first timestamp is not zero, since zero stands for no write.
- Metadata.MetadataServer.CreatePartition: partitions are values in the store, so a partition object shared with a running leader loop is not captured.
- Reader.NewReader: start offsets are not negative, as the subscribe call makes sure.
- Replication.OneEpochSafety: requests carry a non-zero epoch, since zero switches the epoch check off; all followers begin the epoch with prefixes of the leader's log, as `Joining.SoundRunBeginsEpoch` shows sound truncations leave them; and the minimum ISR size is at least one, its default.
- Progress.NextBatchCommits: an answer may hold any number of messages, where one that is too large for a response stops its follower (`Fetch.CatchesUp`).
- Progress.CommitsUnaided: the commit loop may take a turn at any time, where the source waits until a tracked offset rises or the ISR shrinks; so a leader that does not hold itself back may still have to wait for one of these.
- Durability.CommittedSurvive: one direction only for a replica that has not reported all it has, or that keeps an offset past its log, which may be elected without harm; `Durability.CaughtUpTakesOver` is exact for one that has reported all.
- MessageCodec.HeadersSurvive: exact only up to 2^32 bytes of key and value; beyond, the position wraps twice and what is read depends on the checksum, as `MessageCodec.WrappedHeaders` says for messages without headers.
- Metadata.MetadataServer.Replay: without the recovery flags, which put off starting partitions until the end.
- Proposals.TimelyIsHarmless: an entry that is not timely may still do no harm; the exact condition on an entry is `Proposals.EntryKeepsInSync`.
- Message fields the log does not store: acknowledgement inbox and correlation.
