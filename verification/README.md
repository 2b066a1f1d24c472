# Verification model of chronicle-data-api

A Dafny 4.11 model of the protocols inside the Chronicle data API: event
delivery to WebSocket subscribers, the chunk upload transaction, the session
lifecycle, ETag-guarded patches, bulk insert, the metadata blob, and token
liveness under the reaper. `dafny verify dfyconfig.toml` checks everything.

Each protocol appears twice. A step system over a `State` datatype lets any
number of handlers interleave, crash and retry, and the theorems are about
every run of it. Beside it, a class or method does what the source does, field
by field, and its `ensures` ties it to the same functions. Fields such as
`Row.writer`, `commits`, `log` or `accepted` are histories that exist only to
state the theorems. Automatic induction is switched off where a lemma's body is
its proof, and `hide` keeps definitions a proof does not need out of its way.

| file | what it models |
|---|---|
| `Events.dfy`, `Filter.dfy`, `DropOldest.dfy`, `DropBurst.dfy`, `Connection.dfy`, `Heartbeat.dfy`, `Bus.dfy` | the event bus, subscriptions, the drop-oldest queue, the burst detector, the connection loop, the loop against the clock, and many connections on one bus |
| `Ids.dfy`, `ObjectKeys.dfy`, `ObjectStore.dfy`, `ChunkUpload.dfy`, `ChunkBytes.dfy`, `ChunkRetries.dfy`, `UploadService.dfy` | speaker ids, object keys, the object store, concurrent uploads, what the store then holds, what retries get, and the upload handler |
| `SessionState.dfy`, `Lifecycle.dfy`, `LifecycleLaws.dfy`, `LifecycleEvents.dfy`, `SessionService.dfy` | the transition table, concurrent patch/resume/cascade, laws over every run, the event stream, and the handlers |
| `UniformRows.dfy`, `UniformPatch.dfy`, `BulkInsert.dfy`, `UniformService.dfy` | segments, beats and scenes: the shared row, guarded patches, bulk insert, and both handlers |
| `Metadata.dfy` | the metadata blob: merge, concurrent replaces and merges, and the handlers |
| `ServiceTokens.dfy` | service tokens, heartbeats, lookups and the reaper |
| `Metrics.dfy` | the histogram's counters and bucket lines |

## Assumptions

- Postgres: a statement sees the rows committed when it starts plus its own
  transaction's; `FOR UPDATE` takes an exclusive lock on the row it finds, held
  to commit or abort, and locks nothing when it finds none; UNIQUE and
  CHECK constraints hold; NOW() is the transaction's start time; one non-decreasing clock for
  single-statement transactions.
- Strings hold no NUL character, which Postgres cannot store. The session that
  metadata, segments, beats and scenes belong to exists.
- Object store: a put is atomic; an aborted handler leaves what it already put.
- Broadcast channel: a send appends and never blocks; a receiver whose position
  was overwritten is told how many events it missed and resumes at the oldest
  one still in the ring.
- Timers: an interval fires at its start and then at whole periods from there;
  the ping timer skips periods that passed unserved. A timer branch is ready from
  its instant on, and a socket delivers frames in the order they arrived.
- Random tags and tokens never repeat.

## What the theorems revealed

- The connection loop drains its queue before every select, so the queue never
  overflows at any configured depth, and both the drop-oldest behaviour
  announced at src/routes/ws/mod.rs:17-19 and the burst disconnect announced at
  src/routes/ws/session.rs:89-90 can never happen in it
  (`ConnectionLoop.QueueNeverOverflows`). Apart from events that fail to
  serialize or to send, a subscriber loses only what the ring overwrites, exactly
  when its backlog exceeds 4096 (`EventBus.LossIffFellBehind`).
- Nothing stops two sessions from being created with the same `s3_prefix`, and
  then their chunks overwrite each other; with distinct prefixes every
  committed row keeps its own bytes (`ChunkBytes.BytesKeptIffPrefixesDistinct`).
- src/routes/chunks.rs:3-5 says a retry gets the existing row back. It does if
  and only if the first attempt had committed when the retry looked the chunk up
  (`ChunkRetries.DeduplicatedIffCommittedBefore`). A retry that looked earlier is
  refused by the UNIQUE constraint, if and only if the commit came before its
  own insert (`ChunkRetries.RefusedIffCommittedBetween`); `RaceIsRefused` is such a
  run for every chunk, and asking again succeeds (`ChunkUpload.RefusedMeansStored`).
- src/routes/chunks.rs:124-125 says a client whose put failed gets a fresh seq on
  retry. The aborted seq is reused, exactly if nothing else of its stream was
  committed in between (`ChunkRetries.AbortedSeqReusedIff`): that is what keeps
  seqs contiguous and leaves at most one orphaned object per speaker.
- Replaying a session's events gives its status in every order of sending, if
  and only if no handler announces a commit while another has a change of status
  to send, and none dies with one (`LifecycleEvents.EveryOrderReplaysIff`).
  `LifecycleEvents.CrossingEventsMislead` is a run of two patches that breaks it.
- Because the select prefers the socket over the pong deadline, a pong that
  reached the socket saves the connection however late it is read
  (`Heartbeat.TimedOutIffUnanswered`). And because it prefers the ping timer, a ping
  served 20 s late or more moves the deadline of a silent peer beyond the next
  ping (`Heartbeat.GraceFitsIff`).
- Two merges that both find no metadata row lose one of the patches
  (`Metadata.NoUpdateLostIffRowExists`).
- src/auth/reaper.rs:3 says the reap cadence is the heartbeat window; the code
  ticks at a third of it, and never more often than every 5 s.
- README.md:37 of the repository gives the key format `chunk_{seq:04}`; the code
  formats six digits. Listing order is seq order up to exactly
  one million chunks (`ObjectKeys.ListedInOrderIff`).
- src/state.rs:15-16 says `deleted` is reached via the cascade. A session is
  deleted if and only if a cascade or a patch to `deleted` committed
  (`LifecycleLaws.DeletedIff`), and one patch alone does it
  (`LifecycleEvents.PatchDeletes`).
- Request bodies may name `mixed` as a speaker or author (src/ids.rs:80-83), and
  validation lets it pass. But the row decoder refuses a segment by `mixed`, which
  rolls back its whole batch, and the schema refuses `mixed` as an author, on
  insert and on patch (`BulkInsert.MixedSpeakerRefused`,
  `UniformPatch.MixedAuthorRefused`). So a valid batch is accepted exactly if it
  repeats no new client id and none of its new inputs names `mixed` there
  (`UniformService.UniformTable.BulkInsert`).
- `render` sums buckets that `observe` already made cumulative
  (`Metrics.RenderedBucketIsRightIff`).

## Model

| member | source | states |
|---|---|---|
| SubscriptionFilter.SubscriptionHistory | src/routes/ws/filter.rs:36-69 | after any history of frames the set matches an event iff some subscribe frame named it, with the event's guild and session where its filter names them, and no later unsubscribe named it |
| Events.NameIsWireTag | src/events.rs:157-176 | the name a subscriber filters by is the snake_case `type` tag of the event on the wire |
| SubscriptionFilter.SubscriptionSet.Subscribe | src/routes/ws/filter.rs:36-43 | the set grows by exactly one subscription per listed name, under the given filter |
| SubscriptionFilter.SubscriptionSet.Unsubscribe | src/routes/ws/filter.rs:45-47 | exactly the subscriptions with a listed name go, whatever their filter |
| SubscriptionFilter.SubscriptionSet.Matches | src/routes/ws/filter.rs:53-69 | scanning the set finds a match iff one exists |
| DropOldest.DropOldestQueue.constructor | src/routes/ws/queue.rs:17-24 | an empty queue whose capacity is at least one |
| DropOldest.DropOldestQueue.Push | src/routes/ws/queue.rs:27-36 | a full queue gives up its oldest element and reports it; contents and saturating counter stay those of the whole history |
| DropOldest.DropOldestQueue.Pop | src/routes/ws/queue.rs:38-40 | the oldest element is returned and removed, none from an empty queue |
| DropOldest.ContentsAreSuffix | src/routes/ws/queue.rs:16-40 | under any pushes and pops the contents are the newest pushes, at most cap of them |
| DropOldest.Conservation | src/routes/ws/queue.rs:16-40 | pushed = popped + dropped + queued, and what is popped keeps push order |
| DropOldest.LostIffOvertaken | src/routes/ws/queue.rs:16-40 | element i is dropped iff element i+cap is pushed before i is popped |
| DropBurst.TripNeedsElevenInAMinute | src/routes/ws/session.rs:127-139 | a burst disconnect means eleven overflows within 60 s |
| DropBurst.TwentyOneInAMinuteTrip | src/routes/ws/session.rs:127-139 | any closed 60 s span holding 21 overflows trips the detector by its last one |
| DropBurst.TwentyNeedNotTrip | src/routes/ws/session.rs:132-136 | 21 is sharp: 20 overflows in 30 s can go undetected across a window restart |
| ConnectionLoop.DeliveryIsExact | src/routes/ws/session.rs:94-149 | events taken from the queue plus the queued one are exactly the received events some subscription in force asked for, in order |
| ConnectionLoop.SentUnlessFailed | src/routes/ws/session.rs:97-116 | unless an event failed to serialize or send, what was sent plus the queued event is exactly that |
| ConnectionLoop.SentAmongPopped | src/routes/ws/session.rs:97-116 | what was sent is a subsequence of what was taken from the queue, all of it if nothing failed |
| ConnectionLoop.QueueNeverOverflows | src/routes/ws/session.rs:97-140 | the queue holds at most one event at the loop head and none at the select, so no push overflows and the DropBurst exit is unreachable, for any configured depth |
| ConnectionLoop.TimeoutsAreJustified | src/routes/ws/session.rs:205-216 | over every run a healthcheck timeout ends on the deadline branch, with the latest ping at least 10 s old and no pong handled since |
| ConnectionLoop.ClosedIffEnded | src/routes/ws/session.rs:94-217 | over every run the connection is open iff no wake was an ending one and no send failed; otherwise the last of them is the only one and gives the close reason, kind by kind |
| ConnectionLoop.HistoriesAreTheTurns | src/routes/ws/session.rs:94-217 | turn by turn, what is popped carries the turn's send result and what is served is the turn's wake |
| ConnectionLoop.Connection.constructor | src/routes/ws/session.rs:79-92 | a connection opens with no subscription, an empty queue and no deadline |
| ConnectionLoop.Connection.OnEvent | src/routes/ws/session.rs:122-141 | filtering, enqueueing and the drop accounting make exactly the specified state change |
| ConnectionLoop.Connection.Select | src/routes/ws/session.rs:118-217 | each select branch makes exactly the specified state change and gives its close reason |
| ConnectionLoop.Connection.RunInner | src/routes/ws/session.rs:94-219 | the loop keeps the loop invariant, ends where folding the turns ends, and returns the reason that its last wake or failed send gives |
| Heartbeat.PollsAreTurns | src/routes/ws/session.rs:118-217 | polling the branches in their biased order is one of the loop's runs, so every law of the loop holds of it |
| Heartbeat.BranchPriority | src/routes/ws/session.rs:118-217 | a poll serves the bus before the socket, the socket before the timers and the ping timer before the deadline |
| Heartbeat.TimedOutIffUnanswered | src/routes/ws/session.rs:151-217 | if nothing else ends the connection, it is timed out iff for some ping no pong reaches the socket before the loop runs idle after the grace and before the next ping |
| Heartbeat.AnsweringPeerNeverTimedOut | src/routes/ws/session.rs:189-216 | a peer whose pongs reach the socket less than 10 s after their pings is never timed out, however late they are read |
| Heartbeat.SilentPeerClosedBeforeNextPing | src/routes/ws/session.rs:203-217 | once the loop runs idle between the end of a silent peer's grace and the next ping, the connection is closed and no further ping goes out |
| Heartbeat.GraceFitsIff | src/routes/ws/session.rs:85-87 | a ping's grace ends before the next ping iff the ping went out less than 20 s after the timer's latest due time |
| EventBus.NothingUnaccounted | src/events.rs:184-187 | in every reachable state each event published since a subscriber joined is sent, undeliverable, queued, rejected, reported lagged, overwritten, or among the at most 4096 in the ring |
| EventBus.SentFollowsPublishOrder | src/routes/ws/session.rs:94-149 | what a subscriber is sent sits at strictly increasing positions of the publish order |
| EventBus.SubscribersDoNotInterfere | src/events.rs:181-187 | a subscriber's state depends only on the publishes and its own steps |
| EventBus.StartsWhereConnected | src/routes/ws/session.rs:79-82 | a subscriber is accounted from the events published after it connected, with the configured queue depth |
| EventBus.LossIffFellBehind | src/routes/ws/session.rs:142-147 | a subscriber loses events to lag iff its unread backlog once exceeded the ring |
| ObjectKeys.FormattedKeyParses | src/routes/chunks.rs:138-141 | reading a key from the right recovers prefix, speaker and seq, for any prefix string and any seq |
| ObjectKeys.KeyShape | src/routes/chunks.rs:138-141 | the key as one string, its seq padded to at least six digits |
| ObjectKeys.KeyRoundTrip | src/routes/chunks.rs:138-141 | a string parses to given parts iff it is the key formatted from them |
| ObjectKeys.KeysInjective | src/routes/chunks.rs:138-141 | equal keys come from equal prefix, speaker and seq |
| ObjectKeys.ReadBackIffNoSlash | src/routes/chunks.rs:138-141 | a key built from any speaker text reads back as built, for any prefix and seq, iff the text has no slash; accepted speaker ids have none |
| ObjectKeys.ListedInOrderIff | src/routes/chunks.rs:138-141 | lexicographic order of one speaker's first n keys is seq order iff n is at most one million |
| ObjectStore.MemStore.Put | src/storage/mem.rs:35-38 | one key is set, every other object stays |
| ObjectStore.MemStore.Get | src/storage/mem.rs:40-47 | the stored body, or nothing for a missing key |
| ObjectStore.MemStore.DeleteMany | src/storage/mem.rs:49-58 | exactly the named objects go and the count is of those that existed, each once |
| ChunkUpload.MaxIsCount | src/db/chunks.rs:63-66 | in every well-formed table the next seq is the number of rows the speaker has |
| ChunkUpload.StepKeeps | src/routes/chunks.rs:94-195 | every step of every handler keeps the lock, table, writer, event and audit invariants |
| ChunkUpload.SeqsAreContiguous | src/db/chunks.rs:58-69 | under any interleaving, abort and crash a speaker's committed seqs are 0, 1, 2, ... in commit order and each row carries its own key, never the placeholder |
| ChunkUpload.AnswersAgree | src/routes/chunks.rs:96-106 | all answers for one client chunk agree on seq and key, and at most one handler answers deduplicated=false |
| ChunkUpload.AnsweredMeansCommittedOnce | src/routes/chunks.rs:164-177 | an answered chunk is exactly one committed row with its audit entry |
| ChunkUpload.EventsAreUnique | src/routes/chunks.rs:177-188 | at most one event per client chunk, and only for a committed row it describes |
| ChunkUpload.CommitsAreAccounted | src/routes/chunks.rs:177-194 | a committed row's writer has announced and answered it, is about to, or died in between |
| ChunkUpload.RefusedMeansStored | src/routes/chunks.rs:96-106 | a client that was refused by the UNIQUE constraint and asks again is answered with the row another handler committed |
| ChunkBytes.PutSparesCommitted | src/routes/chunks.rs:143-148 | with distinct prefixes a put never touches a committed row's object |
| ChunkBytes.BytesKeptIffPrefixesDistinct | src/routes/chunks.rs:138-162 | in every run every committed row finds its own bytes at its key, iff no two sessions share a prefix |
| ChunkBytes.SharedPrefixLosesBytes | migrations/001_features_pass.sql:54 | two sessions under one prefix: the second's first chunk overwrites the first's |
| ChunkBytes.OrphansOnlyAtNextSeq | src/routes/chunks.rs:122-162 | any object left behind sits at a committed seq's key or at the very next seq's |
| ChunkRetries.DeduplicatedIffCommittedBefore | src/routes/chunks.rs:96-106 | an upload is answered as a duplicate iff the chunk was committed by the time of its lookup, and then with that row's seq and key |
| ChunkRetries.RetryAfterCommitIsDeduplicated | src/routes/chunks.rs:3-5 | an upload that looks up after the chunk was committed is answered with the committed row, however the run goes on |
| ChunkRetries.RefusedIffCommittedBetween | src/routes/chunks.rs:126-136 | an upload that looked up too early is never deduplicated, and is refused by the UNIQUE constraint iff the chunk was committed before its insert |
| ChunkRetries.RaceIsRefused | src/routes/chunks.rs:94-136 | for every chunk there is a run in which the second of two attempts is refused |
| ChunkRetries.RowsWereUploaded | src/routes/chunks.rs:126-136 | every committed row is what its writer was asked to upload: session, speaker, client id, size and bytes |
| ChunkRetries.AbortedSeqReusedIff | src/routes/chunks.rs:122-136 | a reservation after an abort gets the aborted seq iff no row of the stream was committed in between, and a higher one otherwise |
| ChunkBytes.SoloUpload | src/routes/chunks.rs:84-195 | an undisturbed upload of a new chunk adds one row at the next seq, its object, audit entry, event and answer, and nothing else |
| ChunkBytes.DownloadReturnsUpload | src/routes/chunks.rs:205-222 | downloading an answered seq returns what was first committed for that chunk, the caller's own bytes if it was first |
| UploadService.Uploads.LookupByClientId | src/db/chunks.rs:27-43 | the unlocked lookup answers from an existing row or lets the handler go on |
| UploadService.Uploads.GetInTx | src/db/sessions.rs:62-71 | the session is locked, or the handler fails because it does not exist |
| UploadService.Uploads.Insert | src/db/chunks.rs:48-81 | body limit, next seq, UNIQUE constraint: a reserved row or the matching error with the lock released |
| UploadService.Uploads.StoreBody | src/routes/chunks.rs:143-162 | the object is put under the row's key and the uncommitted row then carries that key |
| UploadService.Uploads.CommitAndAnnounce | src/routes/chunks.rs:164-194 | row and audit entry become visible together, the lock goes, then the event and the answer |
| UploadService.Uploads.FinishUpload | src/routes/chunks.rs:138-194 | from the reserved row on, the handler takes exactly the put, key, commit and announce steps and answers with the row's seq |
| UploadService.SoloOutcome | src/routes/chunks.rs:84-195 | a handler alone answers from the stored row, is refused for an unknown session, a body over 3145728 bytes or an exhausted stream, or adds exactly one chunk |
| UploadService.Uploads.UploadChunk | src/routes/chunks.rs:84-195 | the answer is deduplicated iff the chunk was stored before, and gives seq and key of the chunk's one row; each refusal comes exactly when it should; a new chunk adds its row, object, audit entry and event, anything else adds nothing |
| Lifecycle.StepKeeps | src/routes/sessions.rs:84-279 | every step of every handler keeps lock, serial order and event bookkeeping |
| LifecycleLaws.HandlersAreSerializable | src/routes/sessions.rs:84-279 | concurrent patches, resumes and cascades amount to the committed ones run alone in commit order, none of them refused there |
| LifecycleLaws.CommitLogIsChain | src/routes/sessions.rs:90-145 | committed changes form an unbroken chain of legal edges from recording to the stored status |
| LifecycleLaws.EventsMatchCommits | src/routes/sessions.rs:131-145 | sent, unsent and lost events are together a permutation of the committed changes minus re-claims |
| LifecycleEvents.ReplayGivesStatus | src/routes/sessions.rs:129-145 | if handlers do not overlap between commit and send, the sent events replay to the stored status, and are the commit log in order if none was lost |
| LifecycleEvents.EveryOrderReplaysIff | src/routes/sessions.rs:129-145 | in every order of sending the events replay to the stored status iff no announcing commit is made while a change of status is unsent, and no handler dies holding one |
| LifecycleEvents.FieldsAreLastSet | src/db/sessions.rs:130-151 | ended_at and participant_count hold what the last committed patch setting them said, null included |
| LifecycleLaws.StatusIsWhatWasAsked | src/routes/sessions.rs:96-107 | the stored status is what the last committed patch, resume or cascade asked for, Recording before any; deleted_at and abandoned_at are the times of the last deletion and of the abandonment not resumed since |
| LifecycleLaws.CommitsWereAsked | src/routes/sessions.rs:84-279 | every handler and every committed request is one some caller began with, at that caller's time |
| LifecycleLaws.StampsFollowStatus | src/db/sessions.rs:109-127 | deleted_at is set iff deleted; abandoned_at is set when abandoned and otherwise only under deleted |
| LifecycleLaws.ResumesRespectTtl | src/routes/sessions.rs:171-182 | every committed resume is less than ttl + 1 s after the stamp of the abandonment it undoes |
| LifecycleLaws.ResumeSucceedsIff | src/routes/sessions.rs:161-184 | on a reachable row resume succeeds iff abandoned and less than ttl + 1 s after the stamp |
| LifecycleLaws.PointOfNoReturn | src/state.rs:106-126 | the phase of a session never goes back and deleted is absorbing under all handlers |
| LifecycleLaws.DeletedIff | src/state.rs:106-126 | a session is deleted iff a cascade or a patch to deleted committed, so without any cascade iff such a patch did |
| LifecycleLaws.TranscribedWasUploadedThenTranscribing | src/state.rs:106-126 | a transcribed session was uploaded, and after that transcribing |
| SessionService.ScriptIsSolo | src/routes/sessions.rs:84-279 | what an undisturbed handler leaves behind: a refusal changes nothing but itself, a success writes row, log and event |
| SessionService.Sessions.Patch | src/routes/sessions.rs:84-147 | refused iff the transition is illegal; otherwise stores and returns the requested status, stamps and fields, and announces a change of status |
| SessionService.Sessions.Resume | src/routes/sessions.rs:155-213 | succeeds iff abandoned within the TTL, then clears the stamp and announces; otherwise names the illegal transition or the age in whole seconds and changes nothing |
| SessionService.Sessions.DeleteCascade | src/routes/sessions.rs:215-279 | only status and deleted_at change, to the tombstone and its time, and the change is announced, also on a deleted session |
| UniformPatch.NoLostUpdate | src/db/uniform.rs:311-390 | under any interleaving the row is the fold of the successful patches in commit order, each applied to the version whose tag it named and none by the author `mixed` |
| UniformPatch.OneSuccessPerTag | src/db/uniform.rs:327-335 | at most one patch conditional on a given tag ever succeeds |
| UniformPatch.MixedAuthorRefused | migrations/001_features_pass.sql:130 | a patch with the author `mixed` is refused and changes nothing |
| UniformPatch.RefusedIffOvertaken | src/db/uniform.rs:327-333 | a patch of a readable row naming the tag its caller read is refused iff another patch succeeded since, and is then told the tag that one left, or its author is `mixed` |
| UniformPatch.EveryFieldIsLastSet | src/db/uniform.rs:337-428 | each mutable column holds what its last setter said; identity columns and the other shape's columns never change |
| UniformPatch.PatchesWereAsked | src/db/uniform.rs:311-317 | every successful patch is one some caller began with, with that tag and that body |
| BulkInsert.Validate | src/db/uniform.rs:178-206 | accepts iff every input is valid for the shape; otherwise reports the first invalid one |
| BulkInsert.TableIsFirstWriterWins | src/db/uniform.rs:128-176 | after any interleaving the table is the first-writer-wins fold of the accepted batches, one row per client id |
| BulkInsert.RowsHoldFirstClaims | src/db/uniform.rs:208-263 | every stored row holds, column by column, what its first claimant submitted under its own name, with defaults for flags and summary and an unreversed range |
| BulkInsert.InsertDecides | src/db/uniform.rs:208-263 | each insert is refused for its author, its key or its speaker, in this order, or goes in once the key is free |
| BulkInsert.BatchesWereSubmitted | src/db/uniform.rs:128-134 | every accepted batch is one some caller began with, under that caller's name |
| BulkInsert.AcceptedCallSplits | src/db/uniform.rs:147-175 | an accepted call had no reversed range and the text its shape needs, and splits its submitted ids exactly into inserted and deduplicated |
| BulkInsert.InsertsNothingIffRepeats | src/db/uniform.rs:147-162 | an accepted batch inserts nothing iff each of its ids was in some earlier accepted batch, however the ids are regrouped |
| BulkInsert.AcceptedNamesUsers | src/db/uniform.rs:449-456 | every stored row can be read back, and an accepted batch inserts no row by the author or, for segments, the speaker `mixed` |
| BulkInsert.MixedSpeakerRefused | src/db/uniform.rs:449-452 | a valid segment by the speaker `mixed` is refused and nothing is stored |
| BulkInsert.RepeatedNewIdIsRefused | migrations/001_features_pass.sql:133 | an id repeated within an accepted batch was already in the table |
| UniformService.UniformTable.Patch | src/db/uniform.rs:311-390 | succeeds iff the row exists, its tag is met and the author is not `mixed`; then exactly that row is patched under a fresh tag and returned as stored; a stale tag is answered with the current one |
| UniformService.UniformTable.InsertRowInTx | src/db/uniform.rs:208-263 | inserts iff the key is new and the input names no `mixed`, column by column, under a fresh id and tag |
| UniformService.UniformTable.BulkInsert | src/db/uniform.rs:128-176 | accepted iff all inputs have an unreversed range and their text, no new id is repeated and no new input names `mixed` as author or, for segments, as speaker; appends one row per new id, in batch order, column by column, under fresh ids and tags, or changes nothing |
| Metadata.MergeInto | src/db/metadata.rs:119-144 | the insertion loop computes the shallow merge, with an error for a non-object base or patch |
| Metadata.MergesCompose | src/db/metadata.rs:119-144 | merging p then q is merging their own shallow merge |
| Metadata.NoUpdateLostIffRowExists | src/db/metadata.rs:68-117 | no run loses a replace or merge, iff the metadata row already exists |
| Metadata.MergesRaceOnMissingRow | src/db/metadata.rs:76-89 | two merges that both find no row lose a key of the first |
| Metadata.EachKeyFromItsLastWrite | src/db/metadata.rs:42-144 | on an existing row each key's value comes from the last committed write determining it |
| Metadata.LastWriteStands | src/db/metadata.rs:42-63 | after a replace the blob is the given value whole, after a merge an object, under the tag of that write |
| Metadata.MergeDecides | src/db/metadata.rs:82-99 | a merge is refused exactly for an unmet tag, told the current one, for a base or for a patch that is no object |
| Metadata.WritesWereAsked | src/db/metadata.rs:42-117 | every committed write is one some caller began with |
| Metadata.OneMergePerTag | src/db/metadata.rs:91-97 | at most one If-Match merge per tag commits |
| Metadata.MetadataRow.Replace | src/db/metadata.rs:42-63 | the blob is the given value under a fresh tag |
| Metadata.MetadataRow.ShallowMerge | src/db/metadata.rs:68-117 | succeeds iff the tag is met and both sides merge; then each key is the patch's or what it was; an unmet tag is answered with the current one, and refusals change nothing |
| ServiceTokens.ReaperInvisibleIffDisciplined | src/db/service_sessions.rs:38-79 | no reaper schedule is ever noticed by callers iff every heartbeat of a known token comes within the window of its previous touch, and a token is issued again only within that window or to the same service |
| ServiceTokens.FoundIffTouchedRecently | src/db/service_sessions.rs:38-58 | under any reaper schedule a lookup finds a token iff it was issued, or answered a heartbeat, less than the window before |
| ServiceTokens.DeadRowsAreReaped | src/auth/reaper.rs:14-29 | if every tick of the interval max(window/3, 5 s) reaps at most d later, a row is gone less than window + max(window/3, 5 s) + d after its last touch |
| ServiceTokens.LastTickDecides | src/auth/reaper.rs:20-22 | a series of ticks removes what its last tick alone would |
| ServiceTokens.TokenTable.Add | src/db/service_sessions.rs:20-36 | a new token is stored; a known one keeps its service and is refreshed |
| ServiceTokens.TokenTable.LookupAlive | src/db/service_sessions.rs:40-58 | the service name iff the token was touched strictly within the window |
| ServiceTokens.TokenTable.Heartbeat | src/db/service_sessions.rs:60-68 | a known token is refreshed, an unknown one reported |
| ServiceTokens.TokenTable.ReapStale | src/db/service_sessions.rs:70-79 | exactly the rows strictly older than the window go, and are counted |
| ServiceTokens.TokenTable.Reaper | src/auth/reaper.rs:14-29 | the task's loop reaps once per tick |
| Metrics.Histogram.Observe | src/metrics.rs:52-61 | each bucket keeps counting the observations within its bound |
| Metrics.Histogram.RenderBuckets | src/metrics.rs:137-141 | the bucket lines are running sums of the counters |
| Metrics.RenderedBucketIsRightIff | src/metrics.rs:137-141 | a bucket line tells the observations within its bound iff none was within the bound before |

## Left out

- Participant wipes, cascades and their object sweeps overlapping uploads: seqs restart and sweeps run after commit, so contiguity and "row implies object" do not hold there.
- Creating sessions while uploads run: the upload model takes the table of sessions as given.
- The cascade's deletion of chunks, rows, mutes, metadata and participants: the lifecycle model follows the session row and its event.
- Deleting single segments, beats and scenes: the row models assume rows are not deleted while patches and inserts run.
- `updated_at`, `created_at` and row ids chosen by the database: a new row's id is its tag.
- Replies to client frames (`subscribed`, `error`, pong): their sends are ignored by the loop and change no state.
- The biased order of the select branches outside `Heartbeat.dfy`: the loop and the bus let any ready branch be served, which covers every biased run (`Heartbeat.PollsAreTurns`).
- A reap that fails: it changes nothing, and the bound on dead rows then runs from the next tick that succeeds.
- Header parsing, JSON decoding, status codes, routing, configuration and shared-secret checks.
- Random sampling, counters, gauges, float sums and text formatting of the metrics.
- Wrap-around of u64 counters (histogram counts): only the drop counter saturates.
- Read-only reports, display names, mute ranges, consent, participants and the audit query.
