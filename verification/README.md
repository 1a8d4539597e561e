# smongo: verified model of sync, sorting, validation and indexing

This project models the hardest logic of smongo, an embedded MongoDB-style database
with cloud sync, and proves properties of it in Dafny 4.11. `dafny verify
dfyconfig.toml` checks everything.

What is modelled, from the bottom up:

- **The oplog** (`OplogKeys`, `Oplog`): padded keys, reads after a checkpoint through a
  storage cursor that may land on either neighbour, truncation, and overflow detection.
- **Push** (`Push`, `RemoteWrites`, `DeadLetters`, `SyncRuns`, `Resending`): local writes go to an unreliable remote in
  batches. The remote may accept all, reject any set of writes, be unreachable, or raise.
  Rejected writes go to a dead-letter queue that is swept with exponential backoff.
- **Pull** (`VectorClocks`, `Crdt`, `Transform`, `Conflict`, `Pull`, `Resolution`, `LateDelivery`,
  `SnapshotPaging`, `Polling`, `Tombstones`, `RemoteDeletes`): remote versions are paged in or
  polled, filtered, recognised or resolved with vector clocks, CRDT merges, operational transform,
  last-write-wins or field merges.
- **The whole node** (`NodeRuns`): local writes, log capping, push cycles, stream deletes,
  deliveries, delete detection and tombstone expiry in any order, on one store with one set
  of tombstones. The main results hold over every run: push loses nothing, and a deleted
  document does not come back before its tombstone expires.
- **Sorting** (`StableSort`, `SpillSort`, `SortStage`): the spill-to-disk merge and the
  multi-pass sort both equal one stable sort.
- **The `$jsonSchema` validator** (`Schema`) against a declarative meaning of schemas.
- **The pipeline rewriter** (`Optimizer`), **indexes** (`PrefixSeek`, `Index`), **change
  streams** (`ChangeStreams`) and **numeric-aware collation** (`Collation`).

`Common`, `Strings` and `MergeTrees` hold shared definitions.

Conventions. Oplog keys, sort keys and ids are ranks or values with the order the code
relies on; `OplogKeys.KeysSortByTime` justifies this for oplog keys. Documents are maps.
Loops and in-place updates of the source are methods, proved against specification
functions about which the properties are stated. Remote answers, filters, clocks,
regular expressions, number parsing, tokenizers, encoders and cursor landings are
parameters.

## Where the code differs from what it promises

Each point is proved: the failing input, the exact condition under which the property
holds, or both.

- Last-write-wins is documented as always a total order. Two clocked documents are
  ordered the same from both sides if and only if they do not tie on greatest writer,
  timestamp and id (`Conflict.LwwSymmetricExactly`). Three documents beat each other in a
  circle if and only if two are clocked, the earlier of the greater rank, and an unclocked
  one lies between them in time (`Conflict.CycleExactly`, `Conflict.MixedClocksCycle`).
- Two replicas that field-merge each other's version converge if and only if every differing
  field can be attributed to a side or a time (`Conflict.FieldMergeConvergesExactly`).
- CRDT merge of two well-typed versions commutes if and only if they differ in time or
  agree on plain fields (`Crdt.CommutesExactly`). A counter commutes if and only if both
  sides hold numbers or the same value (`Crdt.CounterCommutesExactly`), a set if and only if
  both hold lists or the same value (`Crdt.SetCommutesExactly`). Grouping matters for a plain
  field if and only if it is unannotated, one of the three versions lacks it and the
  timestamps lie in one of three ways (`Crdt.GroupingExactly`, `Crdt.UnsharedFieldsDiffer`).
- A merged update spec forgets nulls that are pushed or added to a set
  (`Transform.PushNullExactly`, `Transform.AddNullExactly`), and applies its operators in a
  fixed order. With one operator per field and side, it does what the two sides do in turn on
  every document if and only if, wherever they used a field in the other order, the operands
  exchange: nothing is added and the bound keeps zero, the bounds are equal, or one item list
  is empty (`Transform.MergeIsSequenceExactly`, `Transform.MisalignedExactly`). Failing inputs:
  `Transform.MisalignedDiffers`, and on an absent field `Transform.MisalignedOnAbsent`.
- A version that comes again late never changes a user field if and only if it was inserted
  or resolved, or one tick of the local clock dominated it (`LateDelivery.LateRedeliveryExactly`).
  Otherwise it was only recognised, the stored clock stayed behind, and a later version can
  be undone (`LateDelivery.RecognisedVersionCanRevert`).
- The overflow check fires one row early, and is blind without a checkpoint or on an
  empty log (`Oplog.OverflowExact`, `Oplog.LossReported`). Rows capped away before the first
  checkpoint are the one silent loss of push (`NodeRuns.SyncManager.Run`).
- A write whose error names no row, or a row another error names, is taken as acknowledged:
  it reaches neither remote nor queue, and the checkpoint may pass it. The writes so taken
  number the batch less its errors if and only if every error names a row of its own
  (`Push.TakenAsSentExactly`).
- Writes can be delivered twice. An acknowledged one is sent again if and only if the push
  ended with an exception; a refused one can be queued and still lie past the checkpoint
  (`Resending.SentAgainExactly`). While the remote is away every push queues every pending
  write once more (`Resending.LettersPileUp`).
- Polling never delivers a version that reaches the remote with a timestamp no later than one
  already delivered (`Polling.PolledExactly`).
- Delete detection removes a local document the remote does not hold, also one whose insert
  still waits in the dead-letter queue or was excluded by a filter; it survives if and only if
  it is tombstoned (`NodeRuns.DetectionKeepsExactly`).
- Wrapped in exactly as many `allOf`s as the nesting limit, a `not` accepts everything, the
  impossible schema included (`Schema.NegationByDepth`, `Schema.LimitAcceptsTheImpossible`);
  within the limit it is unseen (`Schema.LimitUnseen`).
- Schema keywords that read differently from the JSON Schema standard: lengths count bytes,
  the same as characters if and only if the text is ASCII (`Schema.LengthCountsCharactersExactly`);
  `enum` says nothing about objects and arrays (`Schema.EnumUnseen`); `additionalProperties`
  says nothing without `properties` (`Schema.AdditionalUnseen`).
- Snapshot paging runs forever if and only if a full page's worth of consecutive
  documents fails the filters (`SnapshotPaging.FetchPages`).
- Moving `$match` ahead of `$limit` adds documents unless those within the limit all match
  or none beyond it does, and can raise where the original did not (`Optimizer.SwapAtEnd`,
  `Optimizer.SwapCanAddDocuments`, `Optimizer.SwapCanRaise`).
- An update that moves a document across a partial filter without touching an indexed
  field leaves the index stale (`Index.UntouchedExactly`, `Index.PartialIndexGoesStale`).
- A unique index refuses a document whose values encode like another's, such as a string that
  is the JSON text of a dictionary (`Index.HeldIsDuplicate`, `Index.TextMeetsDictionary`).
- A descending index field does not reverse the order of a code and one that continues it
  (`Index.InvertReversesExactly`).
- Numeric ordering reads no negative numbers: a string that starts with a minus sign sorts
  after every string that starts with a number (`Collation.MinusSortsAfterNumbers`).
- A zero counter would make a clock dominate one it does not exceed
  (`VectorClocks.ZeroCounterDominates`); tick and merge never store one.

## Model

| member | source | states |
|---|---|---|
| OplogKeys.PaddedOrder | rust/smongo-engine/src/oplog.rs:331-333 | zero-padded numbers of one width compare as strings the way they compare as numbers, whatever follows |
| OplogKeys.KeysSortByTime | rust/smongo-engine/src/oplog.rs:331-333 | for times below 10^20 the keys order exactly by time, then by the unique suffix |
| Oplog.VisibleMembers | rust/smongo-engine/src/oplog.rs:516-561 | the full scan returns, in order, exactly the rows past the checkpoint, internal ones left out when asked |
| Oplog.ReadFrom | rust/smongo-engine/src/oplog.rs:516-561 | for every sorted log, checkpoint and neighbour the cursor may land on, the checkpointed read equals the full scan |
| Oplog.TruncateBefore | rust/smongo-engine/src/oplog.rs:428-450 | removes exactly the rows below the key |
| Oplog.TruncateCount | rust/smongo-engine/src/oplog.rs:452-471 | keeps the newest rows up to the limit |
| Oplog.LossReported | smongo/sync/push.py:77-93 | once an unread row was truncated, the check fires if and only if there is a checkpoint and a row to compare |
| Oplog.OverflowExact | smongo/sync/push.py:77-93 | the check fires if and only if the checkpoint's own row is gone; rows are lost if and only if the one after it is gone too |
| Oplog.NoOverflowNoLoss | smongo/sync/push.py:77-93 | over every run of appends and truncations, no overflow on a non-empty log means no unread row is lost |
| Oplog.CompactionIsQuiet | smongo/sync/push.py:305-314 | after push's own compaction no sequence of appends triggers the check |
| Push.OverflowsExactly | smongo/sync/push.py:77-93 | push's own check fires if and only if the log has overflowed; on a non-empty log with a checkpoint, when it does not fire no unread row was dropped |
| SyncRuns.QuietAfterCompaction | smongo/sync/push.py:305-314 | after a completed push that moved the checkpoint with compaction on, and any local writes, the next push does not report overflow |
| Push.OpCarriesEntry | smongo/sync/push.py:145-168 | the write built for an entry carries it: an insert its payload with the time, an update every operator of its payload to its own id with the time added to `$set`, a delete its id |
| Push.ExcludedExactly | smongo/sync/push.py:114-143 | a write is excluded if and only if its document, for an update the current local one, is barred by the namespace filter, or passed by it and barred by the sync rules |
| Push.AcknowledgedExactly | smongo/sync/push.py:336-374 | a row counts as acknowledged if and only if no error of the answer names one of its positions in the batch |
| Push.TakenAsSentExactly | smongo/sync/push.py:339-368 | the writes so counted are at least the batch less its errors, and exactly that many if and only if every error names a row of its own |
| Push.EnqueueErrors | smongo/sync/push.py:339-368 | after a partial rejection exactly the rejected rows join the queue, one letter per write error that names a row; an error without an index is skipped |
| Push.PostedIsLetter | smongo/sync/dlq.py:34-61 | every new queue row, after a partial or a total failure, holds the row its error names, starts with no retry, is due after the base delay, and is permanent if and only if the error code is 121 |
| Push.EnqueueAll | smongo/sync/push.py:369-374 | after a failed batch every row of it joins the queue, with the letters of an error on each row |
| Push.FlushBulk | smongo/sync/push.py:318-374 | every row of a batch is counted as acknowledged or queued, and the reported count is the batch less its errors; only an unforeseen exception does neither |
| Push.VisitEntry | smongo/sync/push.py:108-184 | one entry is held by a filter, batched, or raises exactly when its filter escapes, its write cannot be built or its index definition has no payload; deletes leave tombstones; the pass invariant (safe key below every pending write) is kept |
| Push.FlushPass | smongo/sync/push.py:186-212 | a flush settles the whole batch and moves the safe key if and only if something was written |
| Push.PushEntries | smongo/sync/push.py:101-212 | after the loop nothing is pending and the pass invariant holds at the end of the log |
| Push.CheckpointSafe | smongo/sync/push.py:101-217 | the safe key may become the checkpoint: every write up to it was sent, queued or excluded |
| Push.StoreCheckpoint | smongo/sync/push.py:305-314 | checkpoint and strict compaction keep the store sound and keep the checkpoint's row |
| Push.PushNamespace | smongo/sync/push.py:65-224 | one push reports overflow if and only if the log has overflowed, and otherwise no unread row of a non-empty log was dropped; it finds nothing to do exactly when it should; else every visible write meets exactly one fate, pushed deletes leave tombstones, the checkpoint only moves forward, an accepting remote gets every pending write once and in order, what a candid one acknowledged is never past the checkpoint, and only an entry that raises or an unforeseen answer ends it early |
| RemoteWrites.AcknowledgedMeans | smongo/sync/push.py:145-168 | an acknowledged write, pushed or retried, does on the remote what its entry says: an insert leaves its payload stamped, an update its own document updated and stamped, a delete no document |
| RemoteWrites.AcceptedPushReplays | smongo/sync/push.py:101-212 | after a push to a remote that accepts everything, the remote is what replaying the pending, not excluded entries in log order gives |
| RemoteWrites.TakenMembers | smongo/sync/push.py:108-168 | those entries are exactly the inserts, updates and deletes read that no filter excludes |
| DeadLetters.SweepDlq | smongo/sync/dlq.py:63-146 | a sweep judges exactly the due rows by the remote's answer, touches no other, and loses no write |
| DeadLetters.SweepKeepsRow | smongo/sync/dlq.py:63-146 | a queued row stays queued unless its write was acknowledged |
| DeadLetters.BackoffGrowsToCap | smongo/sync/dlq.py:131-145 | retry delays min(base * 2^n, cap) never decrease and never pass the cap |
| DeadLetters.DelayDoubles | smongo/sync/dlq.py:131-145 | the first delay is twice the base, and each refusal doubles it up to the cap |
| DeadLetters.SweepIsQueueStep | smongo/sync/dlq.py:63-146 | every sweep is a step of the queue the next rows speak of |
| DeadLetters.PushIsQueueStep | smongo/sync/push.py:318-374 | so is every push: it only adds rows under new ids |
| DeadLetters.TriedExactly | smongo/sync/dlq.py:63-104 | a sweep tries exactly the rows whose date has come, that are not given up on and whose entry makes a write |
| DeadLetters.RowFate | smongo/sync/dlq.py:63-146 | per step a row is refused and counts one more attempt, is accepted and leaves, or stays untouched; only due rows are tried |
| DeadLetters.RetriesExactly | smongo/sync/dlq.py:34-146 | over every run of sweeps and pushes a row leaves if and only if some sweep's answer accepted it; while it stays its retry count is the number of sweeps that refused it, and never passes the limit |
| DeadLetters.RefusalReschedules | smongo/sync/dlq.py:120-146 | a refusal gives the row up at the retry limit, and otherwise sets the next attempt to now plus the backoff of its new count |
| DeadLetters.GivenUpStays | smongo/sync/dlq.py:63-146 | a row given up is never tried again and never changes, over every run |
| SyncRuns.Cycle | smongo/sync/push.py:34-62 | an exception in a sweep with due rows ends the cycle; otherwise the due rows are judged and the push result holds from there; overflow is reported if and only if the log has overflowed, nothing-to-do exactly |
| SyncRuns.AcceptingRemoteDrains | smongo/sync/push.py:101-217 | a remote that accepts everything has every pending write that is not excluded, and the checkpoint covers it |
| SyncRuns.TruncationIsSound | rust/smongo-engine/src/oplog.rs:452-471 | capping the log keeps the account sound; rows dropped before the first checkpoint are given up on |
| Resending.ReadAgainExactly | smongo/sync/push.py:95-217 | after a push a row it read is read by the next one if and only if it lies past the new checkpoint |
| Resending.SentAgainExactly | smongo/sync/push.py:186-217 | an acknowledged write is sent again if and only if the push raised; what a completed push leaves to be sent again it has also queued |
| Resending.AwayQueuesAgain | smongo/sync/push.py:186-217 | a push to a remote that is away or refuses every write completes, sends nothing, queues every pending write anew and leaves it pending |
| Resending.LettersPileUp | smongo/sync/push.py:369-374 | after n such pushes in a row a pending write has at least n rows in the dead-letter queue |
| NodeRuns.Handle | smongo/sync/manager.py:323-349 | each event, carried out by the modelled methods, is a step of the node and keeps the account: local writes logged in order, deliveries and checkpoint never taken back, rows given up on only by a filter or a cap before any checkpoint |
| NodeRuns.SyncManager.Run | smongo/sync/manager.py:323-349 | over every run, of each non-internal write at or before the checkpoint the remote acknowledged a write that carries its entry, or it is in the dead-letter queue, or was given up on at a known event; every local write is logged in order; the states form a run of the node |
| NodeRuns.SentDeletesMarked | smongo/sync/push.py:165-168 | every delete a push sends stands marked at the time of the push |
| Push.MarkedExactly | smongo/sync/push.py:165-168 | nothing is marked by a push but the deletes it sent |
| Tombstones.Expire | smongo/sync/tombstone.py:56-76 | drops exactly the marks older than the time to live and returns their number |
| NodeRuns.MarkStands | smongo/sync/tombstone.py:39-76 | over every run of the node a mark stands until an expiry later than its time plus the time to live |
| NodeRuns.NoResurrection | smongo/sync/pull.py:167-178 | in every run with a non-decreasing clock, once a push or a stream delete has marked an id, no delivery and no delete detection inserts, updates or removes it before such an expiry |
| NodeRuns.DeletedStaysDeleted | smongo/sync/pull.py:167-178 | a document gone when its id was marked is absent from the store until such an expiry, unless a local write stores it |
| NodeRuns.ExpiryFrees | smongo/sync/tombstone.py:56-76 | the bound is exact: past such an expiry the next delivery brings the document back |
| NodeRuns.DetectionKeepsExactly | smongo/sync/pull.py:102-165 | against a remote holding a given set, a local document survives detection if and only if its id is in the set or tombstoned |
| RemoteDeletes.BatchesCover | smongo/sync/pull.py:125-139 | the batches ask about every local id and nothing else |
| RemoteDeletes.BatchesBounded | smongo/sync/pull.py:125-139 | no batch is empty or larger than the batch size |
| RemoteDeletes.DetectRemoteDeletes | smongo/sync/pull.py:102-165 | a failed lookup removes nothing; otherwise exactly the untombstoned ids that no lookup found are removed |
| VectorClocks.TickIsNext | smongo/sync/conflict.py:41-43 | a tick strictly dominates, and is the least clock above with more from that writer |
| VectorClocks.VectorClock.Merge | smongo/sync/conflict.py:45-48 | the in-place loop computes the pointwise maximum |
| VectorClocks.VectorClock.DominatesOther | smongo/sync/conflict.py:50-60 | decides dominance |
| VectorClocks.DominatesIsStrict | smongo/sync/conflict.py:50-63 | on counters of at least one, dominance is the strict part of the counter-by-counter order |
| VectorClocks.DominatesTransitive | smongo/sync/conflict.py:50-60 | dominance is transitive and asymmetric |
| VectorClocks.ZeroCounterDominates | smongo/sync/conflict.py:50-60 | why counters must be positive: a zero counter dominates the empty clock it does not exceed |
| VectorClocks.MergeIsJoin | smongo/sync/conflict.py:45-48 | merge is the least upper bound |
| VectorClocks.MergeTickDominates | smongo/sync/conflict.py:41-63 | merge then tick strictly dominates both inputs |
| Crdt.CrdtSetMerge | smongo/sync/conflict.py:85-100 | the scan builds the union, each key once, first occurrence kept |
| Crdt.CrdtMergeDoc | smongo/sync/conflict.py:103-135 | the loop over both field sets, in any order, computes the field-by-field merge |
| Crdt.TreeIsJoin | smongo/sync/conflict.py:78-135 | any tree of merges gives counter maxima, set unions and the plain fields of the latest version |
| Crdt.MergeOrderIrrelevant | smongo/sync/conflict.py:103-135 | order, grouping and repetition of merges do not matter (sets compared as sets) |
| Crdt.FoldPermutes | smongo/sync/conflict.py:103-135 | every permutation of a list of versions folds to one result |
| Crdt.CommutesExactly | smongo/sync/conflict.py:103-135 | two well-typed versions commute if and only if their times differ or their plain fields agree |
| Crdt.CounterCommutesExactly | smongo/sync/conflict.py:78-82 | a merged counter is the same from both sides if and only if both hold numbers or equal values |
| Crdt.CounterAssociatesExactly | smongo/sync/conflict.py:78-82 | grouping matters for a counter if and only if the middle value is no number and the last number is below the first |
| Crdt.SetCommutesExactly | smongo/sync/conflict.py:85-100 | a merged set is the same from both sides if and only if both hold lists or equal values |
| Crdt.SetAssociatesExactly | smongo/sync/conflict.py:85-100 | grouping matters for a set if and only if the middle value is no list and the last list lacks an item of the first |
| Crdt.GroupingExactly | smongo/sync/conflict.py:103-135 | the two groupings of three versions agree on a plain field unless it is unannotated, exactly one lacks it, the others differ, and the timestamps lie in one of three ways |
| Crdt.UnsharedFieldsDiffer | smongo/sync/conflict.py:103-135 | an input on which the groupings disagree |
| Transform.ApplyCommutativeToDoc | smongo/sync/conflict.py:206-254 | the loops over each operator's fields compute the specification |
| Transform.MergeCommutativeOps | smongo/sync/conflict.py:151-203 | the merging loops compute the specification |
| Transform.AddToSetTwice | smongo/sync/conflict.py:226-240 | adding two lists in turn equals adding their deduplicated concatenation once |
| Transform.CombineIsBoth | smongo/sync/conflict.py:151-254 | on one field the combined operand does what the two operands do in turn |
| Transform.MergeIsSequence | smongo/sync/conflict.py:151-254 | applying the merged spec equals applying the local one, then the remote one, whenever no field meets its operators in reverse order |
| Transform.MergeIsSequenceExactly | smongo/sync/conflict.py:151-254 | with one operator per field and side, the merged spec does on every document what the sides do in turn if and only if every field they use in reverse order has operands that exchange |
| Transform.MisalignedExactly | smongo/sync/conflict.py:206-254 | two operators in reverse order give the same from every start, an absent field included, if and only if they exchange: minimum or maximum with an increment of zero whose bound keeps zero, equal bounds, or an empty item list |
| Transform.MisalignedDiffers | smongo/sync/conflict.py:206-254 | an input on which the law fails: a local minimum, then a remote increment |
| Transform.MisalignedOnAbsent | smongo/sync/conflict.py:206-254 | one without the field, where even adding nothing differs |
| Transform.OrderAgrees | smongo/sync/conflict.py:151-254 | swapping the sides gives the same numbers, the same multiset of pushed items and the same set |
| Transform.MergeSidesAgree | smongo/sync/conflict.py:151-254 | with one operator per field, merging from either side gives the same numbers, pushed items and set |
| Transform.PushNullExactly | smongo/sync/conflict.py:171-191 | for pushes, by one side or both, the law holds if and only if no operand is null |
| Transform.AddNullExactly | smongo/sync/conflict.py:171-191 | for additions to a set it holds on every list if and only if the other side adds a null in the place of a forgotten one |
| Conflict.MaxNode | smongo/sync/conflict.py:262-286 | the greatest writer of a clock |
| Conflict.RankIsStrictOrder | smongo/sync/conflict.py:262-286 | writer, timestamp and id order documents strictly, up to full ties |
| Conflict.LwwSymmetricExactly | smongo/sync/conflict.py:262-303 | both sides pick the same winner if and only if the documents do not tie; then it is the one that outranks |
| Conflict.IdsBreakTies | smongo/sync/conflict.py:262-286 | between clocked documents of one writer and time the greater id wins from both sides |
| Conflict.MissingTimeIsZero | smongo/sync/conflict.py:289-303 | a missing time counts as zero |
| Conflict.LwwOrderIrrelevant | smongo/sync/conflict.py:262-303 | over clocked versions with distinct ranks every order, grouping and side picks one winner |
| Conflict.BeatsExactly | smongo/sync/conflict.py:262-303 | one document wins over another from both sides if and only if it outranks it, or is later where a clock is missing |
| Conflict.CycleExactly | smongo/sync/conflict.py:289-303 | three documents beat each other in a circle if and only if, in some rotation, two are clocked, the earlier outranks the later, and the unclocked one lies strictly between them in time |
| Conflict.MixedClocksCycle | smongo/sync/conflict.py:289-303 | such an input |
| Conflict.FieldMergeLoop | smongo/sync/conflict.py:314-360 | the loop computes the per-field choice |
| Conflict.FieldMergeConvergesExactly | smongo/sync/conflict.py:314-360 | two replicas that field-merge each other's version agree if and only if every differing field was changed on one side only, or on both at different times, or is held by one side only |
| Conflict.DiffFields | smongo/sync/conflict.py:363-374 | the fields that differ, absent on one side included |
| Pull.UpsertRemoteDoc | smongo/sync/pull.py:167-286 | a tombstoned id is skipped; otherwise the document becomes what the delivery rule says or the missing timestamp raises, its stored clock is remembered, and no other document changes |
| Resolution.LocalWinsStores | smongo/sync/conflict.py:306-307 | between concurrent versions the stored document keeps every local field |
| Resolution.RemoteWinsStores | smongo/sync/conflict.py:310-311 | it takes every remote field and keeps the rest |
| Resolution.LastWriteStores | smongo/sync/conflict.py:262-303 | it is the local version if that outranks the remote one, or is later where a clock is missing, and otherwise takes every remote field |
| Resolution.FieldLevelStores | smongo/sync/conflict.py:314-360 | a field one side changed is that side's, one both changed the later version's, one neither changed the remote's where it has it |
| Resolution.IncrementReapplied | smongo/sync/conflict.py:206-217 | a pending increment of n on the remote number m stores m + n |
| Resolution.BoundReapplied | smongo/sync/conflict.py:241-254 | a pending minimum or maximum stores the smaller or larger of the two numbers |
| Resolution.ItemsReapplied | smongo/sync/conflict.py:218-240 | pending pushes come after the remote items; pending additions give the union of keys, remote items first |
| Resolution.UnusedFieldTaken | smongo/sync/pull.py:233-239 | a field the pending update does not use is the remote's |
| Resolution.PendingExactly | smongo/sync/conflict.py:143-148 | an update counts as pending if and only if it has an operand |
| Resolution.AnnotatedStores | smongo/sync/conflict.py:103-135 | annotated counters store the larger number, sets the union, other fields the later version's value |
| Resolution.InsertStores | smongo/sync/pull.py:281-286 | a new document is stored as it came but for its clock |
| Resolution.RecognisedStores | smongo/sync/pull.py:199-212 | a version that tells nothing new changes the timestamp alone, and raises if and only if it has none and the local one has |
| Pull.DominatedStays | smongo/sync/pull.py:217-280 | a dominated version that differs changes no user field, whatever the resolver |
| Pull.ConflictStoresClock | smongo/sync/pull.py:269-280 | past the no-difference check the stored clock strictly dominates the remote and the prior local clock |
| Pull.InsertStoresClock | smongo/sync/pull.py:281-286 | an inserted version is stored with a clock that dominates its own |
| Pull.AbsorbedStays | smongo/sync/pull.py:199-286 | a document that has absorbed a version keeps every user field when it comes again |
| Pull.RedeliveryHarmless | smongo/sync/pull.py:199-286 | whatever the resolver, CRDT annotations, pending updates and change records at each delivery, redelivering a clocked version any number of times changes no user field |
| LateDelivery.DominanceLasts | smongo/sync/pull.py:199-286 | stored clocks only grow over any deliveries |
| LateDelivery.ProtectedIsHarmless | smongo/sync/pull.py:199-286 | whatever each delivery meets, after any later deliveries, a version that was inserted, resolved or dominated after a tick changes no user field when it comes again |
| LateDelivery.UnprotectedComesBack | smongo/sync/pull.py:199-286 | for every other version there is a resolver and a later delivery after which it does |
| LateDelivery.LateRedeliveryExactly | smongo/sync/pull.py:199-286 | late redelivery is harmless, whatever each delivery meets and whatever comes in between, if and only if the version was inserted, resolved or dominated after a tick |
| Pull.DominantOverrides | smongo/sync/pull.py:271-279 | a dominating version overrides field by field and removes none |
| LateDelivery.RecognisedVersionCanRevert | smongo/sync/pull.py:201-212 | under last-write-wins too: a family of versions recognised as unchanged that undo a later one |
| SnapshotPaging.UpsertPage | smongo/sync/pull.py:309-325 | one page delivers its passing documents in order; the position follows the last one delivered |
| SnapshotPaging.FetchPages | smongo/sync/pull.py:304-333 | delivers a run of the passing documents from the checkpoint, each once and in id order, the checkpoint never ahead; ends by itself if and only if no full page's worth of consecutive documents fails |
| SnapshotPaging.PassingMembers | smongo/sync/pull.py:309-325 | that run is exactly the passing documents of its range, ascending |
| SnapshotPaging.SnapshotPull.Attempt | smongo/sync/pull.py:295-333 | one attempt, interrupted anywhere, keeps the same promises on the stored state and sets the flag only when complete |
| SnapshotPaging.SnapshotPull.Restarts | smongo/sync/pull.py:295-333 | over any crashes and restarts nothing before the checkpoint is missing, and once the flag is set every passing document was delivered |
| Polling.PollOnce | smongo/sync/pull.py:55-96 | delivers the passing documents found up to where it gets, and stores the highest timestamp delivered only when it gets to the end |
| Polling.PolledExactly | smongo/sync/pull.py:55-96 | a version that stands on the remote and passes is delivered by the polls from then on, one of which ends, if and only if its timestamp was past the stored one when it appeared |
| Polling.PolledOnce | smongo/sync/pull.py:55-96 | once a poll that ends has met it, no later poll delivers it |
| StableSort.SameClassesPermute | smongo/aggregation/constants.py:100-116 | keeping every class of equal keys in order implies being a permutation |
| StableSort.SortIsStable | smongo/aggregation/constants.py:100-116 | the reference sort is ordered and keeps equal elements in order |
| StableSort.StableSortIsSort | smongo/aggregation/constants.py:100-116 | a stable sort is unique, so any ordered, order-keeping result equals the reference |
| SpillSort.HeapPop | smongo/aggregation/constants.py:65-81 | pops an entry no other one precedes |
| SpillSort.LeastIsHead | smongo/aggregation/constants.py:118-161 | with the chunk index as tiebreak the popped entry heads the earliest chunk among the least |
| SpillSort.TakeLeast | smongo/aggregation/constants.py:118-161 | taking that head takes the first element of its class and disturbs no other |
| SpillSort.DiskSpillSorter.MergeFiles | smongo/aggregation/constants.py:118-161 | merging sorted chunks, ascending or descending, is a stable sort of their concatenation |
| SpillSort.DiskSpillSorter.Sort | smongo/aggregation/constants.py:100-116 | for every input and chunk size the spilled sort equals the in-memory stable sort, is ordered by rank with missing values first (mirrored when reversed), and leaves no temp file |
| SpillSort.SortedByRank | smongo/aggregation/constants.py:65-81 | sorted by key means missing values first and ranks ascending, and the mirror image when reversed |
| SortStage.LexPreorder | smongo/aggregation/stages.py:123-145 | the lexicographic comparator with per-field direction is a total preorder |
| SortStage.LexByRank | smongo/aggregation/stages.py:123-145 | documents in order that agree on all earlier fields are ascending by rank on the next for direction 1, descending for -1 |
| SortStage.PassRefines | smongo/aggregation/stages.py:123-145 | one more stable pass by an earlier field refines the lexicographic order |
| SortStage.PySortStage | smongo/aggregation/stages.py:123-145 | passes from last field to first, spilled or not, equal one stable lexicographic sort; of two documents the first field that differs is in its direction by rank |
| Schema.ValidateDocument | rust/smongo-engine/src/schema.rs:54-70 | accepts exactly the documents that satisfy the schema under the depth limit; within 100 levels exactly those that conform, and the same as the value check on the wrapped document |
| Schema.ValidateValue | rust/smongo-engine/src/schema.rs:273-312 | decides satisfaction of a value, null short-circuited by its type |
| Schema.ValidateObject | rust/smongo-engine/src/schema.rs:152-195 | decides type, fields and combinators of an object; checking combinators twice changes nothing |
| Schema.ValidateDocFields | rust/smongo-engine/src/schema.rs:197-271 | decides required, properties, additionalProperties, property counts and combinators |
| Schema.ValidateCombinators | rust/smongo-engine/src/schema.rs:314-384 | decides allOf, anyOf, oneOf and not as all, some, exactly one and negation |
| Schema.MatchesAny | rust/smongo-engine/src/schema.rs:333-349 | the anyOf loop finds a match if and only if one exists |
| Schema.CountMatches | rust/smongo-engine/src/schema.rs:351-372 | the oneOf loop, stopping early, counts one if and only if exactly one matches |
| Schema.ValidateArray | rust/smongo-engine/src/schema.rs:491-544 | decides item counts, uniqueness and the item schema |
| Schema.ValidateScalar | rust/smongo-engine/src/schema.rs:386-489 | decides enum, numeric bounds, lengths and pattern |
| Schema.LimitUnseen | rust/smongo-engine/src/schema.rs:273-384 | within the nesting limit the verdict does not depend on depth |
| Schema.TypesByName | rust/smongo-engine/src/schema.rs:80-124 | a value conforms to a schema that names types if and only if one of the names admits it: int an Int32, long an Int64, number any numeric kind, bool or boolean a boolean and so on; an unknown name admits nothing |
| Schema.SatisfiedIsAdmitted | rust/smongo-engine/src/schema.rs:273-312 | in any schema, a value that satisfies it is one its type keyword admits |
| Schema.TypeUnseen | rust/smongo-engine/src/schema.rs:273-312 | next to `bsonType`, changing `type` never changes the verdict |
| Schema.BoundsByValue | rust/smongo-engine/src/schema.rs:386-420 | numeric bounds compare values of every numeric kind by value and bind nothing else |
| Schema.BytesCounted | rust/smongo-engine/src/schema.rs:424-450 | the length checked is one per character and one more past each of the three UTF-8 limits |
| Schema.WrapSat | rust/smongo-engine/src/schema.rs:314-331 | k nested single-entry `allOf`s around a schema read it k levels deeper |
| Schema.NegationByDepth | rust/smongo-engine/src/schema.rs:314-384 | a `not` under k such wrappers accepts everything at the limit, nothing past it, and is right within it |
| Schema.LimitAcceptsTheImpossible | rust/smongo-engine/src/schema.rs:54-70 | the impossible schema so wrapped is accepted if and only if k is the limit |
| Schema.LengthCountsCharactersExactly | rust/smongo-engine/src/schema.rs:422-450 | the length that bounds are checked on equals the number of characters if and only if the text is ASCII |
| Schema.EnumUnseen | rust/smongo-engine/src/schema.rs:152-195 | changing `enum` never changes the verdict on an object or an array |
| Schema.AdditionalUnseen | rust/smongo-engine/src/schema.rs:226-240 | without `properties`, changing `additionalProperties` never changes the verdict |
| Optimizer.OptimizePipeline | smongo/aggregation/cursor.py:317-355 | the rewriting loop merges adjacent matches and swaps limit and match, in pairs from the left |
| Optimizer.Aggregate | smongo/aggregation/cursor.py:204-314 | too many stages, a raising stage or query, or too many documents end the run; otherwise the rewritten pipeline's documents |
| Optimizer.MergedMatch | smongo/aggregation/cursor.py:336-342 | one merged match does what two adjacent ones do |
| Optimizer.RewriteKeepsMeaning | smongo/aggregation/cursor.py:241-355 | without a limit directly before a match, whenever the original succeeds the rewritten run gives the same documents and every other stage the same input; on an input within the limit they fail together too |
| Optimizer.SwapGrows | smongo/aggregation/cursor.py:344-350 | limit-then-match is a prefix of match-then-limit; equal if and only if those within the limit all match or none beyond it does |
| Optimizer.PairSucceeds | smongo/aggregation/cursor.py:344-350 | on any input the pair as written succeeds if and only if the documents within the limit are not too many and their query does not raise; the swapped pair if and only if that holds of all documents and the matching ones |
| Optimizer.SwapAtEnd | smongo/aggregation/cursor.py:317-355 | for a whole pipeline ending in such a pair: both success conditions, same input to other stages, prefix, and the exact condition for equal output |
| Optimizer.SwapsOnlyExtend | smongo/aggregation/cursor.py:317-355 | for every pipeline of matches and limits, on documents within the limit, the original output is a prefix of the rewritten one |
| Optimizer.RescuedExactly | smongo/aggregation/cursor.py:241-355 | without a limit directly before a match the two runs differ if and only if two leading matches meet too many documents after the first, and the rewritten run succeeds |
| Optimizer.SwapCanRaise | smongo/aggregation/cursor.py:344-350 | an input on which the swap makes a pipeline raise |
| Optimizer.SwapCanAddDocuments | smongo/aggregation/cursor.py:344-350 | an input on which the swap adds a document |
| PrefixSeek.Walk | smongo/index.py:424-452 | whichever neighbour the seek lands on, seek-then-walk returns exactly the ids a full scan for the prefix would |
| PrefixSeek.HasDuplicate | smongo/index.py:511-540 | true if and only if a row under the prefix belongs to another id |
| PrefixSeek.ExecuteInScan | smongo/index.py:792-829 | returns every id matching one of the values, once |
| PrefixSeek.TextSearch | smongo/index.py:357-397 | returns the ids that match every token, none without a token |
| Index.PrefixDecides | rust/smongo-py/src/index_encoding.rs:105-142 | a key starts with a prefix if and only if it was built from the same parts |
| Index.KeyInjective | rust/smongo-py/src/index_encoding.rs:105-122 | a key determines its parts and its id, even when the id holds the separator |
| Index.InvertUndoes | rust/smongo-py/src/index_encoding.rs:7-92 | mirroring hexadecimal digits undoes itself and adds no separator |
| Index.InvertReversesExactly | rust/smongo-py/src/index_encoding.rs:7-92 | mirroring reverses the order of two codes if and only if neither starts with the other |
| Index.DirectionOrders | rust/smongo-py/src/index_encoding.rs:105-122 | so a field of direction -1 orders such codes the other way |
| Index.EnteredExactly | smongo/index.py:268-298 | a sorted index enters a document if and only if the partial filter passes and, when sparse, some indexed field is not null |
| Index.WordEntriesExactly | smongo/index.py:332-409 | a text index enters a document under every token of its string fields, a hashed one under every field's hash, and nothing else |
| Index.InsertEntry | smongo/index.py:268-298 | enters the document's keys or raises and changes nothing; a unique index raises if and only if another id holds the values |
| Index.DeleteEntry | smongo/index.py:300-328 | removes exactly the document's keys |
| Index.UntouchedExactly | smongo/index.py:234-239 | an update that touches no indexed field leaves the index exact if and only if it does not move the document across the partial filter |
| Index.PartialIndexGoesStale | smongo/index.py:234-239 | a table exact for a document before such an update and not after it |
| Index.Maintain | smongo/index.py:226-239 | one change on one index keeps it healthy and, when nothing raises, exact; it raises if and only if the change clashes with another id |
| Index.IndexManager.Apply | smongo/index.py:226-239 | a change goes to every index in turn and raises if and only if one of them clashes |
| Index.IndexManager.Run | smongo/index.py:226-328 | over every run a unique index never holds two ids under equal values; while nothing raises every index that follows the changes, and every one without a partial filter, holds exactly the live documents' entries |
| Index.UniqueSeparates | smongo/index.py:291-294 | live documents a unique index covers never share their values |
| Index.EncodesAlikeExactly | rust/smongo-py/src/index_encoding.rs:33-87 | two values share a code, in either direction, if and only if both are null, numbers of one sortable form, or texts and JSON texts that read the same |
| Index.HeldIsDuplicate | smongo/index.py:291-294 | a unique index refuses a document if and only if another covered live one has values that encode alike, field by field |
| Index.TextMeetsDictionary | rust/smongo-py/src/index_encoding.rs:75-87 | so a dictionary is refused next to the string that is its JSON text |
| Index.LookupFindsLive | smongo/index.py:424-452 | a prefix lookup on an exact index finds precisely the live documents entered under those parts |
| ChangeStreams.EnqueueEntry | rust/smongo-engine/src/oplog.rs:668-717 | queues the event the stream wants; fails if and only if the stream is closed and would have queued it |
| ChangeStreams.EventFields | rust/smongo-engine/src/oplog.rs:668-700 | an event holds the database, collection, id and time of its entry, and its document unless it is a delete |
| ChangeStreams.TraceIsOwn | rust/smongo-engine/src/oplog.rs:260-278 | what a stream of one namespace sees comes from entries of that namespace, of known kinds, that its filter wants |
| ChangeStreams.RemoveDead | rust/smongo-engine/src/oplog.rs:275-277 | removing dead positions from the highest down drops exactly the listeners that failed |
| ChangeStreams.OplogHub.Unregister | rust/smongo-engine/src/oplog.rs:254-257 | drops every registration of the stream, keeping the order of the rest |
| ChangeStreams.OplogHub.Notify | rust/smongo-engine/src/oplog.rs:260-278 | offers the entry once per registration and drops exactly the listeners whose enqueue failed |
| ChangeStreams.OplogHub.TryNext | rust/smongo-engine/src/oplog.rs:765-769 | hands out the front of the queue, closed or not |
| ChangeStreams.OplogHub.Next | rust/smongo-engine/src/oplog.rs:756-763 | as before, but nothing once closed |
| ChangeStreams.OplogHub.Run | rust/smongo-engine/src/oplog.rs:260-278 | in every interleaving, consumed followed by queued is the in-order image of the entries written while the stream was registered and open |
| Collation.PiecesJoin | rust/smongo-engine/src/collation.rs:181-215 | the slices of a split concatenate back to the input |
| Collation.PiecesWellCut | rust/smongo-engine/src/collation.rs:181-215 | number slices are digits and dots, text slices are non-empty and hold no digit |
| Collation.SplitNumeric | rust/smongo-engine/src/collation.rs:181-215 | the scanning loops terminate, also on a leading minus sign, and yield one segment per slice |
| Collation.NumericStringCmp | rust/smongo-engine/src/collation.rs:149-173 | compares segment by segment, then by number of segments |
| Collation.NumbersCompareByRank | rust/smongo-engine/src/collation.rs:149-215 | after a common prefix without digits, digit strings decide by their parsed ranks, and equal ranks leave it to what follows |
| Collation.MinusSortsAfterNumbers | rust/smongo-engine/src/collation.rs:149-215 | a string that starts with a minus sign sorts after every string that starts with a parsed number |
| Collation.CompareStrIsTotalPreorder | rust/smongo-engine/src/collation.rs:91-99 | under every collation, all strings are compared reflexively, with reversed answers when swapped, and transitively |
| Collation.TextByDifference | rust/smongo-engine/src/collation.rs:91-99 | texts compare by their first difference, and a text comes before one that continues it |
| Collation.StrengthDecides | rust/smongo-engine/src/collation.rs:76-99 | strength 3 and up compares as written, 2 ignores case, 1 case and accents |
| Collation.TextsFoldCase | rust/smongo-engine/src/collation.rs:91-99 | with numeric ordering, texts without digits compare as texts, case ignored at strength 2 and below |

## Left out

- Transform.MergeIsSequence: requires numeric operands for `$inc`, `$min` and `$max` and non-null pushes; for pushes the law is false otherwise.
- Transform.MergeIsSequenceExactly: a field used under several operators by one side is covered by `Transform.MergeIsSequence` only, because a MongoDB server refuses an update that names one field under two operators.
- Transform.MergeCommutativeOps: an operand of `$inc`, `$min` or `$max` that is no number reads as zero, because Python's mixed-type addition and comparison are not modelled.
- Pull.UpsertRemoteDoc: does not model `validate_on_pull`, because its only effect is to skip the delivery and add a row about a pulled document, which is no local write.
- RemoteWrites.AcceptedPushReplays: what operators other than `$set` do is a parameter, and a batch takes effect in order, because the server is not part of the code.
- Push.VisitEntry: exceptions of the remote's index calls other than its driver's errors, which the code only logs, are not modelled, because they depend on nothing the model holds.
- Index.EncodesAlikeExactly: object ids and booleans, which have codes of their own, are not among the model's values.
- NodeRuns.Handle: the internal log rows that deliveries and pulled deletes write are separate local writes of a run, because they come from the collection and not from sync.
- Schema.ValidateDocument: error paths and messages are not modelled, only the verdict; beyond 100 levels it is characterised by the limited meaning.
- Several namespaces at once, and the grouping of dead-letter rows by namespace: one namespace is modelled.
- The unseen Rust engine (collections, planner, queries, storage): appears as functions with stated laws.
- `_force_full_resync`, index-definition sync, schema-rejection rollback, metrics, conflict-log persistence and custom resolvers.
- How push builds the field histories and pending updates that pull reads: each delivery meets arbitrary ones.
- Index scoring and range bounds of the query planner, wildcard indexes, `rebuild_index`.
- Python's cross-type equality (1 == True) in change detection, and NaN: values are compared by equality and numbers are reals or ranks.
- Aliasing of lists inside documents during operational transform.
- Sort keys that cannot be compared with each other.
- JSON text round trips of spilled documents, temp-file handling and `DiskSpillGrouper`.
- A page size of zero, which the remote reads as no limit.
- Threads and locks: each locked region is one atomic step; the blocking `next` is its closed test followed by a pop.
- Resume tokens of change streams, the wire server, async client, dashboard, C interface, `$geoNear` and `$vectorSearch`.
- `$sample` and other nondeterministic stages in the rewriter: a stage is a function of its input.
