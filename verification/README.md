# wxbackup: the backup data path, modelled and proved

This project models how wxbackup moves chat history: a device's snapshot is cut into chunks, filtered by
cursors and merged; it goes through a sharded package on disk; it is ingested talker by talker into an
account's tables; it is paged out to clients and to the exporter, and can be restored from an exported
package. Beside that path it models the backup job with its goroutines, subscribers and cancellation, the
full-text shadow of the message table, the wait for a package directory to hold still, and the web client's
chat store. `dafny verify dfyconfig.toml` checks everything.

The main results, each for all inputs, all runs or all interleavings:

- **Packages.** A snapshot can be written if and only if its conversations, messages and media are well
  formed; what was written reads back if and only if every record and payload is within the reader's cap, and
  then it is the canonical form of the snapshot (`RoundTrip.ReadAfterWrite`, `RoundTrip.Materialise`). The
  segment table tiles the shards: every byte after a magic belongs to exactly one segment
  (`Shards.EveryByteIndexedOnce`). Unframing and framing are inverse to each other.
- **Packages do not show.** Ingesting what a package gives back is ingesting the snapshot itself with its times
  cut to the millisecond (`Passage.PackageIsTransparent`), so that a whole backup, from the source through the
  package into the tables, is the ingest of its cut delivery (`Backup.Run`).
- **Crash and resume.** A full backup cut off anywhere, resumed with source-side filtering any number of times
  and cut off again anywhere, ends up with exactly the tables of one uninterrupted full backup
  (`Recovery.InterruptedIsPartial`, `Recovery.ResumeCompletes`).
- **Incremental against full.** An incremental backup leaves the message table of a full one if and only if
  nothing of the source is hidden behind its talker's cursor (`Recovery.IncrementalMatchesFullIff`).
- **Every run.** Whatever sequence of full, incremental, resumed and failed ingests, rows, counts,
  conversations and cursors agree (`IngestLaws.RunsStayConsistent`), nothing is lost (`IngestLaws.RunsOnlyGrow`),
  and no cursor goes back as long as no message is older than the epoch (`IngestLaws.RunsNeverRewind`); exactly
  when a single ingest takes one back is `IngestLaws.CursorRewindsIff`.
- **Names and counts.** After a commit a conversation has the listed kind, and the listed name and avatar unless
  they are empty; over a whole snapshot the last listing counts (`IngestLaws.CommittedNames`,
  `IngestLaws.LaterNamesStand`). A job's byte and session counters are exactly what its reports, or else its
  merged chunks, come to, in every run (`Counters.CountersAreExact`), and subscribers are shown nothing else
  (`Counters.NotesAreTrue`).
- **Export and restore.** A talker comes back exactly, stored times included, if and only if it was settled
  (`Restore.ExportThenImportIff`); every account filled by backups is settled (`Restore.RunsStaySettled`), so a
  whole account comes back (`Restore.WholeAccountComesBack`, `Restore.Transplant`). So does every media file that
  is there (`Restore.MediaComesBack`).
- **Paging.** Following cursors misses no message that was there throughout, whatever comes and goes between
  pages (`Paging.WalkMissesNothing`). The keys strictly descend if and only if every page hands over cleanly
  (`Paging.WalkDescendsIff`), and over a fixed table the walk ends with exactly the keys below its start if and
  only if no page that is followed by another ends at the one stored instant that reads back as absent
  (`Paging.FixedWalkIff`); the same instant decides whether the exporter's dump is complete
  (`Paging.DumpIsCompleteIff`). The page token is lossless, and what each limit text asks for is exact
  (`PageToken.LimitsMean`).
- **The job.** In every interleaving nothing is sent on a closed channel, none is closed twice, transitions follow
  the stages, and subscribers see snapshots in order that never recede (`BackupJob.EveryInterleavingIsSafe`). A
  subscriber gets a subsequence of the snapshots, none of them twice, whatever happens, if and only if at the
  moment of subscribing the job has ended or its present snapshot's emission has copied the subscriber list
  (`Subscribers.NoSnapshotTwiceIff`); otherwise the first snapshot can come once more. A job cancelled in time ends
  as cancelled if and only if no later step fails (`JobRuns.EndsCancelledIff`). Once it has ended, every subscriber
  is let go within a bounded number of steps if and only if persisting the done status did not fail
  (`JobRuns.SubscribersAreReleasedIff`).
- **Full text.** Set-up is four statements without a transaction. However they interleave with writes, rebuilds and
  searches, every index row is the projection of its message and none is doubled if and only if no write changed
  or removed an indexed message before the trigger for it existed (`FullText.SoundIff`). Then the index is the
  whole projection once the triggers exist if and only if no set-up was completed over an index that lacked rows
  (`FullText.MirrorsIff`). Runs from a fresh database show both failures. What a search answers is within the asked
  range and of the asked type, newest first (`FullText.AnswerIsAnswered`).
- **Chat store.** In every order of routes and responses the lists shown belong to the current account and
  talker once nothing is outstanding, and the last route wins if and only if it has no rival.

## How the source is modelled

- Instants are nanoseconds since the Unix epoch. The zero instant means "absent" and is stored as 0; message
  rows read 0 back as the epoch, all other columns read it as absent
  (`internal/store/sqlite/canonical.go:251-334`). Nothing is assumed away here: the corners in which a stored time
  collides with "absent" are exact conditions of the theorems.
- A string is a sequence of characters that stand for bytes; ids are compared byte by byte.
- Tables are maps by primary key. A transaction that does not commit restores what was there
  (`internal/store/sqlite/store.go:144-159`); which transactions of an ingest commit is a parameter.
- The message serialiser is any pair of functions that read back what they wrote for the messages at hand
  (`Frames.Faithful`). The files that media paths point to are a map.
- Sorting a talker's messages leaves the order of messages with equal keys open, as the source's unstable sort
  does.
- Goroutines, channels and responses are steps of state machines; every interleaving is a sequence of steps. A
  forced send is several steps, because receivers act between its two selects.
- The full-text matcher and the case-folding test are arbitrary predicates.

Where the code and its own documentation disagree the model follows the code:

- `internal/adapter/backupfmt/reader.go:19-21` says that messages are left empty when a session key is needed.
  A media shard that cannot be read gives that error after the messages were decoded, and they are returned
  (`RoundTrip.BadMediaWithMessages`); exactly when the promise holds is `RoundTrip.KeyErrorIsBareIff`.
- `internal/http/api.go:125-127` peeks one row beyond the limit to tell whether there is more. At the largest limit
  the store's own clamp cuts that row off, so that no next page is ever offered (`Paging.LargestLimitStopsEarly`).
- `web/src/stores/chat.js:20` expects a route that is no longer current to bail out; an older route for the same
  account goes on (`ChatStore.LastRouteWinsIff`, `ChatStore.RivalRun`).

## Model

| member | source | states |
|---|---|---|
| Domain.ColumnRoundTrip | internal/store/sqlite/canonical.go:322-334 | an instant read from a column is written back unchanged except at exactly the value that collides with "absent" |
| Domain.StoredLaterIsStable | internal/app/backup/ingest.go:181-186 | storing the later of a given time and the newest row's time is stable under repetition, except in exactly two families of instants |
| Order.KeyLessIsStrictTotal | internal/adapter/backupfmt/writer.go:296-305 | (time, sequence, id) is a strict total order, and so is its reverse |
| Order.StrLessIff | internal/adapter/backupfmt/writer.go:304 | the lesser id is a proper beginning of the greater or has the lesser byte where they first differ |
| Order.SortedMeans | internal/adapter/backupfmt/writer.go:296-305 | sorted means: none has a later time, nor at the same time a greater sequence number, nor then a greater id, than one behind it |
| Order.SortMessages | internal/adapter/backupfmt/writer.go:295-306 | the sorted group is a permutation of the messages in which times ascend, sequence numbers at equal times, and then ids |
| Order.SortedStaysPut | internal/adapter/backupfmt/writer.go:290-308 | strictly ordered messages are left exactly as they are by any such sort |
| Frames.PutThenGet | internal/adapter/backupfmt/writer.go:266-268 | reading a written 32-bit length gives the length modulo 2^32 |
| Frames.GetThenPut | internal/adapter/backupfmt/reader.go:275-290 | writing a length that was read gives the same four bytes |
| Frames.UnframeFrames | internal/adapter/backupfmt/reader.go:275-306 | unframing a list of framed payloads gives those payloads and then goes on with the rest |
| Frames.UnframedReframes | internal/adapter/backupfmt/reader.go:275-306 | any buffer that unframes is exactly the framing of what came out |
| Frames.UnframeConcat | internal/adapter/backupfmt/reader.go:275-306 | unframing distributes over concatenation |
| Frames.FrameSurvivesIff | internal/adapter/backupfmt/writer.go:266-268 | a payload survives framing if and only if its length fits in 32 bits |
| Frames.DecodeTextRecords | internal/adapter/backupfmt/reader.go:275-306 | the loop decodes the records in order, or gives the first error |
| Frames.DecodedIsUnframed | internal/adapter/backupfmt/reader.go:275-306 | decoding succeeds exactly when the buffer unframes and every payload parses, one message for each payload |
| Frames.DecodedConcat | internal/adapter/backupfmt/reader.go:275-306 | decoding distributes over concatenation |
| Frames.RecordsDecode | internal/adapter/backupfmt/writer.go:247-268 | the bytes written for a list of messages decode to those messages, times cut to the millisecond |
| Frames.DecodeErrors | internal/adapter/backupfmt/reader.go:275-306 | after records that decode, one that does not parse is bad JSON, and anything that is not a whole record is cut short |
| Frames.RecordIsRead | internal/adapter/backupfmt/reader.go:280-303 | a record that parses is one message with the fields it names, and time zero is no time |
| Frames.LongBuffersWrap | internal/adapter/backupfmt/reader.go:281-284 | the length left is compared modulo 2^32, so that a longer buffer can be refused though it holds its record |
| Shards.EveryByteIndexedOnce | internal/adapter/backupfmt/writer.go:228-288 | every byte of a shard after its magic lies in exactly one recorded range |
| Shards.RangeWithinLimit | internal/adapter/backupfmt/writer.go:368-385 | a range exceeds the limit only if it is one record, and a shard over the limit has one range only |
| Shards.AppendStartsRange | internal/adapter/backupfmt/writer.go:368-385 | a record appended as a range of its own keeps the index tiling the shards and each range holding its records |
| Shards.AppendGrowsRange | internal/adapter/backupfmt/writer.go:274-284 | a record that lands right behind the last range can be counted into it, and the index still holds |
| Shards.ShardWriter.Append | internal/adapter/backupfmt/writer.go:368-385 | where the record lands, when a new shard is opened for it, and the refusal once closed |
| Shards.ShardWriter.Rotate | internal/adapter/backupfmt/writer.go:347-366 | a new shard holding only the magic is opened behind the others |
| Shards.ShardWriter.Close | internal/adapter/backupfmt/writer.go:387-398 | the writer is closed and its files are as they were |
| Package.WriteTextSegments | internal/adapter/backupfmt/writer.go:228-288 | a talker's messages are written if and only if each has a talker and an id; then the segments index the shards, each holding consecutive messages with their count, and together they hold exactly the messages in order |
| Package.SegmentTotals | internal/adapter/backupfmt/writer.go:228-288 | the counts and lengths of the segment table sum to the messages and bytes written |
| Package.GroupMessages | internal/adapter/backupfmt/writer.go:290-308 | one group per talker that has messages, each a sorted permutation of that talker's messages |
| Package.WriteSessions | internal/adapter/backupfmt/writer.go:81-98 | succeeds if and only if talkers are distinct, non-empty and of known kind; then one row per conversation |
| Package.WriteMedia | internal/adapter/backupfmt/writer.go:122-167 | succeeds if and only if ids are distinct and non-empty, kinds known and bytes readable; then rows, shards and file segments describe the objects and their bytes, each row with the size of its own bytes, and available exactly if there are any |
| Package.MediaIsTold | internal/adapter/backupfmt/writer.go:122-167 | what the rows say of each object: blobs come before files, the size is that of the bytes, the account is filled in |
| Package.WritePackage | internal/adapter/backupfmt/writer.go:48-173 | a package is written if and only if the snapshot is writable, and then every table and shard is described |
| PackageReader.ReadMessages | internal/adapter/backupfmt/reader.go:150-180 | the messages of the segments in order, or the first error |
| PackageReader.ReadMedia | internal/adapter/backupfmt/reader.go:182-239 | one object for each row, in id order, with the size and flag of the bytes read, or of its row if there are none; or the first error |
| Package.WritableMeans | internal/adapter/backupfmt/writer.go:81-167 | which snapshots can be written, field by field: talkers and ids given and none twice, kinds known, files there |
| RoundTrip.RangeReads | internal/adapter/backupfmt/reader.go:241-273 | a range within a shard that starts with the magic, and within the cap, reads back exactly its bytes |
| PackageReader.RangeFails | internal/adapter/backupfmt/reader.go:241-273 | which error it is when a range cannot be read, in the order in which they are looked for |
| PackageReader.Read | internal/adapter/backupfmt/reader.go:22-93 | what is returned beside each error, and the whole snapshot when there is none; an index of another format still gives its conversations, in talker order, together with the error that a key is needed |
| RoundTrip.SegmentLength | internal/adapter/backupfmt/reader.go:257-260 | a written segment is within the reader's cap if and only if each of its records is |
| RoundTrip.TextReadsBack | internal/adapter/backupfmt/reader.go:150-180 | the messages of a written package read back in the order written if and only if every record is within the cap |
| RoundTrip.MediaReadsBack | internal/adapter/backupfmt/reader.go:182-239 | the media of a written package read back in canonical form if and only if every payload is within the cap |
| RoundTrip.SessionsReadBack | internal/adapter/backupfmt/reader.go:127-148 | the conversations read back, talkers ascending, account ids filled in, times cut |
| RoundTrip.ReadAfterWrite | internal/adapter/backupfmt/reader.go:62-93 | for every shard limit up to the cap, reading a written package succeeds if and only if records and payloads fit, and gives the canonical form of the snapshot |
| RoundTrip.Materialise | internal/app/backup/service.go:427-437 | write and read as the job does: succeeds if and only if the snapshot is writable and fits, and gives its canonical form |
| RoundTrip.KeyErrorIsBareIff | internal/adapter/backupfmt/reader.go:77-92 | a session-key error comes without messages and media bytes if and only if it is not the case that the text decodes to some message and then a media shard needs the key; the messages come with the error in that case |
| RoundTrip.BadMediaWithMessages | internal/adapter/backupfmt/reader.go:19-21 | a package for which the documented promise fails |
| Paging.PageIsNewest | internal/store/sqlite/canonical.go:100-142 | a page holds keys under the bound, newest first, as many as there are up to the clamped limit, and every key under the bound that it leaves out is older than all of them |
| Store.ListOne | internal/store/sqlite/canonical.go:100-142 | a listing of one is the row with the greatest key, if there is any row |
| Store.AccountDb.PutMessage | internal/store/sqlite/canonical.go:57-82 | upsert by talker and id, field by field; refused for an empty id or another account |
| Store.AccountDb.PutConversation | internal/store/sqlite/canonical.go:12-34 | upsert by talker; refused for an empty talker, an unknown kind or another account |
| Store.AccountDb.PutCursor | internal/store/sqlite/canonical.go:189-207 | upsert by talker; refused for an empty talker or another account |
| Ingest.StoreMessages | internal/app/backup/ingest.go:130-150 | the talker's rows become the batch applied to them: stored ids are overwritten, new ones stored unless the cursor skips them; other talkers keep theirs |
| Ingest.StoreConversation | internal/app/backup/ingest.go:166-186 | only this talker's row changes: kind and count as given, name and avatar the listed ones unless empty, the later of the known time and the newest message's |
| Ingest.StoreCursor | internal/app/backup/ingest.go:188-200 | only this talker's cursor changes: the later end, the newest id if there is one, the count, and a total that never falls |
| Ingest.CursorCovers | internal/app/backup/ingest.go:211-225 | what a cursor has behind it: all before its end, at its end the message it notes or, if it notes none, all; without an end only the noted one |
| Ingest.IngestTalker | internal/app/backup/ingest.go:128-202 | one transaction: all of it or nothing, and no other talker is touched; afterwards conversation and cursor are recounted from the rows and the newest of them |
| Ingest.CommittedIsRecounted | internal/app/backup/ingest.go:151-200 | a committed talker has as count its number of rows, as newest message the one with the latest time, then sequence number, then id, and the fields that follow from them |
| Ingest.SplitBatches | internal/app/backup/ingest.go:56-63 | exactly the talkers with storable messages, each with its messages in order |
| Ingest.DedupeConversations | internal/app/backup/ingest.go:239-248 | the last conversation listed for each talker that is not blank |
| Ingest.IngestSnapshot | internal/app/backup/ingest.go:44-126 | refused untouched for another login; otherwise exactly the first talkers in order, as many as transactions commit, are ingested |
| Ingest.CommittedAreFirst | internal/app/backup/ingest.go:73-96 | the talkers that commit are as many as said, and all smaller than those that do not |
| IngestLaws.BatchRow | internal/app/backup/ingest.go:130-150 | a message of a batch with distinct ids ends up stored, with its own fields, unless it is new, the mode is not full, and the cursor has it behind it |
| IngestLaws.ConversationGoneBy | internal/app/backup/ingest.go:64-87 | the ingest goes by the conversation last listed, or by a friend called by its id if there is none; an unknown kind is taken for a friend |
| IngestLaws.CommittedNames | internal/app/backup/ingest.go:64-184 | over a whole snapshot a committed talker has the kind, name and avatar last listed, and keeps its old name or avatar only where an empty one is listed |
| IngestLaws.LaterNamesStand | internal/app/backup/ingest.go:166-184 | over two ingests the later name and avatar stand unless they are empty, and a first-seen talker takes what is listed |
| IngestLaws.OtherRowsStay | internal/app/backup/ingest.go:130-150 | rows that the batch does not name are untouched |
| IngestLaws.OrderDoesNotMatter | internal/app/backup/ingest.go:128-150 | batches with the same messages and distinct ids store the same rows in any order |
| IngestLaws.FullOverlays | internal/app/backup/ingest.go:204-209 | a full batch overlays its rows on whatever was there, whatever the cursor |
| IngestLaws.TwiceIsOnceIff | internal/app/backup/ingest.go:128-202 | ingesting a talker again in full mode changes nothing if and only if a first-seen conversation's time settles |
| IngestLaws.TwiceIsNotAlwaysOnce | internal/app/backup/ingest.go:166-186 | a conversation and a message for which it does not settle; the conversation's time is one that no package gives, so that of jobs IngestLaws.SnapshotTwiceIsOnce holds |
| IngestLaws.SnapshotTwiceIsOnce | internal/app/backup/ingest.go:44-126 | a whole snapshot with times from a package, ingested twice in full mode, is ingested once |
| IngestLaws.IngestKeepsConsistent | internal/app/backup/ingest.go:151-200 | a transaction keeps rows, count, conversation and cursor of a talker in agreement |
| IngestLaws.CursorNeverRewinds | internal/app/backup/ingest.go:188-200 | no row is lost, the received count never falls, and the cursor's end goes back in exactly one corner of times |
| IngestLaws.CursorRewindsIff | internal/app/backup/ingest.go:128-200 | from the state before and the batch: the cursor's end goes back if and only if it lies before the epoch and the batch stores something at the epoch's millisecond and nothing later |
| IngestLaws.CursorCanRewind | internal/app/backup/ingest.go:188-200 | two full ingests of an empty account, with times as packages give them, that take its cursor back |
| IngestLaws.RunsStayConsistent | internal/app/backup/ingest.go:44-202 | every state of every run of ingests, interrupted anywhere, is consistent for every talker |
| IngestLaws.RunsOnlyGrow | internal/app/backup/ingest.go:44-202 | along every run no row is lost and no received count falls |
| IngestLaws.RunsNeverRewind | internal/app/backup/ingest.go:44-202 | along every run whose messages are at the epoch or later, or without a time, no cursor's end goes back |
| IngestLaws.IngestKeepsSettled | internal/app/backup/ingest.go:128-202 | times from a package keep a talker's stored times restorable, in every mode |
| Chunks.SnapshotChunks | internal/adapter/devicesession/sidecar.go:233-292 | one chunk per talker in ascending order with its conversations, messages and bytes, then one for media; never none |
| Chunks.FilterChunks | internal/adapter/devicesession/fake.go:320-349 | talkers with a cursor keep what is past it and disappear when nothing is; others are untouched |
| Chunks.MergeChunk | internal/app/backup/ingest.go:17-38 | messages and media appended, blobs overlaid, conversations added once per talker or made up |
| Chunks.Transfer | internal/app/backup/service.go:351-413 | the job's snapshot is the merge of the filtered chunks of the source |
| ChunkLaws.DeliveredTalker | internal/app/backup/ingest.go:17-38 | what a job receives of each talker, in every mode and for all cursors |
| ChunkLaws.KeptConversationsAre | internal/app/backup/ingest.go:17-38 | a delivered talker has the first conversation listed for it, or is a friend called by its id |
| ChunkLaws.FullDeliveryConserves | internal/adapter/devicesession/sidecar.go:233-292 | cutting and merging keeps every attributed message with its multiplicity and per-talker order, one conversation per talker, and all media |
| ChunkLaws.BytesAreTexts | internal/adapter/devicesession/sidecar.go:259-263 | the bytes counted for messages are the lengths of their texts, and one for each without text |
| ChunkLaws.TalkerBytes | internal/adapter/devicesession/sidecar.go:253-277 | the bytes reported for talkers' chunks sum to the bytes of their messages, and one for each silent talker |
| ChunkLaws.AllBytes | internal/adapter/devicesession/sidecar.go:253-292 | the bytes reported for all chunks sum to the lengths of the texts of every message that names a talker, one for each such message without text, one for each talker without messages, those of the media but at least one, and one if there is nothing |
| Recovery.DeliveryOf | internal/adapter/devicesession/fake.go:320-349 | a delivery names exactly the source's talkers that are not dropped, each with its conversation and the messages past its cursor |
| Recovery.InterruptedIsPartial | internal/app/backup/ingest.go:79-126 | a full backup cut off between any two talkers leaves each talker finished or untouched |
| Recovery.ResumeCompletes | internal/app/backup/ingest.go:79-126 | resuming such an account from the same source leaves it such, and once finished it equals one uninterrupted full backup in messages, conversations and cursors |
| Recovery.PartialRowsIff | internal/app/backup/ingest.go:204-225 | storing only what is past the cursor gives the rows of storing everything if and only if nothing is hidden |
| Recovery.IncrementalMatchesFullIff | internal/app/backup/ingest.go:128-225 | an incremental backup gives the messages of a full one if and only if nothing of the source is hidden behind a cursor; then cursors and counts agree too |
| Recovery.GrownSource | internal/adapter/devicesession/fake.go:320-365 | a source that only grew past its cursors, in its own and in its cut times, backs up incrementally as in full |
| Recovery.GrownInOwnTimeOnly | internal/app/backup/ingest.go:211-225 | a source that grew past its cursor in its own time alone, and the message that an incremental backup then loses |
| Recovery.TestsDifferIff | internal/app/backup/ingest.go:211-225 | the source's test lets a message through that the ingest's test, after the package, takes for old, if and only if it is of one of two families of instants; never the other way round |
| Passage.SameConversation | internal/adapter/backupfmt/reader.go:127-148 | the ingest sees the same conversation for each talker with and without a package |
| Passage.SameBatch | internal/adapter/backupfmt/writer.go:290-308 | the ingest sees the same set of messages for each talker with and without a package |
| Passage.PackageIsTransparent | internal/app/backup/service.go:427-447 | in every mode and however many talkers commit, ingesting what a package gives back is ingesting the snapshot with its times cut |
| Backup.Run | internal/app/backup/service.go:351-474 | transfer, package and ingest together: succeeds if and only if nothing was delivered or the delivery can be written and fits; then the tables are those of ingesting the cut delivery, as many talkers of it as commit, and otherwise unchanged |
| Paging.BoundIsExactIff | internal/store/sqlite/canonical.go:96-98 | a cursor made from a listed message bounds at that message if and only if its stored time is not the one that reads back as absent |
| Paging.PageIs | internal/http/api.go:125-141 | a page is the head of what is left below its bound, its cursor is that of its last key, and below the largest limit there is one exactly when more is left |
| Paging.CursorRepeatsIff | internal/http/api.go:134-139 | the next page can come back to this one's last message if and only if that message has the one unrepresentable time |
| Paging.WalkDescendsIff | internal/http/api.go:93-142 | whatever happens to the table between pages, a walk's keys strictly descend if and only if no page is followed by a state with a key between its last key and its cursor |
| Paging.CleanIff | internal/store/sqlite/canonical.go:96-98 | only a last key at the instant that reads back as absent can spoil that, and it does as long as its row stays |
| Paging.WalkStaysUnder | internal/http/api.go:93-142 | a walk that hands over cleanly never rises above its bound |
| Paging.WalkMissesNothing | internal/http/api.go:93-142 | a finished walk has every message that was there throughout, over any tables |
| Paging.FixedWalkIff | internal/http/api.go:93-142 | over a fixed table a walk ends within the expected number of pages with exactly what lies below its start if and only if no page followed by another ends at the instant that reads back as absent |
| Paging.LargestLimitStopsEarly | internal/http/api.go:126-127 | at the largest limit the walk is one page long, and complete if and only if that page is |
| Paging.ReverseInPlace | internal/app/restore/snapshot.go:92-94 | the array holds the old contents in reverse |
| Paging.DumpMessages | internal/app/restore/snapshot.go:71-96 | whenever the paging loop ends at all, the talker's messages are what it collects, oldest first |
| Paging.DumpIsCompleteIff | internal/app/restore/snapshot.go:71-96 | the loop ends with every row once if and only if no full page ends at the instant that reads back as absent |
| Paging.DumpEndsIff | internal/app/restore/snapshot.go:71-96 | the loop ends at all if and only if it ends within one page more than there are rows |
| Paging.DumpMayRunForEver | internal/app/restore/snapshot.go:71-96 | with a full page of rows at that instant it does not end, whatever other rows there are |
| Paging.DumpIsExact | internal/app/restore/snapshot.go:71-96 | a dump is strictly ordered and holds exactly one message for each row |
| Paging.DumpStaysPut | internal/adapter/backupfmt/writer.go:290-308 | the writer's sort leaves a dump unchanged |
| Decimals.NumbersRoundTrip | internal/http/api.go:392-412 | a formatted number parses back if and only if it fits 64 bits, and contains no line break |
| Decimals.FormattedPlainly | internal/http/api.go:392-396 | a formatted number has no leading zero and no sign but a minus |
| Decimals.OnlyDigitsParse | internal/http/api.go:379 | only digits are a number, after at most one sign, and at least one of them |
| Decimals.SignsAreRead | internal/http/api.go:379 | a plus sign is read over and a minus sign turns the number round, within 64 bits |
| PageToken.LimitsAccepted | internal/http/api.go:374-390 | accepted limits lie between one and the largest, each of them can be asked for, and numbers that are negative or too wide are refused |
| PageToken.LimitsMean | internal/http/api.go:374-390 | no text and zero ask for fifty messages, anything above a thousand for a thousand, and any other number for itself |
| PageToken.Base64RoundTrip | internal/http/api.go:392-402 | every byte string survives URL-safe unpadded base64 (section 5 of RFC 4648) |
| PageToken.LettersAreStandard | internal/http/api.go:392-396 | the alphabet is that of Table 2 in section 5 of RFC 4648 |
| PageToken.LineBreaksAreSkipped | internal/http/api.go:398-402 | line breaks anywhere in a token are skipped, as base64 decoding does |
| PageToken.DecodesIff | internal/http/api.go:398-402 | exactly the texts of letters that are not one letter too long decode |
| PageToken.TokenRoundTripIff | internal/http/api.go:392-420 | a token decodes to its cursor if and only if both numbers fit 64 bits and the id is not empty, line breaks in the id included |
| PageToken.TokenText | internal/http/api.go:392-420 | a token is read as milliseconds, sequence number and id, one below the other |
| PageToken.TokenContinuesWalk | internal/http/api.go:116-139 | a cursor handed to the client and taken back bounds the next page where the walk continues |
| PageToken.HandleMessages | internal/http/api.go:93-142 | when a request for a page is refused, and with which error; otherwise exactly the messages of the page, and a token, exactly when more is left, that bounds the next page where this one ends; without a limit text as many messages as are left, at most fifty |
| Export.ConversationsListed | internal/store/sqlite/canonical.go:40-55 | the listing has one conversation for each row |
| Export.MostRecentFirst | internal/store/sqlite/canonical.go:40-55 | in the listing later rows stand first, and of equally late ones the smaller talker |
| Export.FilterSessions | internal/app/restore/snapshot.go:21-37 | the wanted conversations in order, or an error if and only if a wanted id names none |
| Export.ChosenRows | internal/app/restore/snapshot.go:21-37 | the chosen conversations are exactly the wanted rows of the table |
| Export.DumpChosen | internal/app/restore/snapshot.go:39-46 | refused for a blank talker; otherwise what the loop collects from the chosen talkers, one after the other |
| Export.LoopDumpsAreDumps | internal/app/restore/snapshot.go:39-96 | these are the complete dumps when no full page ends at that instant |
| Export.LoadSnapshot | internal/app/restore/snapshot.go:16-69 | when loading fails, with which error, and otherwise the exported snapshot: the wanted conversations, what the loops collect, which is all rows unless a full page ends at that instant, and each media object as it is or, if its file is gone, without a path and unavailable |
| Export.DumpOfTalker | internal/app/restore/snapshot.go:39-46 | each chosen talker's own dump is in the export, nobody else's is |
| Restore.ExportIsWritable | internal/adapter/backupfmt/writer.go:81-173 | an export of consistent tables can always be written, with distinct ids for each talker |
| Restore.MediaComesBack | internal/app/restore/snapshot.go:48-60 | after loading, writing and reading, a media object whose file is there and not empty is available with exactly the file's bytes, and any other has none |
| Restore.TalkerComesBackIff | internal/app/backup/ingest.go:128-202 | rows and conversation of an exported talker come back if and only if it was settled; its cursor starts over, caught up |
| Restore.ExportThenImportIff | internal/app/restore/snapshot.go:16-96 | the same through export, package and full ingest, for every selection; nobody else appears |
| Restore.WholeAccountComesBack | internal/app/restore/snapshot.go:16-96 | every message row and conversation row of a settled account comes back |
| Restore.PackagesAreNormal | internal/adapter/backupfmt/reader.go:308-313 | whatever was written, times read from a package survive a column |
| Restore.RunsStaySettled | internal/app/backup/service.go:427-447 | every account filled by backups alone, in any modes and however interrupted, is settled |
| Restore.Transplant | internal/app/restore/snapshot.go:16-69 | load, write, read and ingest: succeeds if and only if the records fit, and then the empty account holds the same messages and conversations |
| FullText.UpsertSoundIff | internal/store/fts/fts.go:30-41 | an upsert keeps every index row the projection of its message, none doubled, if and only if the update trigger exists, the message is not indexed, or its indexed columns stay |
| FullText.UpsertKeepsSound | internal/store/fts/fts.go:30-41 | with all triggers an upsert keeps the index in step with the table |
| FullText.RemoveSoundIff | internal/store/fts/fts.go:34-36 | a deletion does so if and only if the delete trigger exists or the message is not indexed |
| FullText.RemoveKeepsSound | internal/store/fts/fts.go:34-36 | with the delete trigger it keeps the index in step with the table |
| FullText.SoundIff | internal/store/fts/fts.go:53-117 | however the statements of set-ups, rebuilds, searches and writes interleave, all index rows are projections of their messages and none is doubled if and only if every write was harmless in that sense |
| FullText.QuietSetUpStaysSound | internal/store/fts/fts.go:53-63 | so it is enough that nothing is written while the triggers exist only in part |
| FullText.EnsureMirrorsIff | internal/store/fts/fts.go:53-63 | an undisturbed set-up leaves an index that agrees if and only if the triggers were in place or the table empty |
| FullText.MirrorsIff | internal/store/fts/fts.go:53-117 | in every interleaving with harmless writes, the index is the projection of the whole table in every state with all triggers if and only if no set-up was completed over an index that lacked rows |
| FullText.UndisturbedMirrorsIff | internal/store/fts/fts.go:53-117 | with undisturbed set-ups this is so if and only if each that runs apart from its rebuild or search finds the triggers in place or the table empty |
| FullText.SearchRepairsIff | internal/store/fts/fts.go:106-117 | a search leaves the index in agreement if and only if it found it empty or in agreement |
| FullText.LateSetupHides | internal/store/fts/fts.go:106-117 | a write between set-up and the first emptiness check hides all older messages |
| FullText.TornSetUpStales | internal/store/fts/fts.go:30-61 | a run from a fresh database in which a message changed between two statements of a set-up leaves its old row behind |
| FullText.TornSetUpDoubles | internal/store/fts/fts.go:30-61 | one in which a message removed between two statements and stored again is indexed twice |
| FullText.PhraseIsLiteral | internal/store/fts/fts.go:196-206 | the phrase is one quoted string that reads as the words with stars blanked, and is missing if and only if there are no words |
| FullText.TrimIs | internal/store/fts/fts.go:196-206 | trimming takes all spaces off both ends and nothing else |
| FullText.InQueryIsAskedFor | internal/store/fts/fts.go:142-147 | a row is in range exactly if it has the asked type and lies between the given times, in milliseconds, or between zero and the greatest 64-bit number where none is given |
| FullText.LimitsOfHits | internal/store/fts/fts.go:15-18 | fifty hits unless a limit is given, and never more than a thousand |
| FullText.AnswerIsSound | internal/store/fts/fts.go:118-172 | no message twice, no more than the limit, only hits that hold the words; all of them when the hits are within the limit |
| FullText.AnswerFindsAll | internal/store/fts/fts.go:118-172 | over an index that agrees, an answer that is not cut has exactly the messages of the asked type and range that the matcher proposes and that hold the words |
| FullText.AnswerIsNewestFirst | internal/store/fts/fts.go:118-172 | an answer stands newest first, and what the limit cuts off is not newer than anything answered |
| FullText.AnswerIsAnswered | internal/store/fts/fts.go:118-172 | over an index in step, every answered message is a row of the table as it stands, of the asked type and range, and holds the words |
| FullText.Searcher.EnsureSchema | internal/store/fts/fts.go:53-63 | all statements executed, table and index rows untouched |
| FullText.Searcher.RebuildIndex | internal/store/fts/fts.go:67-86 | afterwards the index agrees with the table |
| FullText.Searcher.SearchFor | internal/store/fts/fts.go:98-173 | a blank search changes nothing; any other sets up, rebuilds when the index is empty, and answers with rows of the asked type and range, newest first, as many as the limit allows |
| BackupJob.EveryInterleavingIsSafe | internal/app/backup/service.go:258-579 | no send on a closed channel and no second close; transitions in stage order; every channel an in-order run of snapshots, never receding, none twice but the one handed over on subscribing |
| Counters.StepCounts | internal/app/backup/service.go:361-394 | what each step does to the counters, and that no other step touches them |
| Counters.CountersAreExact | internal/app/backup/service.go:351-458 | in every run: with a progress channel each counter is the greatest of its reports and zero, without one the sum of the chunks' sizes and their number; the organized talkers raise the sessions |
| Counters.NotesAreTrue | internal/app/backup/service.go:545-564 | every snapshot a subscriber is sent is the job as it stood at some point of the run |
| Counters.CancelStopsChunks | internal/app/backup/service.go:382-388 | a cancelled job merges no chunk but the one it holds at that moment |
| Subscribers.UnsubscribedGetsNoMore | internal/app/backup/service.go:278-289 | a channel taken off the list while no emission holds a copy of it gets nothing more and is never closed |
| Subscribers.NoSnapshotTwiceIff | internal/app/backup/service.go:258-564 | from every state of a job, a new subscriber gets a strictly ordered subsequence of the snapshots in all continuations if and only if it does not subscribe between a change of the running job and the copying of the subscriber list for it |
| JobRuns.FirstNoteCanComeTwice | internal/app/backup/service.go:258-290 | a run from the start in which the first snapshot comes twice |
| Subscribers.ClosedInTheEndIff | internal/app/backup/service.go:545-579 | at the end every channel handed out and not unsubscribed is closed if and only if persisting done did not fail; a closed one ends with the final snapshot, or never got it, by whether the forced send gave up |
| JobRuns.NeverGoesBack | internal/app/backup/service.go:484-539 | rank and counters never fall along any run, and terminal states absorb |
| JobRuns.CancelExcludesDone | internal/app/backup/service.go:484-492 | a cancellation that takes effect before the last check excludes done |
| JobRuns.EndsCancelledIff | internal/app/backup/service.go:292-539 | a job cancelled in time, with nothing failed so far, ends as cancelled if and only if no later step takes effect as a failure, and otherwise as failed |
| JobRuns.CancelledOnlyIfAsked | internal/app/backup/service.go:292-539 | a job that nobody cancels, and whose stream does not end interrupted, never ends as cancelled |
| JobRuns.CancelWhileOpeningFails | internal/app/backup/service.go:321-325 | a run in which the job is cancelled while its stream is being opened and ends as failed |
| JobRuns.ForcedSendGivesUpIff | internal/app/backup/service.go:566-579 | between its selects the forced send gives up if and only if the buffer has been emptied; otherwise it makes room and succeeds |
| JobRuns.GivingUpCanHappen | internal/app/backup/service.go:566-579 | a run in which it gives up, so that the final snapshot never reaches the subscriber |
| JobRuns.LostDoneNeverCloses | internal/app/backup/service.go:501-529 | once persisting done has failed, open channels are never closed |
| JobRuns.DoneCanBeLost | internal/app/backup/service.go:501-504 | a run that ends so, with a subscriber who never left |
| JobRuns.EmissionEnds | internal/app/backup/service.go:545-579 | once the job has ended, its emission is over after a bounded number of its own steps, whatever everybody else does in between |
| JobRuns.SubscribersAreReleasedIff | internal/app/backup/service.go:545-564 | then every subscriber that stays finds its channel closed if and only if persisting done did not fail |
| BackupJob.EmitTouches | internal/app/backup/service.go:545-579 | an emission step touches only the next subscriber's channel, and only a terminal one closes it |
| Polling.WaitPackage | internal/adapter/devicesession/sidecar.go:124-188 | the loop gives the answer of the first poll that has one |
| Polling.AttemptedIff | internal/adapter/devicesession/sidecar.go:139-154 | the directory is opened exactly at the polls where one fingerprint has been seen for long enough since the last attempt |
| Polling.WaitGivesFirstReading | internal/adapter/devicesession/sidecar.go:154-187 | the wait ends with the reading of the first attempt that was not busy, and goes on if and only if there is none |
| Polling.GapsCount | internal/adapter/devicesession/sidecar.go:140-152 | polls that see no whole package do not restart the clock |
| PackageFiles.ShardsHaveOwnFiles | internal/adapter/backupfmt/writer.go:343-345 | shards never share a file name, and clearing recognises each |
| PackageFiles.ShardNamesAre | internal/adapter/backupfmt/writer.go:417-422 | which names are taken for shards, in terms of their prefix and suffix |
| PackageFiles.ShardNamed | internal/adapter/backupfmt/writer.go:343-345 | a shard is called by its number in decimal |
| PackageFiles.ClearPackageFiles | internal/adapter/backupfmt/writer.go:400-422 | exactly the package's files are removed |
| ChatStore.AlwaysValid | web/src/stores/chat.js:21-72 | in every interleaving: spinners turn exactly while the newest request is unanswered, conversations are the current account's when none is loading, messages the current pair's unless new ones are due |
| ChatStore.StoredForCurrentPair | web/src/stores/chat.js:60-71 | a message list is stored only for the pair current at that step |
| ChatStore.SettledShowsCurrent | web/src/stores/chat.js:21-72 | once everything is answered nothing stale is shown and no spinner turns |
| ChatStore.StaleIff | web/src/stores/chat.js:21-59 | a navigation leaves the messages of the pair shown so far standing if and only if there are any and it goes to another account or asks for another talker; only in the second case does it start a spinner for messages |
| ChatStore.StaleRun | web/src/stores/chat.js:21-72 | a run that shows one account's message under another, with no spinner for messages |
| ChatStore.LastRouteWinsIff | web/src/stores/chat.js:21-27 | the last route's talker is shown in the end, in every order of responses, if and only if no route to another talker of its account was under way |
| ChatStore.RivalRun | web/src/stores/chat.js:21-44 | a run from the start, with honest answers, in which the older route's talker is shown in the end |
| ChatStore.Store.Navigated | web/src/stores/chat.js:21-27 | loads the conversations of a new account, or else the messages of the pair |
| ChatStore.Store.ConversationsAnswered | web/src/stores/chat.js:33-43 | an answer to an older request changes nothing but who is waiting |
| ChatStore.Store.WentOn | web/src/stores/chat.js:25-26 | goes on to the messages only if its account is current |
| ChatStore.Store.AskMessages | web/src/stores/chat.js:45-59 | the new generation, the talker, and the cleared list when there is nothing to ask for |
| ChatStore.Store.MessagesAnswered | web/src/stores/chat.js:60-71 | stores the list reversed if it is the newest and its account current, and stops the spinner if it is the newest; honest answers keep the invariant |

## Left out

- SQLite itself, SQL text, pragmas, write-ahead logging and FTS5 matching: library behaviour; tables are maps and the matcher is any predicate.
- JSON of messages and of their extra fields: a foreign pair of functions.
- Integers wider than 64 bits: message sequence numbers, times and counters are unbounded here; the page token and the frame length state their widths.
- Unicode spaces in searches: only the six ASCII spaces are trimmed; the limit and cursor texts of a page request are taken as trimmed.
- Media ingest (internal/app/backup/ingest.go:95-125): files are copied and rows upserted one by one, which would only repeat the message rows without cursors.
- The fallback to an account's own backup directory when a device delivers nothing (internal/app/backup/service.go:467-472).
- Error texts of jobs and the wrapped causes of failures.
- Start, Get, Wait and recovery of jobs at start-up: short and nearly direct; that Start looks for an active job and inserts its own without a common lock is why no uniqueness of active jobs is claimed.
- The wait of Cancel for the job to end, and cancellation of the poll loop: a select on a context.
- The restore job machine (internal/app/restore/service.go): the same shape as the backup machine without subscribers.
- Partial writes of a package that fails: only that every package file is then cleared.
- HTTP routing, server-sent events, authentication, settings, Vue components, migrations and statistics.
- Directory fingerprints: an opaque text; how it is composed from names, sizes and times is not modelled.
- Recovery.IncrementalMatchesFullIff: display names and times of conversations whose talker the filter drops stay as they were, so only messages, cursors and counts are compared.
- Paging.DumpMessages: is stated for the tables over which the source's loop ends; so are Export.DumpChosen and Export.LoadSnapshot.
