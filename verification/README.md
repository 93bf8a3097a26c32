# Pyka, modelled and proved in Dafny

Pyka is a small message broker: topics are split into partitions, a partition is
a log on disk, and brokers share the partitions by hashing. This project models
its storage engine, the live tail above it, and the ring that assigns
partitions, and proves what each promises. `dafny verify dfyconfig.toml` checks
everything.

## How it is laid out

Storage, from bytes up:

- `Bytes`, `Crc32`, `Records`: big-endian fields over `seq<bv8>`, the CRC of
  section 8 of RFC 1952 written bit by bit over `bv32`, and the record codec.
- `Frames`: records laid end to end, and what any cut of such a file reads as.
- `Bisect`, `Indexes`: the sparse index (class `Index`) and its floor search.
- `Recovery`, `Damage`, `Reading`, `Hints`: opening a file of arbitrary bytes, one
  changed byte, an indexed read against a plain scan, and what hints that lie can
  do. These are stated about values.
- `Segments`: class `Segment`, one file and its index, over a `Directory` that
  records for each file its bytes and how many of them are durable.
- `Chains`, `Opening`, `Crashes`: a partition as a value (`LogState`), what each
  operation makes of it, reopening from files, and every run of operations and
  crashes against an abstract sequence of records with a durable prefix.
- `Logs`: class `Log`, proved method by method to do what `Chains` and `Opening`
  say, on segment objects and files.
- `Durability`: the sync policy and the append that consults it, one call after
  another.

Threads, each standing for one call:

- `Appenders`: a transition system of threads that append to a log, roll it, sync
  it and close it under its lock, with bytes becoming visible a few at a time.
- `Linear`: those threads against the log of `Chains`, one turn for each call, so
  that what `Crashes` proves of runs of that log holds beside other threads too.
- `Snapshots`: readers beside those threads, which hold no lock.
- `Commits`, `Overlaps`: calls of the topic layer's append that overlap. The log
  takes each append and sync whole, as `Linear` proves; counting, deciding and
  resetting are steps between which other calls run.

Above storage: `Paging` (bounded reads and `Consume`), `Tails` (class `Tail`),
`Following` (consumers that follow, interleaved with producers), `Fetches` (the
reads of `Following` are readers of `Snapshots`), `Rings`
(modulo and consistent hashing) and `Clusters` (what a broker holds, when it
serves, and runs of brokers under changing counts).

Classes carry the fields the program updates in place. Each of their methods is
proved equal to a function of the old state, and the properties are lemmas about
those functions. Fields marked as history in a state-machine datatype are read
by no step.

## Where the code does less than its comments say

- A lying index hint is not always harmless. Bytes that claim a size below the
  fixed fields raise `struct.error`, which is not swallowed
  (`Hints.MisleadingHintRaises`); worse, a value that itself holds a frame is
  believed, and the read yields a record that was never appended
  (`Hints.ForgedRecord`). `Hints.EntriesExactly` says for any entries and offset
  exactly when the indexed read is the plain one; `Hints.ForgedButHarmless` shows
  why that condition must look at the bytes a believed hint leads to. Every open
  rebuilds the index, and no entry so built or added by an append can mislead
  (`Reading.IndexIsHarmless`), so only an index damaged in memory after it was
  opened can hold such an entry.
- A changed byte in a size field can pass for a torn tail, and recovery then drops
  that record and all after it (`Damage.DamageUnnoticed`). `Damage.OneByteDamage`
  says exactly when.
- A closed log accepts an append that needs a roll: `Chains.ClosedLogAppends` is a
  case, and `Chains.AppendOutcome` the condition (the tail must be open *or* out of
  room).
- Syncing for every record is not durable per append, and no threshold n keeps
  fewer than n records unsynced, once calls overlap. The count of appends is kept
  outside every lock: a record written while another call is between its fsync
  and its reset is erased from the count, and so is one whose increment another
  store overwrites. `Overlaps.EveryRecordFails` is the run of two calls after
  which both have returned and one record is unsynced, at n = 1;
  `Overlaps.OverlapFails` and `Overlaps.LostUpdateFails` are such runs for every n.
  What holds of any interleaving is `Commits.AnyOverlapBound`; the bound itself
  holds of every orderly one (`Commits.OrderlyOverlapBound`). The exact conditions
  are `Commits.CoveredRunIff` (over a run, each reset and store safe),
  `Overlaps.QuietExactly` (of what an overlap leaves behind) and
  `Overlaps.BoundedIff` (at most one call in flight).

That a broker told to serve with orphans splits a log is announced by its own log
message; `Clusters.NoSplitLog` and `Clusters.SplitExactly` say that it is exactly
the orphans that do, and `Clusters.AllowedOrphansSplit` shows a run.

## Model

| member | source | states |
|---|---|---|
| Bytes.UnpackPackSigned | src/pyka/storage/record.py:63-78 | Every signed field that fits its width unpacks to the value packed |
| Bytes.PackUnpackUnsigned | src/pyka/storage/record.py:89-96 | Every unsigned field packs back to the very bytes it was unpacked from |
| Bytes.OfByteIs | src/pyka/storage/record.py:63-96 | A byte is read as its value as an unsigned integer, so its bits are in order |
| Records.EncodableIff | src/pyka/storage/record.py:57-78 | A record is accepted exactly when its offset and timestamp fit in 64 signed bits and its size after the prefix is at most 2^20; a refused one raises `ValueError` exactly when its timestamp and both lengths fit and that size does not, whatever its offset, and `struct.error` otherwise |
| Records.FrameSize | src/pyka/storage/record.py:80-85 | `size()` is the length of the encoding, and the size field holds it less the prefix |
| Records.FrameBytes | src/pyka/storage/record.py:14-24 | The very bytes of one record: big-endian offset, size, checksum, timestamp, key length and value length, minus one for null, then the key |
| Records.ChecksumCovers | src/pyka/storage/record.py:63-65 | Of every encoding, the checksum field is the CRC of exactly the bytes below it |
| Records.DecodeEncode | src/pyka/storage/record.py:57-126 | Every accepted record decodes to itself, null and empty kept apart |
| Records.EncodeDecode | src/pyka/storage/record.py:87-126 | Every successful decode re-encodes to the very bytes it read |
| Records.DecodeErrors | src/pyka/storage/record.py:87-126 | A failed decode raises `struct.error` exactly when the prefix, or a record whose claimed size fits the buffer, is too short for the fixed fields; every other failure is `CorruptRecord` |
| Records.ReadFrame | src/pyka/storage/record.py:128-139 | A frame, whatever follows it, reads back as its record and advances the stream by its size |
| Records.ReadTorn | src/pyka/storage/record.py:128-139 | Every strict prefix of an encoding reads as no record, not as an error |
| Crc32.CheckValue | src/pyka/storage/record.py:64-64 | The bitwise checksum of the digits 1 to 9 is cbf43926, the published check value of this CRC |
| Crc32.CrcConcat | src/pyka/storage/record.py:64-64 | Chained checksums over body, key and value are one checksum over their concatenation |
| Crc32.CrcDetectsOneByte | src/pyka/storage/record.py:119-121 | Two byte strings that differ in exactly one byte have different checksums |
| Frames.UniqueParse | src/pyka/storage/record.py:128-139 | A stream of encodings and a torn tail parses in exactly one way |
| Frames.CutFile | src/pyka/storage/record.py:128-139 | A file of records cut at any byte is its whole frames and a tail that reads as torn |
| Recovery.RecoverIff | src/pyka/storage/segment.py:63-98 | Opening any bytes succeeds with a result if and only if the file is the encodings of those records, numbered from base, and a torn tail, with the position their total size and the entries what appends would have indexed |
| Recovery.RecoverTwice | src/pyka/storage/segment.py:63-98 | What recovery leaves is exactly the good frames, and recovering again changes nothing |
| Damage.OneByteDamage | src/pyka/storage/segment.py:63-98 | After one byte of one record changes, the file opens if and only if the byte is in a size field that now claims an acceptable size past the end of the file; then the records before it are kept |
| Damage.DamageOutsideSize | src/pyka/storage/record.py:87-126 | Any single changed byte outside a size field makes recovery raise `CorruptRecord` |
| Damage.DamageUnnoticed | src/pyka/storage/record.py:134-138 | A concrete file whose only record is lost, without an error, to one changed byte of its size field |
| Indexes.Index.constructor | src/pyka/storage/index.py:20-33 | A ragged last entry is cut off; the entries loaded pack back to exactly what is left of the file |
| Indexes.Index.MaybeAppend | src/pyka/storage/index.py:35-74 | Adds an entry once an interval has passed, or raises with nothing changed; file and entries keep agreeing |
| Indexes.Index.Clear | src/pyka/storage/index.py:98-101 | Entries, file and buffer are empty |
| Indexes.LoadPacked | src/pyka/storage/index.py:26-32 | Packed entries load as themselves |
| Indexes.EntryBytes | src/pyka/storage/index.py:9-10 | An entry is two big-endian words, the relative offset and then the position |
| Indexes.LookupIsFloor | src/pyka/storage/index.py:76-96 | The bisected lookup is the slow search for the last entry at or before the offset |
| Indexes.EntriesAtStarts | src/pyka/storage/index.py:35-74 | Every entry built by appends names the record that starts at its position |
| Indexes.SeekCost | src/pyka/storage/index.py:35-96 | For every stored record, the hint is a record start at or before it, less than an interval away, so fewer than interval / 32 records are decoded before it |
| Indexes.EntriesAreFew | src/pyka/storage/index.py:35-74 | The number of entries times the interval is at most the last indexed position |
| Reading.IndexTransparent | src/pyka/storage/segment.py:135-166 | For any entries that all point at record starts or at bytes the reader refuses, sorted or not, an indexed read yields exactly what a scan from byte 0 yields, the stored suffix; which other entries do so is `Hints.EntriesExactly` |
| Reading.IndexIsHarmless | src/pyka/storage/segment.py:100-119 | No entry that appends or recovery make can mislead |
| Reading.PastEndIsHarmless | src/pyka/storage/segment.py:147-162 | Nor can an entry at or past the end of the file |
| Hints.DrainExactly | src/pyka/storage/segment.py:163-166 | A read to the end yields given records without an error if and only if the bytes are frames and a torn tail whose records from the offset on are those |
| Hints.EntriesExactly | src/pyka/storage/segment.py:141-166 | For any entries and offset, the indexed read is the plain scan if and only if the bytes at the hint do not raise `struct.error` and, should they hold the promised offset, a stored record starts there or the bytes from there on hold the same records from the offset on |
| Hints.OnlyStructErrorMisleads | src/pyka/storage/segment.py:154-162 | Where a believed hint is a record start, the read differs exactly when the bytes at the hint raise `struct.error` |
| Hints.MisleadingHintRaises | src/pyka/storage/segment.py:156-162 | A concrete index entry, in mid-record, that makes the indexed read raise where the scan does not |
| Hints.ForgedRecord | src/pyka/storage/segment.py:147-166 | A concrete index entry, into a value that holds a frame, that makes the indexed read yield a record never appended |
| Hints.ForgedButHarmless | src/pyka/storage/segment.py:147-166 | A believed hint away from every record start whose read is still the plain one |
| Segments.Segment.RecoverFile | src/pyka/storage/segment.py:63-98 | The scanning loop computes the recovery function, rebuilds the index, and truncates the torn tail |
| Segments.Segment.Open | src/pyka/storage/segment.py:13-30 | Opening over any index file gives a segment whose file and memory agree, or the error of recovery or of an invalid limit |
| Segments.Segment.Append | src/pyka/storage/segment.py:100-119 | The record and the file grow together or nothing changes; the guard against another writer cannot fire |
| Segments.Segment.Sync | src/pyka/storage/segment.py:121-126 | All bytes of an open segment become durable; a closed one raises |
| Segments.Segment.Close | src/pyka/storage/segment.py:128-133 | Syncs, then drops the write handle; a second close does nothing |
| Segments.Segment.ReadFrom | src/pyka/storage/segment.py:135-139 | Exactly the stored records from the offset on; below the base, an error |
| Segments.Segment.IterFrom | src/pyka/storage/segment.py:141-166 | The reading loop, its hint check and fallback, compute the indexed read |
| Segments.Segment.HasRoomFor | src/pyka/storage/segment.py:169-176 | There is room exactly when the file is empty or its bytes and those of the record, 32 and its key and value, are within the limit |
| Chains.ChainStored | src/pyka/storage/log.py:59-69 | The records of a linked chain are numbered without a gap from its first base |
| Chains.AppendOutcome | src/pyka/storage/log.py:90-115 | An append succeeds exactly when the record can be encoded and the tail is open or out of room; it then adds exactly that record under the offset returned, with at most one new segment; otherwise no record and not the next offset changes, even after a roll |
| Chains.AppendRolls | src/pyka/storage/log.py:101-115 | For every record, in bytes of files: an append adds a segment if and only if the tail's file is not empty and the record's frame would take it past the limit, and the record is then alone in it, after a sealed one; otherwise it goes to the end of the same tail, or raises if that is closed; a record that cannot be encoded raises its error either way |
| Chains.ClosedLogAppends | src/pyka/storage/log.py:112-114 | A concrete log that is closed and then accepts an append, which rolls |
| Chains.RollKeepsChain | src/pyka/storage/log.py:117-142 | A roll keeps the chain, its records and its next offset, and leaves an empty tail |
| Chains.SyncKeepsChain | src/pyka/storage/log.py:185-189 | A sync changes no record and keeps the chain |
| Chains.CloseKeepsChain | src/pyka/storage/log.py:191-206 | A close changes no record and keeps the chain |
| Chains.AppendKeepsTight | src/pyka/storage/log.py:107-114 | Rolling before a record that does not fit keeps every segment within the limit or at one record |
| Chains.TightFits | src/pyka/storage/index.py:49-67 | In such a segment records start at or below 2^32 - 32, at relative offsets below 2^27, and no index guard can trip |
| Chains.SeekIsShort | src/pyka/storage/index.py:20-96 | In such a segment the index leads to a record start less than 4096 bytes, and so fewer than 128 records, before any record sought, with at most one entry for each 4096 bytes |
| Chains.FloorSearch | src/pyka/storage/log.py:166-183 | Reading from the segment found by bisection yields exactly the suffix of the whole log from the offset, across boundaries and an empty tail |
| Opening.SortBasesAscends | src/pyka/storage/log.py:54-54 | The sorted bases are those listed, in strictly increasing order |
| Opening.OpenLogInv | src/pyka/storage/log.py:54-78 | Whatever opens is a well-formed chain, all but its tail sealed and not empty, its tail open |
| Opening.OpensNew | src/pyka/storage/log.py:54-57 | A directory without files opens, under exactly the limits from 1 to 2^32, to one open and empty segment; the first record that can be encoded gets offset 0 |
| Opening.OpensAtLeast | src/pyka/storage/log.py:54-57 | A directory with files opens at the least offset they are named by |
| Opening.OpenExactly | src/pyka/storage/log.py:54-78 | Opening listed files, in full: `ValueError` for a bad limit, the error of the first file that cannot be opened, `CorruptLog` for a gap between files, and otherwise one segment for each file with the records found there, the last one open |
| Opening.NextBaseIsFree | src/pyka/storage/log.py:128-141 | The file of a rolled-to segment does not exist yet |
| Opening.ReopenAfterCrash | src/pyka/storage/log.py:35-78 | For every cut of the tail between what was fsynced and what was written, reopening succeeds with all sealed segments and the whole frames of the tail |
| Opening.RestartOpens | src/pyka/storage/log.py:35-78 | The same for the files as a directory lists them, in any order |
| Logs.Log.Open | src/pyka/storage/log.py:35-78 | The constructor opens what `Opening.OpenExactly` and `Opening.OpensNew` say the files open to, or fails with the same error, having repaired exactly the files up to the first that cannot be opened |
| Logs.Log.NextOffset | src/pyka/storage/log.py:84-88 | The tail's counter is the first offset plus the number of records |
| Logs.Log.Append | src/pyka/storage/log.py:90-115 | On segment objects and files, the append that `Chains.AppendOutcome` describes: one more record under the offset returned, or an error and the same records and next offset |
| Logs.Log.Roll | src/pyka/storage/log.py:117-142 | Likewise for a roll, the empty tail included |
| Logs.Log.Sync | src/pyka/storage/log.py:185-189 | Likewise for a sync |
| Logs.Log.Close | src/pyka/storage/log.py:191-206 | Every segment is closed; sealed ones are left as they were |
| Logs.Log.ReadFrom | src/pyka/storage/log.py:151-164 | Exactly the suffix of all records from the offset; before the first offset, `OffsetOutOfRange` |
| Logs.Log.IterFrom | src/pyka/storage/log.py:166-183 | The loop over a snapshot of the segments computes the chained read |
| Crashes.StepRefines | src/pyka/storage/log.py:35-206 | Every append, roll, sync, close and crash is a step of an abstract log that only extends, makes durable, or cuts above the durable part |
| Crashes.RunRefines | src/pyka/storage/log.py:35-206 | Every run, crashes included, is a run of the abstract log |
| Crashes.DurableForever | src/pyka/storage/log.py:35-206 | Over every run the log opens, is numbered without a gap from the same first offset, continues at its end, and keeps every durable record in its place |
| Crashes.TightForever | src/pyka/storage/log.py:107-142 | In a log always opened with one limit, over every run, each segment is within the limit or holds one record, and every position and relative offset fits the index |
| Crashes.FailedAppend | src/pyka/storage/log.py:101-142 | A failed append leaves every record, every byte of every file and the next offset; at most an empty file is new |
| Durability.Partition.Append | src/pyka/topic/topic.py:305-314 | Returns the next offset, with exactly the record asked for added under it, or an error and adds none; counts, and syncs when the policy says so, as `Durability.CommitExactly` says |
| Durability.CommitExactly | src/pyka/topic/policy.py:23-33 | An append returns exactly what the append to the log returns, synced or not; it makes the whole log durable and starts the count over if and only if a threshold that is set is reached, n appends counted or m milliseconds passed, and otherwise only counts |
| Durability.Partition.Sync | src/pyka/topic/topic.py:329-332 | An explicit sync resets the counter, unless the log is closed |
| Durability.SyncTopicExactly | src/pyka/topic/topic.py:329-332 | An explicit sync makes every record durable and the count zero if the log is open; beside a closed one nothing changes |
| Durability.SyncAfterAppend | src/pyka/topic/topic.py:306-313 | The sync that follows an append cannot fail, even if the log was closed before |
| Durability.EventBounds | src/pyka/topic/policy.py:23-33 | Each event leaves nothing unsynced, or no more unsynced than before, or one more with the count one higher and below the threshold |
| Durability.PowerCutBound | src/pyka/topic/topic.py:305-314 | Under a policy of n records, after any appends, syncs, rolls and closes one after another, a power cut at any byte of the tail loses fewer than n records besides those unsynced at the start; overlapping calls are the subject of `Commits` and `Overlaps` |
| Durability.DurableCarriesNothing | src/pyka/storage/log.py:185-189 | A log fsynced to its end has no unsynced record to start with |
| Commits.StepKeeps | src/pyka/topic/topic.py:305-314 | Every step of overlapping appends and explicit syncs, and every roll, sync and close of the log, keeps the account of unsynced records: at most those counted, those written and not counted yet, and those that slipped the count |
| Commits.AnyOverlapBound | src/pyka/topic/topic.py:305-314 | For any number of calls in any interleaving, increments that lose updates included: once no call is in flight, fewer than n records are unsynced besides those carried in and those that slipped the count, and a power cut at any byte of the tail loses fewer than that |
| Commits.OrderlyOverlapBound | src/pyka/topic/topic.py:305-314 | If no record is written while another call is between its fsync and its reset, and no store overwrites an increment, none slips: the bound of the policy and the loss to a power cut hold for any overlap |
| Commits.AppendsGet | src/pyka/topic/topic.py:305-314 | Over every overlap, a call that returns an offset has its record, with the key, value and timestamp it was asked for, in the log under that offset; no two calls have the same |
| Commits.CallsRaise | src/pyka/topic/topic.py:306-313 | A call raises exactly when its append to the log does, or when its sync meets a closed tail, and then its record stays written |
| Commits.CoveredIff | src/pyka/topic/topic.py:308-332 | From a state in which every unsynced record is counted or has yet to be, a step keeps that so if and only if it is not a reset that erases one or a store that overwrites one |
| Commits.CoveredRunIff | src/pyka/topic/topic.py:308-332 | Over a whole run every unsynced record stays counted, or yet to be, if and only if each reset and each store of it is safe |
| Overlaps.EveryRecordFails | src/pyka/topic/policy.py:36-37 | The run of two calls, step by step from an empty log under a sync for every record, after which both have returned and one record is unsynced |
| Overlaps.OverlapFails | src/pyka/topic/topic.py:305-314 | For every n, a run with at most two calls in flight that ends with n records unsynced and none in flight |
| Overlaps.LostUpdateFails | src/pyka/topic/topic.py:310-310 | For every n of two or more, the same from one lost increment, in a run with no reset |
| Overlaps.QuietExactly | src/pyka/topic/topic.py:308-313 | With no call in flight, whatever overlap came before, later calls one at a time keep fewer than n records unsynced if and only if every unsynced record is still counted |
| Overlaps.BoundedIff | src/pyka/broker/store.py:154-169 | From an empty log the bound holds of every run with at most k calls in flight if and only if k is at most one |
| Paging.ReadBatch | src/pyka/broker/store.py:171-193 | At most `limit` records from the offset on, all of them if the limit is not positive |
| Paging.Consume | src/pyka/broker/handler.py:214-266 | Without following, it terminates and its batches concatenate to exactly the records from the offset, cut at `max_records` when positive; every batch but the last is full |
| Tails.Tail.Subscribe | src/pyka/broker/tail.py:30-38 | The registered event, or a fresh one that becomes registered |
| Tails.Tail.Notify | src/pyka/broker/tail.py:40-50 | The registered event fires and is removed; no other event changes |
| Tails.Tail.Close | src/pyka/broker/tail.py:52-63 | Every registered event fires, none stays registered, and the tail is closed |
| Tails.SubscribeKeeps | src/pyka/broker/tail.py:30-38 | A subscriber holds the registered, unfired event; registered events never have fired and belong to one partition each |
| Tails.NotifyKeeps | src/pyka/broker/tail.py:40-50 | After a notify the partition has no event, and the others keep theirs, unfired |
| Tails.CloseKeeps | src/pyka/broker/tail.py:52-63 | After a close every event that was registered has fired |
| Following.StepKeeps | src/pyka/broker/handler.py:237-266 | Every step of every follower and producer keeps the invariant of streams and waiters |
| Following.NoLostWakeup | src/pyka/broker/tail.py:30-50 | In every reachable state a follower parked on an unfired event still has it registered, and each record it has not read has a notification yet to run |
| Following.NotificationWakes | src/pyka/broker/store.py:154-169 | Once a pending notification of its partition runs, a parked follower can wake |
| Following.StreamsGoOn | src/pyka/broker/handler.py:237-266 | A step ends a stream if and only if its client leaves, a read is refused, or on a closed tail it is at a short batch or a wake-up; a full batch is followed by another read, and on an open tail a short one parks and a wake-up reads again |
| Following.FollowersCanStep | src/pyka/broker/handler.py:237-266 | A stream that has not ended always has a step of its own to take |
| Following.EveryRecordArrives | src/pyka/broker/handler.py:237-266 | From every reachable state, over any interleaving, a stream that has taken at most four of its own steps for each record up to one its log holds, and two more, and has not ended, has been sent that record |
| Following.ProducedArrives | src/pyka/broker/store.py:154-169 | So a produced record is sent to every stream that wants it, with the key, value and timestamp it was produced with, under the next offset |
| Following.JoinsFollow | src/pyka/broker/handler.py:227-235 | In every reachable state each stream follows the partition and starts at the offset its client asked for |
| Following.ReadDelivers | src/pyka/broker/handler.py:243-249 | A read that starts with records to read brings at least one |
| Following.StreamIsLog | src/pyka/broker/handler.py:227-266 | What a follower has been sent is exactly the log from its start: consecutive offsets, no gap, no repeat, over any interleaving |
| Following.ShutdownReleases | src/pyka/broker/tail.py:52-63 | Once closed, in every later state each parked follower can wake and ends, and no follower parks again |
| Following.ShutdownEnds | src/pyka/broker/handler.py:251-266 | Once closed, every step a stream takes brings its end nearer |
| Following.OthersWait | src/pyka/broker/handler.py:251-266 | Steps of others, unless they append, leave a stream as near its end as it was |
| Rings.ClockwiseIsFirst | src/pyka/cluster/ring.py:222-228 | The bisection and its wrap-around find the first point clockwise, ties and collisions included |
| Rings.OwnerIsFirst | src/pyka/cluster/ring.py:204-228 | The owner is the broker of the first point clockwise among the points of all brokers |
| Rings.NamesDiffer | src/pyka/cluster/ring.py:209-227 | The names that are hashed tell partitions of a topic apart, topics whose names hold no colon apart, brokers and virtual nodes apart, and partitions from virtual nodes |
| Rings.NamesAre | src/pyka/cluster/ring.py:186-188 | The spelling of names with numbers of several digits |
| Rings.AnyAssignment | src/pyka/cluster/ring.py:204-228 | Whatever key each partition of each topic and each virtual node is given, some digest makes the owner of every partition the broker of the first of those points clockwise from its own key |
| Rings.TiesGoLowest | src/pyka/cluster/ring.py:209-214 | Where points collide the lowest ordinal comes first |
| Rings.ModuloOwner | src/pyka/cluster/ring.py:84-86 | Under modulo the owner is the ordinal that differs from the partition by a multiple of the number of brokers; a negative partition raises under either rule |
| Rings.ConfiguredExactly | src/pyka/cluster/ring.py:61-67 | A ring is accepted exactly with an ordinal within the cluster and at least one virtual node |
| Rings.GrowthMovesToNew | src/pyka/cluster/ring.py:204-228 | Growing from n to m brokers leaves an owner as it was or moves it to a broker in [n, m), for any digest |
| Rings.ModuloMovesOld | src/pyka/cluster/ring.py:69-86 | Under modulo a partition can move between two old brokers |
| Rings.ExactlyOneOwner | src/pyka/cluster/ring.py:88-96 | Brokers that share a rule name the same owner, and exactly one broker owns each partition |
| Rings.MyPartitionsAre | src/pyka/cluster/ring.py:98-100 | A broker's share is, in order, exactly the partitions it owns |
| Clusters.Topics.Create | src/pyka/topic/topic.py:224-241 | Opens a topic once; its count, once written, is reread, and otherwise becomes the one asked for, or the default if none or zero was |
| Clusters.Topics.OpenLocked | src/pyka/topic/topic.py:237-252 | Writes the count if it is new and creates the directories of exactly the partitions this broker owns |
| Clusters.Topics.CheckPartition | src/pyka/topic/topic.py:369-385 | A partition is accepted exactly when it is within the written count and owned by this broker, which then holds its directory; out of range and another broker's are told apart |
| Clusters.Topics.Admit | src/pyka/topic/topic.py:292-303 | An append creates its topic if there is none, then goes ahead exactly for a partition the open topic accepts |
| Clusters.Store.Open | src/pyka/broker/store.py:82-125 | Opens every listed topic, finds exactly the directories of listed topics that another broker owns, and is ready unless there are some it may not serve with |
| Clusters.StepKeeps | src/pyka/topic/topic.py:201-252 | Every launch, create, check and stop keeps each broker's invariant, and no written count ever changes |
| Clusters.CreatedWith | src/pyka/topic/topic.py:237-241 | In any running broker a topic without a count gets the one asked for or the default, and one created by an append the default; no other topic gets one |
| Clusters.OrphansExactly | src/pyka/broker/store.py:97-125 | Over every run, once a broker has checked, may it serve with orphans or not, its orphans are exactly the directories it holds and does not own; there are none if and only if it owns all it holds |
| Clusters.NoSplitLog | src/pyka/broker/store.py:82-125 | Over every run, a partition held by two brokers that have checked and share a rule is an orphan of one of them, so brokers without orphans hold none twice |
| Clusters.SplitExactly | src/pyka/broker/store.py:97-115 | Over every run, where one broker accepts appends to a partition, another that shares its rule holds the partition too if and only if it is one of its orphans |
| Clusters.AcceptsExactlyOwned | src/pyka/topic/topic.py:369-385 | Over every run, a running broker with a topic open accepts exactly the partitions in its written range that it owns, and holds their directories |
| Clusters.AppendsAtOwner | src/pyka/topic/topic.py:292-305 | Over every run, an append goes ahead only at the partition's owner, which has its directory then |
| Clusters.RefusedExactly | src/pyka/broker/store.py:97-117 | The guard refuses exactly the brokers that hold a foreign directory |
| Clusters.AllowedOrphansSplit | src/pyka/broker/store.py:98-115 | A concrete run in which serving with orphans gives one partition two logs |
| Appenders.FinishingCompletes | src/pyka/storage/segment.py:100-119 | When the last byte of a record is out, no guard trips and file, counters and entries agree again |
| Appenders.EmptyLogIsInitial | src/pyka/storage/log.py:54-57 | An empty log satisfies what the theorems about threads and readers start from |
| Appenders.StepKeeps | src/pyka/storage/log.py:90-206 | Every step of every appending, rolling, syncing or closing thread keeps mutual exclusion and the chain; the shared segments only grow, in what is durable too, and a closed one does not change |
| Appenders.AckedInOrder | src/pyka/storage/log.py:90-206 | For any threads and interleaving, the log is what it held at first, then the acknowledged records in lock order, numbered without a gap, then at most one in flight |
| Appenders.CallersGet | src/pyka/storage/log.py:90-206 | A call that returns an offset has exactly one acknowledged record, held in the log under that offset with the key, value and timestamp the call asked for; an append that raises asked for a record that cannot be encoded, or came after a close and met a closed segment with room; a sync raises only after a close, a roll and a close never |
| Appenders.DistinctOffsets | src/pyka/storage/log.py:98-115 | Two calls are never given the same offset |
| Appenders.CallsKept | src/pyka/storage/log.py:98-142 | Every step keeps what calls have been and will be told true |
| Appenders.InsideCanStep | src/pyka/storage/log.py:98-142 | A thread inside the lock always has a step to take |
| Linear.SharedIsInitial | src/pyka/storage/log.py:54-78 | Threads may start from any log that satisfies the invariant of the chain and whose tail is open; the segments then stand for it |
| Linear.StepStands | src/pyka/storage/log.py:90-206 | Each step of a thread either leaves the log as it is to others or, with the lock, gives back the whole effect and the result of its call |
| Linear.Linearizes | src/pyka/storage/log.py:24-32 | Linearizability: for any threads and interleaving there is one order of the calls, one turn each, in which every call that has returned was told exactly what its request returns on the log as a value, errors included; with the lock free the segments stand for the log after those turns |
| Linear.TurnsInTime | src/pyka/storage/log.py:90-115 | That order agrees with time: a call that had returned before another was made has its turn before it |
| Linear.RaisesExactly | src/pyka/storage/log.py:98-115 | In its turn an append raises if and only if its record cannot be encoded, or the tail is closed and its file is empty or has room for the record's frame; otherwise it gets the next offset |
| Linear.OthersRaise | src/pyka/storage/log.py:117-206 | In its turn a sync raises if and only if the tail is closed; a roll and a close never raise |
| Linear.AnyMoment | src/pyka/storage/log.py:90-206 | At any moment, in the middle of a call too, the segments stand for a log that a sequential run reaches: the operations in turn and at most the one begun |
| Linear.CrashLeaves | src/pyka/storage/segment.py:100-133 | A power cut at any moment, at any byte between what is durable and what is written, leaves the files that a crash of that log leaves |
| Linear.SyncedSurvives | src/pyka/storage/log.py:185-206 | A record acknowledged before a sync or close is in the log for ever, under its offset: whatever calls run after, at whatever moment a crash comes, and whatever operations and crashes follow |
| Linear.TightThreads | src/pyka/storage/log.py:107-142 | At any moment of any run of threads each segment is within the limit or holds one record |
| Snapshots.ReadsAt | src/pyka/storage/record.py:128-139 | A read in a growing file finds the record at its position once it is wholly visible, and the end before that |
| Snapshots.SnapshotKeeps | src/pyka/storage/log.py:166-183 | A snapshot under the lock counts exactly the acknowledged records |
| Snapshots.ReadKeeps | src/pyka/storage/segment.py:141-166 | Every step of a reader keeps its invariant while files grow under it |
| Snapshots.WritersKeep | src/pyka/storage/log.py:166-183 | Whatever the writers do, what a reader has yielded and still expects stays true |
| Snapshots.ReadersSeeARun | src/pyka/storage/log.py:166-183 | A reader beside any appenders never raises, yields a contiguous run from its offset, and when it finishes has yielded every record acknowledged before its snapshot |
| Snapshots.ReadersEnd | src/pyka/storage/log.py:166-183 | While the files do not grow a reader takes a bounded number of its own steps, and stops only when it has finished or was refused |
| Fetches.ReadIsFetch | src/pyka/broker/store.py:171-193 | A bounded read beside appenders, with a full batch or at its end, returns exactly a batch that a follower's fetch allows |
| Fetches.RefusalEnds | src/pyka/broker/handler.py:268-302 | A read refused as out of range ends its follower |

## Left out

- gRPC, FastAPI, the client, command lines and process start: wrappers over libraries.
- Topic-name validation, metadata JSON, environment parsing and address templates: parsing; names are taken as valid.
- The partitioner: routing is a parameter; `_redirect` and the metadata response are not modelled.
- I/O errors: writes, fsync and close succeed, so the collected errors of `Log.close` and the failure of one segment among many do not arise.
- The file system beyond prefix loss of the tail file: directory-entry durability, reordered writes, `.log` files with non-canonical names, a second process on the directory.
- `Record.decode` at a position other than 0, which only `read_one`'s callers could use and none does.
- Clocks: timestamps and milliseconds since the last sync are inputs; the 30 s poll is a step that may happen at any time.
- blake2b: the digest is an arbitrary function; nothing is claimed about balance or skew.
- Cancellation of a produce call between the append and its notification: the poll covers it in the code, and the wake-up proof excludes it.
- Reads that run while a partition is being closed or truncated: recovery happens only before a log is shared.
- Logs.Log.Append: on one thread at a time; several threads are the subject of `Appenders`, which models the same steps as a transition system on values.
- Appenders.StepKeeps: a sync and a close are one step each, so a reader that looks between the fsync and the dropping of the handle is not shown; neither changes a byte it can read.
- Linear.Linearizes: reads have no turn; what a reader beside the threads yields is `Snapshots.ReadersSeeARun`.
- Commits.StepKeeps: the time threshold is an input of each decision and bounds nothing; deciding and the read of the count it needs are one step.
- Snapshots.ReadersEnd: a reader that appenders keep outrunning may go on for ever, as in the code.
- Following.NoLostWakeup: partitions hold an abstract sequence of records; that rolls and storage underneath keep it is proved in `Crashes` and `Snapshots`, and `Fetches` joins a follower's read to a reader there, taking it that the read starts after its follower subscribed.
- Clusters.NoSplitLog: a crash between the directories of one create leaves fewer of them, which the invariant allows but no step shows.
