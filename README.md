# Time-ordered chunk store

This project models the storage core of a delayed-replay video page. The recorder
hands the store one encoded chunk every couple of seconds, and playback asks it for
"the chunk that was current at time t". There are two back ends with the same
operations:

- **Memory store** (`storage-memory.js`). This is a bounded array of `{tStart, blob}`
  records. The epoch is latched on the first `addChunk`. Eviction is by count, from
  the front, down to `floor(maxSeconds / chunkSeconds)` chunks.
- **OPFS store** (`storage-opfs.js`). This store has three parts:
  - an in-memory cache of `{id, filename, tStart}` records;
  - a metadata table keyed by id (IndexedDB);
  - a file area mapping names to payloads (the origin-private file system).

  `addChunk` writes the file, caches the record, stores its metadata and then evicts
  by time.

Both stores answer lookups with the same floor query: no answer when the store is
empty or the target lies outside [oldest, newest]; otherwise the last record of the
leading run whose start times do not exceed the target.

The Dafny is organised in three modules:

- `ChunkOrder` (`chunk_order.dfy`). The floor query `Floor` over a sequence of start
  times, an independent reference definition `LastAtMost`, the lemma that they agree
  on sorted input, and the scan loop `Scan` both stores run.
- `MemoryStore` (`storage_memory.dfy`):
  - the class `MemoryStorage`, whose fields are the chunk array and the epoch;
  - the capacity function;
  - the count-based eviction spec `KeepLast` and its lemmas;
  - the worked scenario `Scenario` (10 s in 2 s chunks, seven adds at 0, 2, …, 12,
    leaving 4, 6, 8, 10, 12).
- `OpfsStore` (`storage_opfs.dfy`). The pure specification of the whole store state
  (`Store`) and of each operation (`Trimmed`/`TrimOutcome`, `Added`/`AddOutcome`,
  `Lookup`), with the lemmas about it. It also holds the class `OpfsStorage`, whose
  fields are the epoch, the cache, the metadata table and the file area.

Every browser call that `addChunk` and its eviction make and that can fail takes its outcome from an explicit `Faults` value:
- whether the file write fails;
- whether the metadata put fails;
- the file names whose removal fails;
- the ids whose metadata delete fails.

`getChunkForTime` takes a `readSucceeds` flag. This way the model covers the partial
states the JavaScript store leaves behind when a step throws:
- a cached record with no metadata after a failed put;
- an unfiltered cache after a failed delete.

The clock is an explicit `now` argument in exact `real` seconds. The chunk id is an
argument. Payloads are opaque byte sequences.

## Model

| member | source | states |
|---|---|---|
| ChunkOrder.PrefixAtMost | storage-memory.js:39-43 | the scan walks a leading run: every time before the stop point is at most the target, and the one at it is later |
| ChunkOrder.Floor | storage-memory.js:31-44 | no answer exactly when the store is empty or the target is before the oldest or after the newest time; otherwise an index whose time and all earlier times are at most the target, the next one being later |
| ChunkOrder.LastAtMost | storage-memory.js:39-44 | reference definition: the greatest index whose time is at most the target, or none when every time is later |
| ChunkOrder.FloorIsLastAtMost | storage-memory.js:39-44 | on sorted times with the target in range, the scan's answer is the greatest index with time at most the target, so ties go to the later insertion |
| ChunkOrder.FloorExample | storage-memory.js:30-45 | on times [2, 4, 6]: target 5 picks index 1, 6 picks index 2, 1 and 7 give no answer |
| ChunkOrder.Scan | storage-memory.js:39-43 | the for/break loop computes the floor query |
| MemoryStore.Capacity | storage-memory.js:5 | the capacity is the floor of maxSeconds / chunkSeconds, and is not negative for a non-negative budget |
| MemoryStore.AppCapacity | app.js:15-16 | with the page's 90 s in 2 s chunks the capacity is 45 |
| MemoryStore.KeepLast | storage-memory.js:25-27 | what count-based eviction keeps: the newest `n` chunks, or all of them when there are no more; `KeepLastIsRecent` states its length and contents |
| MemoryStore.KeepLastAppend | storage-memory.js:23-27 | evicting after every push keeps the same chunks as evicting once after all pushes |
| MemoryStore.KeepLastIsRecent | storage-memory.js:25-27 | eviction keeps exactly the last min(N, capacity) chunks in insertion order; with capacity at least 1 the newest chunk is the last element |
| MemoryStore.KeepLastShift | storage-memory.js:25-26 | one shift of an over-full array does not change what eviction keeps |
| MemoryStore.KeepLastSorted | storage-memory.js:25-27 | eviction from the front keeps an ordered array ordered |
| MemoryStore.AppendSorted | storage-memory.js:20-23 | pushing a chunk that starts no earlier than the newest keeps the array ordered |
| MemoryStore.AddKeepsOrder | storage-memory.js:19-28 | with a clock that never goes back, a whole addChunk (push, then evict) keeps start times non-decreasing along the array |
| MemoryStore.MemoryStorage.constructor | storage-memory.js:4-7 | the store starts empty with no epoch and capacity floor(maxSeconds / chunkSeconds) |
| MemoryStore.MemoryStorage.AddChunk | storage-memory.js:19-28 | the first call latches the epoch, later ones keep it; the array becomes the last `capacity` chunks of everything added, the new one with tStart = now − epoch; the length never exceeds the capacity |
| MemoryStore.MemoryStorage.GetChunkForTime | storage-memory.js:30-45 | answers the floor query's chunk, or none, and changes nothing |
| MemoryStore.Scenario | storage-memory.js:19-45 | 10 s in 2 s chunks gives capacity 5; seven adds at 0, 2, …, 12 leave start times 4, 6, 8, 10, 12; a lookup at 3 answers none and one at 9 the chunk added at 8 |
| OpfsStore.FileName | storage-opfs.js:111 | the file of chunk `id` is named `chunk-<id>.webm`; `FileNameInjective` shows the name determines the id |
| OpfsStore.Expired | storage-opfs.js:89 | the records eviction deletes, in cache order, never more than the cache holds; `FilterMembers` shows they are exactly the cached records before the cutoff |
| OpfsStore.Retained | storage-opfs.js:94 | the records the cache keeps, in cache order, never more than it held; `FilterMembers` shows they are exactly the cached records not before the cutoff |
| OpfsStore.FileNameInjective | storage-opfs.js:111 | distinct ids give distinct `chunk-<id>.webm` file names |
| OpfsStore.FilterMembers | storage-opfs.js:89-94 | the records the loop deletes are exactly the cached ones before the cutoff; the cache keeps exactly the others |
| OpfsStore.Processed | storage-opfs.js:90-93 | the loop gets through a prefix of the expired records whose metadata deletes all succeed, and stops at the first that fails |
| OpfsStore.InsertByTimeMultiset | storage-opfs.js:83 | inserting a record into the sorted prefix adds it and loses nothing |
| OpfsStore.InsertBounded | storage-opfs.js:83 | insertion brings in no record later than a bound its inputs respect |
| OpfsStore.InsertSorted | storage-opfs.js:83 | insertion into a sorted cache keeps it sorted |
| OpfsStore.InsertByTime | storage-opfs.js:83 | puts one record into a sorted cache after every record that does not start later; the result is one longer (its order and contents are the lemmas below) |
| OpfsStore.SortByTime | storage-opfs.js:83 | the stable sort by start time, as repeated insertion; it keeps the length, and `SortByTimeSorts` proves it ordered and a permutation |
| OpfsStore.SortByTimeSorts | storage-opfs.js:81-85 | the sorted cache is ordered by start time and is a permutation of the records it was given |
| OpfsStore.LoadedMatchesTable | storage-opfs.js:81-85 | loading what getAll answers (the table's records, once each) gives a sorted cache with one record per key: its ids are exactly the table's keys, its length is the table's size, and its records are the table's entries |
| OpfsStore.SortByTimeOfSorted | storage-opfs.js:123 | the stable sort leaves an already sorted cache unchanged |
| OpfsStore.RetainedAll | storage-opfs.js:89-94 | when nothing is before the cutoff, nothing is deleted and the cache is kept whole |
| OpfsStore.SortedTrimDropsPrefix | storage-opfs.js:89-94 | on a sorted cache the expired records followed by the kept ones are the cache: eviction drops a prefix |
| OpfsStore.RetainedSorted | storage-opfs.js:94 | the filter keeps a sorted cache sorted |
| OpfsStore.RetainedAppend | storage-opfs.js:94 | filtering a cache with a record appended keeps the old cache's survivors and then the record exactly when it is not before the cutoff |
| OpfsStore.Trimmed | storage-opfs.js:87-95 | the store after eviction at a cutoff: the epoch is kept; the table and the file area lose what the loop got through; the cache is filtered only when every delete succeeds |
| OpfsStore.TrimOutcome | storage-opfs.js:90-94 | eviction ends in `Done` when the loop gets through every expired record, and in `DeleteMetaFailed` otherwise |
| OpfsStore.TrimExample | storage-opfs.js:87-95 | budget 4 s, records at 0, 1, 2, 3, 5: the record at 0 is deleted and 1, 2, 3, 5 stay in order |
| OpfsStore.TrimCompletes | storage-opfs.js:90-94 | eviction completes exactly when no expired record's metadata delete fails; then the cache holds exactly the records not before the cutoff, otherwise it is untouched |
| OpfsStore.TrimRemovesExpired | storage-opfs.js:89-93 | after a completed eviction every record before the cutoff has lost its metadata and, unless its removal failed, its file |
| OpfsStore.TrimKeepsOthers | storage-opfs.js:89-93 | whatever fails, every table key and every file name not belonging to an expired record keeps its entry |
| OpfsStore.Consistent | storage-opfs.js:110-116 | the invariant the store keeps in step: the cache ids are exactly the table keys, the cache names exactly the file names, each cached record is the table's entry for its id, and each is named `chunk-<id>.webm`; the bare key and name equalities alone are not preserved by an add, since a record named after another id could then share its file name with the new chunk |
| OpfsStore.SameIdSameRecord | storage-opfs.js:110-116 | in a consistent store two cached records with the same id or the same file name are the same record |
| OpfsStore.KeptApartFromGone | storage-opfs.js:89-94 | in a consistent store no kept record shares its id or file name with an expired one |
| OpfsStore.TrimPreservesConsistency | storage-opfs.js:87-95 | eviction without failures completes and keeps the store `Consistent`: cache ids equal to the table keys, cache names equal to the file names, every cached record equal to the table's entry for its id and named `chunk-<id>.webm` |
| OpfsStore.TrimKeepsSorted | storage-opfs.js:94 | whatever fails, eviction keeps a sorted cache sorted |
| OpfsStore.AppendKeepsSorted | storage-opfs.js:115 | pushing a record no earlier than the newest cached one keeps the cache sorted |
| OpfsStore.AddKeepsSorted | storage-opfs.js:105-119 | whatever fails, an add whose record starts no earlier than the newest cached one keeps the cache sorted, so over adds with a clock that never goes back start times never decrease along the cache |
| OpfsStore.CrossSessionUnsorted | storage-opfs.js:97-123 | a record loaded at 100 followed by a fault-free first add (start 0, budget 600) leaves the cache out of order, which is why the lookup sorts first |
| OpfsStore.Latched | storage-opfs.js:107 | the epoch after the latch: the clock reading when none was set, the stored epoch otherwise |
| OpfsStore.NewRecord | storage-opfs.js:108-114 | the new record: the chunk's id, its file name and its start relative to the latched epoch |
| OpfsStore.Appended | storage-opfs.js:107-116 | the store after the write, the push and the put: the epoch latched, the record appended to the cache, put under its id and its file written |
| OpfsStore.Added | storage-opfs.js:105-119 | the store after a whole add: only the epoch latch when the write fails; the append without a table entry when the put fails; otherwise the append followed by eviction at the record's start less the budget |
| OpfsStore.AddOutcome | storage-opfs.js:113-118 | an add fails with `WriteFailed` or `PutFailed` at the step that throws, and otherwise ends as its eviction does |
| OpfsStore.AddLatchesEpoch | storage-opfs.js:106-108 | the first add sets the epoch, so its record starts at 0; later adds keep it; tStart = now − epoch whatever fails later |
| OpfsStore.AddWriteFailure | storage-opfs.js:113 | a failed write throws before anything but the epoch changes |
| OpfsStore.AddPutFailure | storage-opfs.js:115-116 | a failed put leaves the new record cached and its file written but no table entry, so the store is no longer consistent |
| OpfsStore.NewRecordSurvives | storage-opfs.js:114-118 | with a non-negative budget the new record is still cached after eviction, and is the last record when eviction completes |
| OpfsStore.AddPreservesConsistency | storage-opfs.js:105-119 | an add under a fresh id with every step succeeding completes and keeps a consistent store consistent, and with a non-negative budget the new record is cached |
| OpfsStore.AddStoresRecord | storage-opfs.js:113-118 | after such an add the new id is a table key whose entry is the new record, and its file exists |
| OpfsStore.ConsistentHas | storage-opfs.js:114-116 | a record cached in a consistent store has its table entry and its file |
| OpfsStore.AppendedConsistent | storage-opfs.js:113-116 | writing the file, caching the record and putting its metadata under a fresh id keeps the store consistent |
| OpfsStore.SortKeepsConsistency | storage-opfs.js:123 | sorting the cache keeps the store consistent and makes the cache sorted |
| OpfsStore.Lookup | storage-opfs.js:122-138 | the answer on the cache as getChunkForTime has just sorted it: none for an empty cache or a target out of range, otherwise the payload of the floor query's record, or an error when the read fails or the file is missing |
| OpfsStore.LookupNone | storage-opfs.js:122-129 | the lookup answers "no chunk" exactly when the cache is empty or the target is outside [oldest, newest]; it fails only on a failed read or a missing file |
| OpfsStore.LookupFindsLatest | storage-opfs.js:131-137 | on a consistent sorted cache with the target in range, a successful read returns the file of the record with the greatest start time not after the target |
| OpfsStore.OpfsStorage.constructor | storage-opfs.js:49-97 | the store opens with no epoch and the given table and file area; given getAll's contract (every record of the table, once each and under its own id) the cache is the records loaded sorted, with one record per key: its ids are exactly the table's keys, its length is the table's size, and each cached record is the table's entry |
| OpfsStore.OpfsStorage.WriteFile | storage-opfs.js:60-65 | a successful write stores the payload under the name; a failed one changes nothing |
| OpfsStore.OpfsStorage.ReadFile | storage-opfs.js:67-71 | the read succeeds exactly when the call succeeds and the file exists, and then returns its payload |
| OpfsStore.OpfsStorage.DeleteFile | storage-opfs.js:73-79 | best-effort removal: the name is gone if the call succeeds, a failure is swallowed, and removing an absent file changes nothing |
| OpfsStore.OpfsStorage.PutMeta | storage-opfs.js:22-29 | a successful put stores the record under its id; a failed one reports failure and changes nothing |
| OpfsStore.OpfsStorage.DeleteMeta | storage-opfs.js:31-38 | a successful delete removes the id; a failed one reports failure and changes nothing |
| OpfsStore.OpfsStorage.LoadMeta | storage-opfs.js:81-85 | the cache becomes the sorted records |
| OpfsStore.OpfsStorage.DeleteRecords | storage-opfs.js:90-93 | the loop gets exactly as far as `Processed` says; the table loses the ids it got through; the file area loses the names it tried, including the record whose delete failed, except those whose removal failed |
| OpfsStore.OpfsStorage.TrimOld | storage-opfs.js:87-95 | the new cache, table, file area and outcome are those of the eviction spec `Trimmed`/`TrimOutcome` |
| OpfsStore.OpfsStorage.AddChunk | storage-opfs.js:105-119 | the new state and outcome are those of the add spec `Added`/`AddOutcome` |
| OpfsStore.OpfsStorage.GetChunkForTime | storage-opfs.js:121-139 | the cache becomes its stable sort; the answer is the spec `Lookup` on it |

## Left out

- `app.js` as a whole: DOM, capture, playback polling and back-end selection. Only its two constants appear, in `AppCapacity`.
- The IndexedDB and file-system handle calls (`openMetaDB`, the transaction wrappers, `getFileHandle`, `createWritable`, `removeEntry`). They are browser APIs. The table and the file area are map fields, and each primitive takes its success as a flag.
- OpfsStore.OpfsStorage.constructor: getAllMeta's answer is the `stored` argument, and the constructor requires getAll's contract (the records are exactly the table's, each listed once and under its own id). Nothing ties the records to the file area passed in, as nothing in the JavaScript store checks that, so the consistency lemmas assume a consistent start.
- Construction failure: `getDirectory`, `openMetaDB` and `getAllMeta` (storage-opfs.js:50-51, 82) may reject, and then `createOPFSStorage` throws and the page falls back to the memory store (app.js:66-72). The model's constructor always succeeds.
- `performance.now()` and floating-point time: times are exact reals passed as `now`.
- Random id generation (`Date.now()` plus `Math.random()`): the id is an argument. The lemmas that need a fresh id require it to be absent from the table.
- Concurrency: a lookup interleaved with an in-flight add at an await point is not modelled. Every operation runs to completion.
- Cross-session epochs: records loaded at start-up keep start times from an earlier epoch, and the model does not relate them to the new one. `AddKeepsSorted` needs the new record to start no earlier than the newest cached one, which a loaded record can break: `CrossSessionUnsorted` shows a loaded record at 100 followed by a first add at 0 leaves the cache out of order, which is why the lookup sorts before it scans (storage-opfs.js:123).
- `init()`: it is a no-op in both stores.
- `chunkSeconds` of the OPFS store: it is unused there, so the OPFS constructor does not take it.
- A failed `writeFile` may leave an empty or partial file behind, because the handle is created before the write. The model treats a failed write as changing nothing.
- MemoryStore.MemoryStorage.constructor: it requires `chunkSeconds > 0` and `maxSeconds >= 0`. With a zero chunk length the JavaScript capacity is infinite for a positive budget and NaN for a zero one, and neither ever evicts; for a negative budget it is −Infinity and the shift loop never ends. With a negative budget its shift loop never ends once the array is empty. A negative chunk length gives a negative capacity for a positive budget, so the shift loop never ends, and −0 for a zero budget, so nothing is kept.
- OpfsStore.SortByTimeSorts: it proves the sort is ordered and a permutation, and `SortByTimeOfSorted` proves it is the identity on sorted input. Stability among equal start times in general is not stated.
- OpfsStore.OpfsStorage.DeleteRecords: the eviction loop of `trimOld` is its own method, so `TrimOld` only calls it and then filters the cache.
- OpfsStore.AddPreservesConsistency: the new record's table entry and file are stated separately, in `AddStoresRecord`.
- Returned payloads are the stored byte sequences, not `File` objects.
