/** The persistent chunk store.

    It keeps three things in step: an in-memory cache of chunk records
    `{id, filename, tStart}`, a metadata table keyed by id, and a file area
    mapping file names to payloads.  `addChunk` writes the payload's file,
    caches the record, stores its metadata and then evicts by time; eviction
    removes the file and the metadata of every record that started before the
    cutoff and then filters the cache.  Each browser call that can fail is
    given its outcome by a `Faults` value, so the model covers the partial
    states the JavaScript store leaves behind when a step throws. */
module OpfsStore {
  import opened ChunkOrder

  /** One chunk's metadata record. */
  datatype Meta = Meta(id: string, filename: string, tStart: real)

  datatype Error = WriteFailed | PutFailed | DeleteMetaFailed | ReadFailed

  /** How an operation that may throw ended. */
  datatype Outcome = Done | Failed(error: Error)

  datatype Result<T> = Ok(value: T) | Err(error: Error)

  /** Which browser calls fail during one operation: writing the new file,
      storing the new record, removing these file names, deleting the metadata
      of these ids. */
  datatype Faults = Faults(writeFails: bool, putFails: bool,
                           removeFails: set<string>, deleteFails: set<string>)

  const NoFaults := Faults(false, false, {}, {})

  /** The whole state of the store: the epoch, the cache, the metadata table
      and the file area. */
  datatype Store = Store(startTime: Option<real>, cache: seq<Meta>,
                         db: map<string, Meta>, files: map<string, Blob>)

  /** The name of the file holding chunk `id`. */
  function FileName(id: string): string {
    "chunk-" + id + ".webm"
  }

  /** Distinct ids give distinct file names. */
  lemma FileNameInjective(a: string, b: string)
    requires FileName(a) == FileName(b)
    ensures a == b
  {
    var fa, fb := FileName(a), FileName(b);
    assert a == fa[6..|fa| - 5];
    assert b == fb[6..|fb| - 5];
  }

  /** The start times of the records, in cache order. */
  function StartTimes(s: seq<Meta>): (ts: seq<real>)
    ensures |ts| == |s|
    ensures forall i {:trigger ts[i]} | 0 <= i < |s| :: ts[i] == s[i].tStart
  {
    seq(|s|, i requires 0 <= i < |s| => s[i].tStart)
  }

  function IdSet(s: seq<Meta>): set<string> {
    set x | x in s :: x.id
  }

  function NameSet(s: seq<Meta>): set<string> {
    set x | x in s :: x.filename
  }

  /** The records eviction deletes: those that started before the cutoff, in
      cache order. */
  function Expired(s: seq<Meta>, cutoff: real): (r: seq<Meta>)
    ensures |r| <= |s|
  {
    if s == [] then []
    else (if s[0].tStart < cutoff then [s[0]] else []) + Expired(s[1..], cutoff)
  }

  /** The records eviction keeps: those that started at or after the cutoff, in
      cache order. */
  function Retained(s: seq<Meta>, cutoff: real): (r: seq<Meta>)
    ensures |r| <= |s|
  {
    if s == [] then []
    else (if s[0].tStart >= cutoff then [s[0]] else []) + Retained(s[1..], cutoff)
  }

  /** The expired records are the cached ones that started before the cutoff,
      and the retained records are the other cached ones. */
  lemma {:induction false} FilterMembers(s: seq<Meta>, cutoff: real)
    ensures forall x :: x in Expired(s, cutoff) <==> x in s && x.tStart < cutoff
    ensures forall x :: x in Retained(s, cutoff) <==> x in s && x.tStart >= cutoff
  {
    if s != [] {
      FilterMembers(s[1..], cutoff);
      assert s == [s[0]] + s[1..];
    }
  }

  /** How many records of `s` the eviction loop gets through before the first
      metadata delete that fails. */
  function Processed(s: seq<Meta>, deleteFails: set<string>): (n: nat)
    ensures n <= |s|
    ensures forall j | 0 <= j < n :: s[j].id !in deleteFails
    ensures n < |s| ==> s[n].id in deleteFails
  {
    if s == [] || s[0].id in deleteFails then 0 else 1 + Processed(s[1..], deleteFails)
  }

  /** The table once the metadata of the first `n` records of `s` is deleted. */
  function DeletedDb(db: map<string, Meta>, s: seq<Meta>, n: nat): map<string, Meta>
    requires n <= |s|
  {
    db - IdSet(s[..n])
  }

  /** The file area once the loop has tried to remove the files of the first
      `n` records of `s` and, when it stopped early, of the record whose delete
      failed; the names whose removal failed stay. */
  function DeletedFiles(files: map<string, Blob>, s: seq<Meta>, n: nat, removeFails: set<string>): map<string, Blob>
    requires n <= |s|
  {
    files - (NameSet(s[..if n < |s| then n + 1 else n]) - removeFails)
  }

  /** How far the eviction loop over `cache` gets: the number of expired
      records whose metadata it deletes before a delete fails. */
  function Reached(cache: seq<Meta>, cutoff: real, f: Faults): nat {
    Processed(Expired(cache, cutoff), f.deleteFails)
  }

  /** How eviction ends: it throws at the first failed metadata delete. */
  function TrimOutcome(cache: seq<Meta>, cutoff: real, f: Faults): Outcome {
    if Reached(cache, cutoff, f) == |Expired(cache, cutoff)| then Done else Failed(DeleteMetaFailed)
  }

  /** The cache after eviction: filtered only when the loop got through. */
  function TrimmedCache(cache: seq<Meta>, cutoff: real, f: Faults): seq<Meta> {
    if Reached(cache, cutoff, f) == |Expired(cache, cutoff)| then Retained(cache, cutoff) else cache
  }

  /** The table after eviction: the expired records the loop reached are gone. */
  function TrimmedDb(cache: seq<Meta>, db: map<string, Meta>, cutoff: real, f: Faults): map<string, Meta> {
    DeletedDb(db, Expired(cache, cutoff), Reached(cache, cutoff, f))
  }

  /** The file area after eviction: the files of the expired records the loop
      reached, and of the one whose delete failed, are gone unless their own
      removal failed. */
  function TrimmedFiles(cache: seq<Meta>, files: map<string, Blob>, cutoff: real, f: Faults): map<string, Blob> {
    DeletedFiles(files, Expired(cache, cutoff), Reached(cache, cutoff, f), f.removeFails)
  }

  /** The store after time-based eviction with cutoff `cutoff`: every expired
      record has its file removed (a failed remove is ignored) and then its
      metadata deleted, the first failed delete aborting before the cache is
      filtered.  The epoch is untouched. */
  function Trimmed(st: Store, cutoff: real, f: Faults): Store {
    Store(st.startTime, TrimmedCache(st.cache, cutoff, f),
          TrimmedDb(st.cache, st.db, cutoff, f), TrimmedFiles(st.cache, st.files, cutoff, f))
  }

  /** The epoch once `addChunk` has run at clock time `now`: the first call sets
      it, later calls keep it. */
  function Latched(st: Store, now: real): real {
    if st.startTime.None? then now else st.startTime.value
  }

  /** The record `addChunk` creates for id `id` at clock time `now`. */
  function NewRecord(st: Store, now: real, id: string): Meta {
    Meta(id, FileName(id), now - Latched(st, now))
  }

  /** The store once `addChunk` has written the file, cached the record and
      stored its metadata, just before it evicts. */
  function Appended(st: Store, blob: Blob, now: real, id: string): Store {
    var rec := NewRecord(st, now, id);
    Store(Some(Latched(st, now)), st.cache + [rec], st.db[id := rec], st.files[rec.filename := blob])
  }

  /** The store after `addChunk`: latch the epoch, write the file, cache the
      record, store its metadata, evict what started more than `maxSeconds`
      before it.  A failed step ends the operation where it stands. */
  function Added(st: Store, maxSeconds: real, blob: Blob, now: real, id: string, f: Faults): Store {
    if f.writeFails then st.(startTime := Some(Latched(st, now)))
    else if f.putFails then Appended(st, blob, now, id).(db := st.db)
    else Trimmed(Appended(st, blob, now, id), NewRecord(st, now, id).tStart - maxSeconds, f)
  }

  /** How `addChunk` ends: the first step that throws, or eviction's outcome. */
  function AddOutcome(st: Store, maxSeconds: real, now: real, id: string, f: Faults): Outcome {
    var rec := NewRecord(st, now, id);
    if f.writeFails then Failed(WriteFailed)
    else if f.putFails then Failed(PutFailed)
    else TrimOutcome(st.cache + [rec], rec.tStart - maxSeconds, f)
  }

  /** The cache, the metadata table and the file area describe the same chunks:
      the cached ids are the table's keys, the cached file names are the file
      area's names, and each cached record is the table's entry for its id and
      names its file after its id. */
  predicate Consistent(st: Store) {
    && IdSet(st.cache) == st.db.Keys
    && NameSet(st.cache) == st.files.Keys
    && forall x | x in st.cache :: x.id in st.db && st.db[x.id] == x && x.filename == FileName(x.id)
  }

  // ---------------------------------------------------------------------------
  // Stable sort by start time
  // ---------------------------------------------------------------------------

  /** Puts `x` into the sorted `s` after every record that does not start later. */
  function InsertByTime(s: seq<Meta>, x: Meta): (r: seq<Meta>)
    ensures |r| == |s| + 1
  {
    if s == [] || s[|s| - 1].tStart <= x.tStart then s + [x]
    else InsertByTime(s[..|s| - 1], x) + [s[|s| - 1]]
  }

  /** Insertion adds `x` and loses nothing. */
  lemma {:induction false} InsertByTimeMultiset(s: seq<Meta>, x: Meta)
    ensures multiset(InsertByTime(s, x)) == multiset(s) + multiset{x}
  {
    if s != [] && s[|s| - 1].tStart > x.tStart {
      assert s == s[..|s| - 1] + [s[|s| - 1]];
      InsertByTimeMultiset(s[..|s| - 1], x);
    }
  }

  /** The cache sorted by start time, records with equal times keeping their
      order (`Array.prototype.sort` is stable). */
  function SortByTime(s: seq<Meta>): (r: seq<Meta>)
    ensures |r| == |s|
  {
    if s == [] then [] else InsertByTime(SortByTime(s[..|s| - 1]), s[|s| - 1])
  }

  /** Insertion brings in no record later than a bound that `s` and `x` respect. */
  lemma {:induction false} InsertBounded(s: seq<Meta>, x: Meta, b: real)
    requires forall i | 0 <= i < |s| :: s[i].tStart <= b
    requires x.tStart <= b
    ensures forall i | 0 <= i < |InsertByTime(s, x)| :: InsertByTime(s, x)[i].tStart <= b
  {
    if s != [] && s[|s| - 1].tStart > x.tStart {
      InsertBounded(s[..|s| - 1], x, b);
    }
  }

  /** Inserting into a sorted cache keeps it sorted. */
  lemma {:induction false} InsertSorted(s: seq<Meta>, x: Meta)
    requires Sorted(StartTimes(s))
    ensures Sorted(StartTimes(InsertByTime(s, x)))
  {
    if s == [] || s[|s| - 1].tStart <= x.tStart {
      assert s != [] ==> StartTimes(s)[|s| - 1] == s[|s| - 1].tStart;
      assert StartTimes(s + [x]) == StartTimes(s) + [x.tStart];
    } else {
      var init, last := s[..|s| - 1], s[|s| - 1];
      assert StartTimes(init) == StartTimes(s)[..|s| - 1];
      InsertSorted(init, x);
      forall i | 0 <= i < |init|
        ensures init[i].tStart <= last.tStart
      {
        assert StartTimes(s)[i] <= StartTimes(s)[|s| - 1];
      }
      InsertBounded(init, x, last.tStart);
      var r := InsertByTime(init, x);
      assert StartTimes(r + [last]) == StartTimes(r) + [last.tStart];
    }
  }

  /** The sort's result is ordered by start time and holds exactly the records
      it was given. */
  lemma {:induction false} SortByTimeSorts(s: seq<Meta>)
    ensures Sorted(StartTimes(SortByTime(s)))
    ensures multiset(SortByTime(s)) == multiset(s)
  {
    if s != [] {
      SortByTimeSorts(s[..|s| - 1]);
      InsertSorted(SortByTime(s[..|s| - 1]), s[|s| - 1]);
      InsertByTimeMultiset(SortByTime(s[..|s| - 1]), s[|s| - 1]);
      assert s == s[..|s| - 1] + [s[|s| - 1]];
    }
  }

  /** In a sorted cache no record starts later than any record after it. */
  lemma SortedOrder(s: seq<Meta>)
    requires Sorted(StartTimes(s))
    ensures forall i, j | 0 <= i < j < |s| :: s[i].tStart <= s[j].tStart
  {
    forall i, j | 0 <= i < j < |s|
      ensures s[i].tStart <= s[j].tStart
    {
      assert StartTimes(s)[i] <= StartTimes(s)[j];
    }
  }

  /** The sort leaves an already sorted cache as it is. */
  lemma {:induction false} SortByTimeOfSorted(s: seq<Meta>)
    requires Sorted(StartTimes(s))
    ensures SortByTime(s) == s
  {
    if s != [] {
      var init, last := s[..|s| - 1], s[|s| - 1];
      assert StartTimes(init) == StartTimes(s)[..|s| - 1];
      SortByTimeOfSorted(init);
      if |s| > 1 {
        SortedOrder(s);
        assert init[|init| - 1].tStart <= last.tStart;
      }
      assert s == init + [last];
    }
  }

  // ---------------------------------------------------------------------------
  // Eviction by time
  // ---------------------------------------------------------------------------

  /** When nothing is before the cutoff, eviction keeps everything. */
  lemma {:induction false} RetainedAll(s: seq<Meta>, cutoff: real)
    requires forall i | 0 <= i < |s| :: s[i].tStart >= cutoff
    ensures Retained(s, cutoff) == s
    ensures Expired(s, cutoff) == []
  {
    if s != [] {
      RetainedAll(s[1..], cutoff);
    }
  }

  /** On a sorted cache eviction drops a prefix: the expired records followed
      by the retained ones are the cache itself. */
  lemma {:induction false} SortedTrimDropsPrefix(s: seq<Meta>, cutoff: real)
    requires Sorted(StartTimes(s))
    ensures s == Expired(s, cutoff) + Retained(s, cutoff)
  {
    if s != [] {
      if s[0].tStart < cutoff {
        assert StartTimes(s[1..]) == StartTimes(s)[1..];
        SortedTrimDropsPrefix(s[1..], cutoff);
      } else {
        SortedOrder(s);
        RetainedAll(s, cutoff);
      }
    }
  }

  /** Eviction keeps a sorted cache sorted. */
  lemma RetainedSorted(s: seq<Meta>, cutoff: real)
    requires Sorted(StartTimes(s))
    ensures Sorted(StartTimes(Retained(s, cutoff)))
  {
    SortedTrimDropsPrefix(s, cutoff);
    var d := |Expired(s, cutoff)|;
    assert StartTimes(Retained(s, cutoff)) == StartTimes(s)[d..];
  }

  /** A record appended to the cache is retained, last, exactly when it is not
      before the cutoff; the earlier records are filtered as before. */
  lemma {:induction false} RetainedAppend(s: seq<Meta>, x: Meta, cutoff: real)
    ensures Retained(s + [x], cutoff) == Retained(s, cutoff) + (if x.tStart >= cutoff then [x] else [])
  {
    var tail := if x.tStart >= cutoff then [x] else [];
    if s == [] {
      assert [x][1..] == [];
    } else {
      var head := if s[0].tStart >= cutoff then [s[0]] else [];
      calc {
        Retained(s + [x], cutoff);
        { assert (s + [x])[0] == s[0]; assert (s + [x])[1..] == s[1..] + [x]; }
        head + Retained(s[1..] + [x], cutoff);
        { RetainedAppend(s[1..], x, cutoff); }
        head + (Retained(s[1..], cutoff) + tail);
        (head + Retained(s[1..], cutoff)) + tail;
      }
    }
  }

  /** The worked example: 4 s of retention, records at 0, 1, 2, 3 and 5, the last
      one just added, so the cutoff is 1: the record at 0 goes, the rest stay
      in order. */
  lemma TrimExample(a: Meta, b: Meta, c: Meta, d: Meta, e: Meta)
    requires a.tStart == 0.0 && b.tStart == 1.0 && c.tStart == 2.0 && d.tStart == 3.0 && e.tStart == 5.0
    ensures Expired([a, b, c, d, e], e.tStart - 4.0) == [a]
    ensures Retained([a, b, c, d, e], e.tStart - 4.0) == [b, c, d, e]
  {
    var s := [a, b, c, d, e];
    RetainedAll(s[1..], 1.0);
    assert s[1..] == [b, c, d, e];
  }

  /** Eviction completes exactly when no expired record's metadata delete
      fails, and only then is the cache filtered. */
  lemma TrimCompletes(cache: seq<Meta>, cutoff: real, f: Faults)
    ensures TrimOutcome(cache, cutoff, f).Done? <==>
              forall x | x in Expired(cache, cutoff) :: x.id !in f.deleteFails
    ensures TrimmedCache(cache, cutoff, f) ==
              if TrimOutcome(cache, cutoff, f).Done? then Retained(cache, cutoff) else cache
    ensures TrimOutcome(cache, cutoff, f).Done? ==>
              forall x :: x in TrimmedCache(cache, cutoff, f) <==> x in cache && x.tStart >= cutoff
  {
    FilterMembers(cache, cutoff);
    var gone := Expired(cache, cutoff);
    var k := Processed(gone, f.deleteFails);
    if k < |gone| {
      assert gone[k] in gone;
    } else {
      forall x | x in gone
        ensures x.id !in f.deleteFails
      {
        var j :| 0 <= j < |gone| && gone[j] == x;
      }
    }
  }

  /** When eviction completes, every record that started before the cutoff has
      lost its metadata and, unless its remove failed, its file. */
  lemma TrimRemovesExpired(cache: seq<Meta>, db: map<string, Meta>, files: map<string, Blob>,
                           cutoff: real, f: Faults)
    requires TrimOutcome(cache, cutoff, f).Done?
    ensures forall x | x in cache && x.tStart < cutoff ::
              && x.id !in TrimmedDb(cache, db, cutoff, f)
              && (x.filename in f.removeFails || x.filename !in TrimmedFiles(cache, files, cutoff, f))
  {
    var gone := Expired(cache, cutoff);
    FilterMembers(cache, cutoff);
    assert gone[..|gone|] == gone;
    forall x | x in cache && x.tStart < cutoff
      ensures x.id in IdSet(gone) && x.filename in NameSet(gone)
    {
      assert x in gone;
    }
  }

  /** Whatever fails, eviction takes metadata and files only from expired
      records: every other key and name keeps its entry. */
  lemma TrimKeepsOthers(cache: seq<Meta>, db: map<string, Meta>, files: map<string, Blob>,
                        cutoff: real, f: Faults)
    ensures forall k | k in db && k !in IdSet(Expired(cache, cutoff)) ::
              k in TrimmedDb(cache, db, cutoff, f) && TrimmedDb(cache, db, cutoff, f)[k] == db[k]
    ensures forall n | n in files && n !in NameSet(Expired(cache, cutoff)) ::
              n in TrimmedFiles(cache, files, cutoff, f) && TrimmedFiles(cache, files, cutoff, f)[n] == files[n]
  {
    var gone := Expired(cache, cutoff);
    var k := Reached(cache, cutoff, f);
    assert IdSet(gone[..k]) <= IdSet(gone);
    var m := if k < |gone| then k + 1 else k;
    assert NameSet(gone[..m]) <= NameSet(gone);
  }

  /** Two cached records of a consistent store with the same id, or the same
      file name, are the same record. */
  lemma SameIdSameRecord(st: Store, x: Meta, y: Meta)
    requires Consistent(st)
    requires x in st.cache && y in st.cache
    ensures x.id == y.id || x.filename == y.filename ==> x == y
  {
    if x.filename == y.filename {
      FileNameInjective(x.id, y.id);
    }
  }

  /** In a consistent store no retained record shares its id or its file name
      with an expired one. */
  lemma KeptApartFromGone(st: Store, cutoff: real)
    requires Consistent(st)
    ensures forall x | x in Retained(st.cache, cutoff) ::
              x.id !in IdSet(Expired(st.cache, cutoff)) && x.filename !in NameSet(Expired(st.cache, cutoff))
  {
    var gone := Expired(st.cache, cutoff);
    FilterMembers(st.cache, cutoff);
    forall x, y | x in Retained(st.cache, cutoff) && y in gone
      ensures x.id != y.id && x.filename != y.filename
    {
      SameIdSameRecord(st, x, y);
    }
  }

  /** Eviction without failures completes and keeps the cache, the table and
      the file area consistent with one another. */
  lemma TrimPreservesConsistency(st: Store, cutoff: real)
    requires Consistent(st)
    ensures TrimOutcome(st.cache, cutoff, NoFaults) == Done
    ensures Consistent(Trimmed(st, cutoff, NoFaults))
  {
    var gone := Expired(st.cache, cutoff);
    var kept := Retained(st.cache, cutoff);
    assert gone[..|gone|] == gone;
    assert NameSet(gone) - NoFaults.removeFails == NameSet(gone);
    var db', files' := st.db - IdSet(gone), st.files - NameSet(gone);
    assert Trimmed(st, cutoff, NoFaults) == Store(st.startTime, kept, db', files');
    FilterMembers(st.cache, cutoff);
    KeptApartFromGone(st, cutoff);
    forall i | i in db'
      ensures i in IdSet(kept)
    {
      var x :| x in st.cache && x.id == i;
      assert x !in gone;
    }
    forall n | n in files'
      ensures n in NameSet(kept)
    {
      var x :| x in st.cache && x.filename == n;
      assert x !in gone;
    }
    assert IdSet(kept) == db'.Keys;
    assert NameSet(kept) == files'.Keys;
  }

  /** With a sorted cache eviction keeps the cache sorted, whatever fails. */
  lemma TrimKeepsSorted(cache: seq<Meta>, cutoff: real, f: Faults)
    requires Sorted(StartTimes(cache))
    ensures Sorted(StartTimes(TrimmedCache(cache, cutoff, f)))
  {
    RetainedSorted(cache, cutoff);
  }

  // ---------------------------------------------------------------------------
  // Adding a chunk
  // ---------------------------------------------------------------------------

  /** The first add latches the epoch at its clock reading, so its record starts
      at 0; later adds keep the epoch; every record's start is measured from the
      epoch, whether or not the rest of the add succeeds. */
  lemma AddLatchesEpoch(st: Store, maxSeconds: real, blob: Blob, now: real, id: string, f: Faults)
    ensures Added(st, maxSeconds, blob, now, id, f).startTime ==
              if st.startTime.None? then Some(now) else st.startTime
    ensures NewRecord(st, now, id).tStart ==
              now - Added(st, maxSeconds, blob, now, id, f).startTime.value
    ensures st.startTime.None? ==> NewRecord(st, now, id).tStart == 0.0
  {
  }

  /** A failed write leaves the cache, the table and the file area as they were. */
  lemma AddWriteFailure(st: Store, maxSeconds: real, blob: Blob, now: real, id: string, f: Faults)
    requires f.writeFails
    ensures AddOutcome(st, maxSeconds, now, id, f) == Failed(WriteFailed)
    ensures Added(st, maxSeconds, blob, now, id, f).cache == st.cache
    ensures Added(st, maxSeconds, blob, now, id, f).db == st.db
    ensures Added(st, maxSeconds, blob, now, id, f).files == st.files
  {
  }

  /** A failed metadata put comes after the record was cached and its file
      written, so the store is left with a cached record the table lacks. */
  lemma AddPutFailure(st: Store, maxSeconds: real, blob: Blob, now: real, id: string, f: Faults)
    requires !f.writeFails && f.putFails
    requires id !in st.db
    ensures AddOutcome(st, maxSeconds, now, id, f) == Failed(PutFailed)
    ensures Added(st, maxSeconds, blob, now, id, f).cache == st.cache + [NewRecord(st, now, id)]
    ensures Added(st, maxSeconds, blob, now, id, f).files == st.files[FileName(id) := blob]
    ensures id !in Added(st, maxSeconds, blob, now, id, f).db
    ensures !Consistent(Added(st, maxSeconds, blob, now, id, f))
  {
    var st' := Added(st, maxSeconds, blob, now, id, f);
    assert NewRecord(st, now, id) in st'.cache;
  }

  /** Once its file is written and its metadata stored, the new record stays in
      the cache whatever eviction does when the retention budget is not
      negative, and when eviction then completes it is the cache's last record. */
  lemma NewRecordSurvives(st: Store, maxSeconds: real, blob: Blob, now: real, id: string, f: Faults)
    requires !f.writeFails && !f.putFails
    ensures maxSeconds >= 0.0 ==> NewRecord(st, now, id) in Added(st, maxSeconds, blob, now, id, f).cache
    ensures maxSeconds >= 0.0 && AddOutcome(st, maxSeconds, now, id, f).Done? ==>
              var c := Added(st, maxSeconds, blob, now, id, f).cache;
              c[|c| - 1] == NewRecord(st, now, id)
  {
    var rec := NewRecord(st, now, id);
    var cutoff := rec.tStart - maxSeconds;
    var c := st.cache + [rec];
    assert Added(st, maxSeconds, blob, now, id, f).cache == TrimmedCache(c, cutoff, f);
    RetainedAppend(st.cache, rec, cutoff);
  }

  /** Pushing a record that starts no earlier than the newest cached one keeps
      the cache sorted. */
  lemma AppendKeepsSorted(s: seq<Meta>, x: Meta)
    requires Sorted(StartTimes(s))
    requires s != [] ==> s[|s| - 1].tStart <= x.tStart
    ensures Sorted(StartTimes(s + [x]))
  {
    var ts := StartTimes(s + [x]);
    assert ts == StartTimes(s) + [x.tStart];
    forall i, j | 0 <= i < j < |ts|
      ensures ts[i] <= ts[j]
    {
      if j == |s| && i < |s| {
        assert StartTimes(s)[i] <= StartTimes(s)[|s| - 1];
      }
    }
  }

  /** An add whose record starts no earlier than the newest cached one keeps
      the cache sorted, whatever fails: the push keeps it sorted and eviction
      does too.  Chained over a sequence of adds with a clock that never goes
      back, start times never decrease along the cache. */
  lemma AddKeepsSorted(st: Store, maxSeconds: real, blob: Blob, now: real, id: string, f: Faults)
    requires Sorted(StartTimes(st.cache))
    requires st.cache != [] ==> st.cache[|st.cache| - 1].tStart <= NewRecord(st, now, id).tStart
    ensures Sorted(StartTimes(Added(st, maxSeconds, blob, now, id, f).cache))
  {
    var rec := NewRecord(st, now, id);
    AppendKeepsSorted(st.cache, rec);
    TrimKeepsSorted(st.cache + [rec], rec.tStart - maxSeconds, f);
  }

  /** Records loaded from an earlier session keep that session's start times,
      while the first add of a new session starts at 0: a record loaded at 100
      followed by a first add with a 600 s budget leaves the cache out of
      order, which is why the lookup sorts before it scans. */
  lemma CrossSessionUnsorted(loaded: Meta, blob: Blob, now: real, id: string)
    requires loaded.tStart == 100.0
    ensures !Sorted(StartTimes(Added(Store(None, [loaded], map[], map[]), 600.0, blob, now, id, NoFaults).cache))
  {
    var st := Store(None, [loaded], map[], map[]);
    var rec := NewRecord(st, now, id);
    var c := st.cache + [rec];
    assert rec.tStart == 0.0;
    RetainedAll(c, -600.0);
    assert Processed(Expired(c, -600.0), NoFaults.deleteFails) == 0;
    assert TrimmedCache(c, -600.0, NoFaults) == c;
    assert Added(st, 600.0, blob, now, id, NoFaults).cache == c;
    assert StartTimes(c)[0] > StartTimes(c)[1];
  }

  /** Adding a chunk under a fresh id with every step succeeding keeps a
      consistent store consistent, with the new record cached (so, by
      ConsistentHas, with its table entry and its file). */
  lemma AddPreservesConsistency(st: Store, maxSeconds: real, blob: Blob, now: real, id: string)
    requires Consistent(st)
    requires id !in st.db
    ensures AddOutcome(st, maxSeconds, now, id, NoFaults) == Done
    ensures Consistent(Added(st, maxSeconds, blob, now, id, NoFaults))
    ensures maxSeconds >= 0.0 ==> NewRecord(st, now, id) in Added(st, maxSeconds, blob, now, id, NoFaults).cache
  {
    var rec := NewRecord(st, now, id);
    AppendedConsistent(st, blob, now, id);
    TrimPreservesConsistency(Appended(st, blob, now, id), rec.tStart - maxSeconds);
    NewRecordSurvives(st, maxSeconds, blob, now, id, NoFaults);
  }

  /** After a successful add under a fresh id the new record's id is a key of
      the table and its file exists. */
  lemma AddStoresRecord(st: Store, maxSeconds: real, blob: Blob, now: real, id: string)
    requires Consistent(st)
    requires id !in st.db
    requires maxSeconds >= 0.0
    ensures id in Added(st, maxSeconds, blob, now, id, NoFaults).db
    ensures Added(st, maxSeconds, blob, now, id, NoFaults).db[id] == NewRecord(st, now, id)
    ensures FileName(id) in Added(st, maxSeconds, blob, now, id, NoFaults).files
  {
    AddPreservesConsistency(st, maxSeconds, blob, now, id);
    ConsistentHas(Added(st, maxSeconds, blob, now, id, NoFaults), NewRecord(st, now, id));
  }

  /** A record cached in a consistent store has its table entry and its file. */
  lemma ConsistentHas(st: Store, x: Meta)
    requires Consistent(st) && x in st.cache
    ensures x.id in st.db && st.db[x.id] == x && x.filename in st.files
  {
    assert x.filename in NameSet(st.cache);
  }

  /** Caching a record under a fresh id, with its table entry and its file,
      keeps a consistent store consistent. */
  lemma AppendedConsistent(st: Store, blob: Blob, now: real, id: string)
    requires Consistent(st)
    requires id !in st.db
    ensures Consistent(Appended(st, blob, now, id))
  {
    var rec := NewRecord(st, now, id);
    var c := st.cache + [rec];
    assert IdSet(c) == IdSet(st.cache) + {rec.id};
    assert NameSet(c) == NameSet(st.cache) + {rec.filename};
  }

  // ---------------------------------------------------------------------------
  // Lookup
  // ---------------------------------------------------------------------------

  /** Reads the file of the record the floor query picks in `cache`. */
  function Lookup(cache: seq<Meta>, files: map<string, Blob>, target: real, readSucceeds: bool)
    : Result<Option<Blob>>
  {
    match Floor(StartTimes(cache), target)
    case None => Ok(None)
    case Some(k) =>
      if readSucceeds && cache[k].filename in files then Ok(Some(files[cache[k].filename]))
      else Err(ReadFailed)
  }

  /** Sorting does not change what is cached, so a consistent store stays
      consistent and its cache becomes ordered by start time. */
  lemma SortKeepsConsistency(st: Store)
    requires Consistent(st)
    ensures Consistent(st.(cache := SortByTime(st.cache)))
    ensures Sorted(StartTimes(SortByTime(st.cache)))
  {
    SortByTimeSorts(st.cache);
    var s := SortByTime(st.cache);
    assert forall x :: x in s <==> x in st.cache by {
      forall x ensures x in s <==> x in st.cache {
        assert x in s <==> x in multiset(s);
      }
    }
    assert IdSet(s) == IdSet(st.cache);
    assert NameSet(s) == NameSet(st.cache);
  }

  /** Loading the records a table's getAll answers (each record stored under its
      own id, and exactly the table's records, each once) gives a sorted cache
      holding one record per key: its ids are the table's keys, its length is
      the table's size, and its records are the table's entries. */
  lemma LoadedMatchesTable(db: map<string, Meta>, stored: seq<Meta>)
    requires forall k | k in db :: db[k].id == k
    requires forall x :: x in stored <==> x.id in db && db[x.id] == x
    requires |stored| == |db|
    ensures Sorted(StartTimes(SortByTime(stored)))
    ensures |SortByTime(stored)| == |db|
    ensures IdSet(SortByTime(stored)) == db.Keys
    ensures forall x | x in SortByTime(stored) :: x.id in db && db[x.id] == x
  {
    SortByTimeSorts(stored);
    var s := SortByTime(stored);
    assert forall x :: x in s <==> x in stored by {
      forall x ensures x in s <==> x in stored {
        assert x in s <==> x in multiset(s);
      }
    }
    forall k | k in db
      ensures k in IdSet(s)
    {
      assert db[k] in s;
    }
  }

  /** The lookup answers "no chunk" exactly when the cache is empty or the
      target lies outside [oldest, newest]; otherwise it fails only when the
      read fails or the chosen record's file is missing. */
  lemma LookupNone(cache: seq<Meta>, files: map<string, Blob>, target: real, readSucceeds: bool)
    ensures Lookup(cache, files, target, readSucceeds) == Ok(None) <==>
              cache == [] || target < cache[0].tStart || target > cache[|cache| - 1].tStart
    ensures Lookup(cache, files, target, readSucceeds).Err? ==>
              !readSucceeds || cache[Floor(StartTimes(cache), target).value].filename !in files
  {
    var ts := StartTimes(cache);
    if cache != [] {
      assert ts[0] == cache[0].tStart && ts[|ts| - 1] == cache[|cache| - 1].tStart;
    }
  }

  /** On a consistent store whose range holds the target, a successful read
      returns the payload of the record with the greatest start time not after
      the target, ties going to the later record: the scan never picks a record
      whose file is missing. */
  lemma LookupFindsLatest(st: Store, target: real)
    requires Consistent(st)
    requires Sorted(StartTimes(st.cache))
    requires st.cache != [] && st.cache[0].tStart <= target <= st.cache[|st.cache| - 1].tStart
    ensures Floor(StartTimes(st.cache), target).Some?
    ensures
      var k := Floor(StartTimes(st.cache), target).value;
      && st.cache[k].tStart <= target
      && (forall i | 0 <= i < |st.cache| && st.cache[i].tStart <= target :: i <= k)
      && Lookup(st.cache, st.files, target, true) == Ok(Some(st.files[st.cache[k].filename]))
  {
    var ts := StartTimes(st.cache);
    FloorIsLastAtMost(ts, target);
    var k := Floor(ts, target).value;
    assert ts[k] == st.cache[k].tStart;
    forall i | 0 <= i < |st.cache| && st.cache[i].tStart <= target
      ensures i <= k
    {
      assert ts[i] == st.cache[i].tStart;
    }
    assert st.cache[k] in st.cache;
    assert st.cache[k].filename in NameSet(st.cache);
  }

  /** The ids and names of one more record of `s`. */
  lemma PrefixSetsStep(s: seq<Meta>, i: nat)
    requires i < |s|
    ensures IdSet(s[..i + 1]) == IdSet(s[..i]) + {s[i].id}
    ensures NameSet(s[..i + 1]) == NameSet(s[..i]) + {s[i].filename}
  {
    assert s[..i + 1] == s[..i] + [s[i]];
  }

  /** The eviction loop, at its `i`th record, goes on past it exactly when its
      delete succeeds. */
  lemma ProcessedStep(s: seq<Meta>, deleteFails: set<string>, i: nat)
    requires i <= Processed(s, deleteFails) && i < |s|
    ensures s[i].id !in deleteFails ==> i + 1 <= Processed(s, deleteFails)
    ensures s[i].id in deleteFails ==> i == Processed(s, deleteFails)
  {
  }

  /** One more best-effort removal, of `k`, from a map that has lost the keys in
      `a` other than those whose removal failed. */
  lemma RemoveStep<V>(m: map<string, V>, a: set<string>, failing: set<string>, k: string)
    ensures (if k !in failing then (m - (a - failing)) - {k} else m - (a - failing))
            == m - ((a + {k}) - failing)
  {
    if k in failing {
      assert (a + {k}) - failing == a - failing;
    } else {
      assert (a + {k}) - failing == (a - failing) + {k};
    }
  }

  /** The store as a class: the epoch and the cache are its fields, and so are
      the metadata table and the file area, which stand for the browser's
      IndexedDB object store and its private file system. */
  class OpfsStorage {
    const maxSeconds: real
    var startTime: Option<real>
    var metaCache: seq<Meta>
    var db: map<string, Meta>
    var files: map<string, Blob>

    function State(): Store
      reads this
    {
      Store(startTime, metaCache, db, files)
    }

    /** Opens the store over an existing table and file area; `stored` is what
        the table's getAll answers (every record the table holds, once each
        and under its own id), which is loaded sorted into the cache. */
    constructor (maxSeconds: real, db0: map<string, Meta>, files0: map<string, Blob>, stored: seq<Meta>)
      requires forall k | k in db0 :: db0[k].id == k
      requires forall x :: x in stored <==> x.id in db0 && db0[x.id] == x
      requires |stored| == |db0|
      ensures this.maxSeconds == maxSeconds
      ensures State() == Store(None, SortByTime(stored), db0, files0)
      ensures Sorted(StartTimes(metaCache))
      ensures IdSet(metaCache) == db0.Keys && |metaCache| == |db0|
      ensures forall x | x in metaCache :: x.id in db0 && db0[x.id] == x
    {
      this.maxSeconds := maxSeconds;
      startTime := None;
      metaCache := [];
      db := db0;
      files := files0;
      new;
      LoadMeta(stored);
      LoadedMatchesTable(db0, stored);
    }

    /** The file-area primitives and the metadata-table primitives; each
        `succeeds` flag says whether the browser call completes. */
    method WriteFile(filename: string, blob: Blob, succeeds: bool) returns (ok: bool)
      modifies this`files
      ensures ok == succeeds
      ensures files == if succeeds then old(files)[filename := blob] else old(files)
    {
      ok := succeeds;
      if succeeds {
        files := files[filename := blob];
      }
    }

    method ReadFile(filename: string, succeeds: bool) returns (r: Result<Blob>)
      ensures r.Ok? <==> succeeds && filename in files
      ensures r.Ok? ==> r.value == files[filename]
      ensures r.Err? ==> r.error == ReadFailed
    {
      if succeeds && filename in files {
        r := Ok(files[filename]);
      } else {
        r := Err(ReadFailed);
      }
    }

    /** Best-effort removal: a failure, or a file that is not there, is ignored. */
    method DeleteFile(filename: string, removeSucceeds: bool)
      modifies this`files
      ensures files == if removeSucceeds then old(files) - {filename} else old(files)
      ensures filename !in old(files) ==> files == old(files)
    {
      if removeSucceeds {
        files := files - {filename};
      }
    }

    method PutMeta(rec: Meta, succeeds: bool) returns (ok: bool)
      modifies this`db
      ensures ok == succeeds
      ensures db == if succeeds then old(db)[rec.id := rec] else old(db)
    {
      ok := succeeds;
      if succeeds {
        db := db[rec.id := rec];
      }
    }

    method DeleteMeta(id: string, succeeds: bool) returns (ok: bool)
      modifies this`db
      ensures ok == succeeds
      ensures db == if succeeds then old(db) - {id} else old(db)
    {
      ok := succeeds;
      if succeeds {
        db := db - {id};
      }
    }

    method LoadMeta(records: seq<Meta>)
      modifies this`metaCache
      ensures metaCache == SortByTime(records)
    {
      metaCache := SortByTime(records);
    }

    /** The eviction loop: removes each record's file (best effort) and then its
        metadata, stopping at the first metadata delete that fails; answers how
        many records it got through. */
    method DeleteRecords(toDelete: seq<Meta>, f: Faults) returns (reached: nat)
      modifies this`db, this`files
      ensures reached == Processed(toDelete, f.deleteFails)
      ensures db == DeletedDb(old(db), toDelete, reached)
      ensures files == DeletedFiles(old(files), toDelete, reached, f.removeFails)
    {
      ghost var k := Processed(toDelete, f.deleteFails);
      var i := 0;
      while i < |toDelete|
        invariant i <= k
        invariant db == old(db) - IdSet(toDelete[..i])
        invariant files == old(files) - (NameSet(toDelete[..i]) - f.removeFails)
      {
        var rec := toDelete[i];
        PrefixSetsStep(toDelete, i);
        DeleteFile(rec.filename, rec.filename !in f.removeFails);
        RemoveStep(old(files), NameSet(toDelete[..i]), f.removeFails, rec.filename);
        var ok := DeleteMeta(rec.id, rec.id !in f.deleteFails);
        ProcessedStep(toDelete, f.deleteFails, i);
        if !ok {
          return i;
        }
        RemoveStep(old(db), IdSet(toDelete[..i]), {}, rec.id);
        i := i + 1;
      }
      assert toDelete[..i] == toDelete;
      reached := i;
    }

    /** Time-based eviction relative to `nowSec`: the expired records go
        through the eviction loop and, if it gets through, the cache keeps the
        rest. */
    method TrimOld(nowSec: real, f: Faults) returns (out: Outcome)
      modifies this`metaCache, this`db, this`files
      ensures metaCache == TrimmedCache(old(metaCache), nowSec - maxSeconds, f)
      ensures db == TrimmedDb(old(metaCache), old(db), nowSec - maxSeconds, f)
      ensures files == TrimmedFiles(old(metaCache), old(files), nowSec - maxSeconds, f)
      ensures out == TrimOutcome(old(metaCache), nowSec - maxSeconds, f)
      ensures State() == Trimmed(old(State()), nowSec - maxSeconds, f)
    {
      var cutoff := nowSec - maxSeconds;
      var toDelete := Expired(metaCache, cutoff);
      var reached := DeleteRecords(toDelete, f);
      if reached < |toDelete| {
        return Failed(DeleteMetaFailed);
      }
      metaCache := Retained(metaCache, cutoff);
      out := Done;
    }

    /** Stores one chunk read at clock time `now` under the id `id`. */
    method AddChunk(blob: Blob, now: real, id: string, f: Faults) returns (out: Outcome)
      modifies this`startTime, this`metaCache, this`db, this`files
      ensures State() == Added(old(State()), maxSeconds, blob, now, id, f)
      ensures out == AddOutcome(old(State()), maxSeconds, now, id, f)
    {
      if startTime.None? {
        startTime := Some(now);
      }
      var tStart := now - startTime.value;
      var filename := FileName(id);
      var written := WriteFile(filename, blob, !f.writeFails);
      if !written {
        return Failed(WriteFailed);
      }
      var rec := Meta(id, filename, tStart);
      metaCache := metaCache + [rec];
      var stored := PutMeta(rec, !f.putFails);
      if !stored {
        return Failed(PutFailed);
      }
      assert State() == Appended(old(State()), blob, now, id);
      out := TrimOld(tStart, f);
    }

    /** Sorts the cache, then answers the floor query and reads the chosen file. */
    method GetChunkForTime(targetSeconds: real, readSucceeds: bool) returns (r: Result<Option<Blob>>)
      modifies this`metaCache
      ensures metaCache == SortByTime(old(metaCache))
      ensures r == Lookup(metaCache, files, targetSeconds, readSucceeds)
    {
      if |metaCache| == 0 {
        assert metaCache == [];
        return Ok(None);
      }
      metaCache := SortByTime(metaCache);
      var k := Scan(StartTimes(metaCache), targetSeconds);
      match k {
        case None => r := Ok(None);
        case Some(i) =>
          var file := ReadFile(metaCache[i].filename, readSucceeds);
          match file {
            case Ok(b) => r := Ok(Some(b));
            case Err(e) => r := Err(e);
          }
      }
    }
  }
}
