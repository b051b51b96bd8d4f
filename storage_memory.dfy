/** The volatile chunk store: a bounded in-RAM array of `{tStart, blob}` records.

    Its capacity is a count of chunks fixed at construction.  `addChunk` latches
    the epoch on its first call, appends, and then drops records from the
    front while the array is over capacity; `getChunkForTime` answers the floor
    query of module ChunkOrder without changing anything. */
module MemoryStore {
  import opened ChunkOrder

  /** One retained chunk: its start time relative to the epoch and its payload. */
  datatype Chunk = Chunk(tStart: real, blob: Blob)

  /** The start times of the chunks, in array order. */
  function Times(s: seq<Chunk>): (ts: seq<real>)
    ensures |ts| == |s|
    ensures forall i | 0 <= i < |s| :: ts[i] == s[i].tStart
  {
    seq(|s|, i requires 0 <= i < |s| => s[i].tStart)
  }

  /** The capacity in chunks: the whole number of nominal chunk durations that fit
      in the retention budget. */
  function Capacity(maxSeconds: real, chunkSeconds: real): (n: int)
    requires chunkSeconds > 0.0
    ensures n as real <= maxSeconds / chunkSeconds < n as real + 1.0
    ensures maxSeconds >= 0.0 ==> n >= 0
  {
    (maxSeconds / chunkSeconds).Floor
  }

  /** With the page's settings (90 s of memory, 2 s chunks) the store keeps 45 chunks. */
  lemma AppCapacity()
    ensures Capacity(90.0, 2.0) == 45
  {
  }

  /** What survives count-based eviction: the newest `n` chunks, or all of them
      when there are no more than `n`. */
  function KeepLast(s: seq<Chunk>, n: nat): seq<Chunk> {
    if |s| <= n then s else s[|s| - n..]
  }

  /** Evicting after every append keeps the same chunks as evicting once after
      all of them. */
  lemma KeepLastAppend(s: seq<Chunk>, x: Chunk, n: nat)
    ensures KeepLast(KeepLast(s, n) + [x], n) == KeepLast(s + [x], n)
  {
  }

  /** Eviction keeps exactly the last min(|s|, n) chunks in their order, and
      with room for at least one chunk the newest always survives. */
  lemma KeepLastIsRecent(s: seq<Chunk>, n: nat)
    ensures |KeepLast(s, n)| == if |s| < n then |s| else n
    ensures forall i | 0 <= i < |KeepLast(s, n)| :: KeepLast(s, n)[i] == s[|s| - |KeepLast(s, n)| + i]
    ensures n >= 1 && s != [] ==> KeepLast(s, n)[|KeepLast(s, n)| - 1] == s[|s| - 1]
  {
    if |s| > n {
      assert KeepLast(s, n) == s[|s| - n..];
    }
  }

  /** Removing the oldest chunk of an over-full array does not change what
      eviction keeps. */
  lemma KeepLastShift(s: seq<Chunk>, n: nat)
    requires |s| > n
    ensures KeepLast(s[1..], n) == KeepLast(s, n)
  {
  }

  /** Eviction from the front keeps an ordered array ordered. */
  lemma KeepLastSorted(s: seq<Chunk>, n: nat)
    requires Sorted(Times(s))
    ensures Sorted(Times(KeepLast(s, n)))
  {
    var d := |s| - |KeepLast(s, n)|;
    assert Times(KeepLast(s, n)) == Times(s)[d..];
  }

  /** Appending a chunk no earlier than the newest keeps the array ordered. */
  lemma AppendSorted(s: seq<Chunk>, c: Chunk)
    requires Sorted(Times(s))
    requires s != [] ==> s[|s| - 1].tStart <= c.tStart
    ensures Sorted(Times(s + [c]))
  {
    assert Times(s + [c]) == Times(s) + [c.tStart];
  }

  /** Appending a chunk no earlier than the newest and then evicting keeps the
      array ordered: with a clock that never goes back the start times never
      decrease along the array. */
  lemma AddKeepsOrder(s: seq<Chunk>, c: Chunk, n: nat)
    requires Sorted(Times(s))
    requires s != [] ==> s[|s| - 1].tStart <= c.tStart
    ensures Sorted(Times(KeepLast(s + [c], n)))
  {
    AppendSorted(s, c);
    KeepLastSorted(s + [c], n);
  }

  class MemoryStorage {
    /** Retention budget in seconds, as configured. */
    const maxSeconds: real
    /** Capacity in chunks, computed once at construction. */
    const maxChunks: nat
    /** The retained chunks, oldest first. */
    var chunks: seq<Chunk>
    /** The epoch: the clock reading at the first `addChunk`, absent before it. */
    var startTime: Option<real>

    /** Every chunk ever appended, oldest first. */
    ghost var added: seq<Chunk>

    ghost predicate Valid()
      reads this
    {
      && chunks == KeepLast(added, maxChunks)
      && (startTime.None? <==> added == [])
      && (added != [] ==> added[0].tStart == 0.0)
    }

    constructor (maxSeconds: real, chunkSeconds: real)
      requires chunkSeconds > 0.0 && maxSeconds >= 0.0
      ensures Valid()
      ensures this.maxSeconds == maxSeconds
      ensures maxChunks == Capacity(maxSeconds, chunkSeconds)
      ensures chunks == [] && startTime == None
    {
      this.maxSeconds := maxSeconds;
      maxChunks := Capacity(maxSeconds, chunkSeconds);
      chunks := [];
      startTime := None;
      added := [];
    }

    /** Appends one chunk read at clock time `now`, then evicts from the front
        down to the capacity. */
    method AddChunk(blob: Blob, now: real)
      requires Valid()
      modifies this
      ensures Valid()
      ensures startTime == if old(startTime).None? then Some(now) else old(startTime)
      ensures added == old(added) + [Chunk(now - startTime.value, blob)]
      ensures chunks == KeepLast(old(chunks) + [Chunk(now - startTime.value, blob)], maxChunks)
      ensures |chunks| <= maxChunks
    {
      if startTime.None? {
        startTime := Some(now);
      }
      var tStart := now - startTime.value;
      var chunk := Chunk(tStart, blob);
      ghost var before := added;
      KeepLastAppend(before, chunk, maxChunks);
      chunks := chunks + [chunk];
      added := before + [chunk];
      while |chunks| > maxChunks
        invariant KeepLast(chunks, maxChunks) == KeepLast(added, maxChunks)
        modifies this`chunks
        decreases |chunks|
      {
        KeepLastShift(chunks, maxChunks);
        chunks := chunks[1..];
      }
    }

    /** The payload current at `targetSeconds`, or None when the store is empty
        or the target is outside [oldest, newest]. */
    method GetChunkForTime(targetSeconds: real) returns (r: Option<Blob>)
      ensures r == match Floor(Times(chunks), targetSeconds)
                   case None => None
                   case Some(k) => Some(chunks[k].blob)
    {
      var k := Scan(Times(chunks), targetSeconds);
      match k {
        case None => r := None;
        case Some(i) => r := Some(chunks[i].blob);
      }
    }
  }

  /** The worked scenario: 10 s of retention in 2 s chunks, seven chunks read
      at times 0, 2, ..., 12. */
  method Scenario() {
    var store := new MemoryStorage(10.0, 2.0);
    assert store.maxChunks == 5;
    var t := 0;
    while t < 7
      invariant 0 <= t <= 7
      invariant store.Valid() && store.maxChunks == 5
      invariant store.startTime == if t == 0 then None else Some(0.0)
      invariant |store.added| == t
      invariant forall i | 0 <= i < t :: store.added[i] == Chunk(2.0 * i as real, [i as bv8])
    {
      store.AddChunk([t as bv8], 2.0 * t as real);
      t := t + 1;
    }
    assert Times(store.chunks) == [4.0, 6.0, 8.0, 10.0, 12.0];
    var r := store.GetChunkForTime(3.0);
    assert r == None;
    r := store.GetChunkForTime(9.0);
    assert r == Some([4]);
  }
}
