/**
 * Random access to a backed-up stream: a binary search over recorded offsets and
 * a bounded cache of decoded chunks refine plain slicing of the stream.
 */
module StreamReader {
  import opened Base
  import Pipeline
  import opened Target
  import ChunkFormat
  import Repository

  type Chunk = Pipeline.Chunk

  // ------------------------------------------------------------- the stream

  /**
   * The verified bytes behind each entry of a chunk list: as long as the entry
   * says, except that an entry of size zero makes no claim.
   */
  ghost predicate Backs(contents: seq<Bytes>, chunks: seq<Chunk>) {
    |contents| == |chunks| && forall i :: 0 <= i < |chunks| && chunks[i].size != 0 ==> |contents[i]| == chunks[i].size
  }

  /** What an entry contributes to the stream. */
  function Piece(contents: Bytes, c: Chunk): Bytes {
    if c.size == 0 then [] else contents
  }

  /** The stream a chunk list stands for. */
  function Stream(contents: seq<Bytes>, chunks: seq<Chunk>): Bytes
    requires |contents| == |chunks|
  {
    if chunks == [] then [] else
      var n := |chunks| - 1;
      Stream(contents[..n], chunks[..n]) + Piece(contents[n], chunks[n])
  }

  function Offset(chunks: seq<Chunk>, i: nat): nat
    requires i <= |chunks|
  {
    if i == 0 then 0 else Offset(chunks, i - 1) + chunks[i - 1].size
  }

  lemma {:induction false} OffsetMonotone(chunks: seq<Chunk>, i: nat, j: nat)
    requires i <= j <= |chunks|
    ensures Offset(chunks, i) <= Offset(chunks, j)
    decreases j
  {
    if i < j {
      OffsetMonotone(chunks, i, j - 1);
    }
  }

  lemma {:induction false} OffsetPrefix(chunks: seq<Chunk>, n: nat, i: nat)
    requires i <= n <= |chunks|
    ensures Offset(chunks[..n], i) == Offset(chunks, i)
    decreases i
  {
    if i > 0 {
      OffsetPrefix(chunks, n, i - 1);
    }
  }

  lemma {:induction false} StreamLength(contents: seq<Bytes>, chunks: seq<Chunk>)
    requires Backs(contents, chunks)
    ensures |Stream(contents, chunks)| == Offset(chunks, |chunks|)
    decreases |chunks|
  {
    if chunks != [] {
      var n := |chunks| - 1;
      StreamLength(contents[..n], chunks[..n]);
      OffsetPrefix(chunks, n, n);
    }
  }

  /** Each entry's bytes sit in the stream at its offset. */
  lemma {:induction false} StreamLayout(contents: seq<Bytes>, chunks: seq<Chunk>, i: nat)
    requires Backs(contents, chunks) && i < |chunks| && chunks[i].size != 0
    ensures Offset(chunks, i) + chunks[i].size <= |Stream(contents, chunks)|
    ensures Stream(contents, chunks)[Offset(chunks, i)..Offset(chunks, i) + chunks[i].size] == contents[i]
    decreases |chunks|
  {
    var n := |chunks| - 1;
    var front := Stream(contents[..n], chunks[..n]);
    StreamLength(contents[..n], chunks[..n]);
    OffsetPrefix(chunks, n, n);
    OffsetPrefix(chunks, n, i);
    assert Stream(contents, chunks) == front + Piece(contents[n], chunks[n]);
    if i < n {
      StreamLayout(contents[..n], chunks[..n], i);
      hide Stream, Offset;
      SliceOfPrefix(front, Piece(contents[n], chunks[n]), Offset(chunks, i), Offset(chunks, i) + chunks[i].size);
    } else {
      SliceOfSuffix(front, contents[n]);
    }
  }

  lemma SliceOfSuffix(a: Bytes, b: Bytes)
    ensures (a + b)[|a|..|a| + |b|] == b
  {
  }

  lemma SliceOfPrefix(a: Bytes, b: Bytes, lo: nat, hi: nat)
    requires lo <= hi <= |a|
    ensures (a + b)[lo..hi] == a[lo..hi]
  {
  }

  // ---------------------------------------------------------- verified bytes

  /** Contents in play that pass the checks a fetch makes: hash, and size unless the entry makes no claim. */
  ghost predicate Verifies(env: Env, world: iset<Bytes>, ch: Chunk, x: Bytes) {
    x in world && env.codec.sha(x) == ch.sha && (ch.size != 0 ==> |x| == ch.size)
  }

  /** The bytes behind an entry; when nothing in play verifies, no fetch succeeds and any will do. */
  ghost function Content(env: Env, world: iset<Bytes>, ch: Chunk): (x: Bytes)
    ensures ch.size != 0 ==> |x| == ch.size
  {
    if x :| Verifies(env, world, ch, x) then x else seq(ch.size, i => 0)
  }

  ghost function Contents(env: Env, world: iset<Bytes>, chunks: seq<Chunk>): (cs: seq<Bytes>)
    ensures |cs| == |chunks| && forall i :: 0 <= i < |cs| ==> cs[i] == Content(env, world, chunks[i])
  {
    seq(|chunks|, i requires 0 <= i < |chunks| => Content(env, world, chunks[i]))
  }

  /** Every chunk object decodes to contents in play, right or wrong. */
  ghost predicate InPlay(env: Env, world: iset<Bytes>, blobs: map<string, Blob>) {
    forall k :: k in blobs && IsChunkKey(k) ==> ChunkFormat.Decode(env.codec, blobs[k].body) in world
  }

  /** A fetch that succeeds yields the bytes behind the entry, whatever objects are there when it is made. */
  lemma FetchIsVerified(env: Env, world: iset<Bytes>, blobs: map<string, Blob>, ch: Chunk)
    requires ChunkFormat.CollisionFree(env.codec, world) && InPlay(env, world, blobs)
    requires ReadChunk(env, blobs, ch).Ok?
    ensures ReadChunk(env, blobs, ch).value == Content(env, world, ch)
  {
    var x := ReadChunk(env, blobs, ch).value;
    KeySpaces(ChunkKey(ch.sha));
    assert Verifies(env, world, ch, x);
  }

  // ------------------------------------------------- the stream and a restore

  /** A restore writes the bytes behind every entry, whatever size the entry claims. */
  lemma {:induction false} RestoreWritesAll(env: Env, world: iset<Bytes>, blobs: map<string, Blob>, chunks: seq<Chunk>)
    requires ChunkFormat.CollisionFree(env.codec, world) && InPlay(env, world, blobs)
    requires ReadChunks(env, blobs, chunks).Ok?
    ensures ReadChunks(env, blobs, chunks).value == Flatten(Contents(env, world, chunks))
    decreases |chunks|
  {
    if chunks != [] {
      hide Content, InPlay, ReadChunk;
      var n := |chunks| - 1;
      RestoreWritesAll(env, world, blobs, chunks[..n]);
      FetchIsVerified(env, world, blobs, chunks[n]);
      var all := Contents(env, world, chunks);
      assert all[..n] == Contents(env, world, chunks[..n]);
      FlattenLast(all);
    }
  }

  /** The stream leaves out the bytes behind entries of size zero, and is the concatenation exactly when there are none. */
  lemma {:induction false} StreamIsAllIff(contents: seq<Bytes>, chunks: seq<Chunk>)
    requires |contents| == |chunks|
    ensures |Stream(contents, chunks)| <= |Flatten(contents)|
    ensures |Stream(contents, chunks)| == |Flatten(contents)| <==> forall i :: 0 <= i < |chunks| && chunks[i].size == 0 ==> contents[i] == []
    ensures (forall i :: 0 <= i < |chunks| && chunks[i].size == 0 ==> contents[i] == []) ==> Stream(contents, chunks) == Flatten(contents)
    decreases |chunks|
  {
    if chunks != [] {
      var n := |chunks| - 1;
      StreamIsAllIff(contents[..n], chunks[..n]);
      FlattenLast(contents);
      hide Flatten;
      assert forall i :: 0 <= i < n ==> chunks[..n][i] == chunks[i] && contents[..n][i] == contents[i];
      assert |Stream(contents, chunks)| == |Stream(contents[..n], chunks[..n])| + |Piece(contents[n], chunks[n])|;
    }
  }

  /**
   * Random access and restore agree on a disk exactly when no entry of size zero
   * stands for a chunk that is not empty: restore writes such a chunk, random
   * access passes over it.
   */
  lemma ReadsWhatRestoresIff(env: Env, world: iset<Bytes>, blobs: map<string, Blob>, dm: Disk)
    requires ChunkFormat.CollisionFree(env.codec, world) && InPlay(env, world, blobs)
    requires Restored(env, blobs, dm).Ok?
    ensures var contents := Contents(env, world, dm.chunks);
            Stream(contents, dm.chunks) == Restored(env, blobs, dm).value <==>
              forall i :: 0 <= i < |dm.chunks| && dm.chunks[i].size == 0 ==> contents[i] == []
  {
    RestoreWritesAll(env, world, blobs, dm.chunks);
    StreamIsAllIff(Contents(env, world, dm.chunks), dm.chunks);
  }

  /** One entry of size zero over a chunk that is there: it restores to the chunk and reads as nothing. */
  lemma ZeroSizeEntryReadsShort(env: Env, world: iset<Bytes>, blobs: map<string, Blob>, data: Bytes)
    requires ChunkFormat.CollisionFree(env.codec, world) && InPlay(env, world, blobs) && data != []
    requires ReadChunk(env, blobs, Pipeline.Chunk(env.codec.sha(data), 0)) == Ok(data)
    ensures var chunks := [Pipeline.Chunk(env.codec.sha(data), 0)];
            && Restored(env, blobs, Pipeline.DiskManifest(0, chunks)) == Ok(data)
            && Stream(Contents(env, world, chunks), chunks) == []
  {
    var chunks := [Pipeline.Chunk(env.codec.sha(data), 0)];
    assert chunks[..0] == [];
    assert ReadChunks(env, blobs, []) == Ok([]);
    assert [] + data == data;
    assert ReadChunks(env, blobs, chunks) == Ok(data);
    var cs := Contents(env, world, chunks);
    assert Stream(cs[..0], chunks[..0]) == [];
  }

  /** What a backup run's manifest reads as is the stream that was backed up. */
  lemma BackedUpStreamReads(env: Env, world: iset<Bytes>, stream: Bytes)
    requires ChunkFormat.CollisionFree(env.codec, world) && Repository.InWorld(world, stream)
    ensures var chunks := Repository.DiskOf(env, stream).chunks;
            Stream(Contents(env, world, chunks), chunks) == stream
  {
    var all := ChunkFormat.Split(stream, ChunkFormat.CHUNK_SIZE);
    var chunks := Repository.DiskOf(env, stream).chunks;
    ChunkFormat.SplitShape(stream, ChunkFormat.CHUNK_SIZE);
    forall i | 0 <= i < |all|
      ensures Content(env, world, chunks[i]) == all[i]
    {
      assert Verifies(env, world, chunks[i], all[i]);
    }
    assert Contents(env, world, chunks) == all;
    StreamIsAllIff(all, chunks);
  }

  // ---------------------------------------------------------------- the cache

  datatype Cache = Cache(data: map<nat, Bytes>, order: seq<nat>)

  const NO_CACHE := Cache(map[], [])

  /** Keys and order list the same chunks, once each and no more than the limit, with the right bytes. */
  ghost predicate CacheOk(c: Cache, limit: nat, contents: seq<Bytes>) {
    && c.data.Keys == (set i | i in c.order)
    && Distinct(c.order)
    && |c.order| <= limit
    && forall i :: i in c.data ==> i < |contents| && c.data[i] == contents[i]
  }

  function Evict(c: Cache, limit: nat): Cache
    decreases |c.order|
  {
    if |c.order| <= limit then c else Evict(Cache(c.data - {c.order[0]}, c.order[1..]), limit)
  }

  /** What filing a fetched chunk does: nothing if another reader was first, else append and evict the oldest. */
  function Filed(c: Cache, limit: nat, i: nat, data: Bytes): Cache {
    if i in c.data then c else Evict(Cache(c.data[i := data], c.order + [i]), limit)
  }

  lemma EvictOnce(data: map<nat, Bytes>, order: seq<nat>)
    requires data.Keys == (set i | i in order) && Distinct(order) && order != []
    ensures (data - {order[0]}).Keys == (set i | i in order[1..]) && Distinct(order[1..])
  {
    forall i
      ensures i in data && i != order[0] <==> i in order[1..]
    {
      if i in data && i != order[0] {
        var k :| 0 <= k < |order| && order[k] == i;
        assert order[1..][k - 1] == i;
      }
      if i in order[1..] {
        var k :| 0 <= k < |order[1..]| && order[1..][k] == i;
        assert order[k + 1] == i;
      }
    }
  }

  lemma {:induction false} EvictKeeps(c: Cache, limit: nat, contents: seq<Bytes>)
    requires c.data.Keys == (set i | i in c.order) && Distinct(c.order)
    requires forall i :: i in c.data ==> i < |contents| && c.data[i] == contents[i]
    ensures CacheOk(Evict(c, limit), limit, contents)
    decreases |c.order|
  {
    if |c.order| > limit {
      EvictOnce(c.data, c.order);
      EvictKeeps(Cache(c.data - {c.order[0]}, c.order[1..]), limit, contents);
    }
  }

  /** What goes is the oldest, and no more of it than the limit demands. */
  lemma {:induction false} EvictIsOldestFirst(c: Cache, limit: nat)
    ensures Evict(c, limit).order == c.order[if |c.order| > limit then |c.order| - limit else 0..]
    decreases |c.order|
  {
    if |c.order| > limit {
      EvictIsOldestFirst(Cache(c.data - {c.order[0]}, c.order[1..]), limit);
    }
  }

  /** A chunk just fetched is in the cache, last in line to leave it. */
  lemma FiledIsHeld(c: Cache, limit: nat, contents: seq<Bytes>, i: nat)
    requires CacheOk(c, limit, contents) && i < |contents| && limit > 0
    ensures var c' := Filed(c, limit, i, contents[i]);
            && i in c'.data && c'.data[i] == contents[i]
            && c'.order == if i in c.data then c.order
                           else (if |c.order| < limit then c.order else c.order[1..]) + [i]
  {
    FiledKeeps(c, limit, contents, i);
    if i !in c.data {
      EvictIsOldestFirst(Cache(c.data[i := contents[i]], c.order + [i]), limit);
      var order := Filed(c, limit, i, contents[i]).order;
      assert order == (if |c.order| < limit then c.order else c.order[1..]) + [i];
      assert order[|order| - 1] == i;
    }
  }

  lemma FiledKeeps(c: Cache, limit: nat, contents: seq<Bytes>, i: nat)
    requires CacheOk(c, limit, contents) && i < |contents|
    ensures CacheOk(Filed(c, limit, i, contents[i]), limit, contents)
  {
    if i !in c.data {
      var c1 := Cache(c.data[i := contents[i]], c.order + [i]);
      assert i !in c.order;
      assert c1.data.Keys == (set j | j in c1.order);
      EvictKeeps(c1, limit, contents);
    }
  }

  /** The cache after a run of fetches filed by any number of readers, in the order they took the lock. */
  function FiledAll(c: Cache, limit: nat, contents: seq<Bytes>, fetches: seq<nat>): Cache
    requires forall k :: 0 <= k < |fetches| ==> fetches[k] < |contents|
    decreases fetches
  {
    if fetches == [] then c
    else FiledAll(Filed(c, limit, fetches[0], contents[fetches[0]]), limit, contents, fetches[1..])
  }

  /** Across all calls of all readers the cache is bounded and holds only verified data. */
  lemma {:induction false} CacheIsAlwaysOk(c: Cache, limit: nat, contents: seq<Bytes>, fetches: seq<nat>)
    requires CacheOk(c, limit, contents)
    requires forall k :: 0 <= k < |fetches| ==> fetches[k] < |contents|
    ensures CacheOk(FiledAll(c, limit, contents, fetches), limit, contents)
    decreases fetches
  {
    if fetches != [] {
      FiledKeeps(c, limit, contents, fetches[0]);
      CacheIsAlwaysOk(Filed(c, limit, fetches[0], contents[fetches[0]]), limit, contents, fetches[1..]);
    }
  }

  // --------------------------------------------------------------- the reader

  const CACHE_CHUNKS: nat := 8

  datatype ReadEnd = Nil | Eof | NegativeOffset | FetchFailed

  /** Every entry that holds bytes of the stream can be read from the objects. */
  ghost predicate AllReadable(env: Env, blobs: map<string, Blob>, chunks: seq<Chunk>) {
    forall i :: 0 <= i < |chunks| && chunks[i].size != 0 ==> ReadChunk(env, blobs, chunks[i]).Ok?
  }

  /** A reader; `world` are the contents in play, `at` below the objects on the target as a read goes on. */
  class StreamReaderAt {
    const env: Env
    const chunks: seq<Chunk>
    const starts: seq<nat>
    const size: nat
    const limit: nat
    ghost const world: iset<Bytes>
    var cache: Cache

    /** The bytes behind the entries. */
    ghost function Behind(): seq<Bytes> {
      Contents(env, world, chunks)
    }

    ghost predicate Valid()
      reads this
    {
      && ChunkFormat.CollisionFree(env.codec, world)
      && |starts| == |chunks| && (forall i :: 0 <= i < |starts| ==> starts[i] == Offset(chunks, i))
      && size == Offset(chunks, |chunks|)
      && CacheOk(cache, limit, Behind())
    }

    constructor (e: Env, list: seq<Chunk>, ghost w: iset<Bytes>)
      requires ChunkFormat.CollisionFree(e.codec, w)
      ensures Valid() && env == e && chunks == list && world == w && limit == CACHE_CHUNKS && cache == NO_CACHE
    {
      env, chunks, world, limit, cache := e, list, w, CACHE_CHUNKS, NO_CACHE;
      var offsets: seq<nat>, at := [], 0;
      for i := 0 to |list|
        invariant |offsets| == i && at == Offset(list, i)
        invariant forall k :: 0 <= k < i ==> offsets[k] == Offset(list, k)
      {
        offsets := offsets + [at];
        at := at + list[i].size;
      }
      starts, size := offsets, at;
    }

    /** The entry that holds an offset: the last one starting at or before it. */
    method ChunkAt(off: nat) returns (i: int)
      requires Valid()
      ensures off < size ==>
                && 0 <= i < |chunks| && chunks[i].size != 0
                && starts[i] <= off < starts[i] + chunks[i].size
    {
      var lo, hi := 0, |starts|;
      while lo < hi
        invariant 0 <= lo <= hi <= |starts|
        invariant forall k :: 0 <= k < lo ==> starts[k] <= off
        invariant forall k :: hi <= k < |starts| ==> starts[k] > off
      {
        var mid := lo + (hi - lo) / 2;
        if starts[mid] > off {
          forall k | mid <= k < |starts| ensures starts[k] > off {
            OffsetMonotone(chunks, mid, k);
          }
          hi := mid;
        } else {
          forall k | 0 <= k <= mid ensures starts[k] <= off {
            OffsetMonotone(chunks, k, mid);
          }
          lo := mid + 1;
        }
      }
      i := lo - 1;
      if off < size {
        if i < |chunks| - 1 {
          assert i >= 0 ==> starts[i + 1] == Offset(chunks, i + 1);
        }
        assert starts == [] || starts[0] == 0;
        assert i >= 0 ==> Offset(chunks, i + 1) == starts[i] + chunks[i].size;
      }
      if i < 0 || i >= |chunks| {
        i := -1;
      }
    }

    /**
     * A decoded chunk, from the cache when it is there, otherwise fetched and
     * verified from the objects on the target at that moment.
     */
    method GetChunk(i: nat, blobs: map<string, Blob>, works: bool) returns (r: Option<Bytes>)
      requires Valid() && i < |chunks| && InPlay(env, world, blobs)
      modifies this`cache
      ensures Valid()
      ensures works && (i in old(cache.data) || ReadChunk(env, blobs, chunks[i]).Ok?) ==> r.Some?
      ensures r.Some? ==> r.value == Behind()[i]
      ensures r.Some? ==> i in old(cache.data) || ReadChunk(env, blobs, chunks[i]) == Ok(r.value)
      ensures r.Some? ==> cache == Filed(old(cache), limit, i, r.value)
      ensures r.None? ==> cache == old(cache) && i !in old(cache.data)
    {
      if i in cache.data {
        return Some(cache.data[i]);
      }
      var fails := Fails(works);
      if fails {
        return None;  // the object could not be fetched
      }
      var fetched := ReadChunk(env, blobs, chunks[i]);
      if fetched.Err? {
        return None;
      }
      FetchIsVerified(env, world, blobs, chunks[i]);
      FiledKeeps(cache, limit, Behind(), i);
      cache := Filed(cache, limit, i, fetched.value);
      return Some(fetched.value);
    }

    /** One turn of the read loop: as much as one chunk holds, or nothing when its fetch fails. */
    method ReadSome(p: array<Byte>, n: nat, pos: nat, blobs: map<string, Blob>, works: bool) returns (count: nat)
      requires Valid() && n < p.Length && pos < size && InPlay(env, world, blobs)
      modifies p, this`cache
      ensures Valid()
      ensures works && AllReadable(env, blobs, chunks) ==> count > 0
      ensures n + count <= p.Length && pos + count <= |Stream(Behind(), chunks)|
      ensures p[..n] == old(p[..n]) && p[n + count..] == old(p[n + count..])
      ensures p[n..n + count] == Stream(Behind(), chunks)[pos..pos + count]
    {
      hide Stream, Offset, CacheOk, InPlay, Content;
      var i := ChunkAt(pos);
      var got := GetChunk(i, blobs, works);
      StreamLength(Behind(), chunks);
      if got.None? {
        return 0;
      }
      var data := got.value;
      var within := pos - starts[i];
      count := Min(p.Length - n, |data| - within);
      StreamLayout(Behind(), chunks, i);
      SliceShift(Stream(Behind(), chunks), starts[i], |data|, within, count);
      CopyOut(p, n, data, within, count);
    }

    /**
     * io.ReaderAt over the stored chunks, whatever happens to the objects while it
     * reads; `at(n)` are those on the target when the n-th byte is asked for.  The
     * bytes delivered are the stream's at that offset, the rest of the buffer is
     * untouched, and the end of the stream is reported exactly when it cuts the
     * read short.
     */
    method ReadAt(p: array<Byte>, off: int, at: nat -> map<string, Blob>, works: bool) returns (n: nat, end: ReadEnd)
      requires Valid() && forall k: nat :: InPlay(env, world, at(k))
      modifies p, this`cache
      ensures Valid() && size == |Stream(Behind(), chunks)|
      ensures n <= p.Length && p[n..] == old(p[n..])
      ensures n > 0 ==> 0 <= off && off + n <= size && p[..n] == Stream(Behind(), chunks)[off..off + n]
      ensures match end
              case NegativeOffset => off < 0 && n == 0
              case Eof => off >= 0 && (off >= size || off + p.Length > size) && n == if off < size then size - off else 0
              case Nil => 0 <= off < size && n == p.Length
              case FetchFailed => 0 <= off < size && n < p.Length && off + n < size
      ensures works && (forall k: nat :: AllReadable(env, at(k), chunks)) ==> !end.FetchFailed?
    {
      hide Stream, Offset, CacheOk, InPlay, Content;
      ghost var stream := Stream(Behind(), chunks);
      StreamLength(Behind(), chunks);
      n := 0;
      if off < 0 {
        return 0, NegativeOffset;
      }
      if off >= size {
        return 0, Eof;
      }
      while n < p.Length
        invariant 0 <= n <= p.Length && off + n <= size && Valid()
        invariant p[..n] == stream[off..off + n] && p[n..] == old(p[n..])
        decreases p.Length - n
      {
        if off + n >= size {
          return n, Eof;
        }
        var count := ReadSome(p, n, off + n, at(n), works);
        assert p[..n + count] == p[..n] + p[n..n + count];
        assert stream[off..off + n + count] == stream[off..off + n] + stream[off + n..off + n + count];
        if count == 0 {
          return n, FetchFailed;
        }
        n := n + count;
      }
      return n, Nil;
    }
  }

  /** copy(p[at:], data[from:]) for `count` bytes. */
  method CopyOut(p: array<Byte>, at: nat, data: Bytes, from: nat, count: nat)
    requires at + count <= p.Length && from + count <= |data|
    modifies p
    ensures p[..at] == old(p[..at])
    ensures p[at..at + count] == data[from..from + count]
    ensures p[at + count..] == old(p[at + count..])
  {
    for k := 0 to count
      invariant p[..at] == old(p[..at])
      invariant p[at..at + k] == data[from..from + k]
      invariant p[at + k..] == old(p[at + k..])
    {
      p[at + k] := data[from + k];
      assert p[at..at + k + 1] == p[at..at + k] + [data[from + k]];
    }
  }

  /** A slice of a slice. */
  lemma SliceShift(stream: Bytes, start: nat, len: nat, within: nat, count: nat)
    requires start + len <= |stream| && within + count <= len
    ensures stream[start..start + len][within..within + count] == stream[start + within..start + within + count]
  {
    var a, b := stream[start..start + len][within..within + count], stream[start + within..start + within + count];
    forall k | 0 <= k < count
      ensures a[k] == b[k]
    {
      assert stream[start..start + len][within + k] == stream[start + within + k];
    }
  }
}
