/**
 * A backup target: the object store, the chunk index kept beside it, and the
 * engine's operations on the two.
 */
module Target {
  import opened Base
  import opened ChunkFormat
  import Pipeline

  type Sha = string
  type Chunk = Pipeline.Chunk
  type Disk = Pipeline.DiskManifest

  /** A restore point's manifest, reduced to what the engine reads back. */
  datatype Manifest = Manifest(disks: seq<Disk>)

  /** An object: its bytes and the store's timestamp for it, if it reports one. */
  datatype Blob = Blob(body: Bytes, modified: Option<int>)

  /** A chunk index row: the recorded size and, when readable, the time it was added. */
  datatype Row = Row(size: nat, added: Option<int>)

  datatype Target = Target(blobs: map<string, Blob>, index: map<Sha, Row>)

  /** The primitives the engine is built on: chunk codec, JSON both ways. */
  datatype Env = Env(codec: Codec, encode: Manifest -> Bytes, decode: Bytes -> Option<Manifest>)

  ghost predicate LawfulEnv(env: Env) {
    Lawful(env.codec) && forall m :: env.decode(env.encode(m)) == Some(m)
  }

  // ------------------------------------------------------------------- keys

  const CHUNK_PREFIX := "chunks/"
  const MANIFEST_PREFIX := "manifests/"
  const MANIFEST_SUFFIX := ".json"

  function ChunkKey(sha: Sha): string {
    CHUNK_PREFIX + sha
  }

  predicate IsChunkKey(key: string) {
    CHUNK_PREFIX <= key
  }

  /** The hash a chunk key names. */
  function ShaOfKey(key: string): Sha
    requires IsChunkKey(key)
  {
    key[|CHUNK_PREFIX|..]
  }

  predicate HasSuffix(s: string, suffix: string) {
    |suffix| <= |s| && s[|s| - |suffix|..] == suffix
  }

  /** The keys garbage collection reads as manifests. */
  predicate IsManifestKey(key: string) {
    MANIFEST_PREFIX <= key && HasSuffix(key, MANIFEST_SUFFIX)
  }

  function ManifestKey(kind: string, source: string, id: string): string {
    MANIFEST_PREFIX + kind + "/" + source + "/" + id + MANIFEST_SUFFIX
  }

  /** Collection reads exactly what lies under the manifest prefix and ends in the manifest suffix. */
  lemma ManifestKeyShape(key: string)
    ensures IsManifestKey(key) <==> exists rest: string :: key == MANIFEST_PREFIX + rest + MANIFEST_SUFFIX
  {
    if IsManifestKey(key) {
      var n := |key| - |MANIFEST_SUFFIX|;
      assert key[n] == MANIFEST_SUFFIX[0] == '.';
      assert forall i :: 0 <= i < |MANIFEST_PREFIX| ==> key[i] == MANIFEST_PREFIX[i] && key[i] != '.';
      assert key == MANIFEST_PREFIX + key[|MANIFEST_PREFIX|..n] + MANIFEST_SUFFIX;
    }
  }

  /** Whatever a restore point is called, the key its manifest is written under is one collection reads. */
  lemma ManifestKeyIsManifest(kind: string, source: string, id: string)
    ensures IsManifestKey(ManifestKey(kind, source, id))
  {
    var key := ManifestKey(kind, source, id);
    assert key[|key| - |MANIFEST_SUFFIX|..] == MANIFEST_SUFFIX;
    assert key == MANIFEST_PREFIX + (kind + "/" + source + "/" + id + MANIFEST_SUFFIX);
  }

  /** Different restore points have different manifests, when kinds and sources hold no slash. */
  lemma ManifestKeysDiffer(kind: string, source: string, id: string, kind': string, source': string, id': string)
    requires '/' !in kind && '/' !in source && '/' !in kind' && '/' !in source'
    ensures ManifestKey(kind, source, id) == ManifestKey(kind', source', id')
            <==> kind == kind' && source == source' && id == id'
  {
    if ManifestKey(kind, source, id) == ManifestKey(kind', source', id') {
      var a, b := source + "/" + id, source' + "/" + id';
      assert ManifestKey(kind, source, id) == MANIFEST_PREFIX + (kind + "/" + a) + MANIFEST_SUFFIX;
      assert ManifestKey(kind', source', id') == MANIFEST_PREFIX + (kind' + "/" + b) + MANIFEST_SUFFIX;
      SameMiddle(MANIFEST_PREFIX, kind + "/" + a, kind' + "/" + b, MANIFEST_SUFFIX);
      FirstSlash(kind, a, kind', b);
      FirstSlash(source, id, source', id');
    }
  }

  lemma SameMiddle(pre: string, a: string, b: string, post: string)
    requires pre + a + post == pre + b + post
    ensures a == b
  {
    var x := pre + a + post;
    assert a == x[|pre|..|x| - |post|] && b == x[|pre|..|x| - |post|];
  }

  /** What stands before and after the first slash is determined by the text. */
  lemma FirstSlash(a: string, x: string, b: string, y: string)
    requires '/' !in a && '/' !in b && a + "/" + x == b + "/" + y
    ensures a == b && x == y
  {
    var s := a + "/" + x;
    assert s[|a|] == '/' && s[|b|] == '/';
    assert forall i :: 0 <= i < |a| ==> s[i] == a[i];
    assert forall i :: 0 <= i < |b| ==> s[i] == b[i];
    assert a == s[..|a|] && b == s[..|a|] && x == s[|a| + 1..] && y == s[|a| + 1..];
  }

  lemma KeySpaces(key: string)
    ensures IsChunkKey(key) ==> !IsManifestKey(key) && ChunkKey(ShaOfKey(key)) == key
    ensures forall sha :: IsChunkKey(ChunkKey(sha)) && ShaOfKey(ChunkKey(sha)) == sha
  {
    if IsChunkKey(key) {
      assert key[0] == CHUNK_PREFIX[0];
      assert key[0] != MANIFEST_PREFIX[0];
    }
  }

  // ---------------------------------------------------------------- storing

  /** Re-recording a chunk keeps the time it was first added. */
  function AddRow(index: map<Sha, Row>, sha: Sha, size: nat, now: int): map<Sha, Row> {
    index[sha := Row(size, if sha in index then index[sha].added else Some(now))]
  }

  /** What storing a chunk did: the target afterwards and the bytes uploaded. */
  datatype StoreResult = StoreResult(t: Target, uploaded: nat)

  /** The dedup check and upload of one chunk; `on` is the compression setting, `stamp` the store's own timestamp. */
  function PutChunk(env: Env, t: Target, data: Bytes, on: bool, now: int, stamp: Option<int>): StoreResult {
    var sha := env.codec.sha(data);
    if sha in t.index then StoreResult(t, 0)
    else if ChunkKey(sha) in t.blobs then
      StoreResult(t.(index := AddRow(t.index, sha, |data|, now)), 0)
    else
      var body := Stored(env.codec, on, data);
      StoreResult(Target(t.blobs[ChunkKey(sha) := Blob(body, stamp)], AddRow(t.index, sha, |data|, now)), |body|)
  }

  // ---------------------------------------------------------------- reading

  datatype ReadError = Missing | HashMismatch | SizeMismatch | Undecodable | NoDisks

  /** Fetch, decode, and check the content address and the declared size. */
  function ReadChunk(env: Env, blobs: map<string, Blob>, ch: Chunk): Result<Bytes, ReadError> {
    if ChunkKey(ch.sha) !in blobs then Err(Missing) else
      var data := Decode(env.codec, blobs[ChunkKey(ch.sha)].body);
      if env.codec.sha(data) != ch.sha then Err(HashMismatch)
      else if ch.size != 0 && |data| != ch.size then Err(SizeMismatch)
      else Ok(data)
  }

  /** The chunks of a list, read one after the other up to the first failure. */
  function ReadChunks(env: Env, blobs: map<string, Blob>, chunks: seq<Chunk>): Result<Bytes, ReadError> {
    if chunks == [] then Ok([]) else
      var n := |chunks| - 1;
      match ReadChunks(env, blobs, chunks[..n])
      case Err(e) => Err(e)
      case Ok(before) =>
        match ReadChunk(env, blobs, chunks[n])
        case Err(e) => Err(e)
        case Ok(data) => Ok(before + data)
  }

  function Restored(env: Env, blobs: map<string, Blob>, dm: Disk): Result<Bytes, ReadError> {
    match ReadChunks(env, blobs, dm.chunks)
    case Err(e) => Err(e)
    case Ok(data) => if dm.sizeBytes != 0 && |data| != dm.sizeBytes then Err(SizeMismatch) else Ok(data)
  }

  // ------------------------------------------------------- garbage collection

  predicate Mentions(m: Manifest, sha: Sha) {
    exists d, i :: 0 <= d < |m.disks| && 0 <= i < |m.disks[d].chunks| && m.disks[d].chunks[i].sha == sha
  }

  /** Some manifest on the target lists the hash. */
  ghost predicate Referenced(env: Env, blobs: map<string, Blob>, sha: Sha) {
    exists k :: k in blobs && IsManifestKey(k) && RefersTo(env, blobs[k].body, sha)
  }

  predicate RefersTo(env: Env, body: Bytes, sha: Sha) {
    env.decode(body).Some? && Mentions(env.decode(body).value, sha)
  }

  /** Every object that reads as a manifest decodes. */
  ghost predicate ManifestsReadable(env: Env, blobs: map<string, Blob>) {
    forall k :: k in blobs && IsManifestKey(k) ==> env.decode(blobs[k].body).Some?
  }

  /** How old a chunk is, when that can be told: by its index row first, by the store's timestamp otherwise. */
  function ChunkAge(grace: int, now: int, sha: Sha, index: map<Sha, Row>, b: Blob): Option<int> {
    if grace <= 0 then None
    else if sha in index && index[sha].added.Some? then Some(now - index[sha].added.value)
    else if b.modified.Some? then Some(now - b.modified.value)
    else None
  }

  /** Provably younger than the grace window. */
  predicate Recent(grace: int, now: int, sha: Sha, index: map<Sha, Row>, b: Blob) {
    var age := ChunkAge(grace, now, sha, index, b);
    age.Some? && age.value < grace
  }

  ghost predicate IsDoomed(env: Env, t: Target, grace: int, now: int, key: string) {
    && key in t.blobs && IsChunkKey(key)
    && !Referenced(env, t.blobs, ShaOfKey(key))
    && !Recent(grace, now, ShaOfKey(key), t.index, t.blobs[key])
  }

  ghost function Doomed(env: Env, t: Target, grace: int, now: int): set<string> {
    set k | k in t.blobs && IsDoomed(env, t, grace, now, k)
  }

  /** The manifest of the restore point lists the hash. */
  ghost predicate Lists(env: Env, blobs: map<string, Blob>, kind: string, source: string, id: string, sha: Sha) {
    var key := ManifestKey(kind, source, id);
    key in blobs && RefersTo(env, blobs[key].body, sha)
  }

  /** Neither a restore point's manifest nor a chunk it lists is ever doomed. */
  lemma ListedIsNotDoomed(env: Env, t: Target, grace: int, now: int)
    ensures forall kind, source, id :: ManifestKey(kind, source, id) !in Doomed(env, t, grace, now)
    ensures forall kind, source, id, sha :: Lists(env, t.blobs, kind, source, id, sha) ==> ChunkKey(sha) !in Doomed(env, t, grace, now)
  {
    forall kind, source, id
      ensures ManifestKey(kind, source, id) !in Doomed(env, t, grace, now)
    {
      ManifestKeyIsManifest(kind, source, id);
      KeySpaces(ManifestKey(kind, source, id));
    }
    forall kind, source, id, sha | Lists(env, t.blobs, kind, source, id, sha)
      ensures ChunkKey(sha) !in Doomed(env, t, grace, now)
    {
      ManifestKeyIsManifest(kind, source, id);
      assert Referenced(env, t.blobs, sha);
      KeySpaces(ChunkKey(sha));
    }
  }

  /** A target after a successful collection. */
  ghost function Collected(env: Env, t: Target, grace: int, now: int): Target {
    var doomed := Doomed(env, t, grace, now);
    Target(t.blobs - doomed,
           map h | h in t.index && ChunkKey(h) in t.blobs && ChunkKey(h) !in doomed :: t.index[h])
  }

  /** Every index row is backed by an object. */
  ghost predicate IndexBacked(t: Target) {
    forall h :: h in t.index ==> ChunkKey(h) in t.blobs
  }

  /** A collection leaves referenced and recent chunks, and no row without an object, whatever it started from. */
  lemma CollectionIsExact(env: Env, t: Target, grace: int, now: int)
    ensures var t' := Collected(env, t, grace, now);
            && IndexBacked(t')
            && (forall k :: k in t'.blobs <==> k in t.blobs && !IsDoomed(env, t, grace, now, k))
            && (forall k :: k in t'.blobs ==> t'.blobs[k] == t.blobs[k])
            && (forall sha :: Referenced(env, t'.blobs, sha) <==> Referenced(env, t.blobs, sha))
            && (forall h :: h in t'.index <==> h in t.index && ChunkKey(h) in t'.blobs)
            && (forall h :: h in t'.index ==> t'.index[h] == t.index[h])
  {
    var t' := Collected(env, t, grace, now);
    forall sha
      ensures Referenced(env, t'.blobs, sha) <==> Referenced(env, t.blobs, sha)
    {
      if Referenced(env, t.blobs, sha) {
        var k :| k in t.blobs && IsManifestKey(k) && RefersTo(env, t.blobs[k].body, sha);
        KeySpaces(k);
        assert k in t'.blobs;
      }
    }
  }

  /**
   * When an unreferenced chunk outlives a pass: there is a grace window, and the
   * time it was stored is known and lies within it.  Its index row tells that
   * time; the store's timestamp does only when no readable row is there.
   */
  lemma SparedIff(env: Env, t: Target, grace: int, now: int, sha: Sha)
    requires ChunkKey(sha) in t.blobs && !Referenced(env, t.blobs, sha)
    ensures ChunkKey(sha) in Collected(env, t, grace, now).blobs <==>
              && grace > 0
              && (if sha in t.index && t.index[sha].added.Some?
                  then now - grace < t.index[sha].added.value
                  else t.blobs[ChunkKey(sha)].modified.Some? && now - grace < t.blobs[ChunkKey(sha)].modified.value)
  {
    KeySpaces(ChunkKey(sha));
  }

  /** The object of a chunk holds this content, of the chunk's hash and of its size when one is given. */
  ghost predicate Holds(env: Env, blobs: map<string, Blob>, ch: Chunk, part: Bytes) {
    && ChunkKey(ch.sha) in blobs && part == Decode(env.codec, blobs[ChunkKey(ch.sha)].body)
    && env.codec.sha(part) == ch.sha
    && (ch.size == 0 || |part| == ch.size)
  }

  /** The contents that the objects of a list of chunks hold. */
  ghost predicate HoldsEach(env: Env, blobs: map<string, Blob>, chunks: seq<Chunk>, parts: seq<Bytes>) {
    |parts| == |chunks| && forall i :: 0 <= i < |chunks| ==> Holds(env, blobs, chunks[i], parts[i])
  }

  lemma {:induction false} ReadsParts(env: Env, blobs: map<string, Blob>, chunks: seq<Chunk>, parts: seq<Bytes>)
    requires HoldsEach(env, blobs, chunks, parts)
    ensures ReadChunks(env, blobs, chunks) == Ok(Flatten(parts))
    decreases |chunks|
  {
    if chunks != [] {
      var n := |chunks| - 1;
      ReadsParts(env, blobs, chunks[..n], parts[..n]);
      assert Holds(env, blobs, chunks[n], parts[n]);
      FlattenLast(parts);
    }
  }

  lemma {:induction false} PartsRead(env: Env, blobs: map<string, Blob>, chunks: seq<Chunk>) returns (parts: seq<Bytes>)
    requires ReadChunks(env, blobs, chunks).Ok?
    ensures HoldsEach(env, blobs, chunks, parts)
    decreases |chunks|
  {
    hide Decode, ChunkKey;
    parts := [];
    if chunks != [] {
      var n := |chunks| - 1;
      parts := PartsRead(env, blobs, chunks[..n]);
      assert forall i :: 0 <= i < n ==> chunks[..n][i] == chunks[i];
      parts := parts + [ReadChunk(env, blobs, chunks[n]).value];
    }
  }

  /**
   * What a restore yields: the contents of the disk's chunks one after the other,
   * each of its own hash and size, in all as long as the manifest says when it
   * says so; a total that disagrees is an error of its own.
   */
  lemma RestoredIff(env: Env, blobs: map<string, Blob>, dm: Disk, out: Bytes)
    ensures Restored(env, blobs, dm) == Ok(out) <==>
              && (dm.sizeBytes == 0 || |out| == dm.sizeBytes)
              && exists parts :: HoldsEach(env, blobs, dm.chunks, parts) && Flatten(parts) == out
    ensures dm.sizeBytes != 0 && |out| != dm.sizeBytes && (exists parts :: HoldsEach(env, blobs, dm.chunks, parts) && Flatten(parts) == out) ==>
              Restored(env, blobs, dm) == Err(SizeMismatch)
  {
    if parts :| HoldsEach(env, blobs, dm.chunks, parts) && Flatten(parts) == out {
      ReadsParts(env, blobs, dm.chunks, parts);
    }
    if Restored(env, blobs, dm) == Ok(out) {
      var parts := PartsRead(env, blobs, dm.chunks);
      ReadsParts(env, blobs, dm.chunks, parts);
    }
  }
}
