/**
 * Backups, prunes and garbage collection over one target as a state machine: in
 * every run, every restore point that is still there restores to the bytes that
 * were backed up.
 */
module Repository {
  import opened Base
  import opened ChunkFormat
  import opened Target
  import Pipeline
  import TargetCode

  /**
   * A target with the runs now writing to it, each with the chunks it has been
   * told are stored, and the history of what every manifest was written for.
   */
  datatype Repo = Repo(t: Target, active: map<nat, set<Sha>>, origin: map<string, seq<Bytes>>)

  const EMPTY := Repo(Target(map[], map[]), map[], map[])

  /** How storing a chunk ends: done, or failed with nothing stored, the object without its row, or both. */
  datatype StoreEnd = Done | NotStored | NotIndexed | Unreported

  datatype Op =
    | Begin(run: nat)
    | Store(run: nat, data: Bytes, on: bool, now: int, stamp: Option<int>, end: StoreEnd)
    | WriteManifest(run: nat, kind: string, source: string, id: string, m: Manifest, streams: seq<Bytes>)
    | End(run: nat)
    | DeleteManifest(kind: string, source: string, id: string)
    | Collect(grace: int, now: int)
    | CollectPart(grace: int, now: int, gone: set<string>, dropped: set<Sha>)
    | Probe(sha: Sha, size: nat, now: int)

  /** The manifest entry of a stream, as BackupStream returns it. */
  function DiskOf(env: Env, stream: Bytes): Disk {
    Pipeline.DiskManifest(|stream|, Pipeline.Refs(env.codec, Split(stream, CHUNK_SIZE)))
  }

  ghost predicate Describes(env: Env, m: Manifest, streams: seq<Bytes>) {
    |m.disks| == |streams| && forall d :: 0 <= d < |streams| ==> m.disks[d] == DiskOf(env, streams[d])
  }

  /** The pieces of a stream are among the contents in play. */
  ghost predicate InWorld(world: iset<Bytes>, stream: Bytes) {
    forall i :: 0 <= i < |Split(stream, CHUNK_SIZE)| ==> Split(stream, CHUNK_SIZE)[i] in world
  }

  ghost predicate Enabled(env: Env, world: iset<Bytes>, r: Repo, op: Op) {
    match op
    case Begin(run) => run !in r.active
    case Store(run, data, on, _, _, _) =>
      run in r.active && data in world && |data| <= CHUNK_SIZE && ReadsBack(env.codec, on, data)
    case WriteManifest(run, _, _, _, m, streams) =>
      && run in r.active && Describes(env, m, streams)
      && (forall d :: 0 <= d < |streams| ==> InWorld(world, streams[d]))
      && (forall sha :: Mentions(m, sha) ==> sha in r.active[run])
    case End(run) => run in r.active
    case DeleteManifest(_, _, _) => true
    case Collect(_, _) => r.active == map[]
    case CollectPart(grace, now, gone, dropped) =>
      && r.active == map[]
      && gone <= Doomed(env, r.t, grace, now)
      && (forall h :: h in dropped ==> ChunkKey(h) in gone || ChunkKey(h) !in r.t.blobs)
      && (forall k :: k in gone ==> ShaOfKey(k) in dropped)
    case Probe(_, _, _) => true
  }

  ghost function Do(env: Env, r: Repo, op: Op): Repo {
    match op
    case Begin(run) => r.(active := r.active[run := {}])
    case Store(run, data, on, now, stamp, end) =>
      var sha := env.codec.sha(data);
      var put := PutChunk(env, r.t, data, on, now, stamp).t;
      if run !in r.active then r else
      (match end
       case Done => r.(t := put, active := r.active[run := r.active[run] + {sha}])
       case NotStored => r
       case NotIndexed => r.(t := Target(put.blobs, r.t.index))
       case Unreported => r.(t := put))
    case WriteManifest(run, kind, source, id, m, streams) =>
      var key := ManifestKey(kind, source, id);
      r.(t := r.t.(blobs := r.t.blobs[key := Blob(env.encode(m), None)]), origin := r.origin[key := streams])
    case End(run) => r.(active := r.active - {run})
    case DeleteManifest(kind, source, id) => r.(t := r.t.(blobs := r.t.blobs - {ManifestKey(kind, source, id)}))
    case Collect(grace, now) =>
      if ManifestsReadable(env, r.t.blobs) then r.(t := Collected(env, r.t, grace, now)) else r
    case CollectPart(_, _, gone, dropped) => r.(t := Target(r.t.blobs - gone, r.t.index - dropped))
    case Probe(sha, size, now) =>
      if sha !in r.t.index && ChunkKey(sha) in r.t.blobs then r.(t := r.t.(index := AddRow(r.t.index, sha, size, now)))
      else r
  }

  // ------------------------------------------------------------- invariant

  /** A manifest decodes to the description of what it was written for, and its chunks are all there. */
  ghost predicate PointSound(env: Env, world: iset<Bytes>, r: Repo, key: string)
    requires key in r.t.blobs
  {
    && key in r.origin
    && env.decode(r.t.blobs[key].body).Some?
    && var m := env.decode(r.t.blobs[key].body).value;
       && Describes(env, m, r.origin[key])
       && (forall d :: 0 <= d < |r.origin[key]| ==> InWorld(world, r.origin[key][d]))
       && (forall sha :: Mentions(m, sha) ==> ChunkKey(sha) in r.t.blobs)
  }

  ghost predicate Sound(env: Env, world: iset<Bytes>, r: Repo) {
    && IndexBacked(r.t)
    && (forall k :: k in r.t.blobs && IsChunkKey(k) ==> BodySound(env.codec, world, ShaOfKey(k), r.t.blobs[k].body))
    && (forall run, h :: run in r.active && h in r.active[run] ==> ChunkKey(h) in r.t.blobs)
    && (forall k :: k in r.t.blobs && IsManifestKey(k) ==> PointSound(env, world, r, k))
  }

  /** Adding sound chunk objects, and rows of objects, keeps every point. */
  lemma AdditionKeeps(env: Env, world: iset<Bytes>, r: Repo, t': Target)
    requires Sound(env, world, r) && IndexBacked(t')
    requires forall k :: k in r.t.blobs ==> k in t'.blobs && t'.blobs[k] == r.t.blobs[k]
    requires forall k :: k in t'.blobs && k !in r.t.blobs ==>
               IsChunkKey(k) && BodySound(env.codec, world, ShaOfKey(k), t'.blobs[k].body)
    ensures Sound(env, world, r.(t := t'))
  {
    hide BodySound, Describes, InWorld, ChunkKey;
    forall k | k in t'.blobs && IsManifestKey(k)
      ensures PointSound(env, world, r.(t := t'), k)
    {
      KeySpaces(k);
      assert PointSound(env, world, r, k);
    }
  }

  lemma StoreKeeps(env: Env, world: iset<Bytes>, r: Repo, data: Bytes, on: bool, now: int, stamp: Option<int>)
    requires LawfulEnv(env) && Sound(env, world, r)
    requires data in world && |data| <= CHUNK_SIZE && ReadsBack(env.codec, on, data)
    ensures var t' := PutChunk(env, r.t, data, on, now, stamp).t;
            && ChunkKey(env.codec.sha(data)) in t'.blobs
            && Sound(env, world, r.(t := t'))
            && Sound(env, world, r.(t := Target(t'.blobs, r.t.index)))
  {
    assert IndexBacked(r.t);
    hide Sound;
    var t' := PutChunk(env, r.t, data, on, now, stamp).t;
    KeySpaces(ChunkKey(env.codec.sha(data)));
    StoredDecodesIff(env.codec, on, data);
    AdditionKeeps(env, world, r, t');
    AdditionKeeps(env, world, r, Target(t'.blobs, r.t.index));
  }

  lemma WriteKeeps(env: Env, world: iset<Bytes>, r: Repo, op: Op)
    requires LawfulEnv(env) && Sound(env, world, r) && op.WriteManifest? && Enabled(env, world, r, op)
    ensures Sound(env, world, Do(env, r, op))
  {
    var r', key := Do(env, r, op), ManifestKey(op.kind, op.source, op.id);
    ManifestKeyIsManifest(op.kind, op.source, op.id);
    KeySpaces(key);
    forall k | k in r'.t.blobs && IsManifestKey(k)
      ensures PointSound(env, world, r', k)
    {
      if k != key {
        assert PointSound(env, world, r, k);
      }
    }
    forall h | ChunkKey(h) in r.t.blobs
      ensures ChunkKey(h) in r'.t.blobs
    {
    }
  }

  /** Removing objects no manifest refers to, and rows of removed objects, keeps every point. */
  lemma RemovalKeeps(env: Env, world: iset<Bytes>, r: Repo, t': Target)
    requires Sound(env, world, r) && r.active == map[]
    requires forall k :: k in t'.blobs ==> k in r.t.blobs && t'.blobs[k] == r.t.blobs[k]
    requires forall k :: k in r.t.blobs && k !in t'.blobs ==> IsChunkKey(k) && !Referenced(env, r.t.blobs, ShaOfKey(k))
    requires IndexBacked(t')
    ensures Sound(env, world, r.(t := t'))
  {
    forall k | k in t'.blobs && IsManifestKey(k)
      ensures PointSound(env, world, r.(t := t'), k)
    {
      assert PointSound(env, world, r, k);
      var m := env.decode(r.t.blobs[k].body).value;
      forall sha | Mentions(m, sha)
        ensures ChunkKey(sha) in t'.blobs
      {
        KeySpaces(ChunkKey(sha));
        assert RefersTo(env, r.t.blobs[k].body, sha);
        assert Referenced(env, r.t.blobs, sha);
      }
    }
  }

  lemma DeleteKeeps(env: Env, world: iset<Bytes>, r: Repo, op: Op)
    requires Sound(env, world, r) && op.DeleteManifest?
    ensures Sound(env, world, Do(env, r, op))
  {
    var r' := Do(env, r, op);
    ManifestKeyIsManifest(op.kind, op.source, op.id);
    forall h | ChunkKey(h) in r.t.blobs
      ensures ChunkKey(h) in r'.t.blobs
    {
      KeySpaces(ChunkKey(h));
    }
    forall k | k in r'.t.blobs && IsManifestKey(k)
      ensures PointSound(env, world, r', k)
    {
      assert PointSound(env, world, r, k);
    }
  }

  /** Every operation keeps the invariant. */
  lemma SoundStep(env: Env, world: iset<Bytes>, r: Repo, op: Op)
    requires LawfulEnv(env) && Sound(env, world, r) && Enabled(env, world, r, op)
    ensures Sound(env, world, Do(env, r, op))
  {
    match op
    case Store(run, data, on, now, stamp, end) => StoreStep(env, world, r, op);
    case WriteManifest(_, _, _, _, _, _) => WriteKeeps(env, world, r, op);
    case DeleteManifest(_, _, _) => DeleteKeeps(env, world, r, op);
    case Collect(grace, now) =>
      CollectionIsExact(env, r.t, grace, now);
      if ManifestsReadable(env, r.t.blobs) {
        RemovalKeeps(env, world, r, Collected(env, r.t, grace, now));
      }
    case CollectPart(grace, now, gone, dropped) => PartStep(env, world, r, op);
    case Begin(run) => OutsideStep(env, world, r, op);
    case End(run) => OutsideStep(env, world, r, op);
    case Probe(_, _, _) => OutsideStep(env, world, r, op);
  }

  lemma OutsideStep(env: Env, world: iset<Bytes>, r: Repo, op: Op)
    requires Sound(env, world, r) && Enabled(env, world, r, op) && (op.Begin? || op.End? || op.Probe?)
    ensures Sound(env, world, Do(env, r, op))
  {
    var r' := Do(env, r, op);
    forall k | k in r'.t.blobs && IsManifestKey(k)
      ensures PointSound(env, world, r', k)
    {
      assert PointSound(env, world, r, k);
    }
  }

  lemma StoreStep(env: Env, world: iset<Bytes>, r: Repo, op: Op)
    requires LawfulEnv(env) && Sound(env, world, r) && op.Store? && Enabled(env, world, r, op)
    ensures Sound(env, world, Do(env, r, op))
  {
    hide PutChunk, BodySound, Describes, InWorld, ReadsBack;
    StoreKeeps(env, world, r, op.data, op.on, op.now, op.stamp);
    var put := PutChunk(env, r.t, op.data, op.on, op.now, op.stamp).t;
    if op.end.Done? {
      var mid := r.(t := put);
      var r' := Do(env, r, op);
      forall k | k in r'.t.blobs && IsManifestKey(k)
        ensures PointSound(env, world, r', k)
      {
        assert PointSound(env, world, mid, k);
      }
    }
  }

  lemma PartStep(env: Env, world: iset<Bytes>, r: Repo, op: Op)
    requires Sound(env, world, r) && op.CollectPart? && Enabled(env, world, r, op)
    ensures Sound(env, world, Do(env, r, op))
  {
    var t' := Do(env, r, op).t;
    forall h | h in t'.index
      ensures ChunkKey(h) in t'.blobs
    {
      KeySpaces(ChunkKey(h));
    }
    RemovalKeeps(env, world, r, t');
  }

  /** The repository after a run of operations, each of them possible when its turn comes. */
  ghost predicate Runs(env: Env, world: iset<Bytes>, r: Repo, ops: seq<Op>, r': Repo)
    decreases ops
  {
    if ops == [] then r' == r
    else Enabled(env, world, r, ops[0]) && Runs(env, world, Do(env, r, ops[0]), ops[1..], r')
  }

  lemma {:induction false} SoundRun(env: Env, world: iset<Bytes>, r: Repo, ops: seq<Op>, r': Repo)
    requires LawfulEnv(env) && Sound(env, world, r) && Runs(env, world, r, ops, r')
    ensures Sound(env, world, r')
    decreases ops
  {
    if ops != [] {
      SoundStep(env, world, r, ops[0]);
      SoundRun(env, world, Do(env, r, ops[0]), ops[1..], r');
    }
  }

  // ---------------------------------------------------------------- restore

  lemma ReadOne(env: Env, world: iset<Bytes>, blobs: map<string, Blob>, piece: Bytes)
    requires CollisionFree(env.codec, world) && piece in world
    requires forall k :: k in blobs && IsChunkKey(k) ==> BodySound(env.codec, world, ShaOfKey(k), blobs[k].body)
    requires ChunkKey(env.codec.sha(piece)) in blobs
    ensures ReadChunk(env, blobs, Pipeline.Chunk(env.codec.sha(piece), |piece|)) == Ok(piece)
  {
    var k := ChunkKey(env.codec.sha(piece));
    KeySpaces(k);
    assert BodySound(env.codec, world, ShaOfKey(k), blobs[k].body);
  }

  /** Chunks that are all present and sound read back as what was cut. */
  lemma {:induction false} ReadRefs(env: Env, world: iset<Bytes>, blobs: map<string, Blob>, cs: seq<Bytes>)
    requires CollisionFree(env.codec, world)
    requires forall k :: k in blobs && IsChunkKey(k) ==> BodySound(env.codec, world, ShaOfKey(k), blobs[k].body)
    requires forall i :: 0 <= i < |cs| ==> cs[i] in world && ChunkKey(env.codec.sha(cs[i])) in blobs
    ensures ReadChunks(env, blobs, Pipeline.Refs(env.codec, cs)) == Ok(Flatten(cs))
  {
    if cs != [] {
      var n := |cs| - 1;
      var refs := Pipeline.Refs(env.codec, cs);
      ReadRefs(env, world, blobs, cs[..n]);
      assert refs[..n] == Pipeline.Refs(env.codec, cs[..n]);
      ReadOne(env, world, blobs, cs[n]);
      assert refs[n] == Pipeline.Chunk(env.codec.sha(cs[n]), |cs[n]|);
      FlattenLast(cs);
    }
  }

  lemma RestoreStream(env: Env, world: iset<Bytes>, blobs: map<string, Blob>, stream: Bytes)
    requires CollisionFree(env.codec, world) && InWorld(world, stream)
    requires forall k :: k in blobs && IsChunkKey(k) ==> BodySound(env.codec, world, ShaOfKey(k), blobs[k].body)
    requires forall i :: 0 <= i < |Split(stream, CHUNK_SIZE)| ==> ChunkKey(env.codec.sha(Split(stream, CHUNK_SIZE)[i])) in blobs
    ensures Restored(env, blobs, DiskOf(env, stream)) == Ok(stream)
  {
    SplitShape(stream, CHUNK_SIZE);
    ReadRefs(env, world, blobs, Split(stream, CHUNK_SIZE));
  }

  /**
   * In every run from a sound repository, whatever else was backed up, pruned,
   * deleted, interrupted or collected, each restore point still on the target
   * lists one disk per stream it was written for and restores each to its bytes.
   */
  lemma EveryPointRestores(env: Env, world: iset<Bytes>, r: Repo, ops: seq<Op>, r': Repo, kind: string, source: string, id: string)
    requires LawfulEnv(env) && CollisionFree(env.codec, world)
    requires Sound(env, world, r) && Runs(env, world, r, ops, r')
    requires ManifestKey(kind, source, id) in r'.t.blobs
    ensures var key := ManifestKey(kind, source, id);
            && key in r'.origin && env.decode(r'.t.blobs[key].body).Some?
            && var m := env.decode(r'.t.blobs[key].body).value;
            && |m.disks| == |r'.origin[key]|
            && forall d :: 0 <= d < |m.disks| ==> Restored(env, r'.t.blobs, m.disks[d]) == Ok(r'.origin[key][d])
  {
    SoundRun(env, world, r, ops, r');
    var key := ManifestKey(kind, source, id);
    ManifestKeyIsManifest(kind, source, id);
    assert PointSound(env, world, r', key);
    var m := env.decode(r'.t.blobs[key].body).value;
    forall d | 0 <= d < |m.disks|
      ensures Restored(env, r'.t.blobs, m.disks[d]) == Ok(r'.origin[key][d])
    {
      var stream := r'.origin[key][d];
      forall i | 0 <= i < |Split(stream, CHUNK_SIZE)|
        ensures ChunkKey(env.codec.sha(Split(stream, CHUNK_SIZE)[i])) in r'.t.blobs
      {
        assert m.disks[d].chunks[i].sha == env.codec.sha(Split(stream, CHUNK_SIZE)[i]);
        assert Mentions(m, m.disks[d].chunks[i].sha);
      }
      RestoreStream(env, world, r'.t.blobs, stream);
    }
  }

  /** The empty target is sound, so the promise holds of every history from the start. */
  lemma EmptyIsSound(env: Env, world: iset<Bytes>)
    ensures Sound(env, world, EMPTY)
  {
  }

  // ------------------------------------------------------- the engine's calls

  /** However storing a chunk ends, it is a step of the machine. */
  lemma StoreIsAStep(env: Env, r: Repo, run: nat, data: Bytes, on: bool, now: int, stamp: Option<int>, t': Target, uploaded: Option<nat>)
    returns (op: Op)
    requires run in r.active
    requires var put := PutChunk(env, r.t, data, on, now, stamp);
             if uploaded.Some? then StoreResult(t', uploaded.value) == put
             else t' == r.t || t' == Target(put.t.blobs, r.t.index) || t' == put.t
    ensures op.Store? && op.run == run && op.data == data && op.on == on
    ensures uploaded.Some? ==> Do(env, r, op) == r.(t := t', active := r.active[run := r.active[run] + {env.codec.sha(data)}])
    ensures uploaded.None? ==> Do(env, r, op) == r.(t := t')
  {
    var put := PutChunk(env, r.t, data, on, now, stamp).t;
    op := Store(run, data, on, now, stamp,
                if uploaded.Some? then Done else if t' == r.t then NotStored else if t' == put then Unreported else NotIndexed);
  }

  /**
   * Every outcome of a collection pass over an idle target that leaves no pair
   * torn is a step of the machine: the whole collection, or a part of it.
   */
  lemma CollectionIsAStep(env: Env, world: iset<Bytes>, r: Repo, grace: int, now: int, ok: bool,
                          gone: set<string>, dropped: set<Sha>, torn: Sha, t': Target) returns (op: Op)
    requires r.active == map[]
    requires if ok then ManifestsReadable(env, r.t.blobs) && t' == Collected(env, r.t, grace, now)
             else TargetCode.PartlyCollected(env, r.t, grace, now, gone, dropped, torn, t')
    requires !ok ==> forall k :: k in gone ==> ShaOfKey(k) in dropped
    ensures Enabled(env, world, r, op) && Do(env, r, op) == r.(t := t')
  {
    op := if ok then Collect(grace, now) else CollectPart(grace, now, gone, dropped);
  }
}
