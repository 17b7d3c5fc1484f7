/**
 * Pipeline runs on a target: what a finished one leaves restorable, what a rerun
 * after an interruption uploads, and how it is a run of the repository machine.
 */
module Backup {
  import opened Base
  import opened ChunkFormat
  import opened Target
  import opened Repository
  import opened Resume
  import Pipeline
  import PipelineOutcome
  import PipelineTheorems
  import PipelineCoalescing
  import PipelineAccounting

  /** The chunk objects of a target, by hash. */
  function ObjectsOf(blobs: map<string, Blob>): (m: map<Sha, Bytes>)
    ensures forall h :: h in m <==> ChunkKey(h) in blobs
    ensures forall h :: h in m ==> m[h] == blobs[ChunkKey(h)].body
  {
    KeySpaces("");
    var shas := set k | k in blobs && IsChunkKey(k) :: ShaOfKey(k);
    assert forall h :: ChunkKey(h) in blobs ==> ShaOfKey(ChunkKey(h)) in shas;
    map h | h in shas && ChunkKey(h) in blobs :: blobs[ChunkKey(h)].body
  }

  /** The run works on the target: same codec, its rows, its chunk objects, full-size chunks. */
  ghost predicate RunsOn(cfg: Pipeline.Config, env: Env, t: Target) {
    && cfg.codec == env.codec && cfg.chunkSize == CHUNK_SIZE
    && cfg.index == t.index.Keys && cfg.objects == ObjectsOf(t.blobs)
  }

  /** The target's chunk objects are those the run left. */
  ghost predicate Leaves(blobs: map<string, Blob>, s: Pipeline.State) {
    ObjectsOf(blobs) == s.eng.objects
  }

  // ------------------------------------------------------ backup, then restore

  /** Every object a run leaves is sound if those it started from were and its chunks read back. */
  lemma ObjectsStaySound(cfg: Pipeline.Config, run: seq<Pipeline.Step>, s: Pipeline.State, world: iset<Bytes>, h: Sha)
    requires Pipeline.ValidConfig(cfg) && Pipeline.Exec(cfg, Pipeline.Init(cfg), run) == Some(s)
    requires cfg.chunkSize == CHUNK_SIZE && InWorld(world, cfg.data) && h in s.eng.objects
    requires forall g :: g in cfg.objects ==> BodySound(cfg.codec, world, g, cfg.objects[g])
    requires forall i :: 0 <= i < |Split(cfg.data, CHUNK_SIZE)| ==> ReadsBack(cfg.codec, cfg.compress, Split(cfg.data, CHUNK_SIZE)[i])
    ensures BodySound(cfg.codec, world, h, s.eng.objects[h])
  {
    PipelineTheorems.BackupStreamStores(cfg, run, s);
    if h !in cfg.objects {
      var all := Split(cfg.data, CHUNK_SIZE);
      var i :| 0 <= i < |all| && PipelineCoalescing.UploadedAs(cfg, all[i], s.eng, h);
      SplitShape(cfg.data, CHUNK_SIZE);
      StoredDecodesIff(cfg.codec, cfg.compress, all[i]);
    }
  }

  /** The target's chunk objects after a run from sound ones. */
  lemma BlobsStaySound(cfg: Pipeline.Config, run: seq<Pipeline.Step>, s: Pipeline.State, world: iset<Bytes>, blobs: map<string, Blob>)
    requires Pipeline.ValidConfig(cfg) && Pipeline.Exec(cfg, Pipeline.Init(cfg), run) == Some(s)
    requires cfg.chunkSize == CHUNK_SIZE && InWorld(world, cfg.data) && Leaves(blobs, s)
    requires forall g :: g in cfg.objects ==> BodySound(cfg.codec, world, g, cfg.objects[g])
    requires forall i :: 0 <= i < |Split(cfg.data, CHUNK_SIZE)| ==> ReadsBack(cfg.codec, cfg.compress, Split(cfg.data, CHUNK_SIZE)[i])
    ensures forall k :: k in blobs && IsChunkKey(k) ==> BodySound(cfg.codec, world, ShaOfKey(k), blobs[k].body)
  {
    forall k | k in blobs && IsChunkKey(k)
      ensures BodySound(cfg.codec, world, ShaOfKey(k), blobs[k].body)
    {
      KeySpaces(k);
      ObjectsStaySound(cfg, run, s, world, ShaOfKey(k));
    }
  }

  /** Which chunks of a stream backed up without error are there. */
  lemma DeliveredChunks(cfg: Pipeline.Config, run: seq<Pipeline.Step>, s: Pipeline.State, env: Env, blobs: map<string, Blob>)
    requires PipelineTheorems.Finishes(cfg, run, s) && Pipeline.Returned(s).Ok? && s.out.skipped == {}
    requires cfg.chunkSize == CHUNK_SIZE && env.codec == cfg.codec && Leaves(blobs, s)
    ensures Pipeline.Returned(s).value == DiskOf(env, cfg.data)
    ensures var all := Split(cfg.data, CHUNK_SIZE);
            forall i :: 0 <= i < |all| ==>
              (ChunkKey(env.codec.sha(all[i])) in blobs <==> env.codec.sha(all[i]) !in Pipeline.Stale(cfg))
  {
    hide Pipeline.Exec, Split, ChunkKey;
    var all := Split(cfg.data, CHUNK_SIZE);
    PipelineTheorems.BackupStreamDelivers(cfg, run, s);
    forall i | 0 <= i < |all|
      ensures ChunkKey(env.codec.sha(all[i])) in blobs <==> env.codec.sha(all[i]) !in Pipeline.Stale(cfg)
    {
      assert Pipeline.Refs(cfg.codec, all)[i] in Pipeline.Returned(s).value.chunks;
    }
  }

  /** A stream whose chunks are sound where they are there restores exactly when all of them are. */
  lemma RestoresIffThere(env: Env, world: iset<Bytes>, blobs: map<string, Blob>, stream: Bytes)
    requires CollisionFree(env.codec, world) && InWorld(world, stream)
    requires forall k :: k in blobs && IsChunkKey(k) ==> BodySound(env.codec, world, ShaOfKey(k), blobs[k].body)
    ensures Restored(env, blobs, DiskOf(env, stream)) == Ok(stream) <==>
            forall i :: 0 <= i < |Split(stream, CHUNK_SIZE)| ==> ChunkKey(env.codec.sha(Split(stream, CHUNK_SIZE)[i])) in blobs
  {
    hide BodySound, CollisionFree, ChunkKey, IsChunkKey, Split, Restored, DiskOf;
    var all := Split(stream, CHUNK_SIZE);
    if forall i :: 0 <= i < |all| ==> ChunkKey(env.codec.sha(all[i])) in blobs {
      RestoreStream(env, world, blobs, stream);
    } else {
      var i :| 0 <= i < |all| && ChunkKey(env.codec.sha(all[i])) !in blobs;
      MissingDoesNotRestore(env, blobs, stream, i);
    }
  }

  lemma MissingDoesNotRestore(env: Env, blobs: map<string, Blob>, stream: Bytes, i: nat)
    requires i < |Split(stream, CHUNK_SIZE)| && ChunkKey(env.codec.sha(Split(stream, CHUNK_SIZE)[i])) !in blobs
    ensures Restored(env, blobs, DiskOf(env, stream)).Err?
  {
    MissingFails(env, blobs, Pipeline.Refs(env.codec, Split(stream, CHUNK_SIZE)), i);
  }

  /**
   * End to end: under every interleaving, a stream backed up without error and
   * with no chunk let go restores to itself exactly when no stale row stood for
   * one of its chunks, provided the target's objects were sound and each chunk is
   * one whose stored form reads back.
   */
  lemma BackupThenRestore(cfg: Pipeline.Config, run: seq<Pipeline.Step>, s: Pipeline.State, env: Env, world: iset<Bytes>,
                          blobs: map<string, Blob>)
    requires PipelineTheorems.Finishes(cfg, run, s) && Pipeline.Returned(s).Ok? && s.out.skipped == {}
    requires cfg.chunkSize == CHUNK_SIZE && env.codec == cfg.codec && Leaves(blobs, s)
    requires CollisionFree(cfg.codec, world) && InWorld(world, cfg.data)
    requires forall h :: h in cfg.objects ==> BodySound(cfg.codec, world, h, cfg.objects[h])
    requires forall i :: 0 <= i < |Split(cfg.data, CHUNK_SIZE)| ==> ReadsBack(cfg.codec, cfg.compress, Split(cfg.data, CHUNK_SIZE)[i])
    ensures Restored(env, blobs, Pipeline.Returned(s).value) == Ok(cfg.data) <==>
            Hashes(cfg.codec, Split(cfg.data, CHUNK_SIZE)) !! Pipeline.Stale(cfg)
  {
    hide BodySound, CollisionFree, InWorld, ReadsBack, Pipeline.Exec, Restored, DiskOf, ChunkKey, IsChunkKey;
    var all := Split(cfg.data, CHUNK_SIZE);
    BlobsStaySound(cfg, run, s, world, blobs);
    DeliveredChunks(cfg, run, s, env, blobs);
    RestoresIffThere(env, world, blobs, cfg.data);
    assert forall i :: 0 <= i < |all| ==> env.codec.sha(all[i]) in Hashes(cfg.codec, all);
  }

  /** A list with a chunk that is not there does not read. */
  lemma {:induction false} MissingFails(env: Env, blobs: map<string, Blob>, chunks: seq<Chunk>, i: nat)
    requires i < |chunks| && ChunkKey(chunks[i].sha) !in blobs
    ensures ReadChunks(env, blobs, chunks).Err?
    decreases |chunks|
  {
    var n := |chunks| - 1;
    if i < n {
      assert chunks[..n][i] == chunks[i];
      MissingFails(env, blobs, chunks[..n], i);
    }
  }

  // ------------------------------------------------------- interrupted runs

  /**
   * An interrupted run resumes.  It left the target at `cut`, whatever of it had
   * been stored; collections ran at `times`; then, under every interleaving, a
   * clean rerun uploads exactly the distinct chunks of the stream no longer known,
   * once each.  Those are exactly the ones not there at the interruption if and
   * only if every chunk of the stream that was there stayed known.
   */
  lemma RerunUploadsTheRest(cfg: Pipeline.Config, run: seq<Pipeline.Step>, s: Pipeline.State, env: Env, cut: Target,
                            grace: int, times: seq<int>)
    requires PipelineTheorems.Finishes(cfg, run, s) && Pipeline.Returned(s).Ok? && !s.out.callerGone
    requires RunsOn(cfg, env, CollectAll(env, cut, grace, times))
    requires PipelineAccounting.NoCollisions(cfg, Split(cfg.data, CHUNK_SIZE))
    ensures var hs := Hashes(env.codec, Split(cfg.data, CHUNK_SIZE));
            && Distinct(s.eng.puts)
            && (forall h :: h in s.eng.puts <==> h in hs && !StillKnown(env, cut, grace, times, h))
            && ((forall h :: h in s.eng.puts <==> h in hs && !Known(cut, h)) <==>
                  forall h :: h in hs && Known(cut, h) ==> StillKnown(env, cut, grace, times, h))
  {
    var hs := Hashes(env.codec, Split(cfg.data, CHUNK_SIZE));
    PipelineTheorems.AccountingIsSerial(cfg, run, s);
    forall h
      ensures h in s.eng.puts <==> h in hs && !StillKnown(env, cut, grace, times, h)
      ensures StillKnown(env, cut, grace, times, h) ==> Known(cut, h)
    {
      KnownAfter(env, cut, grace, times, h);
      assert h in (set g | g in s.eng.puts) <==> h in s.eng.puts;
      assert h in Pipeline.Known(cfg) <==> Known(CollectAll(env, cut, grace, times), h);
    }
    hide StillKnown, Known, Hashes;
    if forall h :: h in s.eng.puts <==> h in hs && !Known(cut, h) {
      forall h | h in hs && Known(cut, h)
        ensures StillKnown(env, cut, grace, times, h)
      {
        assert h !in s.eng.puts;
      }
    }
  }

  // --------------------------------------------- a run of the repository machine

  /** The operations that store a list of chunks. */
  function Stores(id: nat, cs: seq<Bytes>, on: bool, now: int, stamp: Option<int>): seq<Op> {
    if cs == [] then [] else Stores(id, cs[..|cs| - 1], on, now, stamp) + [Store(id, cs[|cs| - 1], on, now, stamp, Done)]
  }

  lemma {:induction false} RunsAppend(env: Env, world: iset<Bytes>, r: Repo, ops: seq<Op>, m: Repo, op: Op)
    requires Runs(env, world, r, ops, m) && Enabled(env, world, m, op)
    ensures Runs(env, world, r, ops + [op], Do(env, m, op))
    decreases ops
  {
    hide Enabled, Do;
    if ops == [] {
      assert ops + [op] == [op] && [op][1..] == [];
      assert Runs(env, world, Do(env, m, op), [], Do(env, m, op));
    } else {
      assert (ops + [op])[1..] == ops[1..] + [op];
      RunsAppend(env, world, Do(env, r, ops[0]), ops[1..], m, op);
    }
  }

  /** Storing chunks that read back, one after the other, is a run that knows them all stored. */
  lemma {:induction false} StoresRun(env: Env, world: iset<Bytes>, r: Repo, id: nat, cs: seq<Bytes>, on: bool, now: int, stamp: Option<int>)
    requires id in r.active
    requires forall i :: 0 <= i < |cs| ==> cs[i] in world && |cs[i]| <= CHUNK_SIZE && ReadsBack(env.codec, on, cs[i])
    ensures Runs(env, world, r, Stores(id, cs, on, now, stamp),
                 r.(t := StoreAll(env, r.t, cs, on, now, stamp).t, active := r.active[id := r.active[id] + Hashes(env.codec, cs)]))
  {
    hide Enabled, Do, ReadsBack, PutChunk;
    if cs == [] {
      NoStores(env, world, r, id);
    } else {
      var n := |cs| - 1;
      var before := StoreAll(env, r.t, cs[..n], on, now, stamp).t;
      var m := r.(t := before, active := r.active[id := r.active[id] + Hashes(env.codec, cs[..n])]);
      StoresRun(env, world, r, id, cs[..n], on, now, stamp);
      OneStore(env, world, m, id, cs[n], on, now, stamp);
      RunsAppend(env, world, r, Stores(id, cs[..n], on, now, stamp), m, Store(id, cs[n], on, now, stamp, Done));
      HashesAppend(env.codec, cs[..n], cs[n]);
      assert cs[..n] + [cs[n]] == cs;
      hide Hashes;
      assert r.active[id] + Hashes(env.codec, cs[..n]) + {env.codec.sha(cs[n])} == r.active[id] + Hashes(env.codec, cs);
      assert m.active[id := r.active[id] + Hashes(env.codec, cs)] == r.active[id := r.active[id] + Hashes(env.codec, cs)];
    }
  }

  lemma NoStores(env: Env, world: iset<Bytes>, r: Repo, id: nat)
    requires id in r.active
    ensures Runs(env, world, r, [], r.(t := r.t, active := r.active[id := r.active[id] + Hashes(env.codec, [])]))
  {
    assert r.active[id] + Hashes(env.codec, []) == r.active[id];
    assert r.active[id := r.active[id]] == r.active;
  }

  lemma OneStore(env: Env, world: iset<Bytes>, r: Repo, id: nat, d: Bytes, on: bool, now: int, stamp: Option<int>)
    requires id in r.active && d in world && |d| <= CHUNK_SIZE && ReadsBack(env.codec, on, d)
    ensures var op := Store(id, d, on, now, stamp, Done);
            && Enabled(env, world, r, op)
            && Do(env, r, op) == r.(t := PutChunk(env, r.t, d, on, now, stamp).t, active := r.active[id := r.active[id] + {env.codec.sha(d)}])
  {
  }

  /** The objects a finished run leaves on a target without stale rows: the old ones and the stream's chunks. */
  lemma LeftObjects(cfg: Pipeline.Config, run: seq<Pipeline.Step>, s: Pipeline.State, env: Env, h: Sha)
    requires PipelineTheorems.Finishes(cfg, run, s) && Pipeline.Returned(s).Ok? && s.out.skipped == {}
    requires cfg.chunkSize == CHUNK_SIZE && cfg.codec == env.codec && Pipeline.Stale(cfg) == {}
    ensures var all := Split(cfg.data, CHUNK_SIZE);
            && (h in s.eng.objects <==> h in cfg.objects || h in Hashes(cfg.codec, all))
            && (h in cfg.objects ==> s.eng.objects[h] == cfg.objects[h])
            && (h in s.eng.objects && h !in cfg.objects ==> BodyOf(env, cfg.compress, all, h, s.eng.objects[h]))
  {
    hide Pipeline.Exec, Split, Stored;
    var all := Split(cfg.data, CHUNK_SIZE);
    PipelineTheorems.BackupStreamStores(cfg, run, s);
    if h in s.eng.objects && h !in cfg.objects {
      var i :| 0 <= i < |all| && PipelineCoalescing.UploadedAs(cfg, all[i], s.eng, h);
    }
    if h in Hashes(cfg.codec, all) {
      var i :| 0 <= i < |all| && cfg.codec.sha(all[i]) == h;
      PipelineTheorems.BackupStreamDelivers(cfg, run, s);
      assert Pipeline.Refs(cfg.codec, all)[i] in Pipeline.Returned(s).value.chunks;
    }
  }

  /** Stored forms of chunks in play with one hash are the same. */
  lemma OneBody(env: Env, world: iset<Bytes>, on: bool, cs: seq<Bytes>, h: Sha, a: Bytes, b: Bytes)
    requires CollisionFree(env.codec, world) && forall i :: 0 <= i < |cs| ==> cs[i] in world
    requires BodyOf(env, on, cs, h, a) && BodyOf(env, on, cs, h, b)
    ensures a == b
  {
    hide Stored;
    var i :| 0 <= i < |cs| && env.codec.sha(cs[i]) == h && a == Stored(env.codec, on, cs[i]);
    var j :| 0 <= j < |cs| && env.codec.sha(cs[j]) == h && b == Stored(env.codec, on, cs[j]);
    assert cs[i] == cs[j];
  }

  /** On a target without stale rows, a finished run and storing its chunks one after the other leave the same objects. */
  lemma SameObjects(cfg: Pipeline.Config, run: seq<Pipeline.Step>, s: Pipeline.State, env: Env, world: iset<Bytes>, t: Target,
                    now: int, stamp: Option<int>)
    requires PipelineTheorems.Finishes(cfg, run, s) && Pipeline.Returned(s).Ok? && s.out.skipped == {}
    requires RunsOn(cfg, env, t) && IndexBacked(t)
    requires CollisionFree(env.codec, world) && InWorld(world, cfg.data)
    ensures Leaves(StoreAll(env, t, Split(cfg.data, CHUNK_SIZE), cfg.compress, now, stamp).t.blobs, s)
  {
    hide Pipeline.Exec, Split, StoreAll, Stored, ChunkKey, BodyOf, Hashes, CollisionFree, IsChunkKey, ShaOfKey;
    var all := Split(cfg.data, CHUNK_SIZE);
    var u := StoreAll(env, t, all, cfg.compress, now, stamp);
    var blobs := u.t.blobs;
    SplitShape(cfg.data, CHUNK_SIZE);
    StoreAllUploads(env, t, all, cfg.compress, now, stamp);
    forall h
      ensures ChunkKey(h) in blobs <==> h in s.eng.objects
      ensures h in s.eng.objects ==> blobs[ChunkKey(h)].body == s.eng.objects[h]
    {
      LeftObjects(cfg, run, s, env, h);
      if h in s.eng.objects && h !in cfg.objects {
        StoreAllBodies(env, t, all, cfg.compress, now, stamp, h);
        OneBody(env, world, cfg.compress, all, h, blobs[ChunkKey(h)].body, s.eng.objects[h]);
      }
    }
    ObjectsAre(blobs, s.eng.objects);
  }

  lemma ObjectsAre(blobs: map<string, Blob>, m: map<Sha, Bytes>)
    requires forall h :: ChunkKey(h) in blobs <==> h in m
    requires forall h :: h in m ==> blobs[ChunkKey(h)].body == m[h]
    ensures ObjectsOf(blobs) == m
  {
  }

  /** So do they the same index. */
  lemma SameIndex(cfg: Pipeline.Config, run: seq<Pipeline.Step>, s: Pipeline.State, env: Env, t: Target, now: int, stamp: Option<int>)
    requires PipelineTheorems.Finishes(cfg, run, s) && Pipeline.Returned(s).Ok? && s.out.skipped == {}
    requires RunsOn(cfg, env, t)
    ensures StoreAll(env, t, Split(cfg.data, CHUNK_SIZE), cfg.compress, now, stamp).t.index.Keys == s.eng.index
  {
    hide Pipeline.Exec, Split, StoreAll, Hashes;
    SplitShape(cfg.data, CHUNK_SIZE);
    StoreAllUploads(env, t, Split(cfg.data, CHUNK_SIZE), cfg.compress, now, stamp);
    PipelineOutcome.BackupStreamIndexes(cfg, run, s);
  }

  /** The operations of a backup run of one stream. */
  function BackupOps(id: nat, kind: string, source: string, point: string, cs: seq<Bytes>, on: bool, now: int, stamp: Option<int>,
                     m: Manifest, stream: Bytes): seq<Op> {
    [Begin(id)] + Stores(id, cs, on, now, stamp) + [WriteManifest(id, kind, source, point, m, [stream])] + [End(id)]
  }

  lemma BackupRuns(env: Env, world: iset<Bytes>, r: Repo, id: nat, kind: string, source: string, point: string, stream: Bytes,
                   on: bool, now: int, stamp: Option<int>)
    requires id !in r.active && InWorld(world, stream)
    requires forall i :: 0 <= i < |Split(stream, CHUNK_SIZE)| ==> ReadsBack(env.codec, on, Split(stream, CHUNK_SIZE)[i])
    ensures var cs := Split(stream, CHUNK_SIZE);
            var m := Manifest([DiskOf(env, stream)]);
            var t' := StoreAll(env, r.t, cs, on, now, stamp).t;
            var key := ManifestKey(kind, source, point);
            Runs(env, world, r, BackupOps(id, kind, source, point, cs, on, now, stamp, m, stream),
                 Repo(t'.(blobs := t'.blobs[key := Blob(env.encode(m), None)]), r.active, r.origin[key := [stream]]))
  {
    var cs := Split(stream, CHUNK_SIZE);
    var m := Manifest([DiskOf(env, stream)]);
    SplitShape(stream, CHUNK_SIZE);
    var r1 := r.(active := r.active[id := {}]);
    var r2 := r1.(t := StoreAll(env, r.t, cs, on, now, stamp).t, active := r1.active[id := {} + Hashes(env.codec, cs)]);
    StoresRun(env, world, r1, id, cs, on, now, stamp);
    BeginFirst(env, world, r, id, Stores(id, cs, on, now, stamp), r2);
    var write := WriteManifest(id, kind, source, point, m, [stream]);
    ManifestIsEnabled(env, world, r2, id, kind, source, point, stream);
    RunsAppend(env, world, r, [Begin(id)] + Stores(id, cs, on, now, stamp), r2, write);
    var r3 := Do(env, r2, write);
    RunsAppend(env, world, r, [Begin(id)] + Stores(id, cs, on, now, stamp) + [write], r3, End(id));
    assert r.active[id := {}][id := {} + Hashes(env.codec, cs)] - {id} == r.active;
  }

  lemma BeginFirst(env: Env, world: iset<Bytes>, r: Repo, id: nat, ops: seq<Op>, r': Repo)
    requires id !in r.active && Runs(env, world, r.(active := r.active[id := {}]), ops, r')
    ensures Runs(env, world, r, [Begin(id)] + ops, r')
  {
    assert ([Begin(id)] + ops)[1..] == ops;
  }

  /** A run that knows the chunks of a stream stored may write its manifest. */
  lemma ManifestIsEnabled(env: Env, world: iset<Bytes>, r: Repo, id: nat, kind: string, source: string, point: string, stream: Bytes)
    requires id in r.active && InWorld(world, stream) && Hashes(env.codec, Split(stream, CHUNK_SIZE)) <= r.active[id]
    ensures Enabled(env, world, r, WriteManifest(id, kind, source, point, Manifest([DiskOf(env, stream)]), [stream]))
  {
    var m := Manifest([DiskOf(env, stream)]);
    var cs := Split(stream, CHUNK_SIZE);
    forall sha | Mentions(m, sha)
      ensures sha in r.active[id]
    {
      var d, i :| 0 <= d < |m.disks| && 0 <= i < |m.disks[d].chunks| && m.disks[d].chunks[i].sha == sha;
      assert m.disks[d].chunks[i] == Pipeline.Ref(env.codec, cs[i]);
      assert env.codec.sha(cs[i]) in Hashes(env.codec, cs);
    }
  }

  /**
   * A finished run of the pipeline on a sound repository is a run of the machine:
   * its chunks stored, then its manifest written.  It ends with the objects and
   * the index the pipeline left, the manifest it returned and everything else as it
   * was, so `EveryPointRestores` is about what the pipeline backs up.
   */
  lemma PipelineRunIsARun(cfg: Pipeline.Config, run: seq<Pipeline.Step>, s: Pipeline.State, env: Env, world: iset<Bytes>,
                          r: Repo, id: nat, kind: string, source: string, point: string, now: int, stamp: Option<int>)
    returns (ops: seq<Op>, r': Repo)
    requires LawfulEnv(env) && Sound(env, world, r) && id !in r.active
    requires CollisionFree(env.codec, world) && InWorld(world, cfg.data)
    requires RunsOn(cfg, env, r.t)
    requires PipelineTheorems.Finishes(cfg, run, s) && Pipeline.Returned(s).Ok? && s.out.skipped == {}
    requires forall i :: 0 <= i < |Split(cfg.data, CHUNK_SIZE)| ==> ReadsBack(env.codec, cfg.compress, Split(cfg.data, CHUNK_SIZE)[i])
    ensures Runs(env, world, r, ops, r') && r'.active == r.active
    ensures Leaves(r'.t.blobs, s) && r'.t.index.Keys == s.eng.index
    ensures var key := ManifestKey(kind, source, point);
            && key in r'.t.blobs && env.decode(r'.t.blobs[key].body) == Some(Manifest([Pipeline.Returned(s).value]))
    ensures r'.origin == r.origin[ManifestKey(kind, source, point) := [cfg.data]]
    ensures forall k :: k in r.t.blobs && k != ManifestKey(kind, source, point) ==> k in r'.t.blobs && r'.t.blobs[k] == r.t.blobs[k]
  {
    SoundIsBacked(env, world, r);
    hide Sound, Runs, Pipeline.Exec, CollisionFree, InWorld, ReadsBack, StoreAll, IsManifestKey, ManifestKey, BackupOps, DiskOf, RunsOn;
    var key := ManifestKey(kind, source, point);
    ManifestKeyIsManifest(kind, source, point);
    var cs := Split(cfg.data, CHUNK_SIZE);
    var m := Manifest([DiskOf(env, cfg.data)]);
    var t' := StoreAll(env, r.t, cs, cfg.compress, now, stamp).t;
    ops := BackupOps(id, kind, source, point, cs, cfg.compress, now, stamp, m, cfg.data);
    r' := Repo(t'.(blobs := t'.blobs[key := Blob(env.encode(m), None)]), r.active, r.origin[key := [cfg.data]]);
    BackupRuns(env, world, r, id, kind, source, point, cfg.data, cfg.compress, now, stamp);
    SameObjects(cfg, run, s, env, world, r.t, now, stamp);
    SameIndex(cfg, run, s, env, r.t, now, stamp);
    SameCodec(cfg, env, r.t);
    DeliveredChunks(cfg, run, s, env, t'.blobs);
    OldBlobsStay(env, r.t, cfg.data, cfg.compress, now, stamp);
    ManifestIsNoChunk(t'.blobs, key, Blob(env.encode(m), None));
  }

  lemma SoundIsBacked(env: Env, world: iset<Bytes>, r: Repo)
    requires Sound(env, world, r)
    ensures IndexBacked(r.t)
  {
  }

  lemma SameCodec(cfg: Pipeline.Config, env: Env, t: Target)
    requires RunsOn(cfg, env, t)
    ensures cfg.codec == env.codec && cfg.chunkSize == CHUNK_SIZE
  {
  }

  lemma OldBlobsStay(env: Env, t: Target, stream: Bytes, on: bool, now: int, stamp: Option<int>)
    requires Lawful(env.codec)
    ensures var blobs := StoreAll(env, t, Split(stream, CHUNK_SIZE), on, now, stamp).t.blobs;
            forall k :: k in t.blobs ==> k in blobs && blobs[k] == t.blobs[k]
  {
    SplitShape(stream, CHUNK_SIZE);
    StoreAllUploads(env, t, Split(stream, CHUNK_SIZE), on, now, stamp);
  }

  lemma ManifestIsNoChunk(blobs: map<string, Blob>, key: string, b: Blob)
    requires IsManifestKey(key)
    ensures ObjectsOf(blobs[key := b]) == ObjectsOf(blobs)
  {
    forall h
      ensures ChunkKey(h) != key
    {
      KeySpaces(ChunkKey(h));
    }
  }
}
