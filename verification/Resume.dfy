/**
 * Storing chunks one after the other and collecting in between: what an upload
 * costs a restore, what a torn delete hides, what an interrupted run saves.
 */
module Resume {
  import opened Base
  import opened ChunkFormat
  import opened Target
  import opened TargetCode
  import Pipeline

  // ------------------------------------------------------------- one chunk

  /**
   * A chunk just uploaded reads back as itself exactly when its stored form does;
   * otherwise the read fails on the hash, and wrong bytes are never returned.
   */
  lemma UploadedChunkReadsBackIff(env: Env, t: Target, data: Bytes, on: bool, now: int, stamp: Option<int>)
    requires LawfulEnv(env) && |data| <= CHUNK_SIZE
    requires env.codec.sha(data) !in t.index && ChunkKey(env.codec.sha(data)) !in t.blobs
    requires CollisionFree(env.codec, iset{data, Decode(env.codec, Stored(env.codec, on, data))})
    ensures var t' := PutChunk(env, t, data, on, now, stamp).t;
            ReadChunk(env, t'.blobs, Pipeline.Chunk(env.codec.sha(data), |data|)) ==
            if ReadsBack(env.codec, on, data) then Ok(data) else Err(HashMismatch)
  {
    StoredDecodesIff(env.codec, on, data);
  }

  /** A row that has outlived its object. */
  predicate IsStale(t: Target, h: Sha) {
    h in t.index && ChunkKey(h) !in t.blobs
  }

  /** From any target, a chunk reported stored is there exactly when its row was not stale. */
  lemma StoredUnlessStale(env: Env, t: Target, data: Bytes, on: bool, now: int, stamp: Option<int>)
    ensures ChunkKey(env.codec.sha(data)) in PutChunk(env, t, data, on, now, stamp).t.blobs <==> !IsStale(t, env.codec.sha(data))
  {
  }

  /**
   * What a collection pass that fails can leave stale on a target that had no
   * stale row: the one row whose object it had just deleted, and no other.
   */
  lemma FailedPassLeavesOneStaleRow(env: Env, t: Target, grace: int, now: int, gone: set<string>, dropped: set<Sha>, torn: Sha, t': Target)
    requires IndexBacked(t) && PartlyCollected(env, t, grace, now, gone, dropped, torn, t')
    ensures forall h :: IsStale(t', h) <==> h == torn && h in t.index && h !in dropped && ChunkKey(h) in gone
  {
    forall h
      ensures IsStale(t', h) <==> h == torn && h in t.index && h !in dropped && ChunkKey(h) in gone
    {
      KeySpaces(ChunkKey(h));
    }
  }

  /**
   * A pass that deletes a doomed chunk and fails on its row leaves that row stale:
   * storing the content again uploads nothing and reports success, reading it
   * fails, and the next pass that succeeds sets it right.
   */
  lemma TornDeleteHidesAChunk(env: Env, t: Target, grace: int, now: int, data: Bytes, on: bool, stamp: Option<int>, later: int)
    requires env.codec.sha(data) in t.index && IsDoomed(env, t, grace, now, ChunkKey(env.codec.sha(data)))
    ensures var sha := env.codec.sha(data);
            var torn := Target(t.blobs - {ChunkKey(sha)}, t.index);
            && PartlyCollected(env, t, grace, now, {ChunkKey(sha)}, {}, sha, torn)
            && PutChunk(env, torn, data, on, now, stamp) == StoreResult(torn, 0)
            && ReadChunk(env, torn.blobs, Pipeline.Chunk(sha, |data|)) == Err(Missing)
            && !IsStale(Collected(env, torn, grace, later), sha)
            && ChunkKey(sha) in PutChunk(env, Collected(env, torn, grace, later), data, on, later, stamp).t.blobs
  {
    KeySpaces(ChunkKey(env.codec.sha(data)));
  }

  // ---------------------------------------------------- one after the other

  datatype Upload = Upload(t: Target, uploads: seq<Sha>)

  /** Storing a list of chunks one after the other, with the hashes uploaded on the way. */
  function StoreAll(env: Env, t: Target, cs: seq<Bytes>, on: bool, now: int, stamp: Option<int>): Upload {
    if cs == [] then Upload(t, []) else
      var n := |cs| - 1;
      var before := StoreAll(env, t, cs[..n], on, now, stamp);
      var r := PutChunk(env, before.t, cs[n], on, now, stamp);
      Upload(r.t, if r.uploaded > 0 then before.uploads + [env.codec.sha(cs[n])] else before.uploads)
  }

  predicate Storable(cs: seq<Bytes>) {
    forall i :: 0 <= i < |cs| ==> 0 < |cs[i]| <= CHUNK_SIZE
  }

  /**
   * What storing chunks with the hashes `hs` leaves: those neither indexed nor
   * there uploaded once each, all of them indexed, everything else as it was.
   */
  ghost predicate StoredFrom(t: Target, hs: set<Sha>, now: int, u: Upload) {
    UploadedFrom(t, hs, u) && IndexedFrom(t, hs, now, u.t.index)
  }

  ghost predicate UploadedFrom(t: Target, hs: set<Sha>, u: Upload) {
    && Distinct(u.uploads)
    && (forall h :: h in u.uploads <==> h in hs && h !in t.index && ChunkKey(h) !in t.blobs)
    && BlobsFrom(t.blobs, u.uploads, u.t.blobs)
  }

  /** The old objects, and those uploaded. */
  ghost predicate BlobsFrom(before: map<string, Blob>, uploads: seq<Sha>, blobs: map<string, Blob>) {
    && (forall h :: ChunkKey(h) in blobs <==> ChunkKey(h) in before || h in uploads)
    && (forall k :: k in before ==> k in blobs && blobs[k] == before[k])
    && (forall k :: k in blobs && !IsChunkKey(k) ==> k in before)
  }

  ghost predicate IndexedFrom(t: Target, hs: set<Sha>, now: int, index: map<Sha, Row>) {
    && (forall h :: h in index <==> h in t.index || h in hs)
    && (forall h :: h in t.index ==> index[h] == t.index[h])
    && (forall h :: h in index && h !in t.index ==> index[h].added == Some(now))
  }

  lemma SameKey(h: Sha, g: Sha)
    ensures ChunkKey(h) == ChunkKey(g) <==> h == g
  {
    KeySpaces(ChunkKey(h));
    assert ShaOfKey(ChunkKey(h)) == h && ShaOfKey(ChunkKey(g)) == g;
  }

  /** A chunk that is already indexed, or there without a row. */
  lemma FindOneMore(t: Target, hs: set<Sha>, now: int, u: Upload, sha: Sha, size: nat)
    requires StoredFrom(t, hs, now, u)
    ensures sha in u.t.index ==> StoredFrom(t, hs + {sha}, now, u)
    ensures sha !in u.t.index && ChunkKey(sha) in u.t.blobs ==>
              StoredFrom(t, hs + {sha}, now, Upload(u.t.(index := AddRow(u.t.index, sha, size, now)), u.uploads))
  {
    hide ChunkKey;
  }

  /** A chunk that has to be uploaded. */
  lemma UploadOneMore(t: Target, hs: set<Sha>, now: int, u: Upload, sha: Sha, size: nat, b: Blob)
    requires StoredFrom(t, hs, now, u) && ChunkKey(sha) !in u.t.blobs && sha !in u.t.index
    ensures StoredFrom(t, hs + {sha}, now,
              Upload(Target(u.t.blobs[ChunkKey(sha) := b], AddRow(u.t.index, sha, size, now)), u.uploads + [sha]))
  {
    KeySpaces(ChunkKey(sha));
    hide ChunkKey, IsChunkKey, UploadedFrom;
    var t' := Target(u.t.blobs[ChunkKey(sha) := b], AddRow(u.t.index, sha, size, now));
    PutOneMore(t, hs, u, sha, b, t');
  }

  lemma PutOneMore(t: Target, hs: set<Sha>, u: Upload, sha: Sha, b: Blob, t': Target)
    requires UploadedFrom(t, hs, u) && ChunkKey(sha) !in u.t.blobs && sha !in t.index && IsChunkKey(ChunkKey(sha))
    requires t'.blobs == u.t.blobs[ChunkKey(sha) := b]
    ensures UploadedFrom(t, hs + {sha}, Upload(t', u.uploads + [sha]))
  {
    OneMoreBlob(t.blobs, u.uploads, u.t.blobs, sha, b);
    hide ChunkKey, IsChunkKey, Distinct, BlobsFrom;
    OneMoreUpload(u.uploads, sha);
  }

  lemma OneMoreBlob(before: map<string, Blob>, uploads: seq<Sha>, blobs: map<string, Blob>, sha: Sha, b: Blob)
    requires BlobsFrom(before, uploads, blobs) && ChunkKey(sha) !in blobs && IsChunkKey(ChunkKey(sha))
    ensures BlobsFrom(before, uploads + [sha], blobs[ChunkKey(sha) := b])
    ensures sha !in uploads && ChunkKey(sha) !in before
  {
    hide ChunkKey, IsChunkKey;
    forall h
      ensures ChunkKey(h) == ChunkKey(sha) <==> h == sha
    {
      SameKey(h, sha);
    }
  }

  lemma OneMoreUpload(uploads: seq<Sha>, sha: Sha)
    requires Distinct(uploads) && sha !in uploads
    ensures Distinct(uploads + [sha])
  {
  }

  lemma StoreOneMore(env: Env, t: Target, hs: set<Sha>, on: bool, now: int, stamp: Option<int>, u: Upload, d: Bytes)
    requires Lawful(env.codec) && 0 < |d| <= CHUNK_SIZE && StoredFrom(t, hs, now, u)
    ensures var r := PutChunk(env, u.t, d, on, now, stamp);
            StoredFrom(t, hs + {env.codec.sha(d)}, now,
                       Upload(r.t, if r.uploaded > 0 then u.uploads + [env.codec.sha(d)] else u.uploads))
  {
    hide StoredFrom;
    var sha := env.codec.sha(d);
    StoredDecodesIff(env.codec, on, d);
    FindOneMore(t, hs, now, u, sha, |d|);
    if sha !in u.t.index && ChunkKey(sha) !in u.t.blobs {
      UploadOneMore(t, hs, now, u, sha, |d|, Blob(Stored(env.codec, on, d), stamp));
    }
  }

  lemma NothingStored(env: Env, t: Target, now: int)
    ensures StoredFrom(t, Hashes(env.codec, []), now, Upload(t, []))
  {
  }

  /** Storing a list, from any target. */
  lemma {:induction false} StoreAllUploads(env: Env, t: Target, cs: seq<Bytes>, on: bool, now: int, stamp: Option<int>)
    requires Lawful(env.codec) && Storable(cs)
    ensures StoredFrom(t, Hashes(env.codec, cs), now, StoreAll(env, t, cs, on, now, stamp))
  {
    hide StoredFrom, Hashes, PutChunk;
    if cs == [] {
      NothingStored(env, t, now);
    } else {
      var n := |cs| - 1;
      StoreAllUploads(env, t, cs[..n], on, now, stamp);
      HashesAppend(env.codec, cs[..n], cs[n]);
      assert cs[..n] + [cs[n]] == cs;
      StoreOneMore(env, t, Hashes(env.codec, cs[..n]), on, now, stamp, StoreAll(env, t, cs[..n], on, now, stamp), cs[n]);
    }
  }

  /** A row added is that of a chunk of the list: its own size, and the time of the run. */
  ghost predicate RowOf(env: Env, cs: seq<Bytes>, now: int, h: Sha, row: Row) {
    exists i :: 0 <= i < |cs| && env.codec.sha(cs[i]) == h && row == Row(|cs[i]|, Some(now))
  }

  /** Storing one chunk touches no row but its own, and that only if it had none. */
  lemma PutRow(env: Env, t: Target, d: Bytes, on: bool, now: int, stamp: Option<int>, h: Sha)
    ensures var index := PutChunk(env, t, d, on, now, stamp).t.index;
            && env.codec.sha(d) in index
            && (h in t.index ==> h in index && index[h] == t.index[h])
            && (h in index && h !in t.index ==> h == env.codec.sha(d) && index[h] == Row(|d|, Some(now)))
  {
  }

  lemma {:induction false} StoreAllRows(env: Env, t: Target, cs: seq<Bytes>, on: bool, now: int, stamp: Option<int>, h: Sha)
    ensures var index := StoreAll(env, t, cs, on, now, stamp).t.index;
            && (h in t.index ==> h in index && index[h] == t.index[h])
            && (h in index && h !in t.index ==> RowOf(env, cs, now, h, index[h]))
  {
    hide PutChunk;
    if cs != [] {
      var n := |cs| - 1;
      var before := StoreAll(env, t, cs[..n], on, now, stamp);
      StoreAllRows(env, t, cs[..n], on, now, stamp, h);
      PutRow(env, before.t, cs[n], on, now, stamp, h);
      if h in before.t.index && h !in t.index {
        var i :| 0 <= i < n && env.codec.sha(cs[..n][i]) == h && before.t.index[h] == Row(|cs[..n][i]|, Some(now));
        assert cs[i] == cs[..n][i];
      }
    }
  }

  /** What is uploaded is the stored form of a chunk of the list. */
  ghost predicate BodyOf(env: Env, on: bool, cs: seq<Bytes>, h: Sha, body: Bytes) {
    exists i :: 0 <= i < |cs| && env.codec.sha(cs[i]) == h && body == Stored(env.codec, on, cs[i])
  }

  lemma {:induction false} StoreAllBodies(env: Env, t: Target, cs: seq<Bytes>, on: bool, now: int, stamp: Option<int>, h: Sha)
    requires ChunkKey(h) in StoreAll(env, t, cs, on, now, stamp).t.blobs && ChunkKey(h) !in t.blobs
    ensures BodyOf(env, on, cs, h, StoreAll(env, t, cs, on, now, stamp).t.blobs[ChunkKey(h)].body)
    ensures StoreAll(env, t, cs, on, now, stamp).t.blobs[ChunkKey(h)].modified == stamp
  {
    if cs != [] {
      var n := |cs| - 1;
      var before := StoreAll(env, t, cs[..n], on, now, stamp);
      SameKey(h, env.codec.sha(cs[n]));
      if ChunkKey(h) in before.t.blobs {
        StoreAllBodies(env, t, cs[..n], on, now, stamp, h);
        var i :| 0 <= i < n && env.codec.sha(cs[..n][i]) == h && before.t.blobs[ChunkKey(h)].body == Stored(env.codec, on, cs[..n][i]);
        assert cs[i] == cs[..n][i];
      } else {
        assert env.codec.sha(cs[n]) == h;
      }
    }
  }

  // ------------------------------------------------------- interrupted runs

  /** Garbage collection passes at the given times. */
  ghost function CollectAll(env: Env, t: Target, grace: int, times: seq<int>): Target
    decreases times
  {
    if times == [] then t else CollectAll(env, Collected(env, t, grace, times[0]), grace, times[1..])
  }

  /** Listed by a manifest, or provably younger than the grace at every pass. */
  ghost predicate Protected(env: Env, t: Target, grace: int, times: seq<int>, h: Sha)
    requires ChunkKey(h) in t.blobs
  {
    || Referenced(env, t.blobs, h)
    || forall i :: 0 <= i < |times| ==> Recent(grace, times[i], h, t.index, t.blobs[ChunkKey(h)])
  }

  lemma {:induction false} CollectAllShrinks(env: Env, t: Target, grace: int, times: seq<int>)
    ensures forall k :: k in CollectAll(env, t, grace, times).blobs ==> k in t.blobs
    ensures forall h :: h in CollectAll(env, t, grace, times).index ==> h in t.index
    ensures times != [] || IndexBacked(t) ==> IndexBacked(CollectAll(env, t, grace, times))
    decreases times
  {
    if times != [] {
      CollectionIsExact(env, t, grace, times[0]);
      CollectAllShrinks(env, Collected(env, t, grace, times[0]), grace, times[1..]);
    }
  }

  /** One pass keeps a chunk exactly when it is protected then, and changes nothing about its protection later. */
  lemma OnePass(env: Env, t: Target, grace: int, times: seq<int>, h: Sha)
    requires times != [] && ChunkKey(h) in t.blobs
    ensures var t' := Collected(env, t, grace, times[0]);
            && (ChunkKey(h) !in t'.blobs ==> !Protected(env, t, grace, times, h))
            && (ChunkKey(h) in t'.blobs ==> (Protected(env, t', grace, times[1..], h) <==> Protected(env, t, grace, times, h)))
  {
    var t' := Collected(env, t, grace, times[0]);
    var b := t.blobs[ChunkKey(h)];
    CollectionIsExact(env, t, grace, times[0]);
    KeySpaces(ChunkKey(h));
    assert IsDoomed(env, t, grace, times[0], ChunkKey(h)) <==> !Referenced(env, t.blobs, h) && !Recent(grace, times[0], h, t.index, b);
    if ChunkKey(h) in t'.blobs {
      assert forall now :: Recent(grace, now, h, t'.index, b) <==> Recent(grace, now, h, t.index, b);
      hide Recent;
      LaterTimes(times);
      if Protected(env, t', grace, times[1..], h) && !Referenced(env, t.blobs, h) {
        forall i | 0 <= i < |times|
          ensures Recent(grace, times[i], h, t.index, b)
        {
          assert i > 0 ==> times[1..][i - 1] == times[i];
        }
      }
    }
  }

  lemma LaterTimes(times: seq<int>)
    requires times != []
    ensures forall i :: 0 <= i < |times[1..]| ==> times[1..][i] == times[i + 1]
  {
  }

  /** A chunk outlives any passes exactly when it is protected throughout. */
  lemma {:induction false} SurvivesIffProtected(env: Env, t: Target, grace: int, times: seq<int>, h: Sha)
    requires ChunkKey(h) in t.blobs
    ensures ChunkKey(h) in CollectAll(env, t, grace, times).blobs <==> Protected(env, t, grace, times, h)
    decreases times
  {
    if times != [] {
      var t' := Collected(env, t, grace, times[0]);
      OnePass(env, t, grace, times, h);
      hide Protected;
      if ChunkKey(h) in t'.blobs {
        SurvivesIffProtected(env, t', grace, times[1..], h);
      } else {
        CollectAllShrinks(env, t', grace, times[1..]);
      }
    }
  }

  /** What a later run takes to be on the target. */
  predicate Known(t: Target, h: Sha) {
    h in t.index || ChunkKey(h) in t.blobs
  }

  /** What is still taken to be there after the passes: everything if there were none, otherwise what is there and protected. */
  ghost predicate StillKnown(env: Env, t: Target, grace: int, times: seq<int>, h: Sha) {
    if times == [] then Known(t, h) else ChunkKey(h) in t.blobs && Protected(env, t, grace, times, h)
  }

  lemma KnownAfter(env: Env, t: Target, grace: int, times: seq<int>, h: Sha)
    ensures Known(CollectAll(env, t, grace, times), h) <==> StillKnown(env, t, grace, times, h)
  {
    CollectAllShrinks(env, t, grace, times);
    if ChunkKey(h) in t.blobs {
      SurvivesIffProtected(env, t, grace, times, h);
    }
  }

  /** A chunk an interrupted run uploaded is protected for one grace window from that moment. */
  lemma FreshUploadIsProtected(env: Env, t: Target, part: seq<Bytes>, on: bool, now: int, stamp: Option<int>,
                               grace: int, times: seq<int>, h: Sha)
    requires Lawful(env.codec) && Storable(part)
    requires h in Hashes(env.codec, part) && !Known(t, h)
    requires grace > 0 && forall i :: 0 <= i < |times| ==> times[i] < now + grace
    ensures var cut := StoreAll(env, t, part, on, now, stamp).t;
            ChunkKey(h) in cut.blobs && Protected(env, cut, grace, times, h)
  {
    StoreAllUploads(env, t, part, on, now, stamp);
    hide Hashes;
  }

  /**
   * A chunk the interrupted run merely found on the target is not: finding it
   * does not renew its row, so it outlives the passes exactly when it would have
   * without the run, by a manifest or by the age it already had.
   */
  lemma FoundChunkIsNotRenewed(env: Env, t: Target, d: Bytes, on: bool, now: int, stamp: Option<int>, grace: int, times: seq<int>)
    requires env.codec.sha(d) in t.index && ChunkKey(env.codec.sha(d)) in t.blobs
    ensures var h := env.codec.sha(d);
            var cut := StoreAll(env, t, [d], on, now, stamp).t;
            && ChunkKey(h) in cut.blobs
            && (ChunkKey(h) in CollectAll(env, cut, grace, times).blobs <==> Protected(env, t, grace, times, h))
  {
    assert [d][..0] == [];
    assert StoreAll(env, t, [], on, now, stamp) == Upload(t, []);
    assert StoreAll(env, t, [d], on, now, stamp).t == t;
    SurvivesIffProtected(env, t, grace, times, env.codec.sha(d));
  }
}
