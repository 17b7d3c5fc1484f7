/** The engine's loops over a target: collection, restore, verification, index rebuild. */
module TargetCode {
  import opened Base
  import opened ChunkFormat
  import opened Target

  datatype GcCounts = GcCounts(
    manifests: nat, scanned: nat, deleted: nat, freed: int,
    rowsDropped: nat, skipped: nat, skippedBytes: int)

  /** The chunk keys of a store. */
  function ChunkKeys(blobs: map<string, Blob>): set<string> {
    set k | k in blobs && IsChunkKey(k)
  }

  ghost function ManifestKeys(blobs: map<string, Blob>): set<string> {
    set k | k in blobs && IsManifestKey(k)
  }

  ghost function ReferencedKeys(env: Env, t: Target): set<string> {
    set k | k in ChunkKeys(t.blobs) && Referenced(env, t.blobs, ShaOfKey(k))
  }

  ghost function SparedKeys(env: Env, t: Target, grace: int, now: int): set<string> {
    set k | k in ChunkKeys(t.blobs) && !Referenced(env, t.blobs, ShaOfKey(k))
            && Recent(grace, now, ShaOfKey(k), t.index, t.blobs[k])
  }

  ghost function StaleRows(t: Target): set<Sha> {
    set h | h in t.index && ChunkKey(h) !in t.blobs
  }

  /** The stored bytes of a set of objects. */
  ghost function BytesOf(blobs: map<string, Blob>, keys: set<string>): int
    requires keys <= blobs.Keys
  {
    if keys == {} then 0 else
      var k :| k in keys;
      |blobs[k].body| + BytesOf(blobs, keys - {k})
  }

  lemma {:induction false} BytesOfRemove(blobs: map<string, Blob>, keys: set<string>, x: string)
    requires keys <= blobs.Keys && x in keys
    ensures BytesOf(blobs, keys) == |blobs[x].body| + BytesOf(blobs, keys - {x})
    decreases keys
  {
    var k :| k in keys && BytesOf(blobs, keys) == |blobs[k].body| + BytesOf(blobs, keys - {k});
    if k != x {
      BytesOfRemove(blobs, keys - {k}, x);
      BytesOfRemove(blobs, keys - {x}, k);
      assert keys - {k} - {x} == keys - {x} - {k};
    }
  }

  lemma ChunkKeysAreKeys(blobs: map<string, Blob>)
    ensures ChunkKeys(blobs) <= blobs.Keys
    ensures forall k :: k in ChunkKeys(blobs) ==> IsChunkKey(k)
  {
  }

  lemma NoBytes(blobs: map<string, Blob>)
    ensures BytesOf(blobs, {}) == 0 && Size({}) == 0
  {
  }

  /** What a successful pass reports about the target it started from. */
  ghost predicate Counts(env: Env, t: Target, grace: int, now: int, r: GcCounts) {
    && r.manifests == |ManifestKeys(t.blobs)|
    && r.scanned == |ChunkKeys(t.blobs)|
    && r.skipped == |SparedKeys(env, t, grace, now)|
    && r.skippedBytes == BytesOf(t.blobs, SparedKeys(env, t, grace, now))
    && r.deleted == |Doomed(env, t, grace, now)|
    && r.freed == BytesOf(t.blobs, Doomed(env, t, grace, now))
    && r.rowsDropped == |StaleRows(t)|
  }

  lemma Partition(env: Env, t: Target, grace: int, now: int)
    ensures ChunkKeys(t.blobs) == ReferencedKeys(env, t) + (SparedKeys(env, t, grace, now) + Doomed(env, t, grace, now))
    ensures ReferencedKeys(env, t) !! SparedKeys(env, t, grace, now) + Doomed(env, t, grace, now)
    ensures SparedKeys(env, t, grace, now) !! Doomed(env, t, grace, now)
  {
  }

  lemma DisjointSize<T>(a: set<T>, b: set<T>)
    requires a !! b
    ensures |a + b| == |a| + |b|
  {
  }

  /** Every chunk scanned is referenced, spared or deleted. */
  lemma ScannedAddsUp(env: Env, t: Target, grace: int, now: int, r: GcCounts)
    requires Counts(env, t, grace, now, r)
    ensures r.scanned == |ReferencedKeys(env, t)| + r.skipped + r.deleted
  {
    Partition(env, t, grace, now);
    DisjointSize(SparedKeys(env, t, grace, now), Doomed(env, t, grace, now));
    DisjointSize(ReferencedKeys(env, t), SparedKeys(env, t, grace, now) + Doomed(env, t, grace, now));
  }

  /** Some manifest among `keys` lists the hash. */
  ghost predicate ListedIn(env: Env, blobs: map<string, Blob>, keys: set<string>, sha: Sha) {
    exists k :: k in keys && k in blobs && RefersTo(env, blobs[k].body, sha)
  }

  lemma ListedInMore(env: Env, blobs: map<string, Blob>, keys: set<string>, k: string, sha: Sha)
    requires k in blobs
    ensures ListedIn(env, blobs, keys + {k}, sha) <==> ListedIn(env, blobs, keys, sha) || RefersTo(env, blobs[k].body, sha)
  {
    if ListedIn(env, blobs, keys, sha) {
      var j :| j in keys && j in blobs && RefersTo(env, blobs[j].body, sha);
      assert j in keys + {k};
    } else if RefersTo(env, blobs[k].body, sha) {
      assert k in keys + {k};
    }
  }

  lemma ListedInAll(env: Env, blobs: map<string, Blob>, sha: Sha)
    ensures ListedIn(env, blobs, ManifestKeys(blobs), sha) <==> Referenced(env, blobs, sha)
  {
    if Referenced(env, blobs, sha) {
      var k :| k in blobs && IsManifestKey(k) && RefersTo(env, blobs[k].body, sha);
      assert k in ManifestKeys(blobs);
    }
  }

  /** The hashes a manifest lists. */
  function MentionedBy(m: Manifest): (r: set<Sha>)
    ensures forall sha :: sha in r <==> Mentions(m, sha)
  {
    set d, i | 0 <= d < |m.disks| && 0 <= i < |m.disks[d].chunks| :: m.disks[d].chunks[i].sha
  }

  /** Moving one element between the two halves of a set. */
  lemma MoveOne<T>(todo: set<T>, done: set<T>, x: T)
    requires x in todo && todo !! done
    ensures (todo - {x}) + (done + {x}) == todo + done && todo - {x} !! done + {x}
    ensures |done + {x}| == |done| + 1 && |todo - {x}| < |todo|
  {
  }

  ghost function Size(keys: set<string>): nat {
    |keys|
  }

  lemma GrowOne(keys: set<string>, k: string)
    requires k !in keys
    ensures Size(keys + {k}) == Size(keys) + 1
  {
  }

  lemma NothingListed(env: Env, blobs: map<string, Blob>)
    ensures Size({}) == 0 && forall sha :: !ListedIn(env, blobs, {}, sha)
  {
  }

  /** Counting and totalling one more object. */
  lemma CountOne(blobs: map<string, Blob>, keys: set<string>, k: string)
    requires keys <= blobs.Keys && k in blobs && k !in keys
    ensures Size(keys + {k}) == Size(keys) + 1
    ensures BytesOf(blobs, keys + {k}) == BytesOf(blobs, keys) + |blobs[k].body|
  {
    BytesOfRemove(blobs, keys + {k}, k);
    assert keys + {k} - {k} == keys;
  }

  lemma RemoveOne<T>(blobs: map<string, T>, keys: set<string>, k: string)
    ensures blobs - keys - {k} == blobs - (keys + {k})
  {
  }

  lemma DropOne<T>(a: set<T>, todo: set<T>, x: T)
    requires x in todo
    ensures a - (todo - {x}) == if x in a then (a - todo) + {x} else a - todo
  {
  }

  /**
   * A pass cut short: some doomed objects gone, some rows of gone or missing
   * chunks dropped, and no row but `torn`'s outliving an object deleted here.
   */
  ghost predicate PartlyCollected(env: Env, t: Target, grace: int, now: int,
                                  gone: set<string>, dropped: set<Sha>, torn: Sha, t': Target) {
    && gone <= Doomed(env, t, grace, now)
    && (forall h :: h in dropped ==> ChunkKey(h) in gone || ChunkKey(h) !in t.blobs)
    && (forall k :: k in gone ==> ShaOfKey(k) in dropped || ShaOfKey(k) == torn)
    && t' == Target(t.blobs - gone, t.index - dropped)
  }

  /** No restore point's manifest is touched, nor any chunk that one lists. */
  ghost predicate KeepsPoints(env: Env, before: map<string, Blob>, after: map<string, Blob>) {
    && (forall kind, source, id :: ManifestKey(kind, source, id) in before ==>
          ManifestKey(kind, source, id) in after && after[ManifestKey(kind, source, id)] == before[ManifestKey(kind, source, id)])
    && (forall kind, source, id, sha :: Lists(env, before, kind, source, id, sha) && ChunkKey(sha) in before ==>
          ChunkKey(sha) in after && after[ChunkKey(sha)] == before[ChunkKey(sha)])
  }

  lemma PointsStay(env: Env, t: Target, grace: int, now: int)
    ensures forall gone :: gone <= Doomed(env, t, grace, now) ==> KeepsPoints(env, t.blobs, t.blobs - gone)
    ensures KeepsPoints(env, t.blobs, t.blobs)
  {
    ListedIsNotDoomed(env, t, grace, now);
    hide Doomed, Lists, ManifestKey, ChunkKey;
  }

  /**
   * The engine and its target.  Where a method takes `works`, it says that every
   * call on the store and the index succeeds; without it any of them may fail.
   */
  class TargetEngine {
    const env: Env
    const grace: int
    var blobs: map<string, Blob>
    var index: map<Sha, Row>

    ghost function View(): Target
      reads this
    {
      Target(blobs, index)
    }

    constructor (e: Env, g: int, t: Target)
      ensures env == e && View() == t && grace == g
    {
      env, grace, blobs, index := e, g, t.blobs, t.index;
    }

    /**
     * The hashes some manifest on the target lists.  A manifest that was listed
     * and has been pruned since is passed over; one that does not decode fails
     * the scan.
     */
    method ScanManifests(listed: set<string>, works: bool) returns (referenced: set<Sha>, scanned: nat, ok: bool)
      requires ManifestKeys(blobs) <= listed
      ensures ok ==> ManifestsReadable(env, blobs) && scanned == Size(ManifestKeys(blobs))
      ensures works && ManifestsReadable(env, blobs) ==> ok
      ensures ok ==> forall sha :: sha in referenced <==> Referenced(env, blobs, sha)
    {
      hide Size, IsManifestKey, ListedIn, MentionedBy;
      NothingListed(env, blobs);
      referenced, scanned, ok := {}, 0, true;
      var todo := set k | k in listed && IsManifestKey(k);
      ghost var done: set<string> := {};
      while todo != {}
        invariant done <= ManifestKeys(blobs) <= todo + done && todo !! done
        invariant forall k :: k in todo ==> IsManifestKey(k)
        invariant forall sha :: sha in referenced <==> ListedIn(env, blobs, done, sha)
        invariant forall k :: k in done ==> env.decode(blobs[k].body).Some?
        invariant scanned == Size(done)
        decreases todo
      {
        var k :| k in todo;
        var fails := Fails(works);
        if fails {
          return {}, scanned, false;  // the object could not be read
        }
        if k !in blobs {
          todo := todo - {k};
        } else {
          match env.decode(blobs[k].body)
          case None => return {}, scanned, false;
          case Some(m) =>
            forall sha
              ensures sha in referenced + MentionedBy(m) <==> ListedIn(env, blobs, done + {k}, sha)
            {
              ListedInMore(env, blobs, done, k, sha);
            }
            GrowOne(done, k);
            referenced := referenced + MentionedBy(m);
            todo, done := todo - {k}, done + {k};
            scanned := scanned + 1;
        }
      }
      assert done == ManifestKeys(blobs);
      forall sha
        ensures sha in referenced <==> Referenced(env, blobs, sha)
      {
        ListedInAll(env, blobs, sha);
      }
    }

    /** The second walk: which unreferenced chunks are old enough to go. */
    method ScanChunks(referenced: set<Sha>, now: int, counts0: GcCounts, works: bool) returns (doomed: set<string>, counts: GcCounts, ok: bool)
      requires forall sha :: sha in referenced <==> Referenced(env, blobs, sha)
      ensures works ==> ok
      ensures ok ==> doomed == Doomed(env, View(), grace, now)
      ensures ok ==> counts == counts0.(
                scanned := |ChunkKeys(blobs)|,
                skipped := |SparedKeys(env, View(), grace, now)|,
                skippedBytes := BytesOf(blobs, SparedKeys(env, View(), grace, now)))
    {
      var skipped, skippedBytes;
      doomed, skipped, skippedBytes, ok :=
        WalkChunks(referenced, now, works, Doomed(env, View(), grace, now), SparedKeys(env, View(), grace, now));
      counts := if ok then counts0.(scanned := |ChunkKeys(blobs)|, skipped := skipped, skippedBytes := skippedBytes) else counts0;
    }

    method WalkChunks(referenced: set<Sha>, now: int, works: bool, ghost allDoomed: set<string>, ghost allSpared: set<string>)
      returns (doomed: set<string>, skipped: nat, skippedBytes: int, ok: bool)
      requires allDoomed <= ChunkKeys(blobs) && allSpared <= ChunkKeys(blobs)
      requires forall k :: k in ChunkKeys(blobs) ==>
                 (k in allDoomed <==> ShaOfKey(k) !in referenced && !Recent(grace, now, ShaOfKey(k), index, blobs[k]))
      requires forall k :: k in ChunkKeys(blobs) ==>
                 (k in allSpared <==> ShaOfKey(k) !in referenced && Recent(grace, now, ShaOfKey(k), index, blobs[k]))
      ensures works ==> ok
      ensures ok ==> doomed == allDoomed && skipped == Size(allSpared) && skippedBytes == BytesOf(blobs, allSpared)
    {
      hide Recent, BytesOf, Size;
      ChunkKeysAreKeys(blobs);
      doomed, skipped, skippedBytes, ok := {}, 0, 0, true;
      NoBytes(blobs);
      var todo := ChunkKeys(blobs);
      ghost var spared: set<string> := {};
      while todo != {}
        invariant ok && todo <= ChunkKeys(blobs)
        invariant doomed == allDoomed - todo && spared == allSpared - todo
        invariant skipped == Size(spared) && skippedBytes == BytesOf(blobs, spared)
        decreases todo
      {
        var k :| k in todo;
        var fails := Fails(works);
        if fails {
          ok := false;  // the listing failed
          return;
        }
        var sha := ShaOfKey(k);
        var recent := Recent(grace, now, sha, index, blobs[k]);
        if sha !in referenced && recent {
          CountOne(blobs, spared, k);
          skipped, skippedBytes := skipped + 1, skippedBytes + |blobs[k].body|;
        }
        doomed := if sha !in referenced && !recent then doomed + {k} else doomed;
        spared := if sha !in referenced && recent then spared + {k} else spared;
        DropOne(allDoomed, todo, k);
        DropOne(allSpared, todo, k);
        todo := todo - {k};
      }
      assert allDoomed - {} == allDoomed && allSpared - {} == allSpared;
    }

    /**
     * Deletes the doomed objects and their rows, pair by pair.  When a call fails
     * half way, the pairs done are done, and at most one object has gone whose row
     * is still there.
     */
    method DeleteDoomed(doomed: set<string>, works: bool)
      returns (deleted: nat, freed: int, ok: bool, ghost gone: set<string>, ghost dropped: set<Sha>, ghost torn: Sha)
      requires forall k :: k in doomed ==> k in blobs && IsChunkKey(k)
      modifies this
      ensures works ==> ok
      ensures gone <= doomed && (ok ==> gone == doomed)
      ensures blobs == old(blobs) - gone && index == old(index) - dropped
      ensures forall h :: h in dropped ==> ChunkKey(h) in gone
      ensures forall k :: k in gone ==> ShaOfKey(k) in dropped || (!ok && ShaOfKey(k) == torn)
      ensures ok ==> deleted == Size(doomed) && freed == BytesOf(old(blobs), doomed)
    {
      hide ChunkKey, ShaOfKey, IsChunkKey, BytesOf, Size;
      deleted, freed, ok := 0, 0, true;
      gone, dropped, torn := {}, {}, "";
      NoBytes(blobs);
      var todo := doomed;
      while todo != {}
        invariant ok && todo + gone == doomed && todo !! gone
        invariant blobs == old(blobs) - gone && index == old(index) - dropped
        invariant forall h :: h in dropped ==> ChunkKey(h) in gone
        invariant forall k :: k in gone ==> ShaOfKey(k) in dropped
        invariant deleted == Size(gone) && freed == BytesOf(old(blobs), gone)
        decreases |todo|
      {
        var k :| k in todo;
        KeySpaces(k);
        CountOne(old(blobs), gone, k);
        RemoveOne(old(blobs), gone, k);
        RemoveOne(old(index), dropped, ShaOfKey(k));
        MoveOne(todo, gone, k);
        var size := |blobs[k].body|;
        var step := DeletePair(k, works);
        gone := if step >= 1 then gone + {k} else gone;
        dropped := if step == 2 then dropped + {ShaOfKey(k)} else dropped;
        if step < 2 {
          ok, torn := false, ShaOfKey(k);
          return;
        }
        deleted, freed := deleted + 1, freed + size;
        todo := todo - {k};
      }
    }

    /** The object first, then its row; either call may fail. */
    method DeletePair(k: string, works: bool) returns (step: nat)
      requires IsChunkKey(k)
      modifies this
      ensures step <= 2 && (works ==> step == 2)
      ensures blobs == if step >= 1 then old(blobs) - {k} else old(blobs)
      ensures index == if step == 2 then old(index) - {ShaOfKey(k)} else old(index)
    {
      var fails := Fails(works);
      if fails {
        return 0;
      }
      blobs := blobs - {k};
      fails := Fails(works);
      if fails {
        return 1;
      }
      index := index - {ShaOfKey(k)};
      return 2;
    }

    /** Drops the rows whose chunk was not in the listing. */
    method DropStaleRows(present: set<string>, rows: set<Sha>, works: bool) returns (count: nat, ok: bool, ghost dropped: set<Sha>)
      modifies this`index
      ensures works ==> ok
      ensures index == old(index) - dropped
      ensures forall h :: h in dropped ==> h in rows && ChunkKey(h) !in present
      ensures ok ==> count == Size(dropped) && forall h :: h in rows && ChunkKey(h) !in present ==> h in dropped
    {
      count, ok, dropped := 0, true, {};
      var todo := rows;
      ghost var done: set<Sha> := {};
      while todo != {}
        invariant ok && todo + done == rows && todo !! done
        invariant dropped <= done && forall h :: h in done ==> (h in dropped <==> ChunkKey(h) !in present)
        invariant index == old(index) - dropped
        invariant count == |dropped|
        decreases |todo|
      {
        var h :| h in todo;
        MoveOne(todo, done, h);
        if ChunkKey(h) !in present {
          var fails := Fails(works);
          if fails {
            ok := false;
            return;
          }
          RemoveOne(old(index), dropped, h);
          index := index - {h};
          count := count + 1;
          dropped := dropped + {h};
        }
        todo, done := todo - {h}, done + {h};
      }
    }

    /**
     * One garbage collection pass over an idle target.  A pass that succeeds does
     * exactly `Collected`; one that fails has removed at most doomed objects; a
     * manifest that does not decode stops it before anything is deleted.
     * `pruned` are manifests that were listed and are no longer there when read.
     */
    method Gc(now: int, pruned: set<string>, works: bool)
      returns (counts: GcCounts, ok: bool, ghost gone: set<string>, ghost dropped: set<Sha>, ghost torn: Sha)
      modifies this
      ensures ok ==> View() == Collected(env, old(View()), grace, now)
      ensures ok ==> Counts(env, old(View()), grace, now, counts)
      ensures works ==> (ok <==> ManifestsReadable(env, old(blobs)))
      ensures !ManifestsReadable(env, old(blobs)) ==> !ok && View() == old(View())
      ensures KeepsPoints(env, old(blobs), blobs)
      ensures !ok ==> PartlyCollected(env, old(View()), grace, now, gone, dropped, torn, View())
    {
      ghost var t := View();
      PointsStay(env, t, grace, now);
      hide KeepsPoints;
      counts := GcCounts(0, 0, 0, 0, 0, 0, 0);
      gone, dropped, torn := {}, {}, "";
      assert PartlyCollected(env, t, grace, now, gone, dropped, torn, t);
      var referenced, manifests, scanned := ScanManifests((set k | k in blobs && IsManifestKey(k)) + pruned, works);
      if !scanned {
        ok := false;
        return;
      }
      counts := counts.(manifests := manifests);
      var doomed;
      doomed, counts, ok := ScanChunks(referenced, now, counts, works);
      if !ok {
        return;
      }
      counts, ok, gone, dropped, torn := Sweep(doomed, now, counts, works);
    }

    /** The deletions of a pass: the doomed objects with their rows, then the rows without an object. */
    method Sweep(doomed: set<string>, now: int, counts0: GcCounts, works: bool)
      returns (counts: GcCounts, ok: bool, ghost gone: set<string>, ghost dropped: set<Sha>, ghost torn: Sha)
      requires doomed == Doomed(env, View(), grace, now)
      modifies this
      ensures works ==> ok
      ensures ok ==> View() == Collected(env, old(View()), grace, now)
      ensures ok ==> counts == counts0.(
                deleted := Size(doomed), freed := BytesOf(old(blobs), doomed), rowsDropped := Size(StaleRows(old(View()))))
      ensures blobs == old(blobs) - gone && gone <= doomed
      ensures !ok ==> PartlyCollected(env, old(View()), grace, now, gone, dropped, torn, View())
    {
      ghost var t := View();
      var indexed := index.Keys;
      var present := ChunkKeys(blobs);
      var deleted, freed;
      deleted, freed, ok, gone, dropped, torn := DeleteDoomed(doomed, works);
      counts := counts0.(deleted := deleted, freed := freed);
      if !ok {
        return;
      }
      var count;
      ghost var stale;
      count, ok, stale := DropStaleRows(present, indexed, works);
      counts := counts.(rowsDropped := count);
      FinishCollection(env, t, grace, now, dropped, stale, View(), ok);
      dropped := dropped + stale;
    }

    /**
     * The dedup check and upload of one chunk.  Any call may fail, before or after
     * taking effect: then nothing is reported stored, and what is left is the
     * target as it was, the object without its row, or both.
     */
    method StoreChunk(data: Bytes, on: bool, now: int, stamp: Option<int>, works: bool)
      returns (sha: Sha, uploaded: Option<nat>)
      modifies this
      ensures sha == env.codec.sha(data) && (works ==> uploaded.Some?)
      ensures uploaded.Some? ==> StoreResult(View(), uploaded.value) == PutChunk(env, old(View()), data, on, now, stamp)
      ensures uploaded.None? ==>
                var put := PutChunk(env, old(View()), data, on, now, stamp).t;
                View() == old(View()) || View() == Target(put.blobs, old(index)) || View() == put
    {
      sha := env.codec.sha(data);
      var fails := Fails(works);
      if fails {
        return sha, None;  // the index could not be asked
      }
      if sha in index {
        return sha, Some(0);
      }
      fails := Fails(works);
      if fails {
        return sha, None;  // the store could not be asked
      }
      if ChunkKey(sha) in blobs {
        var noted := Note(sha, |data|, now, works);
        return sha, if noted then Some(0) else None;
      }
      fails := Fails(works);
      if fails {
        return sha, None;  // the upload failed
      }
      var body := Stored(env.codec, on, data);
      blobs := blobs[ChunkKey(sha) := Blob(body, stamp)];
      fails := Fails(works);
      if fails {
        return sha, None;  // it took effect and was reported failed
      }
      var noted := Note(sha, |data|, now, works);
      return sha, if noted then Some(|body|) else None;
    }

    /** Records a chunk in the index; a call that fails may have taken effect. */
    method Note(sha: Sha, size: nat, now: int, works: bool) returns (ok: bool)
      modifies this`index
      ensures works ==> ok
      ensures ok ==> index == AddRow(old(index), sha, size, now)
      ensures !ok ==> index == old(index) || index == AddRow(old(index), sha, size, now)
    {
      var fails := Fails(works);
      if fails {
        return false;
      }
      index := AddRow(index, sha, size, now);
      fails := Fails(works);
      if fails {
        return false;
      }
      return true;
    }

    /**
     * Whether a chunk is there, repairing its index row from the object when the
     * row is missing; None when a call failed.
     */
    method HasChunk(sha: Sha, now: int, works: bool) returns (has: Option<bool>)
      modifies this`index
      ensures works ==> has.Some?
      ensures has.Some? ==> (has.value <==> sha in old(index) || ChunkKey(sha) in blobs)
      ensures has.Some? && IndexBacked(old(View())) ==> (has.value <==> ChunkKey(sha) in blobs)
      ensures IndexBacked(old(View())) ==> IndexBacked(View())
      ensures has == Some(true) ==> sha in index
      ensures forall h :: h != sha || h in old(index) ==> (h in index <==> h in old(index))
      ensures forall h :: h in old(index) ==> index[h] == old(index)[h]
      ensures sha in index && sha !in old(index) ==> ChunkKey(sha) in blobs && index[sha] == Row(|blobs[ChunkKey(sha)].body|, Some(now))
    {
      var fails := Fails(works);
      if fails {
        return None;
      }
      if sha in index {
        return Some(true);
      }
      fails := Fails(works);
      if fails {
        return None;
      }
      if ChunkKey(sha) in blobs {
        var noted := Note(sha, |blobs[ChunkKey(sha)].body|, now, works);
        return if noted then Some(true) else None;
      }
      return Some(false);
    }

    /** Streams a disk out of the target; `out` is what reached the writer. */
    method RestoreDisk(dm: Disk, works: bool) returns (out: Bytes, r: Result<(), RestoreError>)
      ensures works && Restored(env, blobs, dm).Ok? ==> r.Ok?
      ensures r.Ok? ==> Restored(env, blobs, dm) == Ok(out)
      ensures r.Err? && r.error.Unreadable? ==> Restored(env, blobs, dm) == Err(r.error.why)
    {
      out, r := [], Ok(());
      for i := 0 to |dm.chunks|
        invariant ReadChunks(env, blobs, dm.chunks[..i]) == Ok(out)
      {
        assert dm.chunks[..i + 1][..i] == dm.chunks[..i];
        var fails := Fails(works);
        if fails {
          return out, Err(Interrupted);  // the context was cancelled or the writer failed
        }
        match ReadChunk(env, blobs, dm.chunks[i])
        case Err(e) =>
          ReadChunksFail(env, blobs, dm.chunks, i + 1, e);
          return out, Err(Unreadable(e));
        case Ok(data) => out := out + data;
      }
      assert dm.chunks[..|dm.chunks|] == dm.chunks;
      if dm.sizeBytes != 0 && |out| != dm.sizeBytes {
        return out, Err(Unreadable(SizeMismatch));
      }
    }

    /** Reads every disk of a restore point through the restore path, discarding the data. */
    method VerifyBackup(m: Manifest, works: bool) returns (r: Result<(), RestoreError>)
      ensures r.Ok? ==> m.disks != [] && forall d :: 0 <= d < |m.disks| ==> Restored(env, blobs, m.disks[d]).Ok?
      ensures works && m.disks != [] && (forall d :: 0 <= d < |m.disks| ==> Restored(env, blobs, m.disks[d]).Ok?) ==> r.Ok?
      ensures m.disks == [] ==> r == Err(Unreadable(NoDisks))
      ensures r.Err? && r.error.Unreadable? && m.disks != [] ==>
                exists d :: 0 <= d < |m.disks| && Restored(env, blobs, m.disks[d]).Err?
    {
      if m.disks == [] {
        return Err(Unreadable(NoDisks));
      }
      for d := 0 to |m.disks|
        invariant forall j :: 0 <= j < d ==> Restored(env, blobs, m.disks[j]).Ok?
      {
        var _, one := RestoreDisk(m.disks[d], works);
        if one.Err? {
          return one;
        }
      }
      return Ok(());
    }

    /**
     * Rebuilds the index from the objects present: every chunk gets a row, rows
     * already there keep their age.  A rebuild that fails half way has added rows
     * of objects only.
     */
    method SyncChunkIndex(now: int, works: bool) returns (n: nat, ok: bool)
      modifies this`index
      ensures works ==> ok
      ensures n == if ok then Size(ChunkKeys(blobs)) else 0
      ensures forall h :: h in old(index) ==> h in index
      ensures forall h :: h in index ==> h in old(index) || ChunkKey(h) in blobs
      ensures forall h :: h in index ==> index[h].added == if h in old(index) then old(index)[h].added else Some(now)
      ensures forall h :: h in old(index) && ChunkKey(h) !in blobs ==> index[h] == old(index)[h]
      ensures ok ==> forall h :: ChunkKey(h) in blobs ==> h in index && index[h].size == |blobs[ChunkKey(h)].body|
    {
      hide Size, Synced, ShaOfKey;
      n := 0;
      NoRowsYet(index, blobs, now);
      ChunkKeysAreKeys(blobs);
      var todo := ChunkKeys(blobs);
      ghost var done: set<string> := {};
      while todo != {}
        invariant todo + done == ChunkKeys(blobs) && todo !! done && n == Size(done)
        invariant done <= blobs.Keys && index == Synced(old(index), blobs, done, now)
        decreases todo
      {
        var k :| k in todo;
        OneMoreRow(old(index), blobs, done, now, k);
        GrowOne(done, k);
        var fails := Fails(works);
        if fails {
          assert done <= ChunkKeys(blobs);
          PartlySynced(old(index), blobs, done, now);
          return 0, false;  // the listing stopped
        }
        var noted := Note(ShaOfKey(k), |blobs[k].body|, now, works);
        if !noted {
          PartlySynced(old(index), blobs, done, now);
          PartlySynced(old(index), blobs, done + {k}, now);
          return 0, false;
        }
        n := n + 1;
        todo, done := todo - {k}, done + {k};
      }
      assert done == ChunkKeys(blobs);
      PartlySynced(old(index), blobs, done, now);
      AllSynced(old(index), blobs, now);
      return n, true;
    }
  }

  /** The index once the objects of some chunks have been recorded in it. */
  ghost function Synced(index: map<Sha, Row>, blobs: map<string, Blob>, done: set<string>, now: int): map<Sha, Row>
    requires done <= blobs.Keys
  {
    map h | h in index.Keys + (set k | k in done && IsChunkKey(k) :: ShaOfKey(k)) ::
      if ChunkKey(h) in done then Row(|blobs[ChunkKey(h)].body|, if h in index then index[h].added else Some(now))
      else if h in index then index[h] else Row(0, None)
  }

  lemma SyncedRows(index: map<Sha, Row>, blobs: map<string, Blob>, done: set<string>, now: int)
    requires done <= blobs.Keys
    ensures forall h :: h in Synced(index, blobs, done, now) <==> h in index || ChunkKey(h) in done
  {
    KeySpaces("");
    forall k | k in done && IsChunkKey(k)
      ensures ChunkKey(ShaOfKey(k)) == k
    {
      KeySpaces(k);
    }
    forall h | ChunkKey(h) in done
      ensures h in Synced(index, blobs, done, now)
    {
      assert IsChunkKey(ChunkKey(h)) && ShaOfKey(ChunkKey(h)) == h;
    }
  }

  lemma NoRowsYet(index: map<Sha, Row>, blobs: map<string, Blob>, now: int)
    ensures Synced(index, blobs, {}, now) == index && Size({}) == 0
  {
    SyncedRows(index, blobs, {}, now);
  }

  lemma OneMoreRow(index: map<Sha, Row>, blobs: map<string, Blob>, done: set<string>, now: int, k: string)
    requires done <= blobs.Keys && k in blobs && IsChunkKey(k) && k !in done
    ensures Synced(index, blobs, done + {k}, now) == AddRow(Synced(index, blobs, done, now), ShaOfKey(k), |blobs[k].body|, now)
  {
    KeySpaces(k);
    SyncedRows(index, blobs, done, now);
    SyncedRows(index, blobs, done + {k}, now);
    hide IsChunkKey;
    forall h | h in Synced(index, blobs, done + {k}, now)
      ensures h != ShaOfKey(k) ==> (ChunkKey(h) in done + {k} <==> ChunkKey(h) in done)
    {
      KeySpaces(ChunkKey(h));
    }
  }

  lemma PartlySynced(index: map<Sha, Row>, blobs: map<string, Blob>, done: set<string>, now: int)
    requires done <= ChunkKeys(blobs)
    ensures var index' := Synced(index, blobs, done, now);
            && (forall h :: h in index ==> h in index')
            && (forall h :: h in index' ==> h in index || ChunkKey(h) in blobs)
            && (forall h :: h in index' ==> index'[h].added == if h in index then index[h].added else Some(now))
            && (forall h :: h in index && ChunkKey(h) !in blobs ==> index'[h] == index[h])
  {
    SyncedRows(index, blobs, done, now);
  }

  lemma AllSynced(index: map<Sha, Row>, blobs: map<string, Blob>, now: int)
    ensures var index' := Synced(index, blobs, ChunkKeys(blobs), now);
            forall h :: ChunkKey(h) in blobs ==> h in index' && index'[h].size == |blobs[ChunkKey(h)].body|
  {
    KeySpaces("");
    SyncedRows(index, blobs, ChunkKeys(blobs), now);
  }

  datatype RestoreError = Interrupted | Unreadable(why: ReadError)

  /** A chunk that cannot be read fails every list that reaches it. */
  lemma {:induction false} ReadChunksFail(env: Env, blobs: map<string, Blob>, chunks: seq<Chunk>, n: nat, e: ReadError)
    requires 0 < n <= |chunks| && ReadChunks(env, blobs, chunks[..n - 1]).Ok?
    requires ReadChunk(env, blobs, chunks[n - 1]) == Err(e)
    ensures ReadChunks(env, blobs, chunks) == Err(e)
    decreases |chunks|
  {
    if n == |chunks| {
      assert chunks[..n - 1] == chunks[..|chunks| - 1];
    } else {
      var front := chunks[..|chunks| - 1];
      assert front[..n - 1] == chunks[..n - 1];
      ReadChunksFail(env, blobs, front, n, e);
    }
  }

  /** The two index passes of a collection amount to keeping the rows of the chunks that stay. */
  lemma FinishCollection(env: Env, t: Target, grace: int, now: int, dropped: set<Sha>, stale: set<Sha>, t': Target, ok: bool)
    requires t' == Target(t.blobs - Doomed(env, t, grace, now), t.index - dropped - stale)
    requires forall h :: h in dropped ==> ChunkKey(h) in Doomed(env, t, grace, now)
    requires forall k :: k in Doomed(env, t, grace, now) ==> ShaOfKey(k) in dropped
    requires forall h :: h in stale ==> h in t.index && ChunkKey(h) !in ChunkKeys(t.blobs)
    requires ok ==> forall h :: h in t.index && ChunkKey(h) !in ChunkKeys(t.blobs) ==> h in stale
    ensures PartlyCollected(env, t, grace, now, Doomed(env, t, grace, now), dropped + stale, "", t')
    ensures ok ==> t' == Collected(env, t, grace, now) && stale == StaleRows(t)
  {
    KeySpaces("");
    assert t.index - dropped - stale == t.index - (dropped + stale);
    if ok {
      forall h | h in t.index
        ensures h in t'.index <==> h in Collected(env, t, grace, now).index
      {
        assert ShaOfKey(ChunkKey(h)) == h;
      }
      assert t'.index == Collected(env, t, grace, now).index;
    }
  }
}
