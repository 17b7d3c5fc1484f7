/** The filesystem target's operations as they run, each a run of the crash-step machine. */
module FileStore {
  import opened Base
  import Text
  import opened FileKeys
  import opened FileDisk
  import opened FileSafety

  datatype Error = BadKey | NotFound | Unavailable | Failed

  /** The system call that fails during a write, if any; a short write leaves `n` bytes, a failed close acts like a failed rename. */
  datatype Fault = NoFault | CreateFails | WriteFails(n: nat) | SyncFails | RenameFails | DirSyncFails

  lemma {:induction false} RunsAppend(s: State, run: seq<Step>, m: State, step: Step)
    requires Runs(s, run, m) && Enabled(m, step)
    ensures Runs(s, run + [step], Do(m, step))
    decreases run
  {
    hide Do, Enabled;
    if run == [] {
      assert run + [step] == [step] && [step][1..] == [];
      assert Runs(Do(m, step), [], Do(m, step));
    } else {
      assert (run + [step])[1..] == run[1..] + [step];
      RunsAppend(Do(s, run[0]), run[1..], m, step);
    }
  }

  /** One more step of a run, and what it does at every path a key can have. */
  lemma Advance(s: State, run: seq<Step>, m: State, step: Step)
    requires Runs(s, run, m) && Inv(m) && Enabled(m, step)
    ensures Runs(s, run + [step], Do(m, step)) && Inv(Do(m, step))
    ensures forall p :: !IsTemp(p) ==> Moves(m, step, Do(m, step), p)
  {
    RunsAppend(s, run, m, step);
    InvStep(m, step);
    forall p | !IsTemp(p)
      ensures Moves(m, step, Do(m, step), p)
    {
      StepMoves(m, step, p);
    }
  }

  /** A path whose segments are names of directory entries. */
  predicate ProperPath(p: Path) {
    p != [] && forall i :: 0 <= i < |p| ==> '/' !in p[i]
  }

  function TempName(path: Path, unique: string): Path
    requires path != []
  {
    path[..|path| - 1] + [TMP_PREFIX + path[|path| - 1] + "-" + unique]
  }

  /** What a temporary entry that comes and goes does to the entries. */
  lemma EntryKeys(entries: map<Path, Inode>, path: Path, temp: Path, ino: Inode)
    requires temp !in entries
    ensures entries[temp := ino].Keys == entries.Keys + {temp}
    ensures entries[temp := ino] - {temp} == entries
    ensures temp != path ==> (entries[temp := ino][path := ino] - {temp}).Keys == entries.Keys + {path}
  {
  }

  lemma ProperTempName(path: Path, unique: string)
    requires ProperPath(path) && '/' !in unique
    ensures ProperPath(TempName(path, unique))
  {
    var name := TMP_PREFIX + path[|path| - 1] + "-" + unique;
    assert '/' !in TMP_PREFIX;
    assert '/' !in name;
  }

  lemma TempNameIsTemp(path: Path, unique: string)
    requires path != []
    ensures IsTemp(TempName(path, unique))
  {
    var name := TMP_PREFIX + path[|path| - 1] + "-" + unique;
    assert name[..|TMP_PREFIX|] == TMP_PREFIX;
  }

  class FileTarget {
    var disk: Disk
    var mounted: bool

    ghost predicate Valid()
      reads this
    {
      Inv(State(disk, map[])) && forall p :: p in disk.entries ==> ProperPath(p)
    }

    constructor ()
      ensures Valid() && mounted && disk == Disk(map[], map[], map[])
    {
      disk, mounted := Disk(map[], map[], map[]), true;
      new;
      EmptyIsOk();
    }

    /** A temporary file with the first `n` bytes in it. */
    method CreateAndWrite(path: Path, temp: Path, data: Bytes, ino: Inode, n: nat) returns (ghost taken: Taken)
      requires Inv(State(disk, map[])) && !IsTemp(path) && IsTemp(temp) && temp !in disk.entries && ino !in disk.files && n <= |data|
      modifies this`disk
      ensures TakenOk(old(disk), taken) && taken.now == State(disk, map[0 := Writer(path, temp, ino, data, false)])
      ensures disk.entries == old(disk.entries)[temp := ino] && ino in disk.files && disk.files[ino].data == data[..n]
      ensures SameViews(old(disk), disk) && Risks(old(disk), disk, path, Some(data))
    {
      hide Inv, Runs, View, Risks, SameViews;
      taken := Taken([], State(disk, map[]));
      StartsHere(disk);
      StepRisks(taken.now, Create(0, path, temp, ino, data), path, Some(data));
      disk := Changed(disk, temp, Some(ino)).(files := disk.files[ino := File([], false)]);
      taken := Took(old(disk), taken, Create(0, path, temp, ino, data));
      ghost var created := disk;
      StepRisks(taken.now, Write(0, n), path, Some(data));
      disk := disk.(files := disk.files[ino := File(data[..n], false)]);
      taken := Took(old(disk), taken, Write(0, n));
      SameViewsTwice(old(disk), created, disk);
      RisksTwice(old(disk), created, disk, path, Some(data));
    }

    /** The temporary file is removed again, unless that fails too: its error is ignored. */
    method Discard(temp: Path, stays: bool, ghost start: Disk, ghost before: Taken) returns (ghost taken: Taken)
      requires TakenOk(start, before) && SameViews(start, disk) && before.now.disk == disk && before.now.writers.Keys == {0}
      requires before.now.writers[0].temp == temp && Risks(start, disk, before.now.writers[0].dest, Some(before.now.writers[0].data))
      modifies this`disk
      ensures TakenOk(start, taken) && taken.now == State(disk, map[]) && SameViews(start, disk)
      ensures Risks(start, disk, before.now.writers[0].dest, Some(before.now.writers[0].data))
      ensures disk.entries == if stays then old(disk.entries) else old(disk.entries) - {temp}
    {
      hide Inv, Runs, View, Risks, SameViews;
      ghost var x := before.now.writers[0];
      StepRisks(before.now, if stays then GiveUp(0) else Abort(0), x.dest, Some(x.data));
      if stays {
        taken := Took(start, before, GiveUp(0));
      } else {
        disk := Changed(disk, temp, None);
        taken := Took(start, before, Abort(0));
      }
      SameViewsTwice(start, old(disk), disk);
      RisksTwice(start, old(disk), disk, x.dest, Some(x.data));
      assert before.now.writers - {0} == map[];
    }

    /**
     * Temporary file, write, sync, rename, directory sync; any of them may fail.
     * The file appears at its path whole or not at all, the temporary file is left
     * only when a failed write could not remove it (`stays`), and the steps taken
     * are a run of the machine.
     */
    method WriteFileAtomic(path: Path, data: Bytes, unique: string, ino: Inode, fault: Fault, stays: bool)
      returns (ok: bool, ghost run: seq<Step>)
      requires Valid() && path != [] && ProperPath(path) && !IsTemp(path) && '/' !in unique
      requires TempName(path, unique) !in disk.entries && ino !in disk.files
      modifies this`disk
      ensures Valid() && Runs(State(old(disk), map[]), run, State(disk, map[]))
      ensures ok <==> fault.NoFault? || fault.DirSyncFails?
      ensures forall p :: !IsTemp(p) ==> View(disk, p) == if ok && p == path then Some(data) else View(old(disk), p)
      ensures disk.entries.Keys == old(disk.entries).Keys
                + (if ok then {path} else if stays && !fault.CreateFails? then {TempName(path, unique)} else {})
      ensures Risks(old(disk), disk, path, Some(data))
      ensures fault.NoFault? ==> AfterCrash(disk, path) == {Some(data)}
    {
      hide Inv, Runs, View, ProperPath, TempName, IsTemp, Risks, AfterCrash;
      NoRisk(disk, path, Some(data));
      ProperTempName(path, unique);
      EntryKeys(disk.entries, path, TempName(path, unique), ino);
      ghost var start := disk;
      StartsHere(disk);
      if fault.CreateFails? {
        return false, [];
      }
      var temp := TempName(path, unique);
      TempNameIsTemp(path, unique);
      var n := if fault.WriteFails? then Min(fault.n, |data|) else |data|;
      ghost var taken := CreateAndWrite(path, temp, data, ino, n);
      if fault.WriteFails? || fault.SyncFails? {
        taken := Discard(temp, stays, start, taken);
        return false, taken.run;
      }
      ghost var written := disk;
      disk := disk.(files := disk.files[ino := File(data, true)]);
      StepRisks(taken.now, Flush(0), path, Some(data));
      taken := Took(start, taken, Flush(0));
      SameViewsTwice(start, written, disk);
      RisksTwice(start, written, disk, path, Some(data));
      if fault.RenameFails? {
        taken := Discard(temp, stays, start, taken);
        return false, taken.run;
      }
      taken := Publish(path, temp, data, ino, start, taken, fault.DirSyncFails?);
      return true, taken.run;
    }

    /** Rename onto the path, then flush the directory as best one can. */
    method Publish(path: Path, temp: Path, data: Bytes, ino: Inode, ghost start: Disk, ghost before: Taken, unsynced: bool)
      returns (ghost taken: Taken)
      requires TakenOk(start, before) && SameViews(start, disk) && path != [] && !IsTemp(path) && temp != path
      requires before.now == State(disk, map[0 := Writer(path, temp, ino, data, true)]) && Risks(start, disk, path, Some(data))
      modifies this`disk
      ensures TakenOk(start, taken) && taken.now == State(disk, map[])
      ensures disk.entries == old(disk.entries)[path := ino] - {temp}
      ensures forall p :: !IsTemp(p) ==> View(disk, p) == if p == path then Some(data) else View(start, p)
      ensures Risks(start, disk, path, Some(data))
      ensures !unsynced ==> AfterCrash(disk, path) == {Some(data)}
    {
      hide Inv, Runs, View, Risks, AfterCrash;
      StepRisks(before.now, Rename(0), path, Some(data));
      disk := Changed(Changed(disk, path, Some(ino)), temp, None);
      taken := Took(start, before, Rename(0));
      assert before.now.writers - {0} == map[];
      RisksTwice(start, old(disk), disk, path, Some(data));
      if !unsynced {
        ghost var renamed := disk;
        StepRisks(taken.now, FlushDir(path[..|path| - 1]), path, Some(data));
        var dir := path[..|path| - 1];
        disk := disk.(may := map p | p in disk.may :: if InDir(p, dir) then {Entry(disk.entries, p)} else disk.may[p]);
        taken := Took(start, taken, FlushDir(dir));
        RisksTwice(start, renamed, disk, path, Some(data));
      }
    }

    method Put(key: string, data: Bytes, unique: string, ino: Inode, fault: Fault, stays: bool)
      returns (r: Result<(), Error>, ghost run: seq<Step>)
      requires Valid() && ino !in disk.files && '/' !in unique
      requires RelPath(key).Some? && RelPath(key).value != [] ==> TempName(RelPath(key).value, unique) !in disk.entries
      modifies this`disk
      ensures Valid() && Runs(State(old(disk), map[]), run, State(disk, map[]))
      ensures r == if RelPath(key).None? then Err(BadKey) else if !mounted then Err(Unavailable)
                   else if fault.NoFault? || fault.DirSyncFails? then Ok(()) else Err(Failed)
      ensures r.Err? && r.error != Failed ==> disk == old(disk)
      ensures forall p :: !IsTemp(p) ==> View(disk, p) == if r.Ok? && RelPath(key) == Some(p) then Some(data) else View(old(disk), p)
      ensures RelPath(key).Some? ==> Risks(old(disk), disk, RelPath(key).value, Some(data))
      ensures r.Ok? && fault.NoFault? ==> AfterCrash(disk, RelPath(key).value) == {Some(data)}
    {
      hide Risks, AfterCrash;
      run := [];
      var path := CheckKey(key, false);
      if path.None? {
        return Err(BadKey), run;
      }
      KeysArePaths(key, path.value);
      KeysAreNotTemporary(key);
      NoRisk(disk, path.value, Some(data));
      if !mounted {
        return Err(Unavailable), run;
      }
      var ok;
      ok, run := WriteFileAtomic(path.value, data, unique, ino, fault, stays);
      return if ok then Ok(()) else Err(Failed), run;
    }

    /** The object at a key; `Failed` stands for any other error of the calls it makes. */
    method GetBytes(key: string, works: bool) returns (r: Result<Bytes, Error>)
      requires Valid()
      ensures works ==> r != Err(Failed)
      ensures RelPath(key).None? ==> r == Err(BadKey)
      ensures RelPath(key).Some? && !mounted ==> r == Err(Unavailable) || r == Err(Failed)
      ensures RelPath(key).Some? && mounted ==>
                var seen := View(disk, RelPath(key).value);
                r == Err(Failed) || r == if seen.Some? then Ok(seen.value) else Err(NotFound)
    {
      var path := CheckKey(key, false);
      if path.None? {
        return Err(BadKey);
      }
      var fails := Fails(works);
      if fails {
        return Err(Failed);
      }
      if !mounted {
        return Err(Unavailable);
      }
      if path.value in disk.entries {
        EntryHasFile(disk, path.value);
        return Ok(disk.files[disk.entries[path.value]].data);
      }
      return Err(NotFound);
    }

    /** The stored size, if the object is there. */
    method Head(key: string, works: bool) returns (r: Result<Option<nat>, Error>)
      requires Valid()
      ensures works ==> r != Err(Failed)
      ensures RelPath(key).None? ==> r == Err(BadKey)
      ensures RelPath(key).Some? && !mounted ==> r == Err(Unavailable) || r == Err(Failed)
      ensures RelPath(key).Some? && mounted ==>
                var seen := View(disk, RelPath(key).value);
                r == Err(Failed) || r == Ok(if seen.Some? then Some(|seen.value|) else None)
    {
      var data := GetBytes(key, works);
      if data.Err? {
        return if data.error == NotFound then Ok(None) else Err(data.error);
      }
      return Ok(Some(|data.value|));
    }

    method Delete(key: string, works: bool) returns (r: Result<(), Error>, ghost run: seq<Step>)
      requires Valid()
      modifies this`disk
      ensures Valid() && Runs(State(old(disk), map[]), run, State(disk, map[]))
      ensures RelPath(key).None? ==> r == Err(BadKey)
      ensures works ==> r != Err(Failed)
      ensures RelPath(key).Some? ==> r == Err(Failed) || r == if mounted then Ok(()) else Err(Unavailable)
      ensures forall p :: !IsTemp(p) ==> View(disk, p) == if r.Ok? && RelPath(key) == Some(p) then None else View(old(disk), p)
      ensures RelPath(key).Some? ==> Risks(old(disk), disk, RelPath(key).value, None)
    {
      hide Risks;
      run := [];
      ghost var s0 := State(disk, map[]);
      StartsHere(disk);
      var path := CheckKey(key, false);
      if path.None? {
        return Err(BadKey), run;
      }
      KeysAreNotTemporary(key);
      NoRisk(disk, path.value, None);
      var fails := Fails(works);
      if fails {
        return Err(Failed), run;
      }
      if !mounted {
        return Err(Unavailable), run;
      }
      if path.value in disk.entries {
        StepRisks(s0, Step.Delete(path.value), path.value, None);
        disk := Changed(disk, path.value, None);
        ghost var taken := Took(old(disk), Taken([], s0), Step.Delete(path.value));
        run := taken.run;
      }
      return Ok(()), run;
    }

    /** Every object under a prefix: exactly the keys there that have it, probe-named ones left out. */
    method Walk(prefix: string, works: bool) returns (r: Result<set<string>, Error>)
      requires Valid()
      ensures works ==> r != Err(Failed)
      ensures WalkRoot(prefix).None? ==> r == Err(BadKey)
      ensures WalkRoot(prefix).Some? && !mounted ==> r == Err(Unavailable) || r == Err(Failed)
      ensures WalkRoot(prefix).Some? && mounted ==> r.Ok? || r == Err(Failed)
      ensures r.Ok? ==> forall k :: RelPath(k).Some? ==>
                var p := RelPath(k).value;
                p != [] && (k in r.value <==> View(disk, p).Some? && HasPrefix(k, prefix) && !HasPrefix(p[|p| - 1], PROBE_PREFIX))
      ensures r.Ok? ==> forall k :: k in r.value ==> exists p :: p in disk.entries && !Hidden(p) && KeyOf(p) == k
    {
      var keys := WalkFiles(prefix, disk.entries.Keys);
      if keys.None? {
        return Err(BadKey);
      }
      var fails := Fails(works);
      if fails {
        return Err(Failed);
      }
      if !mounted {
        return Err(Unavailable);
      }
      WalkShows(disk, prefix, keys.value);
      return Ok(keys.value);
    }
  }

  /** The steps an operation has taken, and where they have led. */
  datatype Taken = Taken(run: seq<Step>, now: State)

  ghost predicate TakenOk(start: Disk, taken: Taken) {
    Runs(State(start, map[]), taken.run, taken.now) && Inv(taken.now)
  }

  ghost predicate SameViews(a: Disk, b: Disk) {
    forall p :: !IsTemp(p) ==> View(b, p) == View(a, p)
  }

  /** What a crash may leave of `b` it might have left of `a`, but for one object at one path. */
  ghost predicate Risks(a: Disk, b: Disk, path: Path, e: Option<Bytes>) {
    forall p :: !IsTemp(p) ==> AfterCrash(b, p) <= AfterCrash(a, p) + if p == path then {e} else {}
  }

  lemma NoRisk(d: Disk, path: Path, e: Option<Bytes>)
    ensures Risks(d, d, path, e)
  {
  }

  lemma RisksTwice(a: Disk, b: Disk, c: Disk, path: Path, e: Option<Bytes>)
    requires Risks(a, b, path, e) && Risks(b, c, path, e)
    ensures Risks(a, c, path, e)
  {
    hide AfterCrash;
  }

  /** A step that can bring one object to one path only. */
  lemma StepRisks(s: State, step: Step, path: Path, e: Option<Bytes>)
    requires Inv(s) && Enabled(s, step)
    requires forall w :: w in s.writers ==> s.writers[w].dest == path && Some(s.writers[w].data) == e
    requires step.Create? ==> step.dest == path && Some(step.data) == e
    requires step.Delete? ==> step.p == path && e == None
    ensures Risks(s.disk, Do(s, step).disk, path, e)
  {
    hide Inv, Do, AfterCrash, View;
    forall p | !IsTemp(p)
      ensures AfterCrash(Do(s, step).disk, p) <= AfterCrash(s.disk, p) + if p == path then {e} else {}
    {
      StepMoves(s, step, p);
    }
  }

  lemma StartsHere(d: Disk)
    requires Inv(State(d, map[]))
    ensures TakenOk(d, Taken([], State(d, map[]))) && Runs(State(d, map[]), [], State(d, map[]))
  {
  }

  lemma SameViewsTwice(a: Disk, b: Disk, c: Disk)
    requires SameViews(a, b) && SameViews(b, c)
    ensures SameViews(a, c)
  {
  }

  /** One more step taken; only a rename or a delete shows. */
  ghost method Took(start: Disk, before: Taken, step: Step) returns (taken: Taken)
    requires TakenOk(start, before) && Enabled(before.now, step) && !step.Crash?
    ensures taken == Taken(before.run + [step], Do(before.now, step)) && TakenOk(start, taken)
    ensures step.Create? || step.Write? || step.Flush? || step.Abort? || step.GiveUp? || step.FlushDir? ==> SameViews(before.now.disk, taken.now.disk)
    ensures step.Rename? ==>
              var x := before.now.writers[step.w];
              forall p :: !IsTemp(p) ==> View(taken.now.disk, p) == if p == x.dest then Some(x.data) else View(before.now.disk, p)
    ensures step.FlushDir? ==>
              forall p :: !IsTemp(p) && InDir(p, step.dir) ==> AfterCrash(taken.now.disk, p) == {View(taken.now.disk, p)}
    ensures step.Delete? ==>
              forall p :: !IsTemp(p) ==> View(taken.now.disk, p) == if p == step.p then None else View(before.now.disk, p)
  {
    hide Do, Inv, Runs, View, AfterCrash;
    Advance(State(start, map[]), before.run, before.now, step);
    taken := Taken(before.run + [step], Do(before.now, step));
  }

  lemma EntryHasFile(d: Disk, p: Path)
    requires DiskOk(d) && p in d.entries
    ensures d.entries[p] in d.files && View(d, p) == Some(d.files[d.entries[p]].data)
  {
    assert Entry(d.entries, p) in May(d.may, p);
  }

  lemma WalkShows(d: Disk, prefix: string, keys: set<string>)
    requires DiskOk(d) && WalkRoot(prefix).Some? && forall p :: p in d.entries ==> ProperPath(p)
    requires keys == set p | p in d.entries.Keys && Listed(prefix, WalkRoot(prefix).value, p) :: KeyOf(p)
    ensures forall k :: RelPath(k).Some? ==>
              var p := RelPath(k).value;
              p != [] && (k in keys <==> View(d, p).Some? && HasPrefix(k, prefix) && !HasPrefix(p[|p| - 1], PROBE_PREFIX))
  {
    forall k | RelPath(k).Some?
      ensures var p := RelPath(k).value;
              p != [] && (k in keys <==> View(d, p).Some? && HasPrefix(k, prefix) && !HasPrefix(p[|p| - 1], PROBE_PREFIX))
    {
      var p := RelPath(k).value;
      WalkListsExactly(prefix, k);
      KeysArePaths(k, p);
      if p in d.entries {
        EntryHasFile(d, p);
      }
      if k in keys {
        var q :| q in d.entries.Keys && Listed(prefix, WalkRoot(prefix).value, q) && KeyOf(q) == k;
        Text.SplitJoin(q, '/');
        Text.SplitJoin(p, '/');
        assert q == p;
      }
    }
  }
}
