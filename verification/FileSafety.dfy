/** What every step and every crash of a filesystem target keeps. */
module FileSafety {
  import opened Base
  import opened FileKeys
  import opened FileDisk

  /** What one step does to the object at a path. */
  ghost predicate Moves(s: State, step: Step, s': State, p: Path)
    requires Enabled(s, step)
  {
    && View(s'.disk, p) in AfterCrash(s'.disk, p)
    && AfterCrash(s'.disk, p) <= AfterCrash(s.disk, p) + Offered(s, p) + OfferedBy(step, p)
    && Offered(s', p) <= Offered(s, p) + OfferedBy(step, p)
    && (step.Crash? ==> View(s'.disk, p) in AfterCrash(s.disk, p))
    && (step.FlushDir? && InDir(p, step.dir) ==> AfterCrash(s'.disk, p) == {View(s'.disk, p)})
    && (step.Rename? && s.writers[step.w].dest == p ==> View(s'.disk, p) == Some(s.writers[step.w].data))
    && (step.Delete? && step.p == p ==> View(s'.disk, p) == None)
    && (!step.Crash? && !(step.Rename? && s.writers[step.w].dest == p) && !(step.Delete? && step.p == p) ==>
          View(s'.disk, p) == View(s.disk, p))
  }

  lemma ViewIsPossible(d: Disk, p: Path)
    requires DiskOk(d)
    ensures View(d, p) in AfterCrash(d, p)
  {
    assert Entry(d.entries, p) in May(d.may, p);
  }

  // --------------------------------------------------------------- invariants

  lemma ChangeKeepsDisk(d: Disk, p: Path, e: Option<Inode>)
    requires DiskOk(d) && (e.Some? ==> e.value in d.files && (IsTemp(p) || d.files[e.value].synced))
    ensures DiskOk(Changed(d, p, e))
  {
    var d' := Changed(d, p, e);
    forall q
      ensures Entry(d'.entries, q) in May(d'.may, q)
      ensures May(d'.may, q) == if q == p then May(d.may, q) + {e} else May(d.may, q)
    {
      assert Entry(d.entries, q) in May(d.may, q);
    }
  }

  lemma CreateKeeps(s: State, w: WriterId, dest: Path, temp: Path, ino: Inode, data: Bytes)
    requires Inv(s) && Enabled(s, Create(w, dest, temp, ino, data))
    ensures Inv(Do(s, Create(w, dest, temp, ino, data)))
  {
    var d := s.disk.(files := s.disk.files[ino := File([], false)]);
    assert DiskOk(d);
    ChangeKeepsDisk(d, temp, Some(ino));
    var s' := Do(s, Create(w, dest, temp, ino, data));
    assert s'.disk == Changed(d, temp, Some(ino));
    assert forall p :: Some(ino) !in May(s.disk.may, p);
  }

  /** Only a writer's own, unpublished file changes. */
  lemma FillKeeps(s: State, w: WriterId, f: File, x: Writer)
    requires Inv(s) && w in s.writers && (s.writers[w].flushed ==> f == s.disk.files[s.writers[w].ino])
    requires x == s.writers[w].(flushed := x.flushed) && (x.flushed ==> f == File(x.data, true))
    ensures Inv(State(s.disk.(files := s.disk.files[x.ino := f]), s.writers[w := x]))
  {
  }

  lemma RenameKeeps(s: State, w: WriterId)
    requires Inv(s) && Enabled(s, Rename(w))
    ensures Inv(Do(s, Rename(w)))
  {
    var x := s.writers[w];
    var d := Changed(s.disk, x.dest, Some(x.ino));
    ChangeKeepsDisk(s.disk, x.dest, Some(x.ino));
    ChangeKeepsDisk(d, x.temp, None);
  }

  lemma WriteKeeps(s: State, w: WriterId, n: nat)
    requires Inv(s) && Enabled(s, Write(w, n))
    ensures Inv(Do(s, Write(w, n)))
  {
    var x := s.writers[w];
    FillKeeps(s, w, File(x.data[..n], false), x);
    assert s.writers[w := x] == s.writers;
  }

  lemma FlushKeeps(s: State, w: WriterId)
    requires Inv(s) && Enabled(s, Flush(w))
    ensures Inv(Do(s, Flush(w)))
  {
    assert WriterOk(s.disk, s.writers[w]);
    FillKeeps(s, w, File(s.writers[w].data, true), s.writers[w].(flushed := true));
  }

  lemma AbortKeeps(s: State, w: WriterId)
    requires Inv(s) && w in s.writers
    ensures Inv(Do(s, Abort(w)))
  {
    ChangeKeepsDisk(s.disk, s.writers[w].temp, None);
  }

  lemma GiveUpKeeps(s: State, w: WriterId)
    requires Inv(s) && w in s.writers
    ensures Inv(Do(s, GiveUp(w)))
  {
  }

  lemma DeleteKeeps(s: State, p: Path)
    requires Inv(s) && !IsTemp(p)
    ensures Inv(Do(s, Delete(p)))
  {
    ChangeKeepsDisk(s.disk, p, None);
  }

  lemma FlushDirKeeps(s: State, dir: Path)
    requires Inv(s)
    ensures Inv(Do(s, FlushDir(dir)))
  {
    var d, d' := s.disk, Do(s, FlushDir(dir)).disk;
    forall p
      ensures May(d'.may, p) <= May(d.may, p) && Entry(d'.entries, p) in May(d'.may, p)
    {
      assert Entry(d.entries, p) in May(d.may, p);
    }
  }

  lemma CrashKeeps(s: State, left: map<Path, Inode>, torn: map<Inode, Bytes>)
    requires Inv(s) && Enabled(s, Crash(left, torn))
    ensures Inv(Do(s, Crash(left, torn)))
  {
    forall p | p in left
      ensures left[p] in s.disk.files
    {
      assert Entry(left, p) in May(s.disk.may, p);
    }
  }

  lemma InvStep(s: State, step: Step)
    requires Inv(s) && Enabled(s, step)
    ensures Inv(Do(s, step))
  {
    hide Inv, Changed;
    match step
    case Create(w, dest, temp, ino, data) => CreateKeeps(s, w, dest, temp, ino, data);
    case Write(w, n) => WriteKeeps(s, w, n);
    case Flush(w) => FlushKeeps(s, w);
    case Rename(w) => RenameKeeps(s, w);
    case Abort(w) => AbortKeeps(s, w);
    case GiveUp(w) => GiveUpKeeps(s, w);
    case Delete(p) => DeleteKeeps(s, p);
    case FlushDir(dir) => FlushDirKeeps(s, dir);
    case Crash(left, torn) => CrashKeeps(s, left, torn);
  }

  // ------------------------------------------------------- one step at a path

  /** Files a path may show keep their contents, so the path shows the same. */
  lemma SameFiles(d: Disk, d': Disk, p: Path)
    requires d'.may == d.may && d'.entries == d.entries && DiskOk(d)
    requires forall i :: Some(i) in May(d.may, p) ==> i in d'.files && d'.files[i].data == d.files[i].data
    ensures View(d', p) == View(d, p) && AfterCrash(d', p) == AfterCrash(d, p)
  {
    assert Entry(d.entries, p) in May(d.may, p);
    assert forall e :: e in May(d.may, p) ==> Shown(d', e) == Shown(d, e);
  }

  lemma ChangeShows(d: Disk, q: Path, e: Option<Inode>, p: Path)
    ensures p != q ==> View(Changed(d, q, e), p) == View(d, p) && AfterCrash(Changed(d, q, e), p) == AfterCrash(d, p)
    ensures p == q ==> View(Changed(d, q, e), p) == Shown(d, e) && AfterCrash(Changed(d, q, e), p) == AfterCrash(d, p) + {Shown(d, e)}
  {
    var d' := Changed(d, q, e);
    assert forall x :: Shown(d', x) == Shown(d, x);
    assert May(d'.may, p) == if p == q then May(d.may, p) + {e} else May(d.may, p);
  }

  lemma CreateMoves(s: State, step: Step, p: Path)
    requires Inv(s) && Enabled(s, step) && step.Create? && !IsTemp(p)
    ensures Moves(s, step, Do(s, step), p)
  {
    var d := s.disk.(files := s.disk.files[step.ino := File([], false)]);
    SameFiles(s.disk, d, p);
    ChangeShows(d, step.temp, Some(step.ino), p);
    ViewIsPossible(s.disk, p);
    assert Do(s, step).disk == Changed(d, step.temp, Some(step.ino));
  }

  lemma FillMoves(s: State, step: Step, p: Path)
    requires Inv(s) && Enabled(s, step) && (step.Write? || step.Flush?) && !IsTemp(p)
    ensures Moves(s, step, Do(s, step), p)
  {
    assert WriterOk(s.disk, s.writers[step.w]);
    SameFiles(s.disk, Do(s, step).disk, p);
    ViewIsPossible(s.disk, p);
  }

  lemma RenameMoves(s: State, w: WriterId, p: Path)
    requires Inv(s) && Enabled(s, Rename(w)) && !IsTemp(p)
    ensures Moves(s, Rename(w), Do(s, Rename(w)), p)
  {
    var x := s.writers[w];
    assert WriterOk(s.disk, x);
    var d := Changed(s.disk, x.dest, Some(x.ino));
    ChangeShows(s.disk, x.dest, Some(x.ino), p);
    ChangeShows(d, x.temp, None, p);
    ViewIsPossible(s.disk, p);
    assert x.dest == p ==> Some(x.data) in Offered(s, p);
  }

  lemma RemoveMoves(s: State, step: Step, p: Path)
    requires Inv(s) && Enabled(s, step) && (step.Abort? || step.GiveUp? || step.Delete?) && !IsTemp(p)
    ensures Moves(s, step, Do(s, step), p)
  {
    if step.Abort? {
      assert WriterOk(s.disk, s.writers[step.w]);
      ChangeShows(s.disk, s.writers[step.w].temp, None, p);
    } else if step.Delete? {
      ChangeShows(s.disk, step.p, None, p);
    }
    ViewIsPossible(s.disk, p);
  }

  lemma FlushDirMoves(s: State, dir: Path, p: Path)
    requires Inv(s) && !IsTemp(p)
    ensures Moves(s, FlushDir(dir), Do(s, FlushDir(dir)), p)
  {
    var d, d' := s.disk, Do(s, FlushDir(dir)).disk;
    assert Entry(d.entries, p) in May(d.may, p);
    assert forall e :: Shown(d', e) == Shown(d, e);
    assert May(d'.may, p) == if InDir(p, dir) then {Entry(d.entries, p)} else May(d.may, p);
    ViewIsPossible(s.disk, p);
  }

  lemma CrashMoves(s: State, left: map<Path, Inode>, torn: map<Inode, Bytes>, p: Path)
    requires Inv(s) && Enabled(s, Crash(left, torn)) && !IsTemp(p)
    ensures Moves(s, Crash(left, torn), Do(s, Crash(left, torn)), p)
  {
    var d, d' := s.disk, Do(s, Crash(left, torn)).disk;
    var e := Entry(left, p);
    assert e in May(d.may, p);
    assert Shown(d', e) == Shown(d, e);
    assert May(d'.may, p) == {e};
    assert AfterCrash(d', p) == {Shown(d, e)};
  }

  lemma StepMoves(s: State, step: Step, p: Path)
    requires Inv(s) && Enabled(s, step) && !IsTemp(p)
    ensures Moves(s, step, Do(s, step), p)
  {
    hide Inv, Do, Moves;
    match step
    case Create(_, _, _, _, _) => CreateMoves(s, step, p);
    case Write(_, _) => FillMoves(s, step, p);
    case Flush(_) => FillMoves(s, step, p);
    case Rename(w) => RenameMoves(s, w, p);
    case Abort(_) => RemoveMoves(s, step, p);
    case GiveUp(_) => RemoveMoves(s, step, p);
    case Delete(_) => RemoveMoves(s, step, p);
    case FlushDir(dir) => FlushDirMoves(s, dir, p);
    case Crash(left, torn) => CrashMoves(s, left, torn, p);
  }

  // --------------------------------------------------------------- whole runs

  ghost predicate Runs(s: State, run: seq<Step>, s': State)
    decreases run
  {
    if run == [] then s' == s else Enabled(s, run[0]) && Runs(Do(s, run[0]), run[1..], s')
  }

  /** Everything the steps of a run may put at a path. */
  ghost function OfferedIn(run: seq<Step>, p: Path): set<Option<Bytes>> {
    if run == [] then {} else OfferedBy(run[0], p) + OfferedIn(run[1..], p)
  }

  lemma {:induction false} InvRun(s: State, run: seq<Step>, s': State)
    requires Inv(s) && Runs(s, run, s')
    ensures Inv(s')
    decreases run
  {
    hide Inv, Do, Enabled;
    if run != [] {
      InvStep(s, run[0]);
      InvRun(Do(s, run[0]), run[1..], s');
    }
  }

  /**
   * Whatever steps are taken and wherever they are cut short by crashes, a
   * reader of a key finds an object that was there or may have been there to
   * begin with, or a complete object some Put brought, or nothing where a Delete
   * asked for that; the same holds of what a crash at the end would leave.
   */
  lemma {:induction false} OldOrCompleteNew(s: State, run: seq<Step>, s': State, p: Path)
    requires Inv(s) && Runs(s, run, s') && !IsTemp(p)
    ensures View(s'.disk, p) in AfterCrash(s'.disk, p)
    ensures AfterCrash(s'.disk, p) <= AfterCrash(s.disk, p) + Offered(s, p) + OfferedIn(run, p)
    decreases run
  {
    if run == [] {
      ViewIsPossible(s.disk, p);
    } else {
      var m := Do(s, run[0]);
      StepMoves(s, run[0], p);
      InvStep(s, run[0]);
      hide Inv, Do, Enabled;
      OldOrCompleteNew(m, run[1..], s', p);
    }
  }

  /** The empty disk, freshly mounted. */
  ghost function Empty(): State {
    State(Disk(map[], map[], map[]), map[])
  }

  lemma EmptyIsOk()
    ensures Inv(Empty())
  {
  }

  /** From an empty target, a key shows nothing or one of the complete objects put under it. */
  lemma OnlyCompleteObjects(run: seq<Step>, s: State, p: Path)
    requires Runs(Empty(), run, s) && !IsTemp(p)
    ensures View(s.disk, p) == None || View(s.disk, p) in OfferedIn(run, p)
  {
    EmptyIsOk();
    OldOrCompleteNew(Empty(), run, s, p);
  }

  /** A Put that renamed its file and flushed the directory survives a crash. */
  lemma FlushedPutSurvives(s: State, w: WriterId, s1: State, s2: State, crash: Step)
    requires Inv(s) && Enabled(s, Rename(w)) && s1 == Do(s, Rename(w))
    requires !IsTemp(s.writers[w].dest) && s.writers[w].dest != []
    requires var p := s.writers[w].dest; s2 == Do(s1, FlushDir(p[..|p| - 1]))
    requires crash.Crash? && Enabled(s2, crash)
    ensures View(Do(s2, crash).disk, s.writers[w].dest) == Some(s.writers[w].data)
  {
    hide Inv, Do, View, AfterCrash, Offered, OfferedBy, IsTemp;
    var p := s.writers[w].dest;
    var flush := FlushDir(p[..|p| - 1]);
    InvStep(s, Rename(w));
    StepMoves(s, Rename(w), p);
    InvStep(s1, flush);
    StepMoves(s1, flush, p);
    StepMoves(s2, crash, p);
    assert View(s2.disk, p) == Some(s.writers[w].data);
  }

  /** A temporary file is no key's file, and no listing reports it. */
  lemma TemporariesAreNeverSeen(p: Path, key: string, prefix: string, root: Path)
    requires IsTemp(p)
    ensures RelPath(key) != Some(p) && !Listed(prefix, root, p)
  {
    KeysArePaths(key, p);
  }

  /** Keys of accepted objects are never temporary paths, so all of the above holds of every key. */
  lemma KeysAreNotTemporary(key: string)
    requires RelPath(key).Some?
    ensures !IsTemp(RelPath(key).value)
  {
    KeysArePaths(key, RelPath(key).value);
  }
}
