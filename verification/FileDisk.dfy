/**
 * A filesystem target as a crash-step machine: writers that create, fill, sync
 * and rename a temporary file or give it up, removed or not, and crashes that may forget whatever was not
 * flushed.
 */
module FileDisk {
  import opened Base
  import opened FileKeys

  type Inode = nat
  type WriterId = nat

  /** A file's contents, and whether they have reached stable storage. */
  datatype File = File(data: Bytes, synced: bool)

  /**
   * `entries` are the directory entries as programs see them; `may` are, path by
   * path, the entries a crash may leave behind; a path it does not mention can
   * only be empty.
   */
  datatype Disk = Disk(entries: map<Path, Inode>, may: map<Path, set<Option<Inode>>>, files: map<Inode, File>)

  /** A Put under way: it has a temporary file, and perhaps has flushed it. */
  datatype Writer = Writer(dest: Path, temp: Path, ino: Inode, data: Bytes, flushed: bool)

  datatype State = State(disk: Disk, writers: map<WriterId, Writer>)

  datatype Step =
    | Create(w: WriterId, dest: Path, temp: Path, ino: Inode, data: Bytes)
    | Write(w: WriterId, n: nat)
    | Flush(w: WriterId)
    | Rename(w: WriterId)
    | Abort(w: WriterId)
    | GiveUp(w: WriterId)
    | Delete(p: Path)
    | FlushDir(dir: Path)
    | Crash(left: map<Path, Inode>, torn: map<Inode, Bytes>)

  predicate IsTemp(p: Path) {
    p != [] && HasPrefix(p[|p| - 1], TMP_PREFIX)
  }

  predicate InDir(p: Path, dir: Path) {
    p != [] && p[..|p| - 1] == dir
  }

  function Entry(entries: map<Path, Inode>, p: Path): Option<Inode> {
    if p in entries then Some(entries[p]) else None
  }

  function May(may: map<Path, set<Option<Inode>>>, p: Path): set<Option<Inode>> {
    if p in may then may[p] else {None}
  }

  /** A directory entry changes: a crash may leave the old or the new one. */
  function Changed(d: Disk, p: Path, e: Option<Inode>): Disk {
    d.(entries := if e.Some? then d.entries[p := e.value] else d.entries - {p}, may := d.may[p := May(d.may, p) + {e}])
  }

  ghost predicate Enabled(s: State, step: Step) {
    match step
    case Create(w, dest, temp, ino, _) =>
      w !in s.writers && !IsTemp(dest) && IsTemp(temp) && temp !in s.disk.entries && ino !in s.disk.files
    case Write(w, n) =>
      && w in s.writers && !s.writers[w].flushed && s.writers[w].ino in s.disk.files
      && |s.disk.files[s.writers[w].ino].data| <= n <= |s.writers[w].data|
    case Flush(w) =>
      w in s.writers && s.writers[w].ino in s.disk.files && s.disk.files[s.writers[w].ino].data == s.writers[w].data
    case Rename(w) => w in s.writers && s.writers[w].flushed
    case Abort(w) => w in s.writers
    case GiveUp(w) => w in s.writers
    case Delete(p) => !IsTemp(p)
    case FlushDir(_) => true
    case Crash(left, torn) =>
      && torn.Keys == s.disk.files.Keys
      && (forall p :: Entry(left, p) in May(s.disk.may, p))
      && (forall i :: i in torn && s.disk.files[i].synced ==> torn[i] == s.disk.files[i].data)
  }

  ghost function Do(s: State, step: Step): State
    requires Enabled(s, step)
  {
    match step
    case Create(w, dest, temp, ino, data) =>
      State(Changed(s.disk, temp, Some(ino)).(files := s.disk.files[ino := File([], false)]),
            s.writers[w := Writer(dest, temp, ino, data, false)])
    case Write(w, n) =>
      var x := s.writers[w];
      s.(disk := s.disk.(files := s.disk.files[x.ino := File(x.data[..n], false)]))
    case Flush(w) =>
      var x := s.writers[w];
      State(s.disk.(files := s.disk.files[x.ino := File(x.data, true)]), s.writers[w := x.(flushed := true)])
    case Rename(w) =>
      var x := s.writers[w];
      State(Changed(Changed(s.disk, x.dest, Some(x.ino)), x.temp, None), s.writers - {w})
    case Abort(w) => State(Changed(s.disk, s.writers[w].temp, None), s.writers - {w})
    case GiveUp(w) => s.(writers := s.writers - {w})
    case Delete(p) => s.(disk := Changed(s.disk, p, None))
    case FlushDir(dir) =>
      s.(disk := s.disk.(may := map p | p in s.disk.may :: if InDir(p, dir) then {Entry(s.disk.entries, p)} else s.disk.may[p]))
    case Crash(left, torn) =>
      State(Disk(left, map p | p in left :: {Some(left[p])}, map i | i in torn :: File(torn[i], true)), map[])
  }

  // ------------------------------------------------------------- what is seen

  /** What an entry of a disk shows. */
  ghost function Shown(d: Disk, e: Option<Inode>): Option<Bytes> {
    if e.Some? && e.value in d.files then Some(d.files[e.value].data) else None
  }

  /** The object a reader finds at a path. */
  ghost function View(d: Disk, p: Path): Option<Bytes> {
    Shown(d, Entry(d.entries, p))
  }

  /** The objects a reader may find there after a crash. */
  ghost function AfterCrash(d: Disk, p: Path): set<Option<Bytes>> {
    set e | e in May(d.may, p) :: Shown(d, e)
  }

  /** The objects that writers at work, or a step, may put at a path. */
  ghost function Offered(s: State, p: Path): set<Option<Bytes>> {
    set w | w in s.writers && s.writers[w].dest == p :: Some(s.writers[w].data)
  }

  ghost function OfferedBy(step: Step, p: Path): set<Option<Bytes>> {
    if step.Create? && step.dest == p then {Some(step.data)}
    else if step.Delete? && step.p == p then {None}
    else {}
  }

  /** A writer's file is its own until it is renamed, and holds no more than the writer's data. */
  ghost predicate WriterOk(d: Disk, x: Writer) {
    && !IsTemp(x.dest) && IsTemp(x.temp) && x.ino in d.files
    && (x.flushed ==> d.files[x.ino] == File(x.data, true))
    && (forall p :: !IsTemp(p) ==> Some(x.ino) !in May(d.may, p))
  }

  ghost predicate DiskOk(d: Disk) {
    && (forall p :: Entry(d.entries, p) in May(d.may, p))
    && (forall p, i :: Some(i) in May(d.may, p) ==> i in d.files)
    && (forall p, i :: !IsTemp(p) && Some(i) in May(d.may, p) ==> d.files[i].synced)
  }

  ghost predicate Inv(s: State) {
    && DiskOk(s.disk)
    && (forall w :: w in s.writers ==> WriterOk(s.disk, s.writers[w]))
    && (forall w, x :: w in s.writers && x in s.writers && s.writers[w].ino == s.writers[x].ino ==> w == x)
  }
}
