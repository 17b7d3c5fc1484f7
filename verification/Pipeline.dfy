/**
 * The parallel backup pipeline: one reader, a bounded buffer pool, N upload
 * workers and the engine's in-flight table, as a step system.  A step is one
 * critical section or one call to the index or the object store; a run is any
 * interleaving of steps.
 */
module Pipeline {
  import opened Base
  import opened ChunkFormat

  type Sha = string

  datatype Chunk = Chunk(sha: Sha, size: nat)

  const NO_CHUNK := Chunk("", 0)

  /** The manifest entry of a chunk. */
  function Ref(c: Codec, data: Bytes): Chunk {
    Chunk(c.sha(data), |data|)
  }

  function Refs(c: Codec, cs: seq<Bytes>): (r: seq<Chunk>)
    ensures |r| == |cs| && forall i :: 0 <= i < |r| ==> r[i] == Ref(c, cs[i])
  {
    seq(|cs|, i requires 0 <= i < |cs| => Ref(c, cs[i]))
  }

  // -------------------------------------------------------------------- pool

  /** The buffers ever allocated, by number, the cap on them and the free list. */
  datatype Pool = Pool(max: nat, mem: seq<Bytes>, free: seq<nat>)

  /** Recycling never blocks: a buffer that does not fit in the free list is dropped. */
  function PoolPut(p: Pool, b: nat): Pool {
    if |p.free| < p.max then p.(free := p.free + [b]) else p
  }

  function PoolAllocate(p: Pool, size: nat): Pool {
    p.(mem := p.mem + [seq(size, i => 0)])
  }

  /** A read overwrites the front of a buffer and leaves the rest of it as it was. */
  function PoolWrite(p: Pool, b: nat, data: Bytes): Pool
    requires b < |p.mem| && |data| <= |p.mem[b]|
  {
    p.(mem := p.mem[b := data + p.mem[b][|data|..]])
  }

  // ----------------------------------------------------------------- the actors

  /** How the stream ends after its bytes have been delivered. */
  datatype Tail = Eof | UnexpectedEof | ReadError

  /** What io.ReadFull reported with the bytes it delivered. */
  datatype Outcome = More | AtEnd | Broken

  datatype CallError = NoError | Cancelled | ReadFailed | StoreFailed | NeverStored(at: nat)

  datatype Reader =
    | Top
    | Get
    | Fill(buf: nat)
    | Send(buf: nat, n: nat, out: Outcome)
    | Done(err: CallError)

  datatype Unit = Unit(seqno: nat, buf: nat, n: nat)

  /** Where a worker is inside one unit of work; `t` names the coalescing record it leads or awaits. */
  datatype Pc =
    | Got
    | Lookup
    | Wait(t: nat)
    | AskIndex(t: nat)
    | AskStore(t: nat)
    | PutObject(t: nat)
    | AddRow(t: nat, up: nat)
    | Unregister(t: nat, res: Option<nat>)
    | Publish(t: nat, res: Option<nat>)
    | Failing
    | Placing(up: nat)
    | Recording(up: nat)
    | Returning

  datatype Worker = Idle | Exited | Busy(u: Unit, pc: Pc)

  datatype Token = Pending(sha: Sha) | Finished(sha: Sha, ok: bool)

  datatype Stats = Stats(
    processed: nat, uploaded: nat, deduped: nat,
    chunksTotal: nat, chunksUploaded: nat, chunksDeduped: nat)

  const NO_STATS := Stats(0, 0, 0, 0, 0, 0)

  function Record(st: Stats, size: nat, up: nat): Stats {
    var st1 := st.(processed := st.processed + size, chunksTotal := st.chunksTotal + 1);
    if up > 0 then st1.(uploaded := st1.uploaded + up, chunksUploaded := st1.chunksUploaded + 1)
    else st1.(deduped := st1.deduped + size, chunksDeduped := st1.chunksDeduped + 1)
  }

  /** Grows the slice with empty entries up to `at` and fills that entry. */
  function Placed(chunks: seq<Chunk>, at: nat, c: Chunk): seq<Chunk>
    decreases at + 1 - |chunks|
  {
    if at < |chunks| then chunks[at := c] else Placed(chunks + [NO_CHUNK], at, c)
  }

  // ------------------------------------------------------------------- state

  datatype Config = Config(
    codec: Codec, compress: bool, chunkSize: nat, workers: nat,
    data: Bytes, tail: Tail,
    index: set<Sha>, objects: map<Sha, Bytes>)

  ghost predicate ValidConfig(cfg: Config) {
    && 0 < cfg.chunkSize <= CHUNK_SIZE
    && cfg.workers >= 1
    && Lawful(cfg.codec)
  }

  /** Hashes whose index row has outlived the object: storing them again uploads nothing. */
  function Stale(cfg: Config): set<Sha> {
    cfg.index - cfg.objects.Keys
  }

  /** Hashes a run takes to be on the target already. */
  function Known(cfg: Config): set<Sha> {
    cfg.index + cfg.objects.Keys
  }

  /** The reader's side: its position, the bytes not read yet, and the history of chunks handed over. */
  datatype Source = Source(reader: Reader, rest: Bytes, sent: seq<Bytes>)

  /**
   * The engine's side: in-flight table, chunk index and object store, with the
   * history of uploads and whether an index or store call ever failed.
   */
  datatype Engine = Engine(
    inflight: map<Sha, nat>, tokens: seq<Token>,
    index: set<Sha>, objects: map<Sha, Bytes>,
    puts: seq<Sha>, faulted: bool)

  /**
   * What the call accumulates: the chunk slice, the counters and the cancellation
   * state, with the history of which chunks were counted, which hashes were
   * counted as uploaded and which chunks a worker let go because the context had
   * been cancelled.
   */
  datatype Output = Output(
    chunks: seq<Chunk>, stats: Stats, failed: bool, cancelled: bool, callerGone: bool,
    counted: set<nat>, charged: set<Sha>, skipped: set<nat>)

  datatype State = State(src: Source, pool: Pool, workers: seq<Worker>, eng: Engine, out: Output)

  function Init(cfg: Config): State {
    State(Source(Top, cfg.data, []),
          Pool(cfg.workers + 1, [], []),
          seq(cfg.workers, i => Idle),
          Engine(map[], [], cfg.index, cfg.objects, [], false),
          Output([], NO_STATS, false, false, false, {}, {}, {}))
  }

  // ------------------------------------------------------------------- steps

  /** An outside call succeeds, fails without effect, or takes effect and still reports failure. */
  datatype Fault = Clean | Before | After

  datatype Step =
    | ReaderCheck
    | ReaderTake
    | ReaderAllocate
    | ReaderGiveUp
    | ReaderFill
    | ReaderSend(w: nat)
    | Work(w: nat, fault: Fault)
    | CallerCancels

  predicate InMemory(p: Pool, b: nat, n: nat) {
    b < |p.mem| && n <= |p.mem[b]|
  }

  function Data(p: Pool, u: Unit): Bytes
    requires InMemory(p, u.buf, u.n)
  {
    p.mem[u.buf][..u.n]
  }

  predicate Enabled(cfg: Config, s: State, step: Step) {
    var reader := s.src.reader;
    match step
    case ReaderCheck => reader.Top?
    case ReaderTake => reader.Get? && s.pool.free != []
    case ReaderAllocate => reader.Get? && |s.pool.mem| < s.pool.max
    case ReaderGiveUp => s.out.cancelled && (reader.Get? || reader.Send?)
    case ReaderFill => reader.Fill? && InMemory(s.pool, reader.buf, cfg.chunkSize)
    case ReaderSend(w) =>
      reader.Send? && InMemory(s.pool, reader.buf, reader.n) && w < |s.workers| && s.workers[w].Idle?
    case Work(w, fault) => w < |s.workers| && CanWork(s, s.workers[w], fault)
    case CallerCancels => true
  }

  predicate CanWork(s: State, w: Worker, fault: Fault) {
    match w
    case Exited => false
    case Idle => fault.Clean? && s.src.reader.Done?
    case Busy(u, pc) => InMemory(s.pool, u.buf, u.n) && CanAdvance(s.eng, s.out.cancelled, pc, fault)
  }

  predicate CanAdvance(e: Engine, cancelled: bool, pc: Pc, fault: Fault) {
    match pc
    case Wait(t) => t < |e.tokens| && (if fault.Clean? then e.tokens[t].Finished? else cancelled)
    case AskIndex(_) => true
    case AskStore(_) => true
    case PutObject(_) => true
    case AddRow(_, _) => true
    case Publish(t, _) => t < |e.tokens| && fault.Clean?
    case _ => fault.Clean?
  }

  function Do(cfg: Config, s: State, step: Step): State
    requires Enabled(cfg, s, step)
  {
    match step
    case ReaderCheck => s.(src := s.src.(reader := if s.out.cancelled then Done(Cancelled) else Get))
    case ReaderTake =>
      s.(src := s.src.(reader := Fill(s.pool.free[0])), pool := s.pool.(free := s.pool.free[1..]))
    case ReaderAllocate =>
      s.(src := s.src.(reader := Fill(|s.pool.mem|)), pool := PoolAllocate(s.pool, cfg.chunkSize))
    case ReaderGiveUp =>
      s.(src := s.src.(reader := Done(Cancelled)),
         pool := if s.src.reader.Send? then PoolPut(s.pool, s.src.reader.buf) else s.pool)
    case ReaderFill => DoFill(cfg, s, s.src.reader.buf)
    case ReaderSend(w) =>
      var r := s.src.reader;
      s.(src := Source(AfterRead(r.out), s.src.rest, s.src.sent + [s.pool.mem[r.buf][..r.n]]),
         workers := s.workers[w := Busy(Unit(|s.src.sent|, r.buf, r.n), Got)])
    case Work(w, fault) => DoWork(cfg, s, w, fault)
    case CallerCancels => s.(out := s.out.(cancelled := true, callerGone := true))
  }

  /** What the reader does with the outcome of a read once its bytes are dealt with. */
  function AfterRead(out: Outcome): Reader {
    match out
    case More => Top
    case AtEnd => Done(NoError)
    case Broken => Done(ReadFailed)
  }

  /** io.ReadFull into the buffer: a full buffer, or fewer bytes and the stream's ending. */
  function DoFill(cfg: Config, s: State, b: nat): State
    requires InMemory(s.pool, b, cfg.chunkSize)
  {
    var n := Min(cfg.chunkSize, |s.src.rest|);
    var out := if n == cfg.chunkSize then More else if cfg.tail.ReadError? then Broken else AtEnd;
    var pool := PoolWrite(s.pool, b, s.src.rest[..n]);
    if n > 0 then s.(src := s.src.(reader := Send(b, n, out), rest := s.src.rest[n..]), pool := pool)
    else s.(src := s.src.(reader := AfterRead(out)), pool := PoolPut(pool, b))
  }

  function DoWork(cfg: Config, s: State, w: nat, fault: Fault): State
    requires w < |s.workers| && CanWork(s, s.workers[w], fault)
  {
    match s.workers[w]
    case Idle => s.(workers := s.workers[w := Exited])
    case Busy(u, Returning) => s.(workers := s.workers[w := Idle], pool := PoolPut(s.pool, u.buf))
    case Busy(u, pc) =>
      var next := Advance(cfg, s.eng, s.out, u.seqno, Data(s.pool, u), pc, fault);
      State(s.src, s.pool, s.workers[w := Busy(u, next.pc)], next.eng, next.out)
  }

  datatype Next = Next(eng: Engine, out: Output, pc: Pc)

  /** One worker's next action on a chunk that is not yet done with. */
  function Advance(cfg: Config, e: Engine, o: Output, at: nat, data: Bytes, pc: Pc, fault: Fault): Next
    requires CanAdvance(e, o.cancelled, pc, fault) && !pc.Returning?
  {
    var sha := cfg.codec.sha(data);
    match pc
    case Got => if o.cancelled then Next(e, o.(skipped := o.skipped + {at}), Returning) else Next(e, o, Lookup)
    case Lookup =>
      if sha in e.inflight then Next(e, o, Wait(e.inflight[sha]))
      else Next(e.(inflight := e.inflight[sha := |e.tokens|], tokens := e.tokens + [Pending(sha)]),
                o, AskIndex(|e.tokens|))
    case Wait(t) =>
      if !fault.Clean? then Next(e, o, Failing)
      else Next(e, o, if e.tokens[t].ok then Placing(0) else Lookup)
    case AskIndex(t) =>
      if !fault.Clean? then Next(e.(faulted := true), o, Unregister(t, None))
      else Next(e, o, if sha in e.index then Unregister(t, Some(0)) else AskStore(t))
    case AskStore(t) =>
      if !fault.Clean? then Next(e.(faulted := true), o, Unregister(t, None))
      else Next(e, o, if sha in e.objects then AddRow(t, 0) else PutObject(t))
    case PutObject(t) =>
      var body := Stored(cfg.codec, cfg.compress, data);
      var e1 := if fault.Before? then e else e.(objects := e.objects[sha := body], puts := e.puts + [sha]);
      if fault.Clean? then Next(e1, o, AddRow(t, |body|))
      else Next(e1.(faulted := true), o, Unregister(t, None))
    case AddRow(t, up) =>
      var e1 := if fault.Before? then e else e.(index := e.index + {sha});
      if fault.Clean? then Next(e1, o, Unregister(t, Some(up)))
      else Next(e1.(faulted := true), o, Unregister(t, None))
    case Unregister(t, res) => Next(e.(inflight := e.inflight - {sha}), o, Publish(t, res))
    case Publish(t, res) =>
      Next(e.(tokens := e.tokens[t := Finished(sha, res.Some?)]),
           o, if res.Some? then Placing(res.value) else Failing)
    case Failing => Next(e, o.(failed := true, cancelled := true), Returning)
    case Placing(up) => Next(e, o.(chunks := Placed(o.chunks, at, Chunk(sha, |data|))), Recording(up))
    case Recording(up) =>
      Next(e, o.(stats := Record(o.stats, |data|, up),
                 counted := o.counted + {at},
                 charged := if up > 0 then o.charged + {sha} else o.charged), Returning)
  }

  /** The state after a whole run, or None when some step of it was not possible. */
  function Exec(cfg: Config, s: State, run: seq<Step>): Option<State>
    decreases run
  {
    if run == [] then Some(s)
    else if Enabled(cfg, s, run[0]) then Exec(cfg, Do(cfg, s, run[0]), run[1..])
    else None
  }

  // ------------------------------------------------------------------ result

  datatype DiskManifest = DiskManifest(sizeBytes: nat, chunks: seq<Chunk>)

  /** The reader and every worker have returned. */
  predicate Completed(s: State) {
    s.src.reader.Done? && forall w :: 0 <= w < |s.workers| ==> s.workers[w].Exited?
  }

  /** What BackupStream returns once everything it started has returned. */
  function Returned(s: State): Result<DiskManifest, CallError>
    requires s.src.reader.Done?
  {
    if s.out.failed then Err(StoreFailed)
    else if s.src.reader.err != NoError then Err(s.src.reader.err)
    else Assembled(s.out.chunks)
  }

  function SumSizes(chunks: seq<Chunk>): nat {
    if chunks == [] then 0 else SumSizes(chunks[..|chunks| - 1]) + chunks[|chunks| - 1].size
  }

  function FirstGap(chunks: seq<Chunk>, from: nat): nat
    requires from <= |chunks|
    decreases |chunks| - from
  {
    if from == |chunks| || chunks[from].sha == "" then from else FirstGap(chunks, from + 1)
  }

  function Assembled(chunks: seq<Chunk>): Result<DiskManifest, CallError> {
    var gap := FirstGap(chunks, 0);
    if gap < |chunks| then Err(NeverStored(gap)) else Ok(DiskManifest(SumSizes(chunks), chunks))
  }
}
