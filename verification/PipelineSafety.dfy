/**
 * What every step of the backup pipeline keeps, whatever the interleaving.
 */
module PipelineSafety {
  import opened Base
  import opened ChunkFormat
  import opened Pipeline

  // ------------------------------------------------------------- invariants

  function ReaderBuffer(r: Reader): Option<nat> {
    match r
    case Fill(b) => Some(b)
    case Send(b, _, _) => Some(b)
    case _ => None
  }

  /** How many workers hold a buffer. */
  function Held(ws: seq<Worker>): nat {
    if ws == [] then 0 else (if ws[0].Busy? then 1 else 0) + Held(ws[1..])
  }

  /** Every buffer is in exactly one place: the free list, the reader or one worker. */
  ghost predicate PoolInv(cfg: Config, r: Reader, p: Pool, ws: seq<Worker>) {
    && |ws| == cfg.workers
    && p.max == cfg.workers + 1
    && |p.mem| <= p.max
    && (forall b :: 0 <= b < |p.mem| ==> |p.mem[b]| == cfg.chunkSize)
    && (forall i :: 0 <= i < |p.free| ==> p.free[i] < |p.mem|)
    && Distinct(p.free)
    && (ReaderBuffer(r).Some? ==> ReaderBuffer(r).value < |p.mem| && ReaderBuffer(r).value !in p.free)
    && (forall w :: 0 <= w < |ws| && ws[w].Busy? ==>
          ws[w].u.buf < |p.mem| && ws[w].u.buf !in p.free && ReaderBuffer(r) != Some(ws[w].u.buf))
    && (forall v, w :: 0 <= v < w < |ws| && ws[v].Busy? && ws[w].Busy? ==> ws[v].u.buf != ws[w].u.buf)
    && |p.free| + (if ReaderBuffer(r).Some? then 1 else 0) + Held(ws) == |p.mem|
  }

  /** The chunk sitting in the reader's buffer, not yet handed over. */
  function InHand(r: Reader, p: Pool): seq<Bytes> {
    if r.Send? && InMemory(p, r.buf, r.n) then [p.mem[r.buf][..r.n]] else []
  }

  /** The stream is the chunks sent, then the chunk in hand, then the bytes not read yet. */
  ghost predicate StreamInv(cfg: Config, src: Source, p: Pool, cancelled: bool)
    requires cfg.chunkSize > 0
  {
    && src.sent <= Split(cfg.data, cfg.chunkSize)
    && (src.reader != Done(Cancelled) ==>
          Split(cfg.data, cfg.chunkSize) == src.sent + InHand(src.reader, p) + Split(src.rest, cfg.chunkSize))
    && (src.reader.Send? ==>
          && 0 < src.reader.n <= cfg.chunkSize
          && (!src.reader.out.More? ==> src.rest == [])
          && (src.reader.out.AtEnd? ==> !cfg.tail.ReadError?))
    && (src.reader.Done? ==>
          && src.reader.err in {NoError, Cancelled, ReadFailed}
          && (src.reader.err.Cancelled? ==> cancelled)
          && (src.reader.err.NoError? ==> src.rest == [] && !cfg.tail.ReadError?))
  }

  /** A worker's buffer still holds the chunk it was sent, and no two workers hold the same one. */
  ghost predicate UnitInv(sent: seq<Bytes>, p: Pool, ws: seq<Worker>) {
    && (forall w :: 0 <= w < |ws| && ws[w].Busy? ==>
          var u := ws[w].u;
          InMemory(p, u.buf, u.n) && u.seqno < |sent| && Data(p, u) == sent[u.seqno])
    && (forall v, w :: 0 <= v < w < |ws| && ws[v].Busy? && ws[w].Busy? ==> ws[v].u.seqno != ws[w].u.seqno)
  }

  // ------------------------------------------------------------ preservation

  lemma {:induction false} HeldUpdate(ws: seq<Worker>, w: nat, x: Worker)
    requires w < |ws|
    ensures Held(ws[w := x]) == Held(ws) - (if ws[w].Busy? then 1 else 0) + (if x.Busy? then 1 else 0)
  {
    if w == 0 {
      assert ws[w := x][1..] == ws[1..];
    } else {
      assert ws[w := x][1..] == ws[1..][w - 1 := x];
      HeldUpdate(ws[1..], w - 1, x);
    }
  }

  lemma {:induction false} HeldNone(ws: seq<Worker>)
    ensures (forall w :: 0 <= w < |ws| ==> !ws[w].Busy?) ==> Held(ws) == 0
    ensures Held(ws) <= |ws|
  {
    if ws != [] {
      HeldNone(ws[1..]);
      assert (forall w :: 0 <= w < |ws| ==> !ws[w].Busy?) ==>
          forall w :: 0 <= w < |ws[1..]| ==> !ws[1..][w].Busy?;
    }
  }

  /** One worker's step, seen from outside the engine. */
  ghost predicate WorkShape(s: State, s': State, w: nat) {
    && w < |s.workers|
    && s'.src == s.src
    && |s'.workers| == |s.workers|
    && s'.workers == s.workers[w := s'.workers[w]]
    && (s.out.cancelled ==> s'.out.cancelled)
    && s'.out.callerGone == s.out.callerGone
    && (match s.workers[w]
        case Exited => false
        case Idle => s' == s.(workers := s'.workers) && s'.workers[w] == Exited
        case Busy(u, pc) =>
          if pc.Returning? then s'.workers[w] == Idle && s'.pool == PoolPut(s.pool, u.buf) && s'.eng == s.eng && s'.out == s.out
          else s'.workers[w].Busy? && s'.workers[w].u == u && s'.pool == s.pool)
  }

  lemma WorkHasShape(cfg: Config, s: State, w: nat, fault: Fault)
    requires Enabled(cfg, s, Work(w, fault))
    ensures WorkShape(s, Do(cfg, s, Work(w, fault)), w)
  {
  }

  // -- the pool

  /** A buffer coming back from a worker always fits in the free list. */
  lemma PoolReturn(cfg: Config, r: Reader, p: Pool, ws: seq<Worker>, w: nat)
    requires PoolInv(cfg, r, p, ws) && w < |ws| && ws[w].Busy?
    ensures |p.free| < p.max
    ensures PoolInv(cfg, r, PoolPut(p, ws[w].u.buf), ws[w := Idle])
  {
    HeldUpdate(ws, w, Idle);
  }

  /** So does a buffer coming back from the reader. */
  lemma PoolGiveBack(cfg: Config, r: Reader, p: Pool, ws: seq<Worker>, r': Reader)
    requires PoolInv(cfg, r, p, ws) && ReaderBuffer(r).Some? && ReaderBuffer(r').None?
    ensures |p.free| < p.max
    ensures PoolInv(cfg, r', PoolPut(p, ReaderBuffer(r).value), ws)
  {
  }

  lemma PoolPass(cfg: Config, r: Reader, p: Pool, ws: seq<Worker>, r': Reader, w: nat, u: Unit)
    requires PoolInv(cfg, r, p, ws) && r.Send? && u.buf == r.buf && ReaderBuffer(r').None?
    requires w < |ws| && ws[w].Idle?
    ensures PoolInv(cfg, r', p, ws[w := Busy(u, Got)])
  {
    HeldUpdate(ws, w, Busy(u, Got));
  }

  lemma PoolTaken(cfg: Config, r: Reader, p: Pool, ws: seq<Worker>)
    requires PoolInv(cfg, r, p, ws) && r.Get? && p.free != []
    ensures PoolInv(cfg, Fill(p.free[0]), p.(free := p.free[1..]), ws)
  {
    assert p.free[0] in p.free;
    assert forall b :: b in p.free[1..] ==> b in p.free;
  }

  lemma PoolStay(cfg: Config, r: Reader, p: Pool, ws: seq<Worker>, w: nat, x: Worker)
    requires PoolInv(cfg, r, p, ws) && w < |ws|
    requires if ws[w].Busy? then x.Busy? && x.u == ws[w].u else !x.Busy?
    ensures PoolInv(cfg, r, p, ws[w := x])
  {
    HeldUpdate(ws, w, x);
  }

  lemma PoolWork(cfg: Config, s: State, s': State, w: nat)
    requires PoolInv(cfg, s.src.reader, s.pool, s.workers) && WorkShape(s, s', w)
    ensures PoolInv(cfg, s'.src.reader, s'.pool, s'.workers)
  {
    if s.workers[w].Busy? && s.workers[w].pc.Returning? {
      PoolReturn(cfg, s.src.reader, s.pool, s.workers, w);
    } else {
      PoolStay(cfg, s.src.reader, s.pool, s.workers, w, s'.workers[w]);
    }
  }

  lemma PoolFill(cfg: Config, s: State)
    requires PoolInv(cfg, s.src.reader, s.pool, s.workers) && Enabled(cfg, s, ReaderFill)
    ensures var s' := DoFill(cfg, s, s.src.reader.buf); PoolInv(cfg, s'.src.reader, s'.pool, s'.workers)
  {
    var n := Min(cfg.chunkSize, |s.src.rest|);
    var p' := PoolWrite(s.pool, s.src.reader.buf, s.src.rest[..n]);
    assert PoolInv(cfg, s.src.reader, p', s.workers);
    if n == 0 {
      PoolGiveBack(cfg, s.src.reader, p', s.workers, DoFill(cfg, s, s.src.reader.buf).src.reader);
    }
  }

  lemma PoolStep(cfg: Config, s: State, step: Step)
    requires ValidConfig(cfg) && PoolInv(cfg, s.src.reader, s.pool, s.workers) && Enabled(cfg, s, step)
    ensures var s' := Do(cfg, s, step); PoolInv(cfg, s'.src.reader, s'.pool, s'.workers)
  {
    var r, p, ws := s.src.reader, s.pool, s.workers;
    match step
    case ReaderTake => PoolTaken(cfg, r, p, ws);
    case ReaderGiveUp =>
      if r.Send? {
        PoolGiveBack(cfg, r, p, ws, Done(Cancelled));
      }
    case ReaderFill => PoolFill(cfg, s);
    case ReaderSend(w) => PoolPass(cfg, r, p, ws, AfterRead(r.out), w, Unit(|s.src.sent|, r.buf, r.n));
    case Work(w, fault) =>
      WorkHasShape(cfg, s, w, fault);
      PoolWork(cfg, s, Do(cfg, s, step), w);
    case _ =>
  }

  // -- the stream

  lemma SplitStep(rest: Bytes, size: nat, n: nat)
    requires size > 0 && n == Min(size, |rest|)
    ensures Split(rest, size) == (if n > 0 then [rest[..n]] else []) + Split(rest[n..], size)
  {
    if 0 < |rest| <= size {
      assert rest[..n] == rest && rest[n..] == [];
    }
  }

  lemma StreamFill(cfg: Config, s: State)
    requires cfg.chunkSize > 0 && Enabled(cfg, s, ReaderFill)
    requires StreamInv(cfg, s.src, s.pool, s.out.cancelled)
    ensures var s' := DoFill(cfg, s, s.src.reader.buf); StreamInv(cfg, s'.src, s'.pool, s'.out.cancelled)
  {
    var s' := DoFill(cfg, s, s.src.reader.buf);
    var n := Min(cfg.chunkSize, |s.src.rest|);
    SplitStep(s.src.rest, cfg.chunkSize, n);
    if n > 0 {
      assert s'.pool.mem[s.src.reader.buf][..n] == s.src.rest[..n];
      assert InHand(s'.src.reader, s'.pool) == [s.src.rest[..n]];
    }
  }

  lemma StreamSend(cfg: Config, src: Source, p: Pool, cancelled: bool)
    requires cfg.chunkSize > 0 && src.reader.Send? && InMemory(p, src.reader.buf, src.reader.n)
    requires StreamInv(cfg, src, p, cancelled)
    ensures StreamInv(cfg, Source(AfterRead(src.reader.out), src.rest, src.sent + InHand(src.reader, p)), p, cancelled)
  {
    assert src.sent + InHand(src.reader, p) + [] == src.sent + InHand(src.reader, p);
  }

  lemma StreamStep(cfg: Config, s: State, step: Step)
    requires ValidConfig(cfg) && Enabled(cfg, s, step)
    requires StreamInv(cfg, s.src, s.pool, s.out.cancelled)
    ensures var s' := Do(cfg, s, step); StreamInv(cfg, s'.src, s'.pool, s'.out.cancelled)
  {
    match step
    case ReaderFill => StreamFill(cfg, s);
    case ReaderSend(w) => StreamSend(cfg, s.src, s.pool, s.out.cancelled);
    case Work(w, fault) => WorkHasShape(cfg, s, w, fault);
    case _ =>
  }

  // -- the units

  lemma UnitWork(s: State, s': State, w: nat)
    requires UnitInv(s.src.sent, s.pool, s.workers) && WorkShape(s, s', w)
    ensures UnitInv(s'.src.sent, s'.pool, s'.workers)
  {
  }

  lemma UnitFill(cfg: Config, s: State)
    requires PoolInv(cfg, s.src.reader, s.pool, s.workers) && Enabled(cfg, s, ReaderFill)
    requires UnitInv(s.src.sent, s.pool, s.workers)
    ensures var s' := DoFill(cfg, s, s.src.reader.buf); UnitInv(s'.src.sent, s'.pool, s'.workers)
  {
  }

  lemma UnitSend(cfg: Config, s: State, w: nat)
    requires UnitInv(s.src.sent, s.pool, s.workers) && Enabled(cfg, s, ReaderSend(w))
    ensures var s' := Do(cfg, s, ReaderSend(w)); UnitInv(s'.src.sent, s'.pool, s'.workers)
  {
  }

  lemma UnitStep(cfg: Config, s: State, step: Step)
    requires ValidConfig(cfg) && Enabled(cfg, s, step)
    requires PoolInv(cfg, s.src.reader, s.pool, s.workers)
    requires UnitInv(s.src.sent, s.pool, s.workers)
    ensures var s' := Do(cfg, s, step); UnitInv(s'.src.sent, s'.pool, s'.workers)
  {
    match step
    case ReaderFill => UnitFill(cfg, s);
    case ReaderSend(w) => UnitSend(cfg, s, w);
    case Work(w, fault) =>
      WorkHasShape(cfg, s, w, fault);
      UnitWork(s, Do(cfg, s, step), w);
    case _ =>
  }
}
