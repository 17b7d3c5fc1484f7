/**
 * The promises of BackupStream, over every interleaving of its reader, its
 * workers, store faults and cancellation.
 */
module PipelineTheorems {
  import opened Base
  import opened ChunkFormat
  import opened Pipeline
  import opened PipelineSafety
  import opened PipelineCoalescing
  import opened PipelineAccounting

  // -------------------------------------------------------------- placement

  predicate PlacedAt(chunks: seq<Chunk>, i: nat) {
    i < |chunks| && chunks[i] != NO_CHUNK
  }

  predicate Awaits(w: Worker, i: nat) {
    w.Busy? && !w.pc.Recording? && !w.pc.Returning? && w.u.seqno == i
  }

  ghost predicate Awaited(ws: seq<Worker>, i: nat) {
    exists w :: 0 <= w < |ws| && Awaits(ws[w], i)
  }

  /** A chunk a worker still has to place is neither placed nor let go. */
  ghost predicate Open(w: Worker, o: Output) {
    w.Busy? && Awaits(w, w.u.seqno) ==> !PlacedAt(o.chunks, w.u.seqno) && w.u.seqno !in o.skipped
  }

  /**
   * Entries of the slice are right where filled; a chunk let go is never placed,
   * and short of a failure every chunk is placed, with a worker or let go.
   */
  ghost predicate PlaceInv(cfg: Config, sent: seq<Bytes>, ws: seq<Worker>, o: Output) {
    && |o.chunks| <= |sent|
    && (forall i :: 0 <= i < |o.chunks| ==> o.chunks[i] == NO_CHUNK || o.chunks[i] == Ref(cfg.codec, sent[i]))
    && (o.chunks != [] ==> o.chunks[|o.chunks| - 1] != NO_CHUNK)
    && (forall w :: 0 <= w < |ws| ==> Open(ws[w], o))
    && (forall i :: i in o.skipped ==> i < |sent| && !PlacedAt(o.chunks, i))
    && (o.skipped != {} ==> o.cancelled)
    && (!o.failed ==> forall i :: 0 <= i < |sent| ==> PlacedAt(o.chunks, i) || Awaited(ws, i) || i in o.skipped)
  }

  lemma AwaitedKept(ws: seq<Worker>, w: nat, x: Worker, i: nat)
    requires w < |ws| && Awaited(ws, i)
    requires Awaits(ws[w], i) ==> Awaits(x, i)
    ensures Awaited(ws[w := x], i)
  {
    var v :| 0 <= v < |ws| && Awaits(ws[v], i);
    assert Awaits(ws[w := x][v], i);
  }

  lemma PlaceAdvance(cfg: Config, sent: seq<Bytes>, ws: seq<Worker>, e: Engine, o: Output, w: nat, fault: Fault)
    requires PlaceInv(cfg, sent, ws, o) && Units(sent, ws) && (forall x :: cfg.codec.sha(x) != "")
    requires w < |ws| && ws[w].Busy? && ws[w].u.seqno < |sent|
    requires !ws[w].pc.Returning? && CanAdvance(e, o.cancelled, ws[w].pc, fault)
    ensures var u := ws[w].u;
            var n := Advance(cfg, e, o, u.seqno, sent[u.seqno], ws[w].pc, fault);
            PlaceInv(cfg, sent, ws[w := Busy(u, n.pc)], n.out)
  {
    var u := ws[w].u;
    var n := Advance(cfg, e, o, u.seqno, sent[u.seqno], ws[w].pc, fault);
    var ws' := ws[w := Busy(u, n.pc)];
    assert Open(ws[w], o);
    PlaceMoves(cfg, sent[u.seqno], e, o, u, ws[w].pc, fault);
    hide Advance, CanAdvance;
    forall v | 0 <= v < |ws'|
      ensures Open(ws'[v], n.out)
    {
      assert Open(ws[v], o);
    }
    if !n.out.failed {
      forall i | 0 <= i < |sent|
        ensures PlacedAt(n.out.chunks, i) || Awaited(ws', i) || i in n.out.skipped
      {
        if !PlacedAt(n.out.chunks, i) && i !in n.out.skipped {
          assert !PlacedAt(o.chunks, i) && i !in o.skipped;
          AwaitedKept(ws, w, Busy(u, n.pc), i);
        }
      }
    }
  }

  /** What one worker's step does to the slice and to what is let go. */
  lemma PlaceMoves(cfg: Config, data: Bytes, e: Engine, o: Output, u: Unit, pc: Pc, fault: Fault)
    requires !pc.Returning? && CanAdvance(e, o.cancelled, pc, fault) && cfg.codec.sha(data) != ""
    ensures var n := Advance(cfg, e, o, u.seqno, data, pc, fault);
            && (o.cancelled ==> n.out.cancelled) && (o.failed ==> n.out.failed)
            && n.out.skipped == (if pc.Got? && o.cancelled then o.skipped + {u.seqno} else o.skipped)
            && (pc.Got? && o.cancelled ==> n.pc.Returning?)
            && (if pc.Placing? then
                  && |n.out.chunks| == (if u.seqno < |o.chunks| then |o.chunks| else u.seqno + 1)
                  && (forall i :: 0 <= i < |n.out.chunks| ==>
                        n.out.chunks[i] == if i == u.seqno then Ref(cfg.codec, data) else if i < |o.chunks| then o.chunks[i] else NO_CHUNK)
                  && Ref(cfg.codec, data) != NO_CHUNK
                else n.out.chunks == o.chunks)
            && (Awaits(Busy(u, pc), u.seqno) && !Awaits(Busy(u, n.pc), u.seqno) ==>
                  pc.Placing? || n.out.failed || (pc.Got? && o.cancelled))
            && (Awaits(Busy(u, n.pc), u.seqno) ==> Awaits(Busy(u, pc), u.seqno) && !pc.Placing?)
  {
    PlacedShape(o.chunks, u.seqno, Ref(cfg.codec, data));
  }

  lemma PlaceOutside(cfg: Config, sent: seq<Bytes>, ws: seq<Worker>, o: Output, w: nat, x: Worker)
    requires PlaceInv(cfg, sent, ws, o) && Open(x, o)
    requires w < |ws| && (ws[w].Busy? ==> ws[w].pc.Returning?)
    ensures PlaceInv(cfg, sent, ws[w := x], o)
  {
    var ws' := ws[w := x];
    forall v | 0 <= v < |ws'|
      ensures Open(ws'[v], o)
    {
      assert Open(ws[v], o);
    }
    forall i | 0 <= i < |sent| && Awaited(ws, i)
      ensures Awaited(ws[w := x], i)
    {
      AwaitedKept(ws, w, x, i);
    }
  }

  lemma PlaceSend(cfg: Config, sent: seq<Bytes>, ws: seq<Worker>, o: Output, w: nat, u: Unit, data: Bytes)
    requires PlaceInv(cfg, sent, ws, o) && w < |ws| && ws[w].Idle? && u.seqno == |sent|
    ensures PlaceInv(cfg, sent + [data], ws[w := Busy(u, Got)], o)
  {
    var ws' := ws[w := Busy(u, Got)];
    assert Awaits(ws'[w], |sent|);
    PlaceOutside(cfg, sent, ws, o, w, Busy(u, Got));
  }

  // ------------------------------------------------------------------ errors

  predicate Doomed(w: Worker) {
    w.Busy? && (w.pc.Failing? || ((w.pc.Unregister? || w.pc.Publish?) && w.pc.res.None?))
  }

  ghost predicate SomeDoomed(ws: seq<Worker>) {
    exists w :: 0 <= w < |ws| && Doomed(ws[w])
  }

  /** A failed index or store call is on its way to the result, or has arrived there. */
  ghost predicate ErrorInv(ws: seq<Worker>, e: Engine, o: Output) {
    && (o.cancelled <==> o.failed || o.callerGone)
    && (e.faulted ==> o.failed || SomeDoomed(ws))
  }

  lemma DoomedKept(ws: seq<Worker>, w: nat, x: Worker)
    requires w < |ws| && SomeDoomed(ws) && (Doomed(ws[w]) ==> Doomed(x))
    ensures SomeDoomed(ws[w := x])
  {
    var v :| 0 <= v < |ws| && Doomed(ws[v]);
    assert Doomed(ws[w := x][v]);
  }

  lemma ErrorAdvance(cfg: Config, ws: seq<Worker>, e: Engine, o: Output, w: nat, data: Bytes, fault: Fault)
    requires ErrorInv(ws, e, o)
    requires w < |ws| && ws[w].Busy? && !ws[w].pc.Returning? && CanAdvance(e, o.cancelled, ws[w].pc, fault)
    ensures var u := ws[w].u;
            var n := Advance(cfg, e, o, u.seqno, data, ws[w].pc, fault);
            ErrorInv(ws[w := Busy(u, n.pc)], n.eng, n.out)
  {
    var n := Advance(cfg, e, o, ws[w].u.seqno, data, ws[w].pc, fault);
    var x := Busy(ws[w].u, n.pc);
    if n.eng.faulted && !n.out.failed {
      if e.faulted {
        DoomedKept(ws, w, x);
      } else {
        assert Doomed(ws[w := x][w]);
      }
    }
  }

  lemma ErrorOutside(ws: seq<Worker>, e: Engine, o: Output, w: nat, x: Worker)
    requires ErrorInv(ws, e, o) && w < |ws| && (ws[w].Busy? ==> ws[w].pc.Returning?)
    ensures ErrorInv(ws[w := x], e, o)
  {
    if e.faulted && !o.failed {
      DoomedKept(ws, w, x);
    }
  }

  // -------------------------------------------------------- the whole invariant

  function All(cfg: Config): seq<Bytes>
    requires cfg.chunkSize > 0
  {
    Split(cfg.data, cfg.chunkSize)
  }

  ghost predicate Inv(cfg: Config, s: State)
    requires cfg.chunkSize > 0
  {
    && PoolInv(cfg, s.src.reader, s.pool, s.workers)
    && StreamInv(cfg, s.src, s.pool, s.out.cancelled)
    && UnitInv(s.src.sent, s.pool, s.workers)
    && Units(All(cfg), s.workers)
    && TokenInv(cfg, All(cfg), s.workers, s.eng)
    && StoreInv(cfg, All(cfg), s.workers, s.eng, s.out.chunks)
    && PlaceInv(cfg, s.src.sent, s.workers, s.out)
    && ErrorInv(s.workers, s.eng, s.out)
    && PutsInv(cfg, s.eng)
    && (NoCollisions(cfg, All(cfg)) ==> CleanInv(cfg, All(cfg), |s.src.sent|, s.workers, s.eng, s.out))
  }

  lemma InitInv(cfg: Config)
    requires ValidConfig(cfg)
    ensures Inv(cfg, Init(cfg))
  {
    hide PoolInv, StreamInv, UnitInv, Units, TokenInv, StoreInv, PlaceInv, ErrorInv, PutsInv, CleanInv, NoCollisions;
    InitSource(cfg);
    InitEngine(cfg, All(cfg));
    InitClean(cfg, All(cfg));
  }

  lemma InitSource(cfg: Config)
    requires ValidConfig(cfg)
    ensures var s := Init(cfg);
            && PoolInv(cfg, s.src.reader, s.pool, s.workers)
            && StreamInv(cfg, s.src, s.pool, s.out.cancelled)
            && UnitInv(s.src.sent, s.pool, s.workers)
  {
    HeldNone(Init(cfg).workers);
    assert All(cfg) == [] + [] + All(cfg);
  }

  lemma InitEngine(cfg: Config, all: seq<Bytes>)
    ensures var s := Init(cfg);
            && Units(all, s.workers)
            && TokenInv(cfg, all, s.workers, s.eng)
            && StoreInv(cfg, all, s.workers, s.eng, s.out.chunks)
            && PlaceInv(cfg, s.src.sent, s.workers, s.out)
            && ErrorInv(s.workers, s.eng, s.out)
            && PutsInv(cfg, s.eng)
  {
  }

  lemma InitClean(cfg: Config, all: seq<Bytes>)
    ensures Units(all, Init(cfg).workers)
    ensures CleanInv(cfg, all, 0, Init(cfg).workers, Init(cfg).eng, Init(cfg).out)
  {
  }

  /** A worker's buffer holds the chunk of the stream it was sent. */
  lemma HoldsItsChunk(cfg: Config, s: State, w: nat)
    requires w < |s.workers| && s.workers[w].Busy? && ValidConfig(cfg) && Inv(cfg, s)
    ensures var u := s.workers[w].u;
            && u.seqno < |s.src.sent| <= |All(cfg)| && s.src.sent[u.seqno] == All(cfg)[u.seqno]
            && InMemory(s.pool, u.buf, u.n) && Data(s.pool, u) == All(cfg)[u.seqno]
  {
    hide PoolInv, TokenInv, StoreInv, PlaceInv, ErrorInv, PutsInv, CleanInv, NoCollisions, Split;
  }

  lemma AdvanceStep(cfg: Config, s: State, w: nat, fault: Fault, data: Bytes)
    requires Enabled(cfg, s, Work(w, fault)) && s.workers[w].Busy? && !s.workers[w].pc.Returning?
    requires var u := s.workers[w].u; InMemory(s.pool, u.buf, u.n) && Data(s.pool, u) == data
    ensures var u := s.workers[w].u;
            var n := Advance(cfg, s.eng, s.out, u.seqno, data, s.workers[w].pc, fault);
            Do(cfg, s, Work(w, fault)) == State(s.src, s.pool, s.workers[w := Busy(u, n.pc)], n.eng, n.out)
  {
  }

  /** A step of a worker that holds a chunk it is not done with. */
  lemma InvAdvance(cfg: Config, s: State, w: nat, fault: Fault, n: Next)
    requires ValidConfig(cfg) && Inv(cfg, s)
    requires w < |s.workers| && s.workers[w].Busy? && !s.workers[w].pc.Returning?
    requires CanAdvance(s.eng, s.out.cancelled, s.workers[w].pc, fault)
    requires s.workers[w].u.seqno < |s.src.sent| && s.src.sent[s.workers[w].u.seqno] == All(cfg)[s.workers[w].u.seqno]
    requires n == Advance(cfg, s.eng, s.out, s.workers[w].u.seqno, All(cfg)[s.workers[w].u.seqno], s.workers[w].pc, fault)
    ensures var ws' := s.workers[w := Busy(s.workers[w].u, n.pc)];
            && Units(All(cfg), ws')
            && TokenInv(cfg, All(cfg), ws', n.eng)
            && StoreInv(cfg, All(cfg), ws', n.eng, n.out.chunks)
            && PlaceInv(cfg, s.src.sent, ws', n.out)
            && ErrorInv(ws', n.eng, n.out)
            && PutsInv(cfg, n.eng)
            && (NoCollisions(cfg, All(cfg)) ==> CleanInv(cfg, All(cfg), |s.src.sent|, ws', n.eng, n.out))
  {
    var u, pc := s.workers[w].u, s.workers[w].pc;
    assert WorkerStored(cfg, All(cfg), s.eng, s.workers[w]);
    TokenAdvance(cfg, All(cfg), s.workers, s.eng, s.out, w, fault);
    StoreAdvance(cfg, All(cfg), s.workers, s.eng, s.out, w, fault);
    PlaceAdvance(cfg, s.src.sent, s.workers, s.eng, s.out, w, fault);
    ErrorAdvance(cfg, s.workers, s.eng, s.out, w, All(cfg)[u.seqno], fault);
    PutsAdvance(cfg, s.eng, s.out, u.seqno, All(cfg)[u.seqno], pc, fault);
    if NoCollisions(cfg, All(cfg)) {
      SplitShape(cfg.data, cfg.chunkSize);
      CleanAdvance(cfg, All(cfg), |s.src.sent|, s.workers, s.eng, s.out, w, fault);
    }
  }

  lemma CleanOutside(cfg: Config, all: seq<Bytes>, sent: nat, ws: seq<Worker>, e: Engine, o: Output, w: nat, x: Worker, more: nat)
    requires Units(all, ws) && CleanInv(cfg, all, sent, ws, e, o)
    requires w < |ws| && (ws[w].Busy? ==> ws[w].pc.Returning?) && Units(all, ws[w := x])
    requires if x.Busy? then x.pc.Got? && x.u.seqno == sent && more == sent + 1 else more == sent
    ensures CleanInv(cfg, all, more, ws[w := x], e, o)
  {
    if !e.faulted && !o.cancelled {
      ChargeSame(cfg, all, ws, e, o, w, x, e, o);
      forall i | 0 <= i < more
        ensures i in o.counted || Due(ws[w := x], i)
      {
        if i == sent {
          assert Uncounted(ws[w := x][w], i);
        } else if i !in o.counted {
          DueKept(ws, w, x, i);
        }
      }
    }
  }

  lemma StoreOutside(cfg: Config, all: seq<Bytes>, ws: seq<Worker>, e: Engine, chunks: seq<Chunk>, w: nat, x: Worker)
    requires Units(all, ws) && StoreInv(cfg, all, ws, e, chunks)
    requires w < |ws| && (x.Busy? ==> x.pc.Got?) && Units(all, ws[w := x])
    ensures StoreInv(cfg, all, ws[w := x], e, chunks)
  {
  }

  lemma InvSend(cfg: Config, s: State, w: nat)
    requires ValidConfig(cfg) && Inv(cfg, s) && Enabled(cfg, s, ReaderSend(w))
    ensures Inv(cfg, Do(cfg, s, ReaderSend(w)))
  {
    hide PoolInv, TokenInv, StoreInv, PlaceInv, ErrorInv, PutsInv, CleanInv, NoCollisions;
    var r := s.src.reader;
    var u := Unit(|s.src.sent|, r.buf, r.n);
    var x := Busy(u, Got);
    PoolStep(cfg, s, ReaderSend(w));
    StreamStep(cfg, s, ReaderSend(w));
    UnitStep(cfg, s, ReaderSend(w));
    assert Units(All(cfg), s.workers[w := x]);
    TokenOutside(cfg, All(cfg), s.workers, s.eng, w, x);
    StoreOutside(cfg, All(cfg), s.workers, s.eng, s.out.chunks, w, x);
    PlaceSend(cfg, s.src.sent, s.workers, s.out, w, u, s.pool.mem[r.buf][..r.n]);
    ErrorOutside(s.workers, s.eng, s.out, w, x);
    if NoCollisions(cfg, All(cfg)) {
      CleanOutside(cfg, All(cfg), |s.src.sent|, s.workers, s.eng, s.out, w, x, |s.src.sent| + 1);
    }
  }

  lemma InvWorkBusy(cfg: Config, s: State, w: nat, fault: Fault)
    requires Enabled(cfg, s, Work(w, fault)) && s.workers[w].Busy? && !s.workers[w].pc.Returning?
    requires ValidConfig(cfg) && Inv(cfg, s)
    ensures Inv(cfg, Do(cfg, s, Work(w, fault)))
  {
    var s' := Do(cfg, s, Work(w, fault));
    assert PoolInv(cfg, s'.src.reader, s'.pool, s'.workers) && StreamInv(cfg, s'.src, s'.pool, s'.out.cancelled)
        && UnitInv(s'.src.sent, s'.pool, s'.workers) by {
      PoolStep(cfg, s, Work(w, fault));
      StreamStep(cfg, s, Work(w, fault));
      UnitStep(cfg, s, Work(w, fault));
    }
    HoldsItsChunk(cfg, s, w);
    var u := s.workers[w].u;
    AdvanceStep(cfg, s, w, fault, All(cfg)[u.seqno]);
    InvAdvance(cfg, s, w, fault, Advance(cfg, s.eng, s.out, u.seqno, All(cfg)[u.seqno], s.workers[w].pc, fault));
  }

  lemma InvWorkOutside(cfg: Config, s: State, w: nat)
    requires Enabled(cfg, s, Work(w, Clean)) && (s.workers[w].Busy? ==> s.workers[w].pc.Returning?)
    requires ValidConfig(cfg) && Inv(cfg, s)
    ensures Inv(cfg, Do(cfg, s, Work(w, Clean)))
  {
    hide PoolInv, StreamInv, UnitInv, TokenInv, StoreInv, PlaceInv, ErrorInv, PutsInv, CleanInv, NoCollisions;
    PoolStep(cfg, s, Work(w, Clean));
    StreamStep(cfg, s, Work(w, Clean));
    UnitStep(cfg, s, Work(w, Clean));
    var x := if s.workers[w].Idle? then Exited else Idle;
    TokenOutside(cfg, All(cfg), s.workers, s.eng, w, x);
    StoreOutside(cfg, All(cfg), s.workers, s.eng, s.out.chunks, w, x);
    PlaceOutside(cfg, s.src.sent, s.workers, s.out, w, x);
    ErrorOutside(s.workers, s.eng, s.out, w, x);
    if NoCollisions(cfg, All(cfg)) {
      CleanOutside(cfg, All(cfg), |s.src.sent|, s.workers, s.eng, s.out, w, x, |s.src.sent|);
    }
  }

  /** The reader's own steps. */
  lemma InvReader(cfg: Config, s: State, step: Step)
    requires ValidConfig(cfg) && Inv(cfg, s) && Enabled(cfg, s, step)
    requires !step.Work? && !step.ReaderSend? && !step.CallerCancels?
    ensures Inv(cfg, Do(cfg, s, step))
  {
    hide PoolInv, StreamInv, UnitInv, Units, TokenInv, StoreInv, PlaceInv, ErrorInv, PutsInv, CleanInv, NoCollisions;
    PoolStep(cfg, s, step);
    StreamStep(cfg, s, step);
    UnitStep(cfg, s, step);
    ReaderKeepsRest(cfg, s, step);
  }

  lemma ReaderKeepsRest(cfg: Config, s: State, step: Step)
    requires Enabled(cfg, s, step) && !step.Work? && !step.ReaderSend? && !step.CallerCancels?
    ensures var s' := Do(cfg, s, step);
            s'.workers == s.workers && s'.eng == s.eng && s'.out == s.out && s'.src.sent == s.src.sent
  {
  }

  lemma InvCancel(cfg: Config, s: State)
    requires Enabled(cfg, s, CallerCancels) && ValidConfig(cfg) && Inv(cfg, s)
    ensures Inv(cfg, Do(cfg, s, CallerCancels))
  {
    hide PoolInv, StreamInv, UnitInv, Units, TokenInv, StoreInv, NoCollisions;
    PoolStep(cfg, s, CallerCancels);
    StreamStep(cfg, s, CallerCancels);
    UnitStep(cfg, s, CallerCancels);
    CancelKeeps(cfg, s.src.sent, s.workers, s.eng, s.out);
    hide PlaceInv, ErrorInv;
  }

  lemma CancelKeeps(cfg: Config, sent: seq<Bytes>, ws: seq<Worker>, e: Engine, o: Output)
    requires PlaceInv(cfg, sent, ws, o) && ErrorInv(ws, e, o)
    ensures var o' := o.(cancelled := true, callerGone := true); PlaceInv(cfg, sent, ws, o') && ErrorInv(ws, e, o')
  {
    var o' := o.(cancelled := true, callerGone := true);
    forall w | 0 <= w < |ws|
      ensures Open(ws[w], o')
    {
      assert Open(ws[w], o);
    }
  }

  /** Every step keeps the invariant. */
  lemma InvStep(cfg: Config, s: State, step: Step)
    requires ValidConfig(cfg) && Inv(cfg, s) && Enabled(cfg, s, step)
    ensures Inv(cfg, Do(cfg, s, step))
  {
    hide Inv, Do, ValidConfig;
    if step.Work? {
      if s.workers[step.w].Busy? && !s.workers[step.w].pc.Returning? {
        InvWorkBusy(cfg, s, step.w, step.fault);
      } else {
        InvWorkOutside(cfg, s, step.w);
      }
    } else if step.ReaderSend? {
      InvSend(cfg, s, step.w);
    } else if step.CallerCancels? {
      InvCancel(cfg, s);
    } else {
      InvReader(cfg, s, step);
    }
  }

  lemma {:induction false} InvRun(cfg: Config, s: State, run: seq<Step>)
    requires ValidConfig(cfg) && Inv(cfg, s) && Exec(cfg, s, run).Some?
    ensures Inv(cfg, Exec(cfg, s, run).value)
    decreases run
  {
    if run != [] {
      InvStep(cfg, s, run[0]);
      InvRun(cfg, Do(cfg, s, run[0]), run[1..]);
    }
  }

  // ---------------------------------------------------------------- the promises

  lemma {:induction false} RefSizes(cfg: Config, cs: seq<Bytes>)
    ensures SumSizes(Refs(cfg.codec, cs)) == |Flatten(cs)|
  {
    if cs != [] {
      var n := |cs| - 1;
      RefSizes(cfg, cs[..n]);
      assert Refs(cfg.codec, cs)[..n] == Refs(cfg.codec, cs[..n]);
      FlattenLast(cs);
    }
  }

  lemma {:induction false} NoGap(chunks: seq<Chunk>, from: nat)
    requires from <= |chunks|
    ensures FirstGap(chunks, from) == |chunks| <==> forall i :: from <= i < |chunks| ==> chunks[i].sha != ""
    ensures from <= FirstGap(chunks, from) <= |chunks|
    decreases |chunks| - from
  {
    if from < |chunks| && chunks[from].sha != "" {
      NoGap(chunks, from + 1);
    }
  }

  /** A complete run of the pipeline that returned. */
  ghost predicate Finishes(cfg: Config, run: seq<Step>, s: State) {
    ValidConfig(cfg) && Exec(cfg, Init(cfg), run) == Some(s) && Completed(s)
  }

  /** Every worker has returned, so nothing is awaited. */
  lemma NothingAwaited(ws: seq<Worker>, i: nat)
    requires forall w :: 0 <= w < |ws| ==> ws[w].Exited?
    ensures !Awaited(ws, i)
  {
  }

  /** What is known of the chunk slice once the reader and the workers have returned and nothing went wrong. */
  lemma Settled(cfg: Config, run: seq<Step>, s: State)
    requires Finishes(cfg, run, s) && !s.out.failed && s.src.reader.err == NoError
    ensures !cfg.tail.ReadError? && s.src.sent == All(cfg)
    ensures PlaceInv(cfg, All(cfg), s.workers, s.out)
    ensures s.out.skipped != {} ==> s.out.callerGone
    ensures |s.out.chunks| <= |All(cfg)|
    ensures forall i: nat :: i in s.out.skipped <==> i < |All(cfg)| && !PlacedAt(s.out.chunks, i)
  {
    hide Exec, PoolInv, UnitInv, TokenInv, StoreInv, PutsInv, CleanInv, NoCollisions;
    InitInv(cfg);
    InvRun(cfg, Init(cfg), run);
    assert All(cfg) == s.src.sent + [] + [];
    forall i: nat
      ensures i in s.out.skipped <==> i < |All(cfg)| && !PlacedAt(s.out.chunks, i)
    {
      NothingAwaited(s.workers, i);
    }
  }

  /** Whatever the slice lists is stored, unless a stale row hides it. */
  lemma SettledStore(cfg: Config, run: seq<Step>, s: State)
    requires ValidConfig(cfg) && Exec(cfg, Init(cfg), run) == Some(s)
    ensures forall i: nat :: PlacedAt(s.out.chunks, i) ==>
              (s.out.chunks[i].sha in s.eng.objects <==> s.out.chunks[i].sha !in Stale(cfg))
  {
    hide Exec, PoolInv, StreamInv, UnitInv, TokenInv, PlaceInv, ErrorInv, PutsInv, CleanInv, NoCollisions;
    InitInv(cfg);
    InvRun(cfg, Init(cfg), run);
  }

  /** The least chunk let go from `from` on, or the number of chunks. */
  function FirstSkipped(skipped: set<nat>, n: nat, from: nat): (k: nat)
    requires from <= n
    ensures from <= k <= n && (k < n ==> k in skipped) && forall i :: from <= i < k ==> i !in skipped
    decreases n - from
  {
    if from == n || from in skipped then from else FirstSkipped(skipped, n, from + 1)
  }

  /** The slice is filled exactly outside a set of entries, and ends with a filled one. */
  ghost predicate FilledBut(chunks: seq<Chunk>, skipped: set<nat>, n: nat) {
    && |chunks| <= n && (chunks != [] ==> chunks[|chunks| - 1] != NO_CHUNK)
    && (forall i: nat :: i in skipped <==> i < n && !PlacedAt(chunks, i))
    && (forall i :: 0 <= i < |chunks| ==> (chunks[i].sha == "" <==> chunks[i] == NO_CHUNK))
  }

  /** Nothing but a tail missing: the slice is what comes before it, without a gap. */
  lemma TailSkipped(chunks: seq<Chunk>, skipped: set<nat>, n: nat)
    requires FilledBut(chunks, skipped, n)
    requires forall i :: FirstSkipped(skipped, n, 0) <= i < n ==> i in skipped
    ensures FirstGap(chunks, 0) == |chunks| == FirstSkipped(skipped, n, 0)
  {
    hide FirstGap, FirstSkipped;
    var k := FirstSkipped(skipped, n, 0);
    NoGap(chunks, 0);
    assert |chunks| > k ==> |chunks| - 1 in skipped;
    assert |chunks| < k ==> |chunks| !in skipped;
    forall i | 0 <= i < |chunks|
      ensures chunks[i].sha != ""
    {
      assert i !in skipped && PlacedAt(chunks, i);
    }
  }

  /** A later entry filled: the first gap is the first one missing. */
  lemma MiddleSkipped(chunks: seq<Chunk>, skipped: set<nat>, n: nat, j: nat)
    requires FilledBut(chunks, skipped, n)
    requires FirstSkipped(skipped, n, 0) <= j < n && j !in skipped
    ensures FirstGap(chunks, 0) == FirstSkipped(skipped, n, 0) < |chunks|
  {
    hide FirstGap, FirstSkipped;
    var k := FirstSkipped(skipped, n, 0);
    assert PlacedAt(chunks, j) && !PlacedAt(chunks, k);
    forall i | 0 <= i < k
      ensures chunks[i].sha != ""
    {
      assert PlacedAt(chunks, i);
    }
    GapAt(chunks, 0, k);
  }

  lemma {:induction false} GapAt(chunks: seq<Chunk>, from: nat, k: nat)
    requires from <= k < |chunks| && chunks[k].sha == "" && forall i :: from <= i < k ==> chunks[i].sha != ""
    ensures FirstGap(chunks, from) == k
    decreases |chunks| - from
  {
    if from < k {
      GapAt(chunks, from + 1, k);
    }
  }

  /**
   * What BackupStream returns, exactly.  A failed index or store call or a failed
   * read is reported.  Otherwise the chunks missing are those a worker let go
   * after the caller had cancelled: when they are the stream's last ones the call
   * succeeds without them, and when a later one was stored the first missing one
   * is reported.
   */
  lemma ResultIsExact(cfg: Config, run: seq<Step>, s: State)
    requires Finishes(cfg, run, s)
    ensures s.out.failed ==> Returned(s) == Err(StoreFailed)
    ensures !s.out.failed && s.src.reader.err != NoError ==> Returned(s) == Err(s.src.reader.err)
    ensures !s.out.failed && s.src.reader.err == NoError ==>
              var all := All(cfg);
              var k := FirstSkipped(s.out.skipped, |all|, 0);
              && (s.out.skipped != {} ==> s.out.callerGone)
              && (forall i :: i in s.out.skipped ==> i < |all|)
              && Returned(s) ==
                   if forall i :: k <= i < |all| ==> i in s.out.skipped
                   then Ok(DiskManifest(|Flatten(all[..k])|, Refs(cfg.codec, all[..k])))
                   else Err(NeverStored(k))
  {
    if !s.out.failed && s.src.reader.err == NoError {
      Settled(cfg, run, s);
      hide Exec, FirstSkipped, FirstGap, Split;
      SliceIsExact(cfg, All(cfg), s.workers, s.out);
    }
  }

  lemma SliceIsExact(cfg: Config, all: seq<Bytes>, ws: seq<Worker>, o: Output)
    requires PlaceInv(cfg, all, ws, o) && forall x :: cfg.codec.sha(x) != ""
    requires forall i: nat :: i in o.skipped <==> i < |all| && !PlacedAt(o.chunks, i)
    ensures var k := FirstSkipped(o.skipped, |all|, 0);
            Assembled(o.chunks) ==
              if forall i :: k <= i < |all| ==> i in o.skipped then Ok(DiskManifest(|Flatten(all[..k])|, Refs(cfg.codec, all[..k])))
              else Err(NeverStored(k))
  {
    hide FirstSkipped, FirstGap;
    var k := FirstSkipped(o.skipped, |all|, 0);
    assert FilledBut(o.chunks, o.skipped, |all|);
    if forall i :: k <= i < |all| ==> i in o.skipped {
      TailSkipped(o.chunks, o.skipped, |all|);
      forall i | 0 <= i < k
        ensures o.chunks[i] == Refs(cfg.codec, all[..k])[i]
      {
        assert PlacedAt(o.chunks, i);
      }
      assert o.chunks == Refs(cfg.codec, all[..k]);
      RefSizes(cfg, all[..k]);
    } else {
      var j :| k <= j < |all| && j !in o.skipped;
      MiddleSkipped(o.chunks, o.skipped, |all|, j);
    }
  }

  /** A list of non-empty chunks is at least as long as any of its prefixes, and longer than a proper one. */
  lemma PrefixLength(cs: seq<Bytes>, k: nat)
    requires k <= |cs| && forall i :: 0 <= i < |cs| ==> |cs[i]| > 0
    ensures |Flatten(cs[..k])| <= |Flatten(cs)|
    ensures |Flatten(cs[..k])| == |Flatten(cs)| <==> k == |cs|
  {
    FlattenAppend(cs[..k], cs[k..]);
    assert cs == cs[..k] + cs[k..];
    if k < |cs| {
      assert |cs[k..][0]| > 0;
    }
  }

  /**
   * Whatever the interleaving, the faults and the cancellations: a manifest
   * BackupStream returns lists the stream's first chunks, in order, and those it
   * leaves out are exactly the ones let go.  Each one listed is stored exactly
   * when no stale index row stands for it.
   */
  lemma ManifestIsAPrefix(cfg: Config, run: seq<Step>, s: State)
    requires Finishes(cfg, run, s) && Returned(s).Ok?
    ensures !cfg.tail.ReadError? && !s.out.failed && (s.out.skipped != {} ==> s.out.callerGone)
    ensures Returned(s).value.chunks == s.out.chunks
    ensures var dm := Returned(s).value;
            && |dm.chunks| <= |All(cfg)|
            && dm.chunks == Refs(cfg.codec, All(cfg)[..|dm.chunks|])
            && dm.sizeBytes == |Flatten(All(cfg)[..|dm.chunks|])| <= |cfg.data|
            && (dm.sizeBytes == |cfg.data| <==> |dm.chunks| == |All(cfg)|)
            && (forall i: nat :: i in s.out.skipped <==> |dm.chunks| <= i < |All(cfg)|)
            && (forall c :: c in dm.chunks ==> (c.sha in s.eng.objects <==> c.sha !in Stale(cfg)))
  {
    ResultIsExact(cfg, run, s);
    Settled(cfg, run, s);
    SettledStore(cfg, run, s);
    var all := All(cfg);
    var k := FirstSkipped(s.out.skipped, |all|, 0);
    SplitShape(cfg.data, cfg.chunkSize);
    PrefixLength(all, k);
    hide Exec, PlaceInv;
    ListedArePlaced(cfg, all, k);
  }

  lemma ListedArePlaced(cfg: Config, all: seq<Bytes>, k: nat)
    requires k <= |all| && forall x :: cfg.codec.sha(x) != ""
    ensures var refs := Refs(cfg.codec, all[..k]);
            |refs| == k && forall c :: c in refs ==> exists i: nat :: PlacedAt(refs, i) && refs[i] == c
  {
    var refs := Refs(cfg.codec, all[..k]);
    forall c | c in refs
      ensures exists i: nat :: PlacedAt(refs, i) && refs[i] == c
    {
      var i :| 0 <= i < |refs| && refs[i] == c;
      assert PlacedAt(refs, i);
    }
  }

  /**
   * A manifest returned without error is the whole stream, in order, complete and
   * every chunk but the last of full size, exactly when no chunk was let go; and
   * none is while the caller's context lives.
   */
  lemma BackupStreamDelivers(cfg: Config, run: seq<Step>, s: State)
    requires Finishes(cfg, run, s) && Returned(s).Ok?
    ensures !s.out.callerGone ==> s.out.skipped == {}
    ensures Returned(s).value == DiskManifest(|cfg.data|, Refs(cfg.codec, Split(cfg.data, cfg.chunkSize))) <==> s.out.skipped == {}
    ensures Flatten(Split(cfg.data, cfg.chunkSize)) == cfg.data
    ensures forall i :: 0 <= i < |Split(cfg.data, cfg.chunkSize)| - 1 ==>
              Refs(cfg.codec, Split(cfg.data, cfg.chunkSize))[i].size == cfg.chunkSize
    ensures forall c :: c in Returned(s).value.chunks ==> (c.sha in s.eng.objects <==> c.sha !in Stale(cfg))
  {
    ManifestIsAPrefix(cfg, run, s);
    hide Exec;
    var all := All(cfg);
    assert all[..|all|] == all;
    SplitShape(cfg.data, cfg.chunkSize);
    if s.out.skipped == {} {
      assert |Returned(s).value.chunks| == |all| || |all| - 1 in s.out.skipped;
    }
  }

  /** What the run leaves in the store: every old object untouched, every new one the stored form of a chunk, stale rows still stale. */
  lemma BackupStreamStores(cfg: Config, run: seq<Step>, s: State)
    requires ValidConfig(cfg) && Exec(cfg, Init(cfg), run) == Some(s)
    ensures cfg.index <= s.eng.index && forall h :: h in s.eng.index ==> h in s.eng.objects || h in Stale(cfg)
    ensures forall h :: h in cfg.objects ==> h in s.eng.objects && s.eng.objects[h] == cfg.objects[h]
    ensures forall h :: h in s.eng.objects && h !in cfg.objects ==> h !in cfg.index && Uploaded(cfg, All(cfg), s.eng, h)
    ensures Distinct(s.eng.puts)
    ensures forall h :: h in s.eng.objects <==> h in cfg.objects || h in s.eng.puts
    ensures forall h :: h in s.eng.puts ==> h !in Known(cfg)
  {
    hide Exec, PoolInv, StreamInv, UnitInv, TokenInv, PlaceInv, ErrorInv, CleanInv, NoCollisions;
    InitInv(cfg);
    InvRun(cfg, Init(cfg), run);
  }

  /** If any index or store call fails, the call returns an error. */
  lemma FaultsAreReported(cfg: Config, run: seq<Step>, s: State)
    requires Finishes(cfg, run, s) && s.eng.faulted
    ensures Returned(s) == Err(StoreFailed)
  {
    InitInv(cfg);
    InvRun(cfg, Init(cfg), run);
  }

  /** At every moment the buffers are free, with the reader or with workers, at most one more than there are workers. */
  lemma BuffersAreBounded(cfg: Config, run: seq<Step>, s: State)
    requires ValidConfig(cfg) && Exec(cfg, Init(cfg), run) == Some(s)
    ensures |s.pool.free| + (if ReaderBuffer(s.src.reader).Some? then 1 else 0) + Held(s.workers)
            == |s.pool.mem| <= cfg.workers + 1
    ensures forall w :: 0 <= w < |s.workers| && s.workers[w].Busy? ==> |s.pool.free| < s.pool.max
    ensures ReaderBuffer(s.src.reader).Some? ==> |s.pool.free| < s.pool.max
  {
    InitInv(cfg);
    InvRun(cfg, Init(cfg), run);
    forall w | 0 <= w < |s.workers| && s.workers[w].Busy?
      ensures |s.pool.free| < s.pool.max
    {
      PoolReturn(cfg, s.src.reader, s.pool, s.workers, w);
    }
  }

  /** What is known of the counters once a call has returned without error. */
  lemma SettledClean(cfg: Config, run: seq<Step>, s: State)
    requires Finishes(cfg, run, s) && Returned(s).Ok? && !s.out.callerGone && NoCollisions(cfg, All(cfg))
    ensures Units(All(cfg), s.workers) && PutsInv(cfg, s.eng)
    ensures StoreInv(cfg, All(cfg), s.workers, s.eng, s.out.chunks)
    ensures ChargeInv(cfg, All(cfg), s.workers, s.eng, s.out)
    ensures Totals(cfg, All(cfg), s.out.stats, s.out.counted, s.out.charged)
    ensures forall i: nat :: i in s.out.counted <==> i < |All(cfg)|
  {
    assert !s.eng.faulted by {
      if s.eng.faulted {
        FaultsAreReported(cfg, run, s);
      }
    }
    assert s.src.sent == All(cfg) && !s.out.failed by {
      ManifestIsAPrefix(cfg, run, s);
      Settled(cfg, run, s);
    }
    InitInv(cfg);
    InvRun(cfg, Init(cfg), run);
    AllCounted(All(cfg), s.workers, s.out);
  }

  lemma AllCounted(all: seq<Bytes>, ws: seq<Worker>, o: Output)
    requires Units(all, ws) && CountInv(all, |all|, ws, o) && forall w :: 0 <= w < |ws| ==> ws[w].Exited?
    ensures forall i: nat :: i in o.counted <==> i < |all|
  {
    forall i: nat
      ensures i in o.counted <==> i < |all|
    {
      assert i < |all| ==> i in o.counted || Due(ws, i);
    }
  }

  /** Clean runs count what a serial pipeline would, and upload each absent hash once. */
  lemma AccountingIsSerial(cfg: Config, run: seq<Step>, s: State)
    requires Finishes(cfg, run, s) && Returned(s).Ok? && !s.out.callerGone
    requires NoCollisions(cfg, Split(cfg.data, cfg.chunkSize))
    ensures s.out.stats == SerialStats(cfg, Split(cfg.data, cfg.chunkSize))
    ensures Distinct(s.eng.puts)
    ensures forall h :: h in s.eng.puts <==> h in Hashes(cfg.codec, Split(cfg.data, cfg.chunkSize)) && h !in Known(cfg)
  {
    hide Exec, StoreInv, ChargeInv, PutsInv, Units, Totals, SerialStats, NoCollisions, Split, Refs, Stored, Upto, Hashes, Known;
    var all := All(cfg);
    SettledClean(cfg, run, s);
    BackupStreamDelivers(cfg, run, s);
    ManifestIsAPrefix(cfg, run, s);
    PutsAreTheAbsent(cfg, s, all);
    CountedAll(s.out.counted, |all|);
    StoredNonEmpty(cfg);
    SerialTotals(cfg, all, |all|);
    assert all[..|all|] == all;
    TotalsDetermine(cfg, all, s.out.stats, SerialStats(cfg, all), Upto(|all|), s.out.charged);
  }

  lemma CountedAll(counted: set<nat>, n: nat)
    requires forall i: nat :: i in counted <==> i < n
    ensures counted == Upto(n)
  {
    forall i: nat
      ensures i in counted <==> i in Upto(n)
    {
      UptoMembers(n, i);
    }
  }

  lemma StoredNonEmpty(cfg: Config)
    requires ValidConfig(cfg)
    ensures forall i :: 0 <= i < |All(cfg)| ==> |Stored(cfg.codec, cfg.compress, All(cfg)[i])| > 0
  {
    SplitShape(cfg.data, cfg.chunkSize);
    forall i | 0 <= i < |All(cfg)|
      ensures |Stored(cfg.codec, cfg.compress, All(cfg)[i])| > 0
    {
      StoredDecodesIff(cfg.codec, cfg.compress, All(cfg)[i]);
    }
  }

  lemma PutsAreTheAbsent(cfg: Config, s: State, all: seq<Bytes>)
    requires Units(all, s.workers) && Completed(s) && PutsInv(cfg, s.eng)
    requires StoreInv(cfg, all, s.workers, s.eng, s.out.chunks)
    requires ChargeInv(cfg, all, s.workers, s.eng, s.out)
    requires s.out.chunks == Refs(cfg.codec, all) && forall x :: cfg.codec.sha(x) != ""
    ensures s.out.charged == Hashes(cfg.codec, all) - Known(cfg)
    ensures forall h :: h in s.eng.puts <==> h in Hashes(cfg.codec, all) && h !in Known(cfg)
  {
    forall h | h in s.eng.puts
      ensures h in s.out.charged && h in Hashes(cfg.codec, all) && h !in Known(cfg)
    {
      assert h in s.out.charged || Debt(cfg, all, s.workers, h);
      assert Uploaded(cfg, all, s.eng, h);
      var i :| 0 <= i < |all| && UploadedAs(cfg, all[i], s.eng, h);
    }
    forall h | h in Hashes(cfg.codec, all) && h !in Known(cfg)
      ensures h in s.eng.puts
    {
      var i :| 0 <= i < |all| && cfg.codec.sha(all[i]) == h;
      assert s.out.chunks[i].sha == h && s.out.chunks[i] != NO_CHUNK;
    }
  }

  /** The only worker has just been handed the only chunk, and the stream has ended. */
  function HandedOver(cfg: Config): State
    requires 0 < |cfg.data| < cfg.chunkSize
  {
    var n := |cfg.data|;
    State(Source(Done(NoError), [], [cfg.data]),
          Pool(2, [cfg.data + seq(cfg.chunkSize - n, i => 0)], []),
          [Busy(Unit(0, 0, n), Got)],
          Init(cfg).eng, Init(cfg).out)
  }

  /** The only worker idle, with the reader and the pool as given. */
  function Reading(cfg: Config, src: Source, pool: Pool): State {
    State(src, pool, [Idle], Init(cfg).eng, Init(cfg).out)
  }

  lemma ReadAndSend(cfg: Config)
    requires ValidConfig(cfg) && 0 < |cfg.data| < cfg.chunkSize && !cfg.tail.ReadError?
    ensures var s := Reading(cfg, Source(Fill(0), cfg.data, []), Pool(2, [seq(cfg.chunkSize, i => 0)], []));
            && Enabled(cfg, s, ReaderFill)
            && Enabled(cfg, Do(cfg, s, ReaderFill), ReaderSend(0))
            && Do(cfg, Do(cfg, s, ReaderFill), ReaderSend(0)) == HandedOver(cfg)
  {
    var n := |cfg.data|;
    var zeros: Bytes := seq(cfg.chunkSize, i => 0);
    var mem := cfg.data + seq(cfg.chunkSize - n, i => 0);
    var s := Reading(cfg, Source(Fill(0), cfg.data, []), Pool(2, [zeros], []));
    assert cfg.data[..n] == cfg.data && cfg.data[n..] == [] && cfg.data + zeros[n..] == mem;
    assert DoFill(cfg, s, 0) == Reading(cfg, Source(Send(0, n, AtEnd), [], []), Pool(2, [mem], []));
    assert mem[..n] == cfg.data;
  }

  lemma ReachHandedOver(cfg: Config)
    requires ValidConfig(cfg) && cfg.workers == 1 && 0 < |cfg.data| < cfg.chunkSize && !cfg.tail.ReadError?
    ensures Exec(cfg, Init(cfg), [ReaderCheck, ReaderAllocate, ReaderFill, ReaderSend(0)]) == Some(HandedOver(cfg))
  {
    var run := [ReaderCheck, ReaderAllocate, ReaderFill, ReaderSend(0)];
    var s1 := Reading(cfg, Source(Get, cfg.data, []), Pool(2, [], []));
    var s2 := Reading(cfg, Source(Fill(0), cfg.data, []), Pool(2, [seq(cfg.chunkSize, i => 0)], []));
    assert Do(cfg, Init(cfg), ReaderCheck) == s1;
    assert Do(cfg, s1, ReaderAllocate) == s2;
    ReadAndSend(cfg);
    var s3 := Do(cfg, s2, ReaderFill);
    assert run[1..] == [ReaderAllocate, ReaderFill, ReaderSend(0)];
    assert run[1..][1..] == [ReaderFill, ReaderSend(0)];
    assert run[1..][1..][1..] == [ReaderSend(0)];
    assert Exec(cfg, HandedOver(cfg), []) == Some(HandedOver(cfg));
    assert Exec(cfg, s3, run[1..][1..][1..]) == Some(HandedOver(cfg));
    assert Exec(cfg, s2, run[1..][1..]) == Some(HandedOver(cfg));
  }

  /** One more step before a run. */
  lemma ExecFirst(cfg: Config, s: State, step: Step, run: seq<Step>)
    requires Enabled(cfg, s, step)
    ensures Exec(cfg, s, [step] + run) == Exec(cfg, Do(cfg, s, step), run)
  {
    hide Do, Enabled;
    assert ([step] + run)[1..] == run;
  }

  /** The lone worker lets its chunk go, hands its buffer back and leaves. */
  lemma LetGo(cfg: Config, h: State, o: Output, n: nat)
    requires h.workers == [Busy(Unit(0, 0, n), Got)] && InMemory(h.pool, 0, n)
    requires h.src.reader.Done? && h.pool.free == [] && h.pool.max == 2 && h.out == o && o.cancelled
    ensures Exec(cfg, h, [Work(0, Clean), Work(0, Clean), Work(0, Clean)])
              == Some(State(h.src, h.pool.(free := [0]), [Exited], h.eng, o.(skipped := o.skipped + {0})))
  {
    var o2 := o.(skipped := o.skipped + {0});
    var s2 := State(h.src, h.pool, [Busy(h.workers[0].u, Returning)], h.eng, o2);
    var s3 := State(h.src, h.pool.(free := [0]), [Idle], h.eng, o2);
    var s4 := State(h.src, h.pool.(free := [0]), [Exited], h.eng, o2);
    assert Do(cfg, h, Work(0, Clean)) == s2;
    assert Do(cfg, s2, Work(0, Clean)) == s3;
    assert Do(cfg, s3, Work(0, Clean)) == s4;
    assert Enabled(cfg, h, Work(0, Clean)) && Enabled(cfg, s2, Work(0, Clean)) && Enabled(cfg, s3, Work(0, Clean));
    hide Do, Enabled;
    ExecFirst(cfg, s3, Work(0, Clean), []);
    ExecFirst(cfg, s2, Work(0, Clean), [Work(0, Clean)]);
    ExecFirst(cfg, h, Work(0, Clean), [Work(0, Clean), Work(0, Clean)]);
    assert [Work(0, Clean)] + [Work(0, Clean), Work(0, Clean)] == [Work(0, Clean), Work(0, Clean), Work(0, Clean)];
    assert [Work(0, Clean)] + [Work(0, Clean)] == [Work(0, Clean), Work(0, Clean)];
    assert [Work(0, Clean)] + [] == [Work(0, Clean)];
  }

  lemma CancelHandedOver(cfg: Config) returns (run: seq<Step>, s: State)
    requires ValidConfig(cfg) && cfg.workers == 1 && 0 < |cfg.data| < cfg.chunkSize
    ensures Exec(cfg, HandedOver(cfg), run) == Some(s)
    ensures Completed(s) && s.out.callerGone && s.out.skipped == {0} && Returned(s) == Ok(DiskManifest(0, []))
  {
    var h := HandedOver(cfg);
    var o := h.out.(cancelled := true, callerGone := true);
    var works := [Work(0, Clean), Work(0, Clean), Work(0, Clean)];
    run := [CallerCancels] + works;
    LetGo(cfg, h.(out := o), o, |cfg.data|);
    ExecFirst(cfg, h, CallerCancels, works);
    s := State(h.src, h.pool.(free := [0]), [Exited], h.eng, o.(skipped := o.skipped + {0}));
  }

  lemma {:induction false} ExecAppend(cfg: Config, s: State, a: seq<Step>, b: seq<Step>)
    requires Exec(cfg, s, a).Some?
    ensures Exec(cfg, s, a + b) == Exec(cfg, Exec(cfg, s, a).value, b)
    decreases a
  {
    if a == [] {
      assert a + b == b;
    } else {
      assert (a + b)[1..] == a[1..] + b;
      ExecAppend(cfg, Do(cfg, s, a[0]), a[1..], b);
    }
  }

  /**
   * A caller that cancels after the stream has been read but before the last
   * chunk is picked up gets a manifest without that chunk and no error: here for
   * every short stream and a single worker.
   */
  lemma LateCancelTruncates(cfg: Config) returns (run: seq<Step>, s: State)
    requires ValidConfig(cfg) && cfg.workers == 1 && 0 < |cfg.data| < cfg.chunkSize && !cfg.tail.ReadError?
    ensures Finishes(cfg, run, s) && s.out.callerGone && s.out.skipped == {0} && Returned(s) == Ok(DiskManifest(0, []))
  {
    ReachHandedOver(cfg);
    var tail;
    tail, s := CancelHandedOver(cfg);
    run := [ReaderCheck, ReaderAllocate, ReaderFill, ReaderSend(0)] + tail;
    ExecAppend(cfg, Init(cfg), [ReaderCheck, ReaderAllocate, ReaderFill, ReaderSend(0)], tail);
  }
}
