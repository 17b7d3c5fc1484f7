/**
 * What BackupStream comes to: the chunk index it leaves, and its result whenever
 * the caller stays.
 */
module PipelineOutcome {
  import opened Base
  import opened ChunkFormat
  import opened Pipeline
  import opened PipelineSafety
  import opened PipelineCoalescing
  import opened PipelineTheorems

  // ---------------------------------------------------------------- the index

  /** The worker's chunk has been reported stored. */
  predicate Reported(pc: Pc) {
    pc.Placing? || pc.Recording? || ((pc.Unregister? || pc.Publish?) && pc.res.Some?)
  }

  ghost predicate WorkerIndexed(cfg: Config, all: seq<Bytes>, e: Engine, w: Worker)
    requires w.Busy? ==> w.u.seqno < |all|
  {
    w.Busy? && Reported(w.pc) ==> WorkerSha(cfg, all, w) in e.index
  }

  /** Rows are only added, for chunks of the stream, and nothing is reported stored or listed without one. */
  ghost predicate RowInv(cfg: Config, all: seq<Bytes>, ws: seq<Worker>, e: Engine, chunks: seq<Chunk>)
    requires Units(all, ws)
  {
    && cfg.index <= e.index <= cfg.index + Hashes(cfg.codec, all)
    && (forall w :: 0 <= w < |ws| ==> WorkerIndexed(cfg, all, e, ws[w]))
    && (forall t :: 0 <= t < |e.tokens| && e.tokens[t].Finished? && e.tokens[t].ok ==> e.tokens[t].sha in e.index)
    && (forall i :: 0 <= i < |chunks| && chunks[i] != NO_CHUNK ==> chunks[i].sha in e.index)
  }

  /** One worker's step, as far as rows go. */
  lemma RowMoves(cfg: Config, e: Engine, o: Output, at: nat, data: Bytes, pc: Pc, fault: Fault)
    requires CanAdvance(e, o.cancelled, pc, fault) && !pc.Returning?
    requires Reported(pc) ==> cfg.codec.sha(data) in e.index
    requires pc.Wait? ==> e.tokens[pc.t].sha == cfg.codec.sha(data)
    requires forall t :: 0 <= t < |e.tokens| && e.tokens[t].Finished? && e.tokens[t].ok ==> e.tokens[t].sha in e.index
    requires forall i :: 0 <= i < |o.chunks| && o.chunks[i] != NO_CHUNK ==> o.chunks[i].sha in e.index
    ensures var n := Advance(cfg, e, o, at, data, pc, fault);
            && e.index <= n.eng.index <= e.index + {cfg.codec.sha(data)}
            && (Reported(n.pc) ==> cfg.codec.sha(data) in n.eng.index)
            && (forall t :: 0 <= t < |n.eng.tokens| && n.eng.tokens[t].Finished? && n.eng.tokens[t].ok ==>
                  n.eng.tokens[t].sha in n.eng.index)
            && (forall i :: 0 <= i < |n.out.chunks| && n.out.chunks[i] != NO_CHUNK ==> n.out.chunks[i].sha in n.eng.index)
  {
    if pc.Placing? {
      PlacedShape(o.chunks, at, Chunk(cfg.codec.sha(data), |data|));
    }
  }

  lemma RowAdvance(cfg: Config, all: seq<Bytes>, ws: seq<Worker>, e: Engine, o: Output, w: nat, fault: Fault, n: Next)
    requires Units(all, ws) && TokenInv(cfg, all, ws, e) && RowInv(cfg, all, ws, e, o.chunks)
    requires w < |ws| && ws[w].Busy? && !ws[w].pc.Returning? && CanAdvance(e, o.cancelled, ws[w].pc, fault)
    requires n == Advance(cfg, e, o, ws[w].u.seqno, all[ws[w].u.seqno], ws[w].pc, fault)
    ensures var ws' := ws[w := Busy(ws[w].u, n.pc)];
            Units(all, ws') && RowInv(cfg, all, ws', n.eng, n.out.chunks)
  {
    var at := ws[w].u.seqno;
    assert WorkerIndexed(cfg, all, e, ws[w]) && WaiterOk(cfg, all, e, ws[w]);
    RowMoves(cfg, e, o, at, all[at], ws[w].pc, fault);
    hide Advance, CanAdvance, TokenInv;
    var ws' := ws[w := Busy(ws[w].u, n.pc)];
    forall v | 0 <= v < |ws'|
      ensures WorkerIndexed(cfg, all, n.eng, ws'[v])
    {
      assert WorkerIndexed(cfg, all, e, ws[v]);
    }
  }

  lemma RowOutside(cfg: Config, all: seq<Bytes>, ws: seq<Worker>, e: Engine, chunks: seq<Chunk>, w: nat, x: Worker)
    requires Units(all, ws) && RowInv(cfg, all, ws, e, chunks)
    requires w < |ws| && (x.Busy? ==> x.pc.Got?) && Units(all, ws[w := x])
    ensures RowInv(cfg, all, ws[w := x], e, chunks)
  {
    var ws' := ws[w := x];
    forall v | 0 <= v < |ws'|
      ensures WorkerIndexed(cfg, all, e, ws'[v])
    {
      assert WorkerIndexed(cfg, all, e, ws[v]);
    }
  }

  // --------------------------------------------------------------- the causes

  /** Nothing fails but for a failed call or a caller that has gone, and the reader reports a failed read only of a stream that has one. */
  ghost predicate CauseInv(cfg: Config, r: Reader, ws: seq<Worker>, e: Engine, o: Output) {
    && (o.failed || SomeDoomed(ws) ==> e.faulted || o.callerGone)
    && (r.Send? && r.out.Broken? ==> cfg.tail.ReadError?)
    && (r == Done(ReadFailed) ==> cfg.tail.ReadError?)
  }

  lemma CauseAdvance(cfg: Config, r: Reader, ws: seq<Worker>, e: Engine, o: Output, w: nat, data: Bytes, fault: Fault, n: Next)
    requires ErrorInv(ws, e, o) && CauseInv(cfg, r, ws, e, o)
    requires w < |ws| && ws[w].Busy? && !ws[w].pc.Returning? && CanAdvance(e, o.cancelled, ws[w].pc, fault)
    requires n == Advance(cfg, e, o, ws[w].u.seqno, data, ws[w].pc, fault)
    ensures CauseInv(cfg, r, ws[w := Busy(ws[w].u, n.pc)], n.eng, n.out)
  {
    var x := Busy(ws[w].u, n.pc);
    if Doomed(ws[w]) {
      assert SomeDoomed(ws);
    }
    if SomeDoomed(ws[w := x]) && !SomeDoomed(ws) {
      var v :| 0 <= v < |ws| && Doomed(ws[w := x][v]);
      assert v == w;
    }
  }

  lemma CauseOutside(cfg: Config, r: Reader, ws: seq<Worker>, e: Engine, o: Output, w: nat, x: Worker)
    requires CauseInv(cfg, r, ws, e, o) && w < |ws| && (x.Busy? ==> x.pc.Got?)
    ensures CauseInv(cfg, r, ws[w := x], e, o)
  {
    if SomeDoomed(ws[w := x]) {
      var v :| 0 <= v < |ws| && Doomed(ws[w := x][v]);
      assert Doomed(ws[v]);
    }
  }

  /** The reader's part of the causes. */
  lemma ReaderCause(cfg: Config, s: State, step: Step)
    requires Enabled(cfg, s, step) && !step.Work?
    requires CauseInv(cfg, s.src.reader, s.workers, s.eng, s.out)
    ensures CauseInv(cfg, Do(cfg, s, step).src.reader, s.workers, s.eng, s.out)
  {
  }

  // -------------------------------------------------------------- over a run

  ghost predicate OutcomeInv(cfg: Config, s: State)
    requires cfg.chunkSize > 0
  {
    && Inv(cfg, s)
    && RowInv(cfg, All(cfg), s.workers, s.eng, s.out.chunks)
    && CauseInv(cfg, s.src.reader, s.workers, s.eng, s.out)
  }

  lemma OutcomeInit(cfg: Config)
    requires ValidConfig(cfg)
    ensures OutcomeInv(cfg, Init(cfg))
  {
    InitInv(cfg);
    hide Inv, Split, Hashes;
    InitUnits(cfg);
  }

  lemma InitUnits(cfg: Config)
    requires ValidConfig(cfg) && Inv(cfg, Init(cfg))
    ensures Units(All(cfg), Init(cfg).workers)
  {
  }

  lemma InvParts(cfg: Config, s: State)
    requires ValidConfig(cfg) && Inv(cfg, s)
    ensures Units(All(cfg), s.workers) && TokenInv(cfg, All(cfg), s.workers, s.eng) && ErrorInv(s.workers, s.eng, s.out)
  {
  }

  lemma OutcomeBusy(cfg: Config, s: State, w: nat, fault: Fault)
    requires Enabled(cfg, s, Work(w, fault)) && s.workers[w].Busy? && !s.workers[w].pc.Returning?
    requires ValidConfig(cfg) && OutcomeInv(cfg, s)
    ensures OutcomeInv(cfg, Do(cfg, s, Work(w, fault)))
  {
    hide Inv, Units, TokenInv, ErrorInv, RowInv, CauseInv, Do, Advance, DoWork, Split;
    InvStep(cfg, s, Work(w, fault));
    InvParts(cfg, s);
    HoldsItsChunk(cfg, s, w);
    var all, u := All(cfg), s.workers[w].u;
    AdvanceStep(cfg, s, w, fault, all[u.seqno]);
    var n := Advance(cfg, s.eng, s.out, u.seqno, all[u.seqno], s.workers[w].pc, fault);
    RowAdvance(cfg, all, s.workers, s.eng, s.out, w, fault, n);
    CauseAdvance(cfg, s.src.reader, s.workers, s.eng, s.out, w, all[u.seqno], fault, n);
  }

  /** Picking up a chunk, putting down a finished one and exiting change neither rows nor causes. */
  lemma OutcomeOutside(cfg: Config, s: State, w: nat, x: Worker, s': State)
    requires ValidConfig(cfg) && OutcomeInv(cfg, s) && w < |s.workers| && (x.Busy? ==> x.pc.Got?)
    requires Inv(cfg, s') && s'.workers == s.workers[w := x] && s'.eng == s.eng && s'.out == s.out
    requires CauseInv(cfg, s'.src.reader, s.workers, s.eng, s.out)
    ensures OutcomeInv(cfg, s')
  {
    hide Inv, Units, TokenInv, ErrorInv, RowInv, CauseInv, Split;
    InvParts(cfg, s);
    InvParts(cfg, s');
    RowOutside(cfg, All(cfg), s.workers, s.eng, s.out.chunks, w, x);
    CauseOutside(cfg, s'.src.reader, s.workers, s.eng, s.out, w, x);
  }

  lemma IdleWork(cfg: Config, s: State, w: nat, fault: Fault)
    requires Enabled(cfg, s, Work(w, fault)) && (s.workers[w].Busy? ==> s.workers[w].pc.Returning?)
    ensures var s' := Do(cfg, s, Work(w, fault));
            && s'.workers == s.workers[w := if s.workers[w].Idle? then Exited else Idle]
            && s'.eng == s.eng && s'.out == s.out && s'.src == s.src
  {
  }

  lemma SendWork(cfg: Config, s: State, w: nat)
    requires Enabled(cfg, s, ReaderSend(w))
    ensures var s' := Do(cfg, s, ReaderSend(w));
            && w < |s.workers| && s'.workers == s.workers[w := Busy(Unit(|s.src.sent|, s.src.reader.buf, s.src.reader.n), Got)]
            && s'.eng == s.eng && s'.out == s.out
  {
  }

  lemma OutcomeStep(cfg: Config, s: State, step: Step)
    requires ValidConfig(cfg) && OutcomeInv(cfg, s) && Enabled(cfg, s, step)
    ensures OutcomeInv(cfg, Do(cfg, s, step))
  {
    hide OutcomeInv, Do, CanWork;
    if step.Work? && s.workers[step.w].Busy? && !s.workers[step.w].pc.Returning? {
      OutcomeBusy(cfg, s, step.w, step.fault);
    } else {
      OutcomeRest(cfg, s, step);
    }
  }

  lemma OutcomeRest(cfg: Config, s: State, step: Step)
    requires Enabled(cfg, s, step) && (step.Work? && s.workers[step.w].Busy? ==> s.workers[step.w].pc.Returning?)
    requires ValidConfig(cfg) && OutcomeInv(cfg, s)
    ensures OutcomeInv(cfg, Do(cfg, s, step))
  {
    hide Inv, Units, TokenInv, ErrorInv, RowInv, CauseInv, Split, Do, CanWork;
    InvStep(cfg, s, step);
    var s' := Do(cfg, s, step);
    if step.Work? {
      IdleWork(cfg, s, step.w, step.fault);
      OutcomeOutside(cfg, s, step.w, s'.workers[step.w], s');
    } else {
      ReaderCause(cfg, s, step);
      if step.ReaderSend? {
        SendWork(cfg, s, step.w);
        OutcomeOutside(cfg, s, step.w, s'.workers[step.w], s');
      } else if step.CallerCancels? {
        CallerLeaves(cfg, s);
      } else {
        ReaderKeepsRest(cfg, s, step);
      }
    }
  }

  lemma CallerLeaves(cfg: Config, s: State)
    requires ValidConfig(cfg) && OutcomeInv(cfg, s) && Enabled(cfg, s, CallerCancels)
    ensures OutcomeInv(cfg, Do(cfg, s, CallerCancels))
  {
    hide Inv, Units, RowInv, Split;
    InvStep(cfg, s, CallerCancels);
  }

  lemma {:induction false} OutcomeRun(cfg: Config, s: State, run: seq<Step>)
    requires ValidConfig(cfg) && OutcomeInv(cfg, s) && Exec(cfg, s, run).Some?
    ensures OutcomeInv(cfg, Exec(cfg, s, run).value)
    decreases run
  {
    hide OutcomeInv, Do;
    if run != [] {
      OutcomeStep(cfg, s, run[0]);
      OutcomeRun(cfg, Do(cfg, s, run[0]), run[1..]);
    }
  }

  // ----------------------------------------------------------------- promises

  /**
   * Every chunk of a manifest returned without error has its index row; no row is
   * lost, whatever happens, and none added but for chunks of the stream.  When no
   * chunk was let go the index is the old one and the stream's hashes.
   */
  lemma BackupStreamIndexes(cfg: Config, run: seq<Step>, s: State)
    requires ValidConfig(cfg) && Exec(cfg, Init(cfg), run) == Some(s)
    ensures cfg.index <= s.eng.index <= cfg.index + Hashes(cfg.codec, Split(cfg.data, cfg.chunkSize))
    ensures forall c :: c in s.out.chunks && c != NO_CHUNK ==> c.sha in s.eng.index
    ensures Completed(s) && Returned(s).Ok? ==> forall c :: c in Returned(s).value.chunks ==> c.sha in s.eng.index
    ensures Completed(s) && Returned(s).Ok? && s.out.skipped == {} ==>
              s.eng.index == cfg.index + Hashes(cfg.codec, Split(cfg.data, cfg.chunkSize))
  {
    OutcomeInit(cfg);
    OutcomeRun(cfg, Init(cfg), run);
    if Completed(s) && Returned(s).Ok? {
      ListedAreIndexed(cfg, run, s);
    }
  }

  lemma ListedAreIndexed(cfg: Config, run: seq<Step>, s: State)
    requires Finishes(cfg, run, s) && Returned(s).Ok? && s.eng.index <= cfg.index + Hashes(cfg.codec, All(cfg)) && cfg.index <= s.eng.index
    requires forall i :: 0 <= i < |s.out.chunks| && s.out.chunks[i] != NO_CHUNK ==> s.out.chunks[i].sha in s.eng.index
    ensures forall c :: c in Returned(s).value.chunks ==> c.sha in s.eng.index
    ensures s.out.skipped == {} ==> s.eng.index == cfg.index + Hashes(cfg.codec, All(cfg))
  {
    hide Exec, Split, Completed, Returned;
    var all := All(cfg);
    BackupStreamDelivers(cfg, run, s);
    ManifestIsAPrefix(cfg, run, s);
    forall i | 0 <= i < |s.out.chunks|
      ensures s.out.chunks[i].sha == cfg.codec.sha(all[i]) && s.out.chunks[i].sha in s.eng.index
    {
      assert s.out.chunks[i] == Ref(cfg.codec, all[i]);
    }
    if s.out.skipped == {} {
      forall h | h in Hashes(cfg.codec, all)
        ensures h in s.eng.index
      {
        var i :| 0 <= i < |all| && cfg.codec.sha(all[i]) == h;
        assert s.out.chunks[i].sha == h;
      }
    }
  }

  /**
   * While the caller stays, what a call returns is settled by what it met: a
   * failed index or store call is an error, then a read error is, and otherwise
   * the result is the whole stream.
   */
  lemma BackupStreamResult(cfg: Config, run: seq<Step>, s: State)
    requires Finishes(cfg, run, s) && !s.out.callerGone
    ensures Returned(s) ==
              if s.eng.faulted then Err(StoreFailed)
              else if cfg.tail.ReadError? then Err(ReadFailed)
              else Ok(DiskManifest(|cfg.data|, Refs(cfg.codec, Split(cfg.data, cfg.chunkSize))))
  {
    hide Split, Inv, RowInv, CauseInv, Returned;
    OutcomeInit(cfg);
    OutcomeRun(cfg, Init(cfg), run);
    if s.eng.faulted {
      FaultsAreReported(cfg, run, s);
    } else {
      ReaderOutcome(cfg, s);
      ResultIsExact(cfg, run, s);
      WholeStream(cfg);
    }
  }

  lemma WholeStream(cfg: Config)
    requires cfg.chunkSize > 0
    ensures All(cfg)[..|All(cfg)|] == All(cfg) && |Flatten(All(cfg))| == |cfg.data|
  {
    SplitShape(cfg.data, cfg.chunkSize);
  }

  lemma ReaderOutcome(cfg: Config, s: State)
    requires ValidConfig(cfg) && OutcomeInv(cfg, s) && s.src.reader.Done? && !s.out.callerGone && !s.eng.faulted
    ensures !s.out.failed && s.src.reader.err == if cfg.tail.ReadError? then ReadFailed else NoError
  {
  }
}
