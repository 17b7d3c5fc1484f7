/**
 * The pipeline never deadlocks and never runs forever: until everything has
 * returned some fault-free step is possible, and every run is bounded.
 */
module PipelineLiveness {
  import opened Base
  import opened ChunkFormat
  import opened Pipeline
  import opened PipelineSafety
  import opened PipelineCoalescing
  import opened PipelineAccounting
  import opened PipelineTheorems

  // ---------------------------------------------------------------- progress

  /** Wherever a worker with a chunk is, it or the leader it waits for can move without a fault. */
  lemma BusyCanMove(cfg: Config, s: State, w: nat) returns (v: nat)
    requires ValidConfig(cfg) && Inv(cfg, s) && w < |s.workers| && s.workers[w].Busy?
    ensures v < |s.workers| && Enabled(cfg, s, Work(v, Clean))
  {
    hide PoolInv, StreamInv, StoreInv, PlaceInv, ErrorInv, PutsInv, CleanInv, NoCollisions;
    v := w;
    var pc := s.workers[w].pc;
    assert LeaderOk(cfg, All(cfg), s.eng, s.workers[w]) && WaiterOk(cfg, All(cfg), s.eng, s.workers[w]);
    if pc.Wait? && s.eng.tokens[pc.t].Pending? {
      assert HasLeader(s.workers, pc.t);
      v :| 0 <= v < |s.workers| && Leads(s.workers[v], pc.t);
      assert LeaderOk(cfg, All(cfg), s.eng, s.workers[v]);
    }
  }

  lemma ReaderCanMove(cfg: Config, s: State) returns (step: Step)
    requires ValidConfig(cfg) && Inv(cfg, s) && !s.src.reader.Done?
    requires forall w :: 0 <= w < |s.workers| ==> s.workers[w].Idle?
    ensures Enabled(cfg, s, step) && !step.CallerCancels? && !step.Work?
  {
    HeldNone(s.workers);
    match s.src.reader
    case Top => step := ReaderCheck;
    case Get => step := if s.pool.free != [] then ReaderTake else ReaderAllocate;
    case Fill(_) => step := ReaderFill;
    case Send(_, _, _) => step := ReaderSend(0);
  }

  /** Workers leave only after the reader is done. */
  ghost predicate ExitInv(s: State) {
    forall w :: 0 <= w < |s.workers| && s.workers[w].Exited? ==> s.src.reader.Done?
  }

  lemma ExitStep(cfg: Config, s: State, step: Step)
    requires ExitInv(s) && Enabled(cfg, s, step)
    ensures ExitInv(Do(cfg, s, step))
  {
    if step.Work? {
      WorkHasShape(cfg, s, step.w, step.fault);
    }
  }

  lemma {:induction false} ExitRun(cfg: Config, s: State, run: seq<Step>)
    requires ExitInv(s) && Exec(cfg, s, run).Some?
    ensures ExitInv(Exec(cfg, s, run).value)
    decreases run
  {
    if run != [] {
      ExitStep(cfg, s, run[0]);
      ExitRun(cfg, Do(cfg, s, run[0]), run[1..]);
    }
  }

  /** No reachable state is stuck: short of completion a fault-free step is possible, waiters included. */
  lemma NeverStuck(cfg: Config, run: seq<Step>, s: State) returns (step: Step)
    requires ValidConfig(cfg) && Exec(cfg, Init(cfg), run) == Some(s) && !Completed(s)
    ensures Enabled(cfg, s, step) && !step.CallerCancels? && (step.Work? ==> step.fault.Clean?)
  {
    hide Inv, Exec;
    InitInv(cfg);
    InvRun(cfg, Init(cfg), run);
    ExitRun(cfg, Init(cfg), run);
    if w :| 0 <= w < |s.workers| && s.workers[w].Busy? {
      var v := BusyCanMove(cfg, s, w);
      step := Work(v, Clean);
    } else if s.src.reader.Done? {
      var w :| 0 <= w < |s.workers| && !s.workers[w].Exited?;
      step := Work(w, Clean);
    } else {
      step := ReaderCanMove(cfg, s);
    }
  }

  // ------------------------------------------------------------- termination

  function ReaderRank(src: Source): nat {
    match src.reader
    case Done(_) => 0
    case Fill(_) => 5 * |src.rest| + 1
    case Get => 5 * |src.rest| + 2
    case Top => 5 * |src.rest| + 3
    case Send(_, _, _) => 5 * |src.rest| + 4
  }

  /** Steps left for one worker on its chunk; `big` is what finishing the storing of a chunk is worth. */
  function Rank(w: Worker, tokens: seq<Token>, big: nat): nat {
    match w
    case Exited => 0
    case Idle => 1
    case Busy(_, pc) =>
      match pc
      case Returning => 2
      case Recording(_) => 3
      case Failing => 3
      case Placing(_) => 4
      case Publish(_, _) => big + 5
      case Unregister(_, _) => big + 6
      case AddRow(_, _) => big + 7
      case PutObject(_) => big + 8
      case AskStore(_) => big + 9
      case AskIndex(_) => big + 10
      case Wait(t) => if t < |tokens| && tokens[t].Finished? && !tokens[t].ok then big + 12 else big + 5
      case Lookup => big + 11
      case Got => big + 13
  }

  function RankSum(ws: seq<Worker>, tokens: seq<Token>, big: nat): nat {
    if ws == [] then 0 else Rank(ws[0], tokens, big) + RankSum(ws[1..], tokens, big)
  }

  lemma {:induction false} RankUpdate(ws: seq<Worker>, tokens: seq<Token>, big: nat, w: nat, x: Worker)
    requires w < |ws|
    ensures RankSum(ws[w := x], tokens, big) == RankSum(ws, tokens, big) - Rank(ws[w], tokens, big) + Rank(x, tokens, big)
  {
    if w == 0 {
      assert ws[w := x][1..] == ws[1..];
    } else {
      assert ws[w := x][1..] == ws[1..][w - 1 := x];
      RankUpdate(ws[1..], tokens, big, w - 1, x);
    }
  }

  /** Publishing a record may send every waiter back once. */
  lemma {:induction false} RankPublish(ws: seq<Worker>, tokens: seq<Token>, big: nat, t: nat, done: Token)
    requires t < |tokens| && done.Finished?
    ensures RankSum(ws, tokens[t := done], big) <= RankSum(ws, tokens, big) + 7 * |ws|
  {
    if ws != [] {
      RankPublish(ws[1..], tokens, big, t, done);
    }
  }

  lemma {:induction false} RankRegister(ws: seq<Worker>, tokens: seq<Token>, big: nat, sha: Sha)
    requires forall w :: 0 <= w < |ws| && ws[w].Busy? && ws[w].pc.Wait? ==> ws[w].pc.t < |tokens|
    ensures RankSum(ws, tokens + [Pending(sha)], big) == RankSum(ws, tokens, big)
  {
    if ws != [] {
      RankRegister(ws[1..], tokens, big, sha);
    }
  }

  function Big(cfg: Config): nat {
    7 * cfg.workers + 2
  }

  /** A whole chunk's worth of worker steps for every step of the reader, plus what the workers have in hand. */
  function Fuel(cfg: Config, s: State): nat {
    (Big(cfg) + 14) * ReaderRank(s.src) + RankSum(s.workers, s.eng.tokens, Big(cfg))
  }

  /** The rank arithmetic of one engine step, for one worker alone. */
  lemma AdvanceRank(cfg: Config, e: Engine, o: Output, at: nat, u: Unit, data: Bytes, pc: Pc, fault: Fault)
    requires CanAdvance(e, o.cancelled, pc, fault) && !pc.Returning?
    requires var sha := cfg.codec.sha(data);
             sha in e.inflight ==> e.inflight[sha] < |e.tokens| && e.tokens[e.inflight[sha]].Pending?
    ensures var n := Advance(cfg, e, o, at, data, pc, fault);
            if pc.Publish? then
              && n.eng.tokens == e.tokens[pc.t := Finished(cfg.codec.sha(data), pc.res.Some?)]
              && !n.pc.Wait? && Rank(Busy(u, n.pc), e.tokens, Big(cfg)) + 7 * cfg.workers < Rank(Busy(u, pc), e.tokens, Big(cfg))
            else
              && (n.eng.tokens == e.tokens || n.eng.tokens == e.tokens + [Pending(cfg.codec.sha(data))])
              && (n.eng.tokens != e.tokens ==> !n.pc.Wait?)
              && Rank(Busy(u, n.pc), e.tokens, Big(cfg)) < Rank(Busy(u, pc), e.tokens, Big(cfg))
  {
  }

  lemma RankAdvance(cfg: Config, s: State, w: nat, fault: Fault, n: Next)
    requires ValidConfig(cfg) && Inv(cfg, s)
    requires w < |s.workers| && s.workers[w].Busy? && !s.workers[w].pc.Returning?
    requires CanAdvance(s.eng, s.out.cancelled, s.workers[w].pc, fault)
    requires n == Advance(cfg, s.eng, s.out, s.workers[w].u.seqno, All(cfg)[s.workers[w].u.seqno], s.workers[w].pc, fault)
    ensures RankSum(s.workers[w := Busy(s.workers[w].u, n.pc)], n.eng.tokens, Big(cfg)) < RankSum(s.workers, s.eng.tokens, Big(cfg))
  {
    hide StreamInv, UnitInv, StoreInv, PlaceInv, ErrorInv, PutsInv, CleanInv, NoCollisions;
    var u, pc := s.workers[w].u, s.workers[w].pc;
    var x := Busy(u, n.pc);
    var ws' := s.workers[w := x];
    AdvanceRank(cfg, s.eng, s.out, u.seqno, u, All(cfg)[u.seqno], pc, fault);
    RankUpdate(s.workers, s.eng.tokens, Big(cfg), w, x);
    assert forall v :: 0 <= v < |s.workers| ==> WaiterOk(cfg, All(cfg), s.eng, s.workers[v]);
    if pc.Publish? {
      RankPublish(ws', s.eng.tokens, Big(cfg), pc.t, n.eng.tokens[pc.t]);
    } else if n.eng.tokens != s.eng.tokens {
      RankRegister(ws', s.eng.tokens, Big(cfg), cfg.codec.sha(All(cfg)[u.seqno]));
    }
  }

  lemma ReaderRankStep(cfg: Config, s: State, step: Step)
    requires cfg.chunkSize > 0 && Enabled(cfg, s, step) && !step.Work? && !step.CallerCancels?
    ensures ReaderRank(Do(cfg, s, step).src) + 1 <= ReaderRank(s.src)
  {
  }

  /** The reader's steps burn its own rank; handing a chunk over pays for the worker. */
  lemma FuelReader(cfg: Config, s: State, step: Step, s': State)
    requires ReaderRank(s'.src) + 1 <= ReaderRank(s.src) && s'.eng == s.eng
    requires if step.ReaderSend? then
               step.w < |s.workers| && s.workers[step.w].Idle? && exists u :: s'.workers == s.workers[step.w := Busy(u, Got)]
             else s'.workers == s.workers
    ensures Fuel(cfg, s') < Fuel(cfg, s)
  {
    MulStep(Big(cfg) + 14, ReaderRank(s'.src), ReaderRank(s.src));
    if step.ReaderSend? {
      var u :| s'.workers == s.workers[step.w := Busy(u, Got)];
      RankUpdate(s.workers, s.eng.tokens, Big(cfg), step.w, Busy(u, Got));
    }
  }

  lemma MulStep(k: nat, a: nat, b: nat)
    requires a + 1 <= b
    ensures k * a + k <= k * b
  {
    assert k * (a + 1) <= k * b;
  }

  /** Every step but an outside cancellation burns fuel. */
  lemma FuelStep(cfg: Config, s: State, step: Step)
    requires ValidConfig(cfg) && Inv(cfg, s) && Enabled(cfg, s, step) && !step.CallerCancels?
    ensures Fuel(cfg, Do(cfg, s, step)) < Fuel(cfg, s)
  {
    hide Inv;
    if !step.Work? {
      ReaderRankStep(cfg, s, step);
      FuelReader(cfg, s, step, Do(cfg, s, step));
    } else if s.workers[step.w].Busy? && !s.workers[step.w].pc.Returning? {
      HoldsItsChunk(cfg, s, step.w);
      var u := s.workers[step.w].u;
      AdvanceStep(cfg, s, step.w, step.fault, All(cfg)[u.seqno]);
      RankAdvance(cfg, s, step.w, step.fault,
                  Advance(cfg, s.eng, s.out, u.seqno, All(cfg)[u.seqno], s.workers[step.w].pc, step.fault));
    } else {
      FuelOutside(cfg, s, step);
    }
  }

  /** A worker that hands its buffer back or leaves. */
  lemma FuelOutside(cfg: Config, s: State, step: Step)
    requires Enabled(cfg, s, step) && step.Work? && (s.workers[step.w].Busy? ==> s.workers[step.w].pc.Returning?)
    ensures Fuel(cfg, Do(cfg, s, step)) < Fuel(cfg, s)
  {
    RankUpdate(s.workers, s.eng.tokens, Big(cfg), step.w, Do(cfg, s, step).workers[step.w]);
  }

  /** The steps of a run other than outside cancellations. */
  function OwnSteps(run: seq<Step>): nat {
    if run == [] then 0 else (if run[0].CallerCancels? then 0 else 1) + OwnSteps(run[1..])
  }

  lemma {:induction false} RunBurnsFuel(cfg: Config, s: State, run: seq<Step>)
    requires ValidConfig(cfg) && Inv(cfg, s) && Exec(cfg, s, run).Some?
    ensures OwnSteps(run) <= Fuel(cfg, s)
    decreases run
  {
    if run != [] {
      InvStep(cfg, s, run[0]);
      if !run[0].CallerCancels? {
        FuelStep(cfg, s, run[0]);
      }
      RunBurnsFuel(cfg, Do(cfg, s, run[0]), run[1..]);
    }
  }

  lemma {:induction false} IdleRank(n: nat, tokens: seq<Token>, big: nat)
    ensures RankSum(seq(n, i => Idle), tokens, big) == n
  {
    if n > 0 {
      assert seq(n, i => Idle)[1..] == seq(n - 1, i => Idle);
      IdleRank(n - 1, tokens, big);
    }
  }

  /**
   * No run is longer than a bound set by the stream's length and the number of
   * workers, so with `NeverStuck` every run that is driven on completes.
   */
  lemma RunsAreBounded(cfg: Config, run: seq<Step>)
    requires ValidConfig(cfg) && Exec(cfg, Init(cfg), run).Some?
    ensures OwnSteps(run) <= (7 * cfg.workers + 16) * (5 * |cfg.data| + 3) + cfg.workers
  {
    hide Inv, Exec, OwnSteps, RankSum;
    InitInv(cfg);
    RunBurnsFuel(cfg, Init(cfg), run);
    IdleRank(cfg.workers, [], Big(cfg));
  }
}
