/**
 * Byte accounting of the pipeline: each absent hash is uploaded once, and the
 * counters of a clean run depend on the stream and the target alone.
 */
module PipelineAccounting {
  import opened Base
  import opened ChunkFormat
  import opened Pipeline
  import opened PipelineCoalescing

  // ------------------------------------------------------- one upload per hash

  /** The store holds what it held before plus the uploads, and no upload repeats. */
  ghost predicate PutsInv(cfg: Config, e: Engine) {
    && (forall h :: h in e.objects <==> h in cfg.objects || h in e.puts)
    && (forall h :: h in e.puts ==> h !in Known(cfg))
    && Distinct(e.puts)
  }

  lemma PutsAdvance(cfg: Config, e: Engine, o: Output, at: nat, data: Bytes, pc: Pc, fault: Fault)
    requires PutsInv(cfg, e) && CanAdvance(e, o.cancelled, pc, fault) && !pc.Returning?
    requires pc.PutObject? ==> cfg.codec.sha(data) !in e.objects && cfg.codec.sha(data) !in cfg.index
    ensures PutsInv(cfg, Advance(cfg, e, o, at, data, pc, fault).eng)
  {
  }

  // ------------------------------------------------------------ who owes what

  /** Bytes a worker has uploaded and not yet reported. */
  function Carried(w: Worker): nat {
    if !w.Busy? then 0 else
    match w.pc
    case AddRow(_, up) => up
    case Unregister(_, Some(up)) => up
    case Publish(_, Some(up)) => up
    case Placing(up) => up
    case Recording(up) => up
    case _ => 0
  }

  predicate Carries(cfg: Config, all: seq<Bytes>, w: Worker, h: Sha) {
    Carried(w) > 0 && w.u.seqno < |all| && WorkerSha(cfg, all, w) == h
  }

  predicate Uncounted(w: Worker, i: nat) {
    w.Busy? && !w.pc.Returning? && w.u.seqno == i
  }

  ghost predicate Debt(cfg: Config, all: seq<Bytes>, ws: seq<Worker>, h: Sha) {
    exists w :: 0 <= w < |ws| && Carries(cfg, all, ws[w], h)
  }

  ghost predicate Due(ws: seq<Worker>, i: nat) {
    exists w :: 0 <= w < |ws| && Uncounted(ws[w], i)
  }

  /** Every upload is charged already or carried by exactly one worker. */
  ghost predicate ChargeInv(cfg: Config, all: seq<Bytes>, ws: seq<Worker>, e: Engine, o: Output)
    requires Units(all, ws)
  {
    && (forall w :: 0 <= w < |ws| && Carried(ws[w]) > 0 ==>
          && Carried(ws[w]) == |Stored(cfg.codec, cfg.compress, all[ws[w].u.seqno])|
          && WorkerSha(cfg, all, ws[w]) in e.puts
          && WorkerSha(cfg, all, ws[w]) !in o.charged)
    && (forall v, w :: 0 <= v < w < |ws| && Carried(ws[v]) > 0 && Carried(ws[w]) > 0 ==>
          WorkerSha(cfg, all, ws[v]) != WorkerSha(cfg, all, ws[w]))
    && (forall h :: h in e.puts ==> h in o.charged || Debt(cfg, all, ws, h))
    && (forall h :: h in o.charged ==> h in e.puts)
  }

  /** Every chunk handed over is counted already or still with a worker. */
  ghost predicate CountInv(all: seq<Bytes>, sent: nat, ws: seq<Worker>, o: Output)
    requires Units(all, ws)
  {
    && (forall i :: i in o.counted ==> i < sent)
    && (forall w :: 0 <= w < |ws| && ws[w].Busy? && !ws[w].pc.Returning? ==> ws[w].u.seqno !in o.counted)
    && (forall i :: 0 <= i < sent ==> i in o.counted || Due(ws, i))
  }

  // --------------------------------------------------------------- the totals

  function FirstWith(cfg: Config, all: seq<Bytes>, h: Sha, from: nat): nat
    requires from <= |all|
    decreases |all| - from
  {
    if from == |all| || cfg.codec.sha(all[from]) == h then from else FirstWith(cfg, all, h, from + 1)
  }

  lemma {:induction false} FirstWithFinds(cfg: Config, all: seq<Bytes>, h: Sha, from: nat, i: nat)
    requires from <= i < |all| && cfg.codec.sha(all[i]) == h
    ensures var k := FirstWith(cfg, all, h, from); k < |all| && cfg.codec.sha(all[k]) == h
    decreases |all| - from
  {
    if cfg.codec.sha(all[from]) != h {
      FirstWithFinds(cfg, all, h, from + 1, i);
    }
  }

  function RawLength(cfg: Config, all: seq<Bytes>): Sha -> int {
    h => var k := FirstWith(cfg, all, h, 0); if k < |all| then |all[k]| else 0
  }

  function BodyLength(cfg: Config, all: seq<Bytes>): Sha -> int {
    h => var k := FirstWith(cfg, all, h, 0);
         if k < |all| then |Stored(cfg.codec, cfg.compress, all[k])| else 0
  }

  function ChunkLength(all: seq<Bytes>): nat -> int {
    (i: nat) => if i < |all| then |all[i]| else 0
  }

  ghost predicate NoCollisions(cfg: Config, all: seq<Bytes>) {
    CollisionFree(cfg.codec, iset i | 0 <= i < |all| :: all[i])
  }

  lemma LengthsAgree(cfg: Config, all: seq<Bytes>, i: nat)
    requires i < |all| && NoCollisions(cfg, all)
    ensures RawLength(cfg, all)(cfg.codec.sha(all[i])) == |all[i]|
    ensures BodyLength(cfg, all)(cfg.codec.sha(all[i])) == |Stored(cfg.codec, cfg.compress, all[i])|
  {
    FirstWithFinds(cfg, all, cfg.codec.sha(all[i]), 0, i);
    var k := FirstWith(cfg, all, cfg.codec.sha(all[i]), 0);
    assert all[k] == all[i];
  }

  /** The counters, as sums over the chunks counted and the hashes charged. */
  ghost predicate Totals(cfg: Config, all: seq<Bytes>, st: Stats, counted: set<nat>, charged: set<Sha>) {
    && st.processed == SumOver(counted, ChunkLength(all))
    && st.chunksTotal == |counted|
    && st.uploaded == SumOver(charged, BodyLength(cfg, all))
    && st.chunksUploaded == |charged|
    && st.deduped + SumOver(charged, RawLength(cfg, all)) == st.processed
    && st.chunksDeduped + st.chunksUploaded == st.chunksTotal
  }

  /** The sums determine the counters. */
  lemma TotalsDetermine(cfg: Config, all: seq<Bytes>, a: Stats, b: Stats, counted: set<nat>, charged: set<Sha>)
    requires Totals(cfg, all, a, counted, charged) && Totals(cfg, all, b, counted, charged)
    ensures a == b
  {
  }

  lemma TotalsRecord(cfg: Config, all: seq<Bytes>, st: Stats, counted: set<nat>, charged: set<Sha>, i: nat, up: nat)
    requires Totals(cfg, all, st, counted, charged) && NoCollisions(cfg, all)
    requires i < |all| && i !in counted
    requires up > 0 ==> cfg.codec.sha(all[i]) !in charged && up == |Stored(cfg.codec, cfg.compress, all[i])|
    ensures Totals(cfg, all, Record(st, |all[i]|, up), counted + {i},
                   if up > 0 then charged + {cfg.codec.sha(all[i])} else charged)
  {
    hide SumOver, NoCollisions, Stored;
    SumOverAdd(counted, ChunkLength(all), i);
    if up > 0 {
      LengthsAgree(cfg, all, i);
      SumOverAdd(charged, BodyLength(cfg, all), cfg.codec.sha(all[i]));
      SumOverAdd(charged, RawLength(cfg, all), cfg.codec.sha(all[i]));
    }
  }

  // ------------------------------------------------------------ preservation

  lemma DebtKept(cfg: Config, all: seq<Bytes>, ws: seq<Worker>, w: nat, x: Worker, h: Sha)
    requires w < |ws| && Debt(cfg, all, ws, h)
    requires Carries(cfg, all, ws[w], h) ==> Carries(cfg, all, x, h)
    ensures Debt(cfg, all, ws[w := x], h)
  {
    var v :| 0 <= v < |ws| && Carries(cfg, all, ws[v], h);
    assert Carries(cfg, all, ws[w := x][v], h);
  }

  lemma DueKept(ws: seq<Worker>, w: nat, x: Worker, i: nat)
    requires w < |ws| && Due(ws, i)
    requires Uncounted(ws[w], i) ==> Uncounted(x, i)
    ensures Due(ws[w := x], i)
  {
    var v :| 0 <= v < |ws| && Uncounted(ws[v], i);
    assert Uncounted(ws[w := x][v], i);
  }

  lemma ChargeSame(cfg: Config, all: seq<Bytes>, ws: seq<Worker>, e: Engine, o: Output, w: nat, x: Worker, e': Engine, o': Output)
    requires Units(all, ws) && ChargeInv(cfg, all, ws, e, o)
    requires w < |ws| && Units(all, ws[w := x])
    requires e'.puts == e.puts && o'.charged == o.charged
    requires Carried(x) == Carried(ws[w]) && (Carried(x) > 0 ==> x.u == ws[w].u)
    ensures ChargeInv(cfg, all, ws[w := x], e', o')
  {
    forall h | h in e'.puts
      ensures h in o'.charged || Debt(cfg, all, ws[w := x], h)
    {
      if h !in o.charged {
        DebtKept(cfg, all, ws, w, x, h);
      }
    }
  }

  lemma ChargePut(cfg: Config, all: seq<Bytes>, ws: seq<Worker>, e: Engine, o: Output, w: nat, x: Worker, e': Engine)
    requires Units(all, ws) && ChargeInv(cfg, all, ws, e, o)
    requires w < |ws| && ws[w].Busy? && Carried(ws[w]) == 0 && x.Busy? && x.u == ws[w].u
    requires WorkerSha(cfg, all, ws[w]) !in e.puts
    requires e'.puts == e.puts + [WorkerSha(cfg, all, ws[w])]
    requires Carried(x) == |Stored(cfg.codec, cfg.compress, all[ws[w].u.seqno])| > 0
    ensures ChargeInv(cfg, all, ws[w := x], e', o)
  {
    var ws' := ws[w := x];
    assert Carries(cfg, all, ws'[w], WorkerSha(cfg, all, ws[w]));
    forall h | h in e'.puts
      ensures h in o.charged || Debt(cfg, all, ws', h)
    {
      if h in e.puts && h !in o.charged {
        DebtKept(cfg, all, ws, w, x, h);
      }
    }
  }

  lemma ChargeRecord(cfg: Config, all: seq<Bytes>, ws: seq<Worker>, e: Engine, o: Output, w: nat, x: Worker, o': Output)
    requires Units(all, ws) && ChargeInv(cfg, all, ws, e, o)
    requires w < |ws| && ws[w].Busy? && ws[w].pc.Recording? && Carried(x) == 0 && x.Busy? && x.u == ws[w].u
    requires o'.charged == if Carried(ws[w]) > 0 then o.charged + {WorkerSha(cfg, all, ws[w])} else o.charged
    ensures ChargeInv(cfg, all, ws[w := x], e, o')
  {
    forall h | h in e.puts
      ensures h in o'.charged || Debt(cfg, all, ws[w := x], h)
    {
      if h !in o'.charged {
        DebtKept(cfg, all, ws, w, x, h);
      }
    }
  }

  ghost predicate CleanInv(cfg: Config, all: seq<Bytes>, sent: nat, ws: seq<Worker>, e: Engine, o: Output)
    requires Units(all, ws)
  {
    !e.faulted && !o.cancelled ==>
      && ChargeInv(cfg, all, ws, e, o)
      && CountInv(all, sent, ws, o)
      && Totals(cfg, all, o.stats, o.counted, o.charged)
  }

  lemma CountAdvance(all: seq<Bytes>, sent: nat, ws: seq<Worker>, o: Output, w: nat, x: Worker, o': Output)
    requires Units(all, ws) && CountInv(all, sent, ws, o)
    requires w < |ws| && ws[w].Busy? && x.Busy? && x.u == ws[w].u && !ws[w].pc.Returning? && x.u.seqno < sent
    requires if x.pc.Returning? then o'.counted == o.counted + {x.u.seqno} else o'.counted == o.counted
    ensures CountInv(all, sent, ws[w := x], o')
  {
    forall i | 0 <= i < sent
      ensures i in o'.counted || Due(ws[w := x], i)
    {
      if i !in o'.counted {
        DueKept(ws, w, x, i);
      }
    }
  }

  /** What a fault-free step of a worker does to uploads and to what it carries. */
  lemma AdvanceCharges(cfg: Config, e: Engine, o: Output, u: Unit, data: Bytes, pc: Pc, fault: Fault)
    requires CanAdvance(e, o.cancelled, pc, fault) && !pc.Returning?
    requires var n := Advance(cfg, e, o, u.seqno, data, pc, fault); !n.eng.faulted && !n.out.cancelled
    ensures var n := Advance(cfg, e, o, u.seqno, data, pc, fault);
            var x := Busy(u, n.pc);
            if pc.PutObject? then
              && n.eng.puts == e.puts + [cfg.codec.sha(data)] && n.out == o
              && Carried(Busy(u, pc)) == 0 && Carried(x) == |Stored(cfg.codec, cfg.compress, data)|
            else
              && n.eng.puts == e.puts
              && (pc.Recording? ==>
                    && Carried(x) == 0
                    && n.out.charged == if Carried(Busy(u, pc)) > 0 then o.charged + {cfg.codec.sha(data)} else o.charged)
              && (!pc.Recording? ==> n.out.charged == o.charged && Carried(x) == Carried(Busy(u, pc)))
  {
  }

  lemma ChargeAdvance(cfg: Config, all: seq<Bytes>, ws: seq<Worker>, e: Engine, o: Output, w: nat, fault: Fault)
    requires Units(all, ws) && ChargeInv(cfg, all, ws, e, o) && PutsInv(cfg, e)
    requires w < |ws| && ws[w].Busy? && !ws[w].pc.Returning? && CanAdvance(e, o.cancelled, ws[w].pc, fault)
    requires Lawful(cfg.codec) && 0 < |all[ws[w].u.seqno]| <= CHUNK_SIZE
    requires ws[w].pc.PutObject? ==> WorkerSha(cfg, all, ws[w]) !in e.objects
    requires var n := Advance(cfg, e, o, ws[w].u.seqno, all[ws[w].u.seqno], ws[w].pc, fault);
             !n.eng.faulted && !n.out.cancelled
    ensures var u := ws[w].u;
            var n := Advance(cfg, e, o, u.seqno, all[u.seqno], ws[w].pc, fault);
            ChargeInv(cfg, all, ws[w := Busy(u, n.pc)], n.eng, n.out)
  {
    var u := ws[w].u;
    AdvanceCharges(cfg, e, o, u, all[u.seqno], ws[w].pc, fault);
    hide Advance, ChargeInv, CanAdvance;
    var n := Advance(cfg, e, o, u.seqno, all[u.seqno], ws[w].pc, fault);
    if ws[w].pc.PutObject? {
      StoredDecodesIff(cfg.codec, cfg.compress, all[u.seqno]);
      ChargePut(cfg, all, ws, e, o, w, Busy(u, n.pc), n.eng);
    } else if ws[w].pc.Recording? {
      ChargeRecord(cfg, all, ws, e, o, w, Busy(u, n.pc), n.out);
    } else {
      ChargeSame(cfg, all, ws, e, o, w, Busy(u, n.pc), n.eng, n.out);
    }
  }

  /** Counters move when a worker records, and only then. */
  lemma AdvanceCounts(cfg: Config, e: Engine, o: Output, at: nat, data: Bytes, pc: Pc, fault: Fault)
    requires CanAdvance(e, o.cancelled, pc, fault) && !pc.Returning?
    ensures var n := Advance(cfg, e, o, at, data, pc, fault);
            !n.eng.faulted && !n.out.cancelled ==>
              && !e.faulted && !o.cancelled
              && (n.pc.Returning? <==> pc.Recording?)
              && (if pc.Recording? then
                    && n.out.stats == Record(o.stats, |data|, pc.up)
                    && n.out.counted == o.counted + {at}
                    && n.out.charged == if pc.up > 0 then o.charged + {cfg.codec.sha(data)} else o.charged
                  else n.out.stats == o.stats && n.out.counted == o.counted && n.out.charged == o.charged)
  {
  }

  lemma TotalsAdvance(cfg: Config, all: seq<Bytes>, sent: nat, ws: seq<Worker>, e: Engine, o: Output, w: nat, pc: Pc, o': Output)
    requires Units(all, ws) && NoCollisions(cfg, all)
    requires ChargeInv(cfg, all, ws, e, o) && CountInv(all, sent, ws, o) && Totals(cfg, all, o.stats, o.counted, o.charged)
    requires w < |ws| && ws[w].Busy? && ws[w].pc.Recording?
    requires var at := ws[w].u.seqno;
             var up := ws[w].pc.up;
             && o'.stats == Record(o.stats, |all[at]|, up)
             && o'.counted == o.counted + {at}
             && o'.charged == if up > 0 then o.charged + {cfg.codec.sha(all[at])} else o.charged
    ensures Totals(cfg, all, o'.stats, o'.counted, o'.charged)
  {
    assert Carried(ws[w]) == ws[w].pc.up;
    TotalsRecord(cfg, all, o.stats, o.counted, o.charged, ws[w].u.seqno, ws[w].pc.up);
  }

  lemma CleanAdvance(cfg: Config, all: seq<Bytes>, sent: nat, ws: seq<Worker>, e: Engine, o: Output, w: nat, fault: Fault)
    requires Units(all, ws) && CleanInv(cfg, all, sent, ws, e, o) && PutsInv(cfg, e) && NoCollisions(cfg, all)
    requires w < |ws| && ws[w].Busy? && !ws[w].pc.Returning? && CanAdvance(e, o.cancelled, ws[w].pc, fault)
    requires Lawful(cfg.codec) && ws[w].u.seqno < sent && 0 < |all[ws[w].u.seqno]| <= CHUNK_SIZE
    requires ws[w].pc.PutObject? ==> WorkerSha(cfg, all, ws[w]) !in e.objects
    ensures var u := ws[w].u;
            var n := Advance(cfg, e, o, u.seqno, all[u.seqno], ws[w].pc, fault);
            CleanInv(cfg, all, sent, ws[w := Busy(u, n.pc)], n.eng, n.out)
  {
    var u := ws[w].u;
    AdvanceCounts(cfg, e, o, u.seqno, all[u.seqno], ws[w].pc, fault);
    var n := Advance(cfg, e, o, u.seqno, all[u.seqno], ws[w].pc, fault);
    if !n.eng.faulted && !n.out.cancelled {
      CleanStep(cfg, all, sent, ws, e, o, w, fault, n);
    }
  }

  lemma CleanStep(cfg: Config, all: seq<Bytes>, sent: nat, ws: seq<Worker>, e: Engine, o: Output, w: nat, fault: Fault, n: Next)
    requires Units(all, ws) && PutsInv(cfg, e) && NoCollisions(cfg, all)
    requires ChargeInv(cfg, all, ws, e, o) && CountInv(all, sent, ws, o) && Totals(cfg, all, o.stats, o.counted, o.charged)
    requires w < |ws| && ws[w].Busy? && !ws[w].pc.Returning? && CanAdvance(e, o.cancelled, ws[w].pc, fault)
    requires Lawful(cfg.codec) && ws[w].u.seqno < sent && 0 < |all[ws[w].u.seqno]| <= CHUNK_SIZE
    requires ws[w].pc.PutObject? ==> WorkerSha(cfg, all, ws[w]) !in e.objects
    requires n == Advance(cfg, e, o, ws[w].u.seqno, all[ws[w].u.seqno], ws[w].pc, fault)
    requires !n.eng.faulted && !n.out.cancelled
    ensures Units(all, ws[w := Busy(ws[w].u, n.pc)])
    ensures ChargeInv(cfg, all, ws[w := Busy(ws[w].u, n.pc)], n.eng, n.out)
    ensures CountInv(all, sent, ws[w := Busy(ws[w].u, n.pc)], n.out)
    ensures Totals(cfg, all, n.out.stats, n.out.counted, n.out.charged)
  {
    hide ChargeInv, Totals, NoCollisions, Lawful, PutsInv, Stored;
    var u := ws[w].u;
    AdvanceCounts(cfg, e, o, u.seqno, all[u.seqno], ws[w].pc, fault);
    ChargeAdvance(cfg, all, ws, e, o, w, fault);
    CountAdvance(all, sent, ws, o, w, Busy(u, n.pc), n.out);
    if ws[w].pc.Recording? {
      TotalsAdvance(cfg, all, sent, ws, e, o, w, n.pc, n.out);
    }
  }

  // ------------------------------------------------------- the one-worker run

  function Upto(n: nat): set<nat> {
    if n == 0 then {} else Upto(n - 1) + {n - 1}
  }

  lemma {:induction false} UptoMembers(n: nat, i: nat)
    ensures i in Upto(n) <==> i < n
  {
    if n > 0 {
      UptoMembers(n - 1, i);
    }
  }

  lemma UptoNext(n: nat)
    ensures Upto(n + 1) == Upto(n) + {n}
  {
  }

  lemma NoTotals(cfg: Config, all: seq<Bytes>)
    ensures Totals(cfg, all, SerialStats(cfg, []), Upto(0), Hashes(cfg.codec, []) - Known(cfg))
  {
    assert Hashes(cfg.codec, []) - Known(cfg) == {};
  }

  /** What a chunk costs in a serial pipeline that has seen `before`. */
  function SerialCost(cfg: Config, before: seq<Bytes>, d: Bytes): nat {
    if cfg.codec.sha(d) in Known(cfg) || cfg.codec.sha(d) in Hashes(cfg.codec, before) then 0
    else |Stored(cfg.codec, cfg.compress, d)|
  }

  /** What a serial pipeline would count: upload at a hash's first absent sighting, dedup afterwards. */
  function SerialStats(cfg: Config, cs: seq<Bytes>): Stats {
    if cs == [] then NO_STATS else
      var before, d := cs[..|cs| - 1], cs[|cs| - 1];
      Record(SerialStats(cfg, before), |d|, SerialCost(cfg, before, d))
  }

  lemma SerialCharged(cfg: Config, before: seq<Bytes>, d: Bytes)
    requires |Stored(cfg.codec, cfg.compress, d)| > 0
    ensures Hashes(cfg.codec, before + [d]) - Known(cfg) ==
            if SerialCost(cfg, before, d) > 0 then (Hashes(cfg.codec, before) - Known(cfg)) + {cfg.codec.sha(d)}
            else Hashes(cfg.codec, before) - Known(cfg)
  {
    HashesAppend(cfg.codec, before, d);
  }

  lemma SerialStep(cfg: Config, all: seq<Bytes>, before: seq<Bytes>, n: nat, st: Stats)
    requires n < |all| && NoCollisions(cfg, all) && |Stored(cfg.codec, cfg.compress, all[n])| > 0
    requires n !in Upto(n)
    requires Totals(cfg, all, st, Upto(n), Hashes(cfg.codec, before) - Known(cfg))
    ensures Totals(cfg, all, Record(st, |all[n]|, SerialCost(cfg, before, all[n])),
                   Upto(n) + {n}, Hashes(cfg.codec, before + [all[n]]) - Known(cfg))
  {
    SerialCharged(cfg, before, all[n]);
    TotalsRecord(cfg, all, st, Upto(n), Hashes(cfg.codec, before) - Known(cfg), n, SerialCost(cfg, before, all[n]));
  }

  lemma SerialNext(cfg: Config, all: seq<Bytes>, k: nat)
    requires k < |all|
    ensures SerialStats(cfg, all[..k + 1]) == Record(SerialStats(cfg, all[..k]), |all[k]|, SerialCost(cfg, all[..k], all[k]))
  {
    hide SerialCost, Record;
    assert all[..k + 1][..k] == all[..k] && all[..k + 1][k] == all[k];
  }

  /** The one-at-a-time counters after the first `n` chunks. */
  lemma {:induction false} SerialTotals(cfg: Config, all: seq<Bytes>, n: nat)
    requires n <= |all| && NoCollisions(cfg, all)
    requires forall i :: 0 <= i < |all| ==> |Stored(cfg.codec, cfg.compress, all[i])| > 0
    ensures Totals(cfg, all, SerialStats(cfg, all[..n]), Upto(n), Hashes(cfg.codec, all[..n]) - Known(cfg))
  {
    hide Totals, NoCollisions, SerialCost, SerialStats, Record, Hashes, Upto, Known;
    if n == 0 {
      NoTotals(cfg, all);
      assert all[..n] == [];
    } else {
      var k := n - 1;
      SerialTotals(cfg, all, k);
      UptoMembers(k, k);
      UptoNext(k);
      SerialStep(cfg, all, all[..k], k, SerialStats(cfg, all[..k]));
      SerialNext(cfg, all, k);
      assert all[..k] + [all[k]] == all[..n];
    }
  }
}
