/**
 * The in-flight table: one leader per record, no success without a stored
 * object, and no store failure that fails to reach the result.
 */
module PipelineCoalescing {
  import opened Base
  import opened ChunkFormat
  import opened Pipeline

  /** Workers hold chunks of the stream, no two of them the same one. */
  ghost predicate Units(all: seq<Bytes>, ws: seq<Worker>) {
    && (forall w :: 0 <= w < |ws| && ws[w].Busy? ==> ws[w].u.seqno < |all|)
    && (forall v, w :: 0 <= v < w < |ws| && ws[v].Busy? && ws[w].Busy? ==> ws[v].u.seqno != ws[w].u.seqno)
  }

  function WorkerSha(cfg: Config, all: seq<Bytes>, w: Worker): Sha
    requires w.Busy? && w.u.seqno < |all|
  {
    cfg.codec.sha(all[w.u.seqno])
  }

  predicate Leading(w: Worker) {
    w.Busy? && (w.pc.AskIndex? || w.pc.AskStore? || w.pc.PutObject? || w.pc.AddRow? ||
                w.pc.Unregister? || w.pc.Publish?)
  }

  predicate Leads(w: Worker, t: nat) {
    Leading(w) && w.pc.t == t
  }

  /** A leader's record is pending and, until it unregisters, is the one filed under its hash. */
  ghost predicate LeaderOk(cfg: Config, all: seq<Bytes>, e: Engine, w: Worker)
    requires w.Busy? ==> w.u.seqno < |all|
  {
    Leading(w) ==>
      var sha := WorkerSha(cfg, all, w);
      && w.pc.t < |e.tokens|
      && e.tokens[w.pc.t] == Pending(sha)
      && (if w.pc.Publish? then forall h :: h in e.inflight ==> e.inflight[h] != w.pc.t
          else sha in e.inflight && e.inflight[sha] == w.pc.t)
  }

  /** A waiter waits on a record of its own hash. */
  ghost predicate WaiterOk(cfg: Config, all: seq<Bytes>, e: Engine, w: Worker)
    requires w.Busy? ==> w.u.seqno < |all|
  {
    w.Busy? && w.pc.Wait? ==> w.pc.t < |e.tokens| && e.tokens[w.pc.t].sha == WorkerSha(cfg, all, w)
  }

  ghost predicate HasLeader(ws: seq<Worker>, t: nat) {
    exists w :: 0 <= w < |ws| && Leads(ws[w], t)
  }

  /** One leader per coalescing record, one record per registered hash. */
  ghost predicate TokenInv(cfg: Config, all: seq<Bytes>, ws: seq<Worker>, e: Engine)
    requires Units(all, ws)
  {
    && (forall w :: 0 <= w < |ws| ==> LeaderOk(cfg, all, e, ws[w]) && WaiterOk(cfg, all, e, ws[w]))
    && (forall v, w :: 0 <= v < w < |ws| && Leading(ws[v]) && Leading(ws[w]) ==> ws[v].pc.t != ws[w].pc.t)
    && (forall h :: h in e.inflight ==> e.inflight[h] < |e.tokens| && e.tokens[e.inflight[h]] == Pending(h))
    && (forall t :: 0 <= t < |e.tokens| && e.tokens[t].Pending? ==> HasLeader(ws, t))
  }

  lemma LeaderKept(ws: seq<Worker>, w: nat, x: Worker, t: nat)
    requires w < |ws| && HasLeader(ws, t)
    requires Leads(ws[w], t) ==> Leads(x, t)
    ensures HasLeader(ws[w := x], t)
  {
    var v :| 0 <= v < |ws| && Leads(ws[v], t);
    assert Leads(ws[w := x][v], t);
  }

  /** Steps that touch neither the table nor the records. */
  lemma TokenSame(cfg: Config, all: seq<Bytes>, ws: seq<Worker>, e: Engine, w: nat, x: Worker, e': Engine)
    requires Units(all, ws) && TokenInv(cfg, all, ws, e)
    requires w < |ws| && ws[w].Busy? && (x.Busy? ==> x.u == ws[w].u)
    requires e'.inflight == e.inflight && e'.tokens == e.tokens
    requires Leading(x) == Leading(ws[w])
    requires Leading(x) ==> x.pc.t == ws[w].pc.t && x.pc.Publish? == ws[w].pc.Publish?
    requires WaiterOk(cfg, all, e, x)
    ensures Units(all, ws[w := x]) && TokenInv(cfg, all, ws[w := x], e')
  {
    hide HasLeader;
    var ws' := ws[w := x];
    forall v | 0 <= v < |ws'|
      ensures LeaderOk(cfg, all, e', ws'[v]) && WaiterOk(cfg, all, e', ws'[v])
    {
      assert LeaderOk(cfg, all, e, ws[v]) && WaiterOk(cfg, all, e, ws[v]);
    }
    forall t | 0 <= t < |e.tokens| && e.tokens[t].Pending?
      ensures HasLeader(ws[w := x], t)
    {
      LeaderKept(ws, w, x, t);
    }
    hide LeaderOk, WaiterOk;
  }

  /** A worker that finds its hash unregistered files a fresh record and leads it. */
  lemma TokenRegister(cfg: Config, all: seq<Bytes>, ws: seq<Worker>, e: Engine, w: nat, e': Engine)
    requires Units(all, ws) && TokenInv(cfg, all, ws, e)
    requires w < |ws| && ws[w].Busy? && ws[w].pc.Lookup?
    requires var sha := WorkerSha(cfg, all, ws[w]);
             && sha !in e.inflight
             && e'.inflight == e.inflight[sha := |e.tokens|]
             && e'.tokens == e.tokens + [Pending(sha)]
    ensures var ws' := ws[w := Busy(ws[w].u, AskIndex(|e.tokens|))];
            Units(all, ws') && TokenInv(cfg, all, ws', e')
  {
    var x := Busy(ws[w].u, AskIndex(|e.tokens|));
    var ws' := ws[w := x];
    forall v | 0 <= v < |ws| && v != w
      ensures LeaderOk(cfg, all, e', ws'[v]) && WaiterOk(cfg, all, e', ws'[v])
    {
      assert LeaderOk(cfg, all, e, ws[v]) && WaiterOk(cfg, all, e, ws[v]);
    }
    forall t | 0 <= t < |e'.tokens| && e'.tokens[t].Pending?
      ensures HasLeader(ws', t)
    {
      if t == |e.tokens| {
        assert Leads(ws'[w], t);
      } else {
        LeaderKept(ws, w, x, t);
      }
    }
  }

  lemma TokenUnregister(cfg: Config, all: seq<Bytes>, ws: seq<Worker>, e: Engine, w: nat, e': Engine)
    requires Units(all, ws) && TokenInv(cfg, all, ws, e)
    requires w < |ws| && ws[w].Busy? && ws[w].pc.Unregister?
    requires e'.inflight == e.inflight - {WorkerSha(cfg, all, ws[w])} && e'.tokens == e.tokens
    ensures var ws' := ws[w := Busy(ws[w].u, Publish(ws[w].pc.t, ws[w].pc.res))];
            Units(all, ws') && TokenInv(cfg, all, ws', e')
  {
    hide HasLeader;
    var x := Busy(ws[w].u, Publish(ws[w].pc.t, ws[w].pc.res));
    assert LeaderOk(cfg, all, e, ws[w]);
    forall v | 0 <= v < |ws| && v != w
      ensures LeaderOk(cfg, all, e', ws[v]) && WaiterOk(cfg, all, e', ws[v])
    {
      assert LeaderOk(cfg, all, e, ws[v]) && WaiterOk(cfg, all, e, ws[v]);
    }
    forall t | 0 <= t < |e.tokens| && e.tokens[t].Pending?
      ensures HasLeader(ws[w := x], t)
    {
      LeaderKept(ws, w, x, t);
    }
  }

  lemma TokenPublish(cfg: Config, all: seq<Bytes>, ws: seq<Worker>, e: Engine, w: nat, x: Worker, e': Engine)
    requires Units(all, ws) && TokenInv(cfg, all, ws, e)
    requires w < |ws| && ws[w].Busy? && ws[w].pc.Publish? && x.Busy? && x.u == ws[w].u
    requires !Leading(x) && !x.pc.Wait?
    requires ws[w].pc.t < |e.tokens|
    requires e'.inflight == e.inflight
    requires e'.tokens == e.tokens[ws[w].pc.t := Finished(WorkerSha(cfg, all, ws[w]), ws[w].pc.res.Some?)]
    ensures Units(all, ws[w := x]) && TokenInv(cfg, all, ws[w := x], e')
  {
    assert LeaderOk(cfg, all, e, ws[w]);
    forall v | 0 <= v < |ws| && v != w
      ensures LeaderOk(cfg, all, e', ws[v]) && WaiterOk(cfg, all, e', ws[v])
    {
      assert LeaderOk(cfg, all, e, ws[v]) && WaiterOk(cfg, all, e, ws[v]);
    }
    forall t | 0 <= t < |e'.tokens| && e'.tokens[t].Pending?
      ensures HasLeader(ws[w := x], t)
    {
      LeaderKept(ws, w, x, t);
    }
  }

  lemma TokenAdvance(cfg: Config, all: seq<Bytes>, ws: seq<Worker>, e: Engine, o: Output, w: nat, fault: Fault)
    requires Units(all, ws) && TokenInv(cfg, all, ws, e)
    requires w < |ws| && ws[w].Busy? && !ws[w].pc.Returning? && CanAdvance(e, o.cancelled, ws[w].pc, fault)
    ensures var u := ws[w].u;
            var n := Advance(cfg, e, o, u.seqno, all[u.seqno], ws[w].pc, fault);
            var ws' := ws[w := Busy(u, n.pc)];
            Units(all, ws') && TokenInv(cfg, all, ws', n.eng)
  {
    var u := ws[w].u;
    var n := Advance(cfg, e, o, u.seqno, all[u.seqno], ws[w].pc, fault);
    if ws[w].pc.Unregister? {
      TokenUnregister(cfg, all, ws, e, w, n.eng);
    } else if ws[w].pc.Publish? {
      TokenPublish(cfg, all, ws, e, w, Busy(u, n.pc), n.eng);
    } else if ws[w].pc.Lookup? && WorkerSha(cfg, all, ws[w]) !in e.inflight {
      TokenRegister(cfg, all, ws, e, w, n.eng);
    } else {
      TokenSame(cfg, all, ws, e, w, Busy(u, n.pc), n.eng);
    }
  }

  /** Picking up a chunk, putting down a finished one and exiting change nothing for the engine. */
  lemma TokenOutside(cfg: Config, all: seq<Bytes>, ws: seq<Worker>, e: Engine, w: nat, x: Worker)
    requires Units(all, ws) && TokenInv(cfg, all, ws, e)
    requires w < |ws| && (ws[w].Busy? ==> ws[w].pc.Returning?) && (x.Busy? ==> x.pc.Got?) && Units(all, ws[w := x])
    ensures TokenInv(cfg, all, ws[w := x], e)
  {
    forall t | 0 <= t < |e.tokens| && e.tokens[t].Pending?
      ensures HasLeader(ws[w := x], t)
    {
      LeaderKept(ws, w, x, t);
    }
  }

  // --------------------------------------------------------------- the store

  predicate Succeeded(pc: Pc) {
    || pc.AddRow? || pc.Placing? || pc.Recording?
    || ((pc.Unregister? || pc.Publish?) && pc.res.Some?)
  }

  /** The body filed under `h` is the stored form of a chunk of the stream. */
  ghost predicate Uploaded(cfg: Config, all: seq<Bytes>, e: Engine, h: Sha)
    requires h in e.objects
  {
    exists i :: 0 <= i < |all| && UploadedAs(cfg, all[i], e, h)
  }

  ghost predicate UploadedAs(cfg: Config, data: Bytes, e: Engine, h: Sha)
    requires h in e.objects
  {
    cfg.codec.sha(data) == h && e.objects[h] == Stored(cfg.codec, cfg.compress, data)
  }

  /** Stored, or hidden by a row that has outlived its object. */
  predicate Present(cfg: Config, e: Engine, h: Sha) {
    h in e.objects || h in Stale(cfg)
  }

  ghost predicate WorkerStored(cfg: Config, all: seq<Bytes>, e: Engine, w: Worker)
    requires w.Busy? ==> w.u.seqno < |all|
  {
    w.Busy? ==>
      && (Succeeded(w.pc) ==> Present(cfg, e, WorkerSha(cfg, all, w)))
      && (w.pc.AskStore? || w.pc.PutObject? ==> WorkerSha(cfg, all, w) !in cfg.index)
      && (w.pc.AddRow? ==> WorkerSha(cfg, all, w) in e.objects)
      && (w.pc.PutObject? ==> WorkerSha(cfg, all, w) !in e.objects)
  }

  /**
   * The index never runs further ahead of the store, no stale row's object is
   * ever uploaded, and success is only reported for chunks that are present.
   */
  ghost predicate StoreInv(cfg: Config, all: seq<Bytes>, ws: seq<Worker>, e: Engine, chunks: seq<Chunk>)
    requires Units(all, ws)
  {
    && cfg.index <= e.index
    && (forall h :: h in e.index ==> Present(cfg, e, h))
    && (forall h :: h in cfg.objects ==> h in e.objects && e.objects[h] == cfg.objects[h])
    && (forall h :: h in e.objects && h !in cfg.objects ==> h !in cfg.index && Uploaded(cfg, all, e, h))
    && (forall w :: 0 <= w < |ws| ==> WorkerStored(cfg, all, e, ws[w]))
    && (forall t :: 0 <= t < |e.tokens| && e.tokens[t].Finished? && e.tokens[t].ok ==> Present(cfg, e, e.tokens[t].sha))
    && (forall i :: 0 <= i < |chunks| && chunks[i] != NO_CHUNK ==> Present(cfg, e, chunks[i].sha))
  }

  /** An upload is the stored form of its chunk, and the others stay what they were. */
  lemma UploadedPut(cfg: Config, all: seq<Bytes>, e: Engine, e': Engine, at: nat, h: Sha)
    requires at < |all| && h in e'.objects && h !in cfg.objects
    requires e'.objects == e.objects[cfg.codec.sha(all[at]) := Stored(cfg.codec, cfg.compress, all[at])]
    requires h != cfg.codec.sha(all[at]) ==> Uploaded(cfg, all, e, h)
    ensures Uploaded(cfg, all, e', h)
  {
    if h == cfg.codec.sha(all[at]) {
      assert UploadedAs(cfg, all[at], e', h);
    } else {
      var i :| 0 <= i < |all| && UploadedAs(cfg, all[i], e, h);
      assert UploadedAs(cfg, all[i], e', h);
    }
  }

  /** Only a hash's leader uploads it, so no other worker is about to upload what has just been uploaded. */
  lemma StorePutWorkers(cfg: Config, all: seq<Bytes>, ws: seq<Worker>, e: Engine, w: nat, x: Worker, e': Engine, ws': seq<Worker>)
    requires Units(all, ws) && TokenInv(cfg, all, ws, e)
    requires forall v :: 0 <= v < |ws| ==> WorkerStored(cfg, all, e, ws[v])
    requires w < |ws| && ws[w].Busy? && ws[w].pc.PutObject? && x.Busy? && x.u == ws[w].u && !x.pc.PutObject? && !x.pc.AskStore?
    requires e'.objects.Keys == e.objects.Keys + {WorkerSha(cfg, all, ws[w])} && ws' == ws[w := x]
    ensures Units(all, ws') && forall v :: 0 <= v < |ws'| ==> WorkerStored(cfg, all, e', ws'[v])
  {
    assert LeaderOk(cfg, all, e, ws[w]);
    forall v | 0 <= v < |ws'|
      ensures WorkerStored(cfg, all, e', ws'[v])
    {
      assert LeaderOk(cfg, all, e, ws[v]) && WorkerStored(cfg, all, e, ws[v]);
    }
  }

  /** An upload never replaces an object, and never one whose row is stale. */
  lemma StorePut(cfg: Config, all: seq<Bytes>, ws: seq<Worker>, e: Engine, chunks: seq<Chunk>, w: nat, x: Worker, e': Engine)
    requires Units(all, ws) && TokenInv(cfg, all, ws, e) && StoreInv(cfg, all, ws, e, chunks)
    requires w < |ws| && ws[w].Busy? && ws[w].pc.PutObject? && x.Busy? && x.u == ws[w].u && !x.pc.PutObject? && !x.pc.AskStore?
    requires var sha := WorkerSha(cfg, all, ws[w]);
             && e'.objects == e.objects[sha := Stored(cfg.codec, cfg.compress, all[ws[w].u.seqno])]
             && e'.index == e.index && e'.tokens == e.tokens
    ensures Units(all, ws[w := x]) && StoreInv(cfg, all, ws[w := x], e', chunks)
  {
    assert WorkerStored(cfg, all, e, ws[w]);
    StorePutWorkers(cfg, all, ws, e, w, x, e', ws[w := x]);
    hide TokenInv, Stored, WorkerStored;
    forall h | h in e'.objects && h !in cfg.objects
      ensures h !in cfg.index && Uploaded(cfg, all, e', h)
    {
      UploadedPut(cfg, all, e, e', ws[w].u.seqno, h);
    }
    hide Uploaded;
  }

  /** Every other step leaves the objects alone. */
  lemma StoreSame(cfg: Config, all: seq<Bytes>, ws: seq<Worker>, e: Engine, chunks: seq<Chunk>,
                  w: nat, x: Worker, e': Engine, chunks': seq<Chunk>)
    requires Units(all, ws) && StoreInv(cfg, all, ws, e, chunks)
    requires w < |ws| && ws[w].Busy? && x.Busy? && x.u == ws[w].u
    requires e'.objects == e.objects && e.index <= e'.index && forall h :: h in e'.index ==> Present(cfg, e', h)
    requires WorkerStored(cfg, all, e, x)
    requires |e.tokens| <= |e'.tokens|
    requires forall t :: 0 <= t < |e'.tokens| && e'.tokens[t].Finished? && e'.tokens[t].ok ==> Present(cfg, e, e'.tokens[t].sha)
    requires forall i :: 0 <= i < |chunks'| && chunks'[i] != NO_CHUNK ==> Present(cfg, e, chunks'[i].sha)
    ensures Units(all, ws[w := x]) && StoreInv(cfg, all, ws[w := x], e', chunks')
  {
    forall h | h in e'.objects && h !in cfg.objects
      ensures Uploaded(cfg, all, e', h)
    {
      var i :| 0 <= i < |all| && UploadedAs(cfg, all[i], e, h);
      assert UploadedAs(cfg, all[i], e', h);
    }
    forall v | 0 <= v < |ws| && v != w
      ensures WorkerStored(cfg, all, e', ws[v])
    {
      assert WorkerStored(cfg, all, e, ws[v]);
    }
  }

  lemma {:induction false} PlacedShape(chunks: seq<Chunk>, at: nat, c: Chunk)
    ensures var p := Placed(chunks, at, c);
            && |p| == (if at < |chunks| then |chunks| else at + 1)
            && forall i :: 0 <= i < |p| ==>
                 p[i] == if i == at then c else if i < |chunks| then chunks[i] else NO_CHUNK
    decreases at + 1 - |chunks|
  {
    if at >= |chunks| {
      PlacedShape(chunks + [NO_CHUNK], at, c);
    }
  }

  /** The engine's side of a step that does not upload, for one worker alone. */
  lemma AdvanceKeepsObjects(cfg: Config, e: Engine, o: Output, at: nat, data: Bytes, pc: Pc, fault: Fault)
    requires CanAdvance(e, o.cancelled, pc, fault) && !pc.Returning? && !(pc.PutObject? && !fault.Before?)
    requires cfg.index <= e.index && forall h :: h in e.index ==> Present(cfg, e, h)
    requires Succeeded(pc) ==> Present(cfg, e, cfg.codec.sha(data))
    requires pc.AskStore? || pc.PutObject? ==> cfg.codec.sha(data) !in cfg.index
    requires pc.AddRow? ==> cfg.codec.sha(data) in e.objects
    requires pc.Wait? ==> e.tokens[pc.t].sha == cfg.codec.sha(data)
    requires forall t :: 0 <= t < |e.tokens| && e.tokens[t].Finished? && e.tokens[t].ok ==> Present(cfg, e, e.tokens[t].sha)
    requires forall i :: 0 <= i < |o.chunks| && o.chunks[i] != NO_CHUNK ==> Present(cfg, e, o.chunks[i].sha)
    ensures var n := Advance(cfg, e, o, at, data, pc, fault);
            && n.eng.objects == e.objects && e.index <= n.eng.index && |e.tokens| <= |n.eng.tokens|
            && (forall h :: h in n.eng.index ==> Present(cfg, e, h))
            && (Succeeded(n.pc) ==> Present(cfg, e, cfg.codec.sha(data)))
            && (n.pc.AskStore? || n.pc.PutObject? ==> cfg.codec.sha(data) !in cfg.index)
            && (n.pc.AddRow? ==> cfg.codec.sha(data) in e.objects)
            && (n.pc.PutObject? ==> cfg.codec.sha(data) !in e.objects)
            && (forall t :: 0 <= t < |n.eng.tokens| && n.eng.tokens[t].Finished? && n.eng.tokens[t].ok ==>
                  Present(cfg, e, n.eng.tokens[t].sha))
            && (forall i :: 0 <= i < |n.out.chunks| && n.out.chunks[i] != NO_CHUNK ==> Present(cfg, e, n.out.chunks[i].sha))
  {
    if pc.Placing? {
      PlacedShape(o.chunks, at, Chunk(cfg.codec.sha(data), |data|));
    }
  }

  lemma StoreAdvance(cfg: Config, all: seq<Bytes>, ws: seq<Worker>, e: Engine, o: Output, w: nat, fault: Fault)
    requires Units(all, ws) && TokenInv(cfg, all, ws, e) && StoreInv(cfg, all, ws, e, o.chunks)
    requires w < |ws| && ws[w].Busy? && !ws[w].pc.Returning? && CanAdvance(e, o.cancelled, ws[w].pc, fault)
    ensures var u := ws[w].u;
            var n := Advance(cfg, e, o, u.seqno, all[u.seqno], ws[w].pc, fault);
            var ws' := ws[w := Busy(u, n.pc)];
            Units(all, ws') && StoreInv(cfg, all, ws', n.eng, n.out.chunks)
  {
    var u := ws[w].u;
    assert WorkerStored(cfg, all, e, ws[w]) && WaiterOk(cfg, all, e, ws[w]);
    if ws[w].pc.PutObject? && !fault.Before? {
      var n := Advance(cfg, e, o, u.seqno, all[u.seqno], ws[w].pc, fault);
      StorePut(cfg, all, ws, e, o.chunks, w, Busy(u, n.pc), n.eng);
    } else {
      AdvanceKeepsObjects(cfg, e, o, u.seqno, all[u.seqno], ws[w].pc, fault);
      var n := Advance(cfg, e, o, u.seqno, all[u.seqno], ws[w].pc, fault);
      StoreSame(cfg, all, ws, e, o.chunks, w, Busy(u, n.pc), n.eng, n.out.chunks);
    }
  }
}
