/** Every step of the agent run protocol keeps its invariants, and what follows over whole runs. */
module AgentSafety {
  import opened Base
  import opened Agents
  import opened AgentProtocol

  // ------------------------------------------------------- run states end once

  lemma EndKeepsOnce(s: State, run: RunId)
    requires OnceInv(s)
    ensures OnceInv(Ended(s, run))
  {
  }

  lemma PostKeepsOnce(s: State, run: RunId, result: int)
    requires OnceInv(s) && Finishing(s.table, run).Some?
    ensures OnceInv(Do(Limits(0, 0), s, Finish(run, result)))
  {
    EndKeepsOnce(s, run);
    var h := s.table.active[run];
    assert h !in s.history.ended;
  }

  lemma SendKeepsOnce(l: Limits, s: State, h: Handle)
    requires OnceInv(s) && Enabled(s, Send(h))
    ensures OnceInv(Do(l, s, Send(h)))
  {
  }

  lemma PhaseKeepsOnce(s: State, h: Handle, p: Phase)
    requires OnceInv(s) && h in s.callers.phase
    ensures OnceInv(ToPhase(s, h, p))
  {
  }

  lemma ReceiveKeepsOnce(l: Limits, s: State, h: Handle)
    requires OnceInv(s) && Enabled(s, Receive(h))
    ensures OnceInv(Do(l, s, Receive(h)))
  {
  }

  lemma StartKeepsOnce(l: Limits, s: State, h: Handle, agent: AgentId, run: RunId)
    requires OnceInv(s) && Enabled(s, Start(h, agent, run))
    ensures OnceInv(Do(l, s, Start(h, agent, run)))
  {
    assert h !in s.history.ended && h !in s.history.sent;
  }

  /** The steps that only show a sign of life, queue or hand out work, or let time pass. */
  ghost predicate SameStanding(s: State, s': State) {
    && s'.table.active == s.table.active
    && s'.table.runs.Keys == s.table.runs.Keys
    && (forall h :: h in s.table.runs ==>
          s'.table.runs[h].run == s.table.runs[h].run && s'.table.runs[h].closed == s.table.runs[h].closed)
    && s'.callers == s.callers
    && s'.history.ended == s.history.ended
    && s'.history.sent == s.history.sent
  }

  lemma SameStandingOnce(s: State, s': State)
    requires OnceInv(s) && SameStanding(s, s')
    ensures OnceInv(s')
  {
  }

  lemma QuietSteps(l: Limits, s: State, step: Step)
    requires Linked(s.table) && Enabled(s, step) && (step.Tick? || step.Heartbeat? || step.Update? || step.Note?)
    ensures SameStanding(s, Do(l, s, step))
  {
  }

  /** The steps of a waiting caller that only move it on. */
  ghost predicate MovesOn(s: State, step: Step) {
    step.Begin? || step.Cancel? || step.PickupExpires? || step.SeePicked? || step.Check?
  }

  lemma MovesOnShape(l: Limits, s: State, step: Step)
    requires Linked(s.table) && Enabled(s, step) && MovesOn(s, step)
    ensures step.h in s.callers.phase && !s.callers.phase[step.h].Returned?
    ensures Do(l, s, step) == s || exists p: Phase :: !p.Returned? && Do(l, s, step) == ToPhase(s, step.h, p)
  {
  }

  lemma OnceStep(l: Limits, s: State, step: Step)
    requires OnceInv(s) && Enabled(s, step)
    ensures OnceInv(Do(l, s, step))
  {
    if step.Tick? || step.Heartbeat? || step.Update? || step.Note? {
      QuietSteps(l, s, step);
      SameStandingOnce(s, Do(l, s, step));
    } else if MovesOn(s, step) {
      MovesOnShape(l, s, step);
      if Do(l, s, step) != s {
        var p: Phase :| !p.Returned? && Do(l, s, step) == ToPhase(s, step.h, p);
        PhaseKeepsOnce(s, step.h, p);
      }
    } else {
      OnceOtherStep(l, s, step);
    }
  }

  lemma OnceOtherStep(l: Limits, s: State, step: Step)
    requires Linked(s.table) && OnceInv(s) && Enabled(s, step)
    requires step.Start? || step.Finish? || step.Send? || step.Receive? || step.Leave?
    ensures OnceInv(Do(l, s, step))
  {
    hide OnceInv;
    match step
    case Start(h, agent, run) => StartKeepsOnce(l, s, h, agent, run);
    case Finish(run, result) => if Finishing(s.table, run).Some? { PostKeepsOnce(s, run, result); }
    case Send(h) => SendKeepsOnce(l, s, h);
    case Receive(h) => ReceiveKeepsOnce(l, s, h);
    case Leave(h) => LeaveKeepsOnce(l, s, h);
  }

  lemma LeaveKeepsOnce(l: Limits, s: State, h: Handle)
    requires OnceInv(s) && Enabled(s, Leave(h))
    ensures OnceInv(Do(l, s, Leave(h)))
  {
    EndKeepsOnce(s, s.table.runs[h].run);
    PhaseKeepsOnce(Ended(s, s.table.runs[h].run), h, Returned(s.callers.phase[h].why));
  }

  // ------------------------------------------------- dispatches leave once

  lemma {:induction false} WithoutUpdatesMembers(q: seq<Dispatch>)
    ensures forall d :: d in WithoutUpdates(q) <==> d in q && !d.update
    ensures DistinctTickets(q) ==> DistinctTickets(WithoutUpdates(q))
  {
    if q != [] {
      WithoutUpdatesMembers(q[1..]);
      var rest := WithoutUpdates(q[1..]);
      if DistinctTickets(q) && !q[0].update {
        forall j | 0 <= j < |rest|
          ensures rest[j].ticket != q[0].ticket
        {
          assert rest[j] in q[1..];
        }
      }
    }
  }

  lemma AppendKeepsTickets(q: seq<Dispatch>, d: Dispatch)
    requires DistinctTickets(q) && AtMostOneUpdate(q)
    requires forall e :: e in q ==> e.ticket != d.ticket && !(e.update && d.update)
    ensures DistinctTickets(q + [d]) && AtMostOneUpdate(q + [d])
  {
  }

  lemma AppendKeepsQueue(pending: map<AgentId, seq<Dispatch>>, handed: seq<nat>, next: nat, a: AgentId, q: seq<Dispatch>, d: Dispatch)
    requires QueueInv(pending, handed, next) && d.ticket == next
    requires DistinctTickets(q) && AtMostOneUpdate(q)
    requires forall e :: e in q ==> a in pending && e in pending[a] && !(e.update && d.update)
    ensures QueueInv(pending[a := q + [d]], handed, next + 1)
  {
    AppendKeepsTickets(q, d);
    hide DistinctTickets, AtMostOneUpdate;
    var pending' := pending[a := q + [d]];
    forall b, e | b in pending' && e in pending'[b]
      ensures (b in pending && e in pending[b]) || (b == a && e == d)
    {
    }
  }

  lemma HandOutKeepsQueue(pending: map<AgentId, seq<Dispatch>>, handed: seq<nat>, next: nat, a: AgentId)
    requires QueueInv(pending, handed, next) && a in pending
    ensures QueueInv(pending - {a}, handed + Tickets(pending[a]), next)
  {
    var q := pending[a];
    var more := Tickets(q);
    forall t | t in more
      ensures exists d :: d in q && d.ticket == t
    {
      var i :| 0 <= i < |more| && more[i] == t;
      assert q[i] in q;
    }
  }

  lemma QueueStep(l: Limits, s: State, step: Step)
    requires Linked(s.table) && Enabled(s, step) && QueueInv(s.table.pending, s.history.handed, s.next)
    ensures var s' := Do(l, s, step); QueueInv(s'.table.pending, s'.history.handed, s'.next)
  {
    match step
    case Start(h, agent, run) =>
      AppendKeepsQueue(s.table.pending, s.history.handed, s.next, agent, Queue(s.table, agent), Dispatch(s.next, run, false));
    case Heartbeat(agent) =>
      if Queue(s.table, agent) == [] {
        assert s.history.handed + Tickets([]) == s.history.handed;
      } else {
        HandOutKeepsQueue(s.table.pending, s.history.handed, s.next, agent);
      }
    case Update(agent) =>
      var q := Queue(s.table, agent);
      WithoutUpdatesMembers(q);
      assert forall i :: 0 <= i < |WithoutUpdates(q)| ==> WithoutUpdates(q)[i] in WithoutUpdates(q);
      AppendKeepsQueue(s.table.pending, s.history.handed, s.next, agent, WithoutUpdates(q), Dispatch(s.next, "", true));
    case _ =>
  }

  // --------------------------------------- every caller's result is on its way

  lemma StartKeepsOwn(l: Limits, s: State, h: Handle, agent: AgentId, run: RunId)
    requires OwnInv(s) && Enabled(s, Start(h, agent, run)) && InTurn(s, Start(h, agent, run))
    ensures OwnInv(Do(l, s, Start(h, agent, run)))
  {
    var s' := Do(l, s, Start(h, agent, run));
    assert run !in s.table.active;
    assert s'.table.active == s.table.active[run := h];
    assert s'.table.runs == s.table.runs[h := RunState(run, agent, false, false, s.now)];
    assert s'.callers == Entered(s.callers, h);
    AddedKeepsOwn(s, s', h, RunState(run, agent, false, false, s.now));
  }

  /** One open run state more, with a caller of its own. */
  ghost predicate Added(s: State, s': State, h: Handle, rs: RunState) {
    && TableInv(s) && h !in s.table.runs && rs.run !in s.table.active && !rs.closed
    && s'.table.active == s.table.active[rs.run := h]
    && s'.table.runs == s.table.runs[h := rs]
    && s'.callers == Entered(s.callers, h)
  }

  lemma AddedKeepsTable(s: State, s': State, h: Handle, rs: RunState)
    requires Added(s, s', h, rs)
    ensures TableInv(s')
    ensures forall k :: Unreturned(s', k) <==> k == h || Unreturned(s, k)
    ensures forall k :: Unreturned(s, k) && Provided(s, k) && s.table.runs[k].run != rs.run ==> Provided(s', k)
    ensures Provided(s', h)
  {
    assert s'.callers.phase.Keys == s.callers.phase.Keys + {h};
    assert s'.callers.mail.Keys == s.callers.mail.Keys + {h};
  }

  lemma AddedKeepsOwn(s: State, s': State, h: Handle, rs: RunState)
    requires OwnInv(s) && Added(s, s', h, rs)
    requires forall k :: Unreturned(s, k) ==> s.table.runs[k].run != rs.run
    ensures OwnInv(s')
  {
    AddedKeepsTable(s, s', h, rs);
    hide Provided;
    assert forall k :: Unreturned(s, k) ==> s'.table.runs[k] == s.table.runs[k];
  }

  lemma LeaveKeepsOwn(l: Limits, s: State, h: Handle)
    requires OwnInv(s) && Enabled(s, Leave(h))
    ensures OwnInv(Do(l, s, Leave(h)))
  {
    var run := s.table.runs[h].run;
    var s' := Do(l, s, Leave(h));
    assert Unreturned(s, h) && Provided(s, h);
    if run in s.table.active {
      assert Unreturned(s, s.table.active[run]);
      assert s.table.active[run] == h;
      assert s'.table.runs == s.table.runs[h := s.table.runs[h].(closed := true)];
    }
    RemovedKeepsOwn(s, s', h, Returned(s.callers.phase[h].why));
  }

  lemma RemovedKeepsOwn(s: State, s': State, h: Handle, p: Phase)
    requires OwnInv(s) && Unreturned(s, h) && p.Returned?
    requires s'.table.runs.Keys == s.table.runs.Keys
    requires forall k :: k in s.table.runs && k != h ==> s'.table.runs[k] == s.table.runs[k]
    requires s'.table.active == s.table.active - {s.table.runs[h].run}
    requires s'.callers == s.callers.(phase := s.callers.phase[h := p])
    ensures OwnInv(s')
  {
    RemovedKeepsTable(s, s', h, p);
    hide TableInv, Provided;
    assert forall k :: Unreturned(s', k) ==> s'.table.runs[k] == s.table.runs[k];
  }

  lemma RemovedKeepsTable(s: State, s': State, h: Handle, p: Phase)
    requires TableInv(s) && Unreturned(s, h) && p.Returned?
    requires s'.table.runs.Keys == s.table.runs.Keys
    requires forall k :: k in s.table.runs && k != h ==> s'.table.runs[k] == s.table.runs[k]
    requires s'.table.active == s.table.active - {s.table.runs[h].run}
    requires s'.callers == s.callers.(phase := s.callers.phase[h := p])
    requires forall r :: r in s'.table.active ==> s.table.active[r] != h
    ensures TableInv(s')
    ensures forall k :: Unreturned(s', k) <==> k != h && Unreturned(s, k)
    ensures forall k :: Unreturned(s', k) && Provided(s, k) && s.table.runs[k].run != s.table.runs[h].run ==> Provided(s', k)
  {
  }

  lemma PhaseKeepsOwn(s: State, h: Handle, p: Phase)
    requires OwnInv(s) && Unreturned(s, h) && !p.Returned?
    ensures OwnInv(ToPhase(s, h, p))
  {
    var s' := ToPhase(s, h, p);
    assert forall k :: Unreturned(s', k) <==> Unreturned(s, k);
  }

  lemma FinishKeepsOwn(l: Limits, s: State, run: RunId, result: int)
    requires OwnInv(s)
    ensures OwnInv(Do(l, s, Finish(run, result)))
  {
    var s' := Do(l, s, Finish(run, result));
    if Finishing(s.table, run).Some? {
      FinishKeepsTable(l, s, run, result);
      hide TableInv, Provided, Do;
      assert OneAttempt(s');
    }
  }

  /** Closing a run state posts its result, so its caller is still provided for. */
  lemma FinishKeepsTable(l: Limits, s: State, run: RunId, result: int)
    requires TableInv(s) && Finishing(s.table, run).Some?
    ensures var s' := Do(l, s, Finish(run, result));
            && TableInv(s')
            && (forall k :: Unreturned(s', k) <==> Unreturned(s, k))
            && (forall k :: Unreturned(s, k) && Provided(s, k) ==> Provided(s', k))
            && (forall k :: k in s.table.runs ==> s'.table.runs[k].run == s.table.runs[k].run)
            && (forall r :: r in s'.table.active ==> r in s.table.active && s'.table.active[r] == s.table.active[r])
  {
  }

  lemma SendKeepsOwn(l: Limits, s: State, h: Handle)
    requires OwnInv(s) && Enabled(s, Send(h))
    ensures OwnInv(Do(l, s, Send(h)))
  {
    var s' := Do(l, s, Send(h));
    assert forall k :: Unreturned(s', k) <==> Unreturned(s, k);
  }

  lemma ReceiveKeepsOwn(l: Limits, s: State, h: Handle)
    requires OwnInv(s) && OnceInv(s) && Enabled(s, Receive(h))
    ensures OwnInv(Do(l, s, Receive(h)))
  {
    var s' := Do(l, s, Receive(h));
    assert h in s.history.ended;
    assert forall r :: r in s.table.active ==> s.table.active[r] != h;
    assert forall k :: Unreturned(s', k) <==> k != h && Unreturned(s, k);
  }

  lemma SameStandingOwn(s: State, s': State)
    requires OwnInv(s) && SameStanding(s, s')
    ensures OwnInv(s')
  {
    assert forall k :: Unreturned(s', k) <==> Unreturned(s, k);
  }

  lemma OwnOtherStep(l: Limits, s: State, step: Step)
    requires Linked(s.table) && OnceInv(s) && OwnInv(s) && Enabled(s, step) && InTurn(s, step)
    requires step.Start? || step.Finish? || step.Send? || step.Receive? || step.Leave?
    ensures OwnInv(Do(l, s, step))
  {
    hide OnceInv, OwnInv;
    match step
    case Start(h, agent, run) => StartKeepsOwn(l, s, h, agent, run);
    case Finish(run, result) => FinishKeepsOwn(l, s, run, result);
    case Send(h) => SendKeepsOwn(l, s, h);
    case Receive(h) => ReceiveKeepsOwn(l, s, h);
    case Leave(h) => LeaveKeepsOwn(l, s, h);
  }

  lemma OwnStep(l: Limits, s: State, step: Step)
    requires OnceInv(s) && OwnInv(s) && Enabled(s, step) && InTurn(s, step)
    ensures OwnInv(Do(l, s, step))
  {
    if step.Tick? || step.Heartbeat? || step.Update? || step.Note? {
      QuietSteps(l, s, step);
      SameStandingOwn(s, Do(l, s, step));
    } else if MovesOn(s, step) {
      MovesOnShape(l, s, step);
      if Do(l, s, step) != s {
        var p: Phase :| !p.Returned? && Do(l, s, step) == ToPhase(s, step.h, p);
        PhaseKeepsOwn(s, step.h, p);
      }
    } else {
      OwnOtherStep(l, s, step);
    }
  }

  // --------------------------------------------------------- stalls are real

  lemma SignsKeepSilence(l: Limits, signs: set<Sign>, hs: set<Handle>, now: int, h: Handle, why: Outcome)
    requires RealSilence(l, signs, h, why) && (why.Stalled? ==> why.at <= now)
    ensures RealSilence(l, Signed(signs, hs, now), h, why)
  {
  }

  /** Signs of life of active run states, all noted now. */
  lemma TouchKeepsSigns(l: Limits, s: State, s': State, hs: set<Handle>)
    requires SignInv(l, s) && s'.now == s.now && s'.callers == s.callers
    requires s'.history.signs == Signed(s.history.signs, hs, s.now)
    requires s'.table.runs.Keys == s.table.runs.Keys && hs <= s.table.runs.Keys
    requires forall h :: h in s.table.runs ==> s'.table.runs[h].progress == if h in hs then s.now else s.table.runs[h].progress
    ensures SignInv(l, s')
  {
    forall h, why | RealSilence(l, s.history.signs, h, why) && (why.Stalled? ==> why.at <= s.now)
      ensures RealSilence(l, s'.history.signs, h, why)
    {
      SignsKeepSilence(l, s.history.signs, hs, s.now, h, why);
    }
    assert forall h :: h in hs ==> Sign(h, s.now) in s'.history.signs;
  }

  lemma StartKeepsSigns(l: Limits, s: State, h: Handle, agent: AgentId, run: RunId)
    requires TableInv(s) && SignInv(l, s) && Enabled(s, Start(h, agent, run))
    ensures SignInv(l, Do(l, s, Start(h, agent, run)))
  {
    var s' := Do(l, s, Start(h, agent, run));
    forall k, why | RealSilence(l, s.history.signs, k, why) && (why.Stalled? ==> why.at <= s.now)
      ensures RealSilence(l, s'.history.signs, k, why)
    {
      SignsKeepSilence(l, s.history.signs, {h}, s.now, k, why);
    }
    assert Sign(h, s.now) in s'.history.signs;
  }

  lemma PhaseKeepsSigns(l: Limits, s: State, h: Handle, p: Phase)
    requires SignInv(l, s)
    requires p.Leaving? || p.Returned? ==> RealSilence(l, s.history.signs, h, p.why) && (p.why.Stalled? ==> p.why.at <= s.now)
    ensures SignInv(l, ToPhase(s, h, p))
  {
  }

  lemma CheckKeepsSigns(l: Limits, s: State, h: Handle)
    requires OwnInv(s) && SignInv(l, s) && Enabled(s, Check(h))
    ensures SignInv(l, Do(l, s, Check(h)))
  {
    var run := s.table.runs[h].run;
    assert Unreturned(s, h);
    if run in s.table.active {
      assert Unreturned(s, s.table.active[run]) && s.table.active[run] == h;
      var last := s.table.runs[h].progress;
      SilentNow(l, s, h);
      hide OwnInv, SignInv, RealSilence;
      if s.now - last >= l.stall {
        PhaseKeepsSigns(l, s, h, Leaving(Stalled(last, s.now)));
      }
    }
  }

  /** A run state that has shown no sign for the stall timeout is really silent. */
  lemma SilentNow(l: Limits, s: State, h: Handle)
    requires SignInv(l, s) && h in s.table.runs
    ensures var last := s.table.runs[h].progress;
            s.now - last >= l.stall ==> RealSilence(l, s.history.signs, h, Stalled(last, s.now))
  {
  }

  /** A step that leaves the run states' progress, the callers and the signs alone. */
  lemma SameSigns(l: Limits, s: State, s': State)
    requires SignInv(l, s) && s'.callers.phase == s.callers.phase
    requires s'.history.signs == s.history.signs && s'.now >= s.now
    requires s'.table.runs.Keys == s.table.runs.Keys
    requires forall h :: h in s.table.runs ==> s'.table.runs[h].progress == s.table.runs[h].progress
    ensures SignInv(l, s')
  {
    hide RealSilence;
  }

  lemma LeaveKeepsSigns(l: Limits, s: State, h: Handle)
    requires TableInv(s) && SignInv(l, s) && Enabled(s, Leave(h))
    ensures SignInv(l, Do(l, s, Leave(h)))
  {
    var e := Ended(s, s.table.runs[h].run);
    SameSigns(l, s, e);
    PhaseKeepsSigns(l, e, h, Returned(s.callers.phase[h].why));
  }

  lemma ReceiveKeepsSigns(l: Limits, s: State, h: Handle)
    requires Linked(s.table) && SignInv(l, s) && Enabled(s, Receive(h))
    ensures SignInv(l, Do(l, s, Receive(h)))
  {
    var p := Returned(Finished(s.callers.mail[h][0]));
    PhaseKeepsSigns(l, s, h, p);
    SameSigns(l, ToPhase(s, h, p), Do(l, s, Receive(h)));
  }

  lemma CallerKeepsSigns(l: Limits, s: State, step: Step)
    requires TableInv(s) && SignInv(l, s) && Enabled(s, step)
    requires step.Begin? || step.Cancel? || step.PickupExpires? || step.SeePicked?
    ensures SignInv(l, Do(l, s, step))
  {
    hide SignInv;
    match step
    case Begin(h) => PhaseKeepsSigns(l, s, h, Unpicked(s.now + l.pickup));
    case Cancel(h) => PhaseKeepsSigns(l, s, h, Leaving(Cancelled));
    case PickupExpires(h) => PhaseKeepsSigns(l, s, h, Leaving(NotCollected));
    case SeePicked(h) => PhaseKeepsSigns(l, s, h, Watching);
  }

  lemma HeartbeatKeepsSigns(l: Limits, s: State, agent: AgentId)
    requires TableInv(s) && SignInv(l, s)
    ensures SignInv(l, Do(l, s, Heartbeat(agent)))
  {
    hide SignInv;
    var q := Queue(s.table, agent);
    var s' := Do(l, s, Heartbeat(agent));
    assert Owners(s.table.active, q) <= s.table.runs.Keys;
    TouchKeepsSigns(l, s, s', Owners(s.table.active, q));
  }

  lemma SignStep(l: Limits, s: State, step: Step)
    requires OwnInv(s) && SignInv(l, s) && Enabled(s, step)
    ensures SignInv(l, Do(l, s, step))
  {
    assert TableInv(s) && Linked(s.table);
    hide SignInv, OwnInv, TableInv, Do;
    match step
    case Start(h, agent, run) => StartKeepsSigns(l, s, h, agent, run);
    case Heartbeat(agent) => HeartbeatKeepsSigns(l, s, agent);
    case Note(run) => NoteKeepsSigns(l, s, run);
    case Check(h) => CheckKeepsSigns(l, s, h);
    case Leave(h) => LeaveKeepsSigns(l, s, h);
    case Receive(h) => ReceiveKeepsSigns(l, s, h);
    case Begin(_) => CallerKeepsSigns(l, s, step);
    case Cancel(_) => CallerKeepsSigns(l, s, step);
    case PickupExpires(_) => CallerKeepsSigns(l, s, step);
    case SeePicked(_) => CallerKeepsSigns(l, s, step);
    case _ => RestKeepsSigns(l, s, step);
  }

  lemma NoteKeepsSigns(l: Limits, s: State, run: RunId)
    requires TableInv(s) && SignInv(l, s)
    ensures SignInv(l, Do(l, s, Note(run)))
  {
    hide SignInv;
    if run in s.table.active {
      TouchKeepsSigns(l, s, Do(l, s, Note(run)), {s.table.active[run]});
    }
  }

  lemma RestKeepsSigns(l: Limits, s: State, step: Step)
    requires TableInv(s) && SignInv(l, s) && Enabled(s, step) && (step.Tick? || step.Update? || step.Finish? || step.Send?)
    ensures SignInv(l, Do(l, s, step))
  {
    hide SignInv;
    SameSigns(l, s, Do(l, s, step));
  }

  // --------------------------------------------------------------- whole runs

  /** A run of the protocol; when `inTurn`, no run is started again while its last attempt is awaited. */
  ghost predicate Runs(l: Limits, inTurn: bool, s: State, run: seq<Step>, s': State)
    requires Linked(s.table)
    decreases run
  {
    if run == [] then s' == s
    else
      && Enabled(s, run[0])
      && (inTurn ==> InTurn(s, run[0]))
      && Linked(Do(l, s, run[0]).table)
      && Runs(l, inTurn, Do(l, s, run[0]), run[1..], s')
  }

  ghost predicate Inv(l: Limits, inTurn: bool, s: State) {
    && OnceInv(s)
    && QueueInv(s.table.pending, s.history.handed, s.next)
    && (inTurn ==> OwnInv(s) && SignInv(l, s))
  }

  lemma InvStep(l: Limits, inTurn: bool, s: State, step: Step)
    requires Inv(l, inTurn, s) && Enabled(s, step) && (inTurn ==> InTurn(s, step))
    ensures Inv(l, inTurn, Do(l, s, step))
  {
    assert Linked(s.table);
    hide OnceInv, QueueInv, OwnInv, SignInv, Do;
    OnceStep(l, s, step);
    QueueStep(l, s, step);
    if inTurn {
      OwnStep(l, s, step);
      SignStep(l, s, step);
    }
  }

  lemma InitInv(l: Limits, inTurn: bool)
    ensures Linked(Init().table) && Inv(l, inTurn, Init())
  {
  }

  lemma {:induction false} InvRun(l: Limits, inTurn: bool, s: State, run: seq<Step>, s': State)
    requires Inv(l, inTurn, s) && Runs(l, inTurn, s, run, s')
    ensures Inv(l, inTurn, s')
    decreases run
  {
    assert Linked(s.table);
    hide Inv, Do, Enabled;
    if run != [] {
      InvStep(l, inTurn, s, run[0]);
      InvRun(l, inTurn, Do(l, s, run[0]), run[1..], s');
    }
  }

  /**
   * In every interleaving, retries that overlap included: no run state ends
   * twice, none sends two results, a result past its critical section can be
   * sent at once, no dispatch is handed out twice and none that was handed out
   * is still queued, and no agent has two updates queued.
   */
  lemma EverythingHappensOnce(l: Limits, run: seq<Step>, s: State)
    requires Runs(l, false, Init(), run, s)
    ensures Distinct(s.history.ended) && Distinct(s.history.sent)
    ensures forall h :: h in s.history.sent ==> h in s.history.ended
    ensures forall h :: h in s.callers.posted ==> Enabled(s, Send(h)) && h !in s.history.sent
    ensures Distinct(s.history.handed)
    ensures forall a, d :: a in s.table.pending && d in s.table.pending[a] ==> d.ticket !in s.history.handed
    ensures forall a :: a in s.table.pending ==> DistinctTickets(s.table.pending[a]) && AtMostOneUpdate(s.table.pending[a])
  {
    hide Runs, OwnInv, SignInv;
    InitInv(l, false);
    InvRun(l, false, Init(), run, s);
  }

  /**
   * When attempts follow one another, a caller still waiting whose run is no
   * longer active has its result in the channel, or on its way there with
   * nothing to block it; and a caller that has returned leaves nothing active.
   */
  lemma ResultIsOnItsWay(l: Limits, run: seq<Step>, s: State, h: Handle)
    requires Runs(l, true, Init(), run, s) && h in s.callers.phase
    ensures h in s.table.runs
    ensures Waiting(s, h) && s.table.runs[h].run !in s.table.active ==> Enabled(s, Receive(h)) || Enabled(s, Send(h))
    ensures s.callers.phase[h].Returned? ==> h !in s.table.active.Values
  {
    hide Runs, QueueInv, SignInv;
    InitInv(l, true);
    InvRun(l, true, Init(), run, s);
    if Waiting(s, h) {
      assert Unreturned(s, h) && Provided(s, h);
    }
  }

  /** An agent is busy exactly while some caller waits for a run of its that has not ended. */
  lemma BusyIffAwaited(l: Limits, run: seq<Step>, s: State, agent: AgentId)
    requires Runs(l, true, Init(), run, s)
    ensures Linked(s.table)
    ensures Busy(s.table, agent) <==> exists h :: Unreturned(s, h) && s.table.runs[h].agent == agent && !s.table.runs[h].closed
  {
    InitInv(l, true);
    InvRun(l, true, Init(), run, s);
    if h :| Unreturned(s, h) && s.table.runs[h].agent == agent && !s.table.runs[h].closed {
      assert Provided(s, h);
      var r := s.table.runs[h].run;
      assert r in s.table.active && s.table.runs[s.table.active[r]].agent == agent;
    }
    if Busy(s.table, agent) {
      var r :| r in s.table.active && s.table.runs[s.table.active[r]].agent == agent && !s.table.runs[s.table.active[r]].closed;
      assert Unreturned(s, s.table.active[r]);
    }
  }

  /**
   * A caller that reports a stall has seen one: its own run state showed a sign
   * of life, and then none for the stall timeout or longer.
   */
  lemma StallsAreReal(l: Limits, run: seq<Step>, s: State, h: Handle)
    requires Runs(l, true, Init(), run, s)
    requires h in s.callers.phase && s.callers.phase[h].Returned? && s.callers.phase[h].why.Stalled?
    ensures var why := s.callers.phase[h].why;
            && Sign(h, why.last) in s.history.signs
            && why.at >= why.last + l.stall
            && why.at <= s.now
            && forall t :: why.last < t < why.at ==> Sign(h, t) !in s.history.signs
  {
    hide Runs, QueueInv, OnceInv, OwnInv;
    InitInv(l, true);
    InvRun(l, true, Init(), run, s);
  }

  /**
   * What the watchdog reads is the time since the last sign of life of the very
   * run state its caller awaits: that state showed one then, and none since.
   */
  lemma SilenceIsSinceTheLastSign(l: Limits, run: seq<Step>, s: State, h: Handle)
    requires Runs(l, true, Init(), run, s) && Unreturned(s, h)
    ensures Linked(s.table)
    ensures var silent := Silence(s.table, s.table.runs[h].run, s.now);
            && (silent.Some? <==> !s.table.runs[h].closed)
            && (silent.Some? ==>
                  && silent.value >= 0
                  && Sign(h, s.now - silent.value) in s.history.signs
                  && forall t :: Sign(h, t) in s.history.signs ==> t <= s.now - silent.value)
  {
    hide Runs, QueueInv, OnceInv;
    InitInv(l, true);
    InvRun(l, true, Init(), run, s);
    assert TableInv(s) && Provided(s, h);
    var r := s.table.runs[h].run;
    assert r in s.table.active ==> Unreturned(s, s.table.active[r]);
  }

  /** A run whose silences all stay below the stall timeout never ends as stalled. */
  lemma LivelyRunsDoNotStall(l: Limits, run: seq<Step>, s: State, h: Handle)
    requires Runs(l, true, Init(), run, s)
    requires h in s.callers.phase && s.callers.phase[h].Returned?
    requires forall t :: Sign(h, t) in s.history.signs && t + l.stall <= s.now ==>
               exists u :: t < u < t + l.stall && Sign(h, u) in s.history.signs
    ensures !s.callers.phase[h].why.Stalled?
  {
    if s.callers.phase[h].why.Stalled? {
      StallsAreReal(l, run, s, h);
    }
  }
}
