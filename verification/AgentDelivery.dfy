/** What reaches whom in the agent run protocol: dispatches the agents, results their callers. */
module AgentDelivery {
  import opened Base
  import opened Agents
  import opened AgentProtocol
  import opened AgentSafety

  // -------------------------------------------------------------- dispatches

  /** Still queued for the agent, or handed out. */
  ghost predicate Underway(s: State, a: AgentId, d: Dispatch) {
    d in Queue(s.table, a) || d.ticket in s.history.handed
  }

  lemma StartQueues(l: Limits, s: State, h: Handle, agent: AgentId, run: RunId)
    requires Linked(s.table) && Enabled(s, Start(h, agent, run))
    ensures var s' := Do(l, s, Start(h, agent, run));
            && Dispatch(s.next, run, false) in Queue(s'.table, agent)
            && (forall a, d :: d in Queue(s.table, a) ==> d in Queue(s'.table, a))
  {
  }

  /** An update the agent is idle enough for is queued, in place of any queued before, and nothing else is displaced. */
  lemma UpdateQueues(l: Limits, s: State, agent: AgentId)
    requires Linked(s.table) && !Busy(s.table, agent)
    ensures var q, q' := Queue(s.table, agent), Queue(Do(l, s, Update(agent)).table, agent);
            forall d :: d in q' <==> d == Dispatch(s.next, "", true) || (d in q && !d.update)
  {
    WithoutUpdatesMembers(Queue(s.table, agent));
  }

  lemma HandedTickets(q: seq<Dispatch>, d: Dispatch)
    requires d in q
    ensures d.ticket in Tickets(q)
  {
    var i :| 0 <= i < |q| && q[i] == d;
    assert Tickets(q)[i] == d.ticket;
  }

  /** One step loses no dispatch; only an update can be displaced, by another. */
  lemma UnderwayStep(l: Limits, s: State, step: Step, a: AgentId, d: Dispatch)
    requires Linked(s.table) && Enabled(s, step) && Underway(s, a, d) && !d.update
    ensures Underway(Do(l, s, step), a, d)
  {
    match step
    case Heartbeat(agent) =>
      if agent == a && d in Queue(s.table, a) {
        HandedTickets(Queue(s.table, a), d);
      }
    case Update(agent) => WithoutUpdatesMembers(Queue(s.table, agent));
    case _ =>
  }

  /** A dispatch that was queued, an update apart, is queued until it is handed out, however the run goes on. */
  lemma {:induction false} NothingIsLost(l: Limits, inTurn: bool, s: State, run: seq<Step>, s': State, a: AgentId, d: Dispatch)
    requires Linked(s.table) && Runs(l, inTurn, s, run, s')
    requires Underway(s, a, d) && !d.update
    ensures Underway(s', a, d)
    decreases run
  {
    hide Do, Enabled, Underway, InTurn;
    if run != [] {
      UnderwayStep(l, s, run[0], a, d);
      NothingIsLost(l, inTurn, Do(l, s, run[0]), run[1..], s', a, d);
    }
  }

  /** Queues are in the order the dispatches were made. */
  ghost predicate InOrder(q: seq<Dispatch>, next: nat) {
    && (forall i, j :: 0 <= i < j < |q| ==> q[i].ticket < q[j].ticket)
    && (forall i :: 0 <= i < |q| ==> q[i].ticket < next)
  }

  ghost predicate OrderInv(s: State) {
    forall a :: InOrder(Queue(s.table, a), s.next)
  }

  lemma WithoutUpdatesFirst(q: seq<Dispatch>)
    requires q != []
    ensures WithoutUpdates(q) == (if q[0].update then [] else [q[0]]) + WithoutUpdates(q[1..])
  {
  }

  lemma RestInOrder(q: seq<Dispatch>, next: nat)
    requires InOrder(q, next) && q != []
    ensures InOrder(q[1..], next) && forall d :: d in q[1..] ==> q[0].ticket < d.ticket
  {
  }

  lemma OneBeforeInOrder(d: Dispatch, q: seq<Dispatch>, next: nat)
    requires InOrder(q, next) && d.ticket < next && forall e :: e in q ==> d.ticket < e.ticket
    ensures InOrder([d] + q, next)
  {
    assert forall i :: 0 <= i < |q| ==> q[i] in q;
  }

  lemma {:induction false} WithoutUpdatesInOrder(q: seq<Dispatch>, next: nat)
    requires InOrder(q, next)
    ensures InOrder(WithoutUpdates(q), next)
  {
    if q != [] {
      assert q[0].ticket < next;
      hide WithoutUpdates, InOrder;
      RestInOrder(q, next);
      WithoutUpdatesInOrder(q[1..], next);
      WithoutUpdatesMembers(q[1..]);
      WithoutUpdatesFirst(q);
      OneBeforeInOrder(q[0], WithoutUpdates(q[1..]), next);
      assert [] + WithoutUpdates(q[1..]) == WithoutUpdates(q[1..]);
    }
  }

  lemma OneMoreInOrder(q: seq<Dispatch>, d: Dispatch)
    requires InOrder(q, d.ticket)
    ensures InOrder(q + [d], d.ticket + 1)
  {
  }

  lemma OrderStep(l: Limits, s: State, step: Step)
    requires Linked(s.table) && Enabled(s, step) && OrderInv(s)
    ensures OrderInv(Do(l, s, step))
  {
    var s' := Do(l, s, step);
    forall a
      ensures InOrder(Queue(s'.table, a), s'.next)
    {
      assert InOrder(Queue(s.table, a), s.next);
      if step.Start? && step.agent == a {
        OneMoreInOrder(Queue(s.table, a), Dispatch(s.next, step.run, false));
      } else if step.Update? && step.agent == a && !Busy(s.table, a) {
        WithoutUpdatesInOrder(Queue(s.table, a), s.next);
        OneMoreInOrder(WithoutUpdates(Queue(s.table, a)), Dispatch(s.next, "", true));
      }
    }
  }

  /** In every run an agent's queue holds its dispatches in the order they were made, and a heartbeat hands it out whole. */
  lemma {:induction false} QueuesAreInOrder(l: Limits, inTurn: bool, s: State, run: seq<Step>, s': State)
    requires Linked(s.table) && OrderInv(s) && Runs(l, inTurn, s, run, s')
    ensures OrderInv(s') && Linked(s'.table)
    ensures forall a :: Do(l, s', Heartbeat(a)).history.handed == s'.history.handed + Tickets(Queue(s'.table, a))
    ensures forall a :: Queue(Do(l, s', Heartbeat(a)).table, a) == []
    decreases run
  {
    if run != [] {
      hide Do, Enabled, OrderInv, InTurn;
      OrderStep(l, s, run[0]);
      QueuesAreInOrder(l, inTurn, Do(l, s, run[0]), run[1..], s');
    }
  }

  // ----------------------------------------------------------------- pickups

  /** A run whose dispatch is handed out is picked, and that is a sign of life. */
  lemma HandOutPicks(l: Limits, s: State, agent: AgentId, d: Dispatch)
    requires TableInv(s) && d in Queue(s.table, agent) && d.run in s.table.active
    ensures var h, s' := s.table.active[d.run], Do(l, s, Heartbeat(agent));
            && h in s'.table.runs && s'.table.runs[h].picked && s'.table.runs[h].progress == s.now
            && Sign(h, s.now) in s'.history.signs
            && (h in s'.callers.phase && s'.callers.phase[h].Unpicked? ==> Enabled(s', SeePicked(h)))
  {
    assert s.table.active[d.run] in Owners(s.table.active, Queue(s.table, agent));
  }

  /** A picked run state stays picked. */
  lemma PickedStep(l: Limits, s: State, step: Step, h: Handle)
    requires Linked(s.table) && Enabled(s, step) && h in s.table.runs && s.table.runs[h].picked
    ensures h in Do(l, s, step).table.runs && Do(l, s, step).table.runs[h].picked
  {
  }

  /** The moments at which a run's callers begin to wait for a pickup. */
  ghost function Begun(l: Limits, s: State, run: seq<Step>): set<Sign>
    requires Linked(s.table)
    decreases run
  {
    if run == [] || !Enabled(s, run[0]) || !Linked(Do(l, s, run[0]).table) then {} else
      (if run[0].Begin? then {Sign(run[0].h, s.now)} else {}) + Begun(l, Do(l, s, run[0]), run[1..])
  }

  ghost predicate SomeBegan(begun: set<Sign>, h: Handle, latest: int) {
    exists g :: g in begun && g.h == h && g.at <= latest
  }

  /** A caller that gave up on a pickup has waited for the whole pickup window. */
  ghost predicate PickupInv(l: Limits, s: State, begun: set<Sign>) {
    && (forall h :: h in s.callers.phase && s.callers.phase[h].Unpicked? ==>
          Sign(h, s.callers.phase[h].deadline - l.pickup) in begun)
    && (forall h :: h in s.callers.phase && (s.callers.phase[h].Leaving? || s.callers.phase[h].Returned?) ==>
          s.callers.phase[h].why.NotCollected? ==> SomeBegan(begun, h, s.now - l.pickup))
  }

  lemma SomeBeganMore(begun: set<Sign>, more: set<Sign>, h: Handle, latest: int, later: int)
    requires SomeBegan(begun, h, latest) && latest <= later
    ensures SomeBegan(begun + more, h, later)
  {
    var g :| g in begun && g.h == h && g.at <= latest;
    assert g in begun + more;
  }

  lemma PickupStep(l: Limits, s: State, step: Step, begun: set<Sign>)
    requires Linked(s.table) && Enabled(s, step) && PickupInv(l, s, begun)
    ensures PickupInv(l, Do(l, s, step), begun + if step.Begin? then {Sign(step.h, s.now)} else {})
  {
    var s' := Do(l, s, step);
    var more := if step.Begin? then {Sign(step.h, s.now)} else {};
    forall h | h in s'.callers.phase && (s'.callers.phase[h].Leaving? || s'.callers.phase[h].Returned?)
      ensures s'.callers.phase[h].why.NotCollected? ==> SomeBegan(begun + more, h, s'.now - l.pickup)
    {
      if s'.callers.phase[h].why.NotCollected? {
        if step.PickupExpires? && step.h == h {
          var g := Sign(h, s.callers.phase[h].deadline - l.pickup);
          assert g in begun;
          assert SomeBegan(begun, h, s.now - l.pickup);
        }
        SomeBeganMore(begun, more, h, s.now - l.pickup, s'.now - l.pickup);
      }
    }
  }

  lemma {:induction false} PickupRun(l: Limits, inTurn: bool, s: State, run: seq<Step>, s': State, begun: set<Sign>)
    requires Linked(s.table) && PickupInv(l, s, begun) && Runs(l, inTurn, s, run, s')
    ensures PickupInv(l, s', begun + Begun(l, s, run))
    decreases run
  {
    hide Do, Enabled, PickupInv, InTurn;
    if run == [] {
      assert begun + {} == begun;
    } else {
      var more := if run[0].Begin? then {Sign(run[0].h, s.now)} else {};
      PickupStep(l, s, run[0], begun);
      PickupRun(l, inTurn, Do(l, s, run[0]), run[1..], s', begun + more);
      assert begun + more + Begun(l, Do(l, s, run[0]), run[1..]) == begun + Begun(l, s, run);
    }
  }

  /** A caller that reports its work was not collected began to wait at least the pickup window before. */
  lemma UncollectedWaited(l: Limits, inTurn: bool, run: seq<Step>, s: State, h: Handle)
    requires Runs(l, inTurn, Init(), run, s)
    requires h in s.callers.phase && s.callers.phase[h] == Returned(NotCollected)
    ensures exists g :: g in Begun(l, Init(), run) && g.h == h && g.at + l.pickup <= s.now
  {
    hide Runs, Begun;
    PickupRun(l, inTurn, Init(), run, s, {});
    assert {} + Begun(l, Init(), run) == Begun(l, Init(), run);
    var g :| g in Begun(l, Init(), run) && g.h == h && g.at <= s.now - l.pickup;
  }

  // ----------------------------------------------------------------- results

  datatype Report = Report(run: RunId, result: int)

  /** The results the agents reported in a run. */
  ghost function Reports(run: seq<Step>): set<Report> {
    set step | step in run && step.Finish? :: Report(step.run, step.result)
  }

  /** Every result under way or delivered is one that was reported for that run. */
  ghost predicate ReportInv(s: State, reports: set<Report>) {
    && TableInv(s)
    && (forall h :: h in s.callers.posted ==> Report(s.table.runs[h].run, s.callers.posted[h]) in reports)
    && (forall h, x :: h in s.callers.mail && x in s.callers.mail[h] ==> Report(s.table.runs[h].run, x) in reports)
    && (forall h :: h in s.callers.phase && (s.callers.phase[h].Leaving? || s.callers.phase[h].Returned?) ==>
          s.callers.phase[h].why.Finished? ==> Report(s.table.runs[h].run, s.callers.phase[h].why.result) in reports)
  }

  lemma ReportMore(s: State, reports: set<Report>, more: set<Report>)
    requires ReportInv(s, reports)
    ensures ReportInv(s, reports + more)
  {
  }

  lemma ReportQuiet(s: State, s': State, reports: set<Report>)
    requires ReportInv(s, reports) && SameStanding(s, s')
    ensures ReportInv(s', reports)
  {
  }

  lemma ReportEnds(s: State, run: RunId, reports: set<Report>)
    requires ReportInv(s, reports)
    ensures ReportInv(Ended(s, run), reports)
  {
  }

  lemma ReportMoves(s: State, h: Handle, p: Phase, reports: set<Report>)
    requires ReportInv(s, reports) && h in s.callers.phase
    requires (p.Leaving? || p.Returned?) && p.why.Finished? ==> Report(s.table.runs[h].run, p.why.result) in reports
    ensures ReportInv(ToPhase(s, h, p), reports)
  {
  }

  lemma ReportPosts(l: Limits, s: State, run: RunId, result: int, reports: set<Report>)
    requires ReportInv(s, reports)
    ensures ReportInv(Do(l, s, Finish(run, result)), reports + {Report(run, result)})
  {
    ReportMore(s, reports, {Report(run, result)});
    ReportEnds(s, run, reports + {Report(run, result)});
  }

  lemma ReportSends(l: Limits, s: State, h: Handle, reports: set<Report>)
    requires ReportInv(s, reports) && Enabled(s, Send(h))
    ensures ReportInv(Do(l, s, Send(h)), reports)
  {
  }

  lemma ReportArrives(l: Limits, s: State, h: Handle, reports: set<Report>)
    requires ReportInv(s, reports) && Enabled(s, Receive(h))
    ensures ReportInv(Do(l, s, Receive(h)), reports)
  {
    var box := s.callers.mail[h];
    assert box[0] in box && forall x :: x in box[1..] ==> x in box;
  }

  lemma ReportStarts(l: Limits, s: State, h: Handle, agent: AgentId, run: RunId, reports: set<Report>)
    requires ReportInv(s, reports) && Enabled(s, Start(h, agent, run))
    ensures ReportInv(Do(l, s, Start(h, agent, run)), reports)
  {
    StartKeepsTable(l, s, h, agent, run);
  }

  lemma StartKeepsTable(l: Limits, s: State, h: Handle, agent: AgentId, run: RunId)
    requires TableInv(s) && Enabled(s, Start(h, agent, run))
    ensures TableInv(Do(l, s, Start(h, agent, run)))
  {
  }

  lemma ReportStep(l: Limits, s: State, step: Step, reports: set<Report>)
    requires Linked(s.table) && ReportInv(s, reports) && Enabled(s, step)
    ensures ReportInv(Do(l, s, step), reports + Reports([step]))
  {
    hide ReportInv, TableInv, Do;
    if step.Finish? {
      assert Reports([step]) == {Report(step.run, step.result)};
      ReportPosts(l, s, step.run, step.result, reports);
    } else {
      assert Reports([step]) == {} && reports + {} == reports;
      ReportOther(l, s, step, reports);
    }
  }

  lemma ReportOther(l: Limits, s: State, step: Step, reports: set<Report>)
    requires Linked(s.table) && ReportInv(s, reports) && Enabled(s, step) && !step.Finish?
    ensures ReportInv(Do(l, s, step), reports)
  {
    hide ReportInv, TableInv;
    if step.Tick? || step.Heartbeat? || step.Update? || step.Note? {
      QuietSteps(l, s, step);
      ReportQuiet(s, Do(l, s, step), reports);
    } else if MovesOn(s, step) {
      ReportOnward(l, s, step, reports);
    } else {
      match step
      case Start(h, agent, run) => ReportStarts(l, s, h, agent, run, reports);
      case Send(h) => ReportSends(l, s, h, reports);
      case Receive(h) => ReportArrives(l, s, h, reports);
      case Leave(h) => ReportLeaves(l, s, h, reports);
    }
  }

  lemma ReportLeaves(l: Limits, s: State, h: Handle, reports: set<Report>)
    requires ReportInv(s, reports) && Enabled(s, Leave(h))
    ensures ReportInv(Do(l, s, Leave(h)), reports)
  {
    ReportEnds(s, s.table.runs[h].run, reports);
    ReportMoves(Ended(s, s.table.runs[h].run), h, Returned(s.callers.phase[h].why), reports);
  }

  lemma ReportOnward(l: Limits, s: State, step: Step, reports: set<Report>)
    requires Linked(s.table) && ReportInv(s, reports) && Enabled(s, step) && MovesOn(s, step)
    ensures ReportInv(Do(l, s, step), reports)
  {
    hide ReportInv;
    match step
    case Begin(h) => ReportMoves(s, h, Unpicked(s.now + l.pickup), reports);
    case Cancel(h) => ReportMoves(s, h, Leaving(Cancelled), reports);
    case PickupExpires(h) => ReportMoves(s, h, Leaving(NotCollected), reports);
    case SeePicked(h) => ReportMoves(s, h, Watching, reports);
    case Check(h) =>
      var silent := Silence(s.table, s.table.runs[h].run, s.now);
      if silent.Some? {
        ReportMoves(s, h, Leaving(Stalled(s.now - silent.value, s.now)), reports);
      }
  }

  lemma ReportsFirst(run: seq<Step>)
    requires run != []
    ensures Reports(run) == Reports([run[0]]) + Reports(run[1..])
  {
    assert run == [run[0]] + run[1..];
  }

  lemma {:induction false} ReportRun(l: Limits, inTurn: bool, s: State, run: seq<Step>, s': State, reports: set<Report>)
    requires Linked(s.table) && ReportInv(s, reports) && Runs(l, inTurn, s, run, s')
    ensures ReportInv(s', reports + Reports(run))
    decreases run
  {
    hide Do, Enabled, ReportInv, InTurn;
    if run == [] {
      assert reports + Reports([]) == reports;
    } else {
      hide Reports;
      ReportStep(l, s, run[0], reports);
      ReportRun(l, inTurn, Do(l, s, run[0]), run[1..], s', reports + Reports([run[0]]));
      ReportsFirst(run);
      assert reports + Reports([run[0]]) + Reports(run[1..]) == reports + Reports(run);
    }
  }

  /** A caller that returns a result returns one that an agent reported for the run it waited for. */
  lemma ResultsAreReported(l: Limits, inTurn: bool, run: seq<Step>, s: State, h: Handle)
    requires Runs(l, inTurn, Init(), run, s)
    requires h in s.callers.phase && s.callers.phase[h].Returned? && s.callers.phase[h].why.Finished?
    ensures h in s.table.runs && Finish(s.table.runs[h].run, s.callers.phase[h].why.result) in run
  {
    hide Runs;
    ReportRun(l, inTurn, Init(), run, s, {});
    var report := Report(s.table.runs[h].run, s.callers.phase[h].why.result);
    assert report in {} + Reports(run);
  }
}
