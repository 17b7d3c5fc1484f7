/**
 * The agent run protocol: the scheduler's waiting callers and the agents'
 * requests interleave on the manager's tables, one critical section at a time.
 */
module AgentProtocol {
  import opened Base
  import opened Agents

  /** How a waiting caller leaves; a stall carries the last sign of life and the moment it was looked at. */
  datatype Outcome = Finished(result: int) | Cancelled | NotCollected | Stalled(last: int, at: int)

  /** Where a waiting caller stands. */
  datatype Phase =
    | Entering
    | Unpicked(deadline: int)
    | Watching
    | Leaving(why: Outcome)
    | Returned(why: Outcome)

  /**
   * `posted` are results past finish's critical section and not sent yet; `mail`
   * are the run states' result channels, of capacity one.
   */
  datatype Callers = Callers(phase: map<Handle, Phase>, posted: map<Handle, int>, mail: map<Handle, seq<int>>)

  /** A run state showed a sign of life at some moment. */
  datatype Sign = Sign(h: Handle, at: int)

  /** What has happened: run states ended, results sent, dispatches handed out, signs of life. */
  datatype History = History(ended: seq<Handle>, sent: seq<Handle>, handed: seq<nat>, signs: set<Sign>)

  datatype State = State(table: Table, callers: Callers, history: History, now: int, next: nat)

  datatype Limits = Limits(pickup: nat, stall: nat)

  datatype Step =
    | Tick(d: nat)
    | Start(h: Handle, agent: AgentId, run: RunId)
    | Begin(h: Handle)
    | Heartbeat(agent: AgentId)
    | Update(agent: AgentId)
    | Note(run: RunId)
    | Finish(run: RunId, result: int)
    | Send(h: Handle)
    | Receive(h: Handle)
    | Cancel(h: Handle)
    | PickupExpires(h: Handle)
    | SeePicked(h: Handle)
    | Check(h: Handle)
    | Leave(h: Handle)

  ghost function Init(): State {
    State(Table(map[], map[], map[]), Callers(map[], map[], map[]), History([], [], [], {}), 0, 0)
  }

  ghost predicate At(s: State, h: Handle, p: Phase) {
    h in s.callers.phase && s.callers.phase[h] == p
  }

  ghost predicate Waiting(s: State, h: Handle) {
    h in s.callers.phase && (s.callers.phase[h].Unpicked? || s.callers.phase[h].Watching?)
  }

  ghost predicate Enabled(s: State, step: Step)
  {
    match step
    case Tick(_) => true
    case Start(h, _, _) => h !in s.table.runs
    case Begin(h) => At(s, h, Entering)
    case Heartbeat(_) => true
    case Update(_) => true
    case Note(_) => true
    case Finish(_, _) => true
    case Send(h) => h in s.callers.posted && h in s.callers.mail && |s.callers.mail[h]| < 1
    case Receive(h) => Waiting(s, h) && h in s.callers.mail && s.callers.mail[h] != []
    case Cancel(h) => Waiting(s, h)
    case PickupExpires(h) => h in s.callers.phase && s.callers.phase[h].Unpicked? && s.now >= s.callers.phase[h].deadline
    case SeePicked(h) => h in s.callers.phase && s.callers.phase[h].Unpicked? && h in s.table.runs && s.table.runs[h].picked
    case Check(h) => At(s, h, Watching) && h in s.table.runs
    case Leave(h) => h in s.callers.phase && s.callers.phase[h].Leaving? && h in s.table.runs
  }

  /** A run's attempts follow one another: no new one while a caller still waits for the last. */
  ghost predicate InTurn(s: State, step: Step) {
    step.Start? ==>
      forall h :: h in s.callers.phase && h in s.table.runs && s.table.runs[h].run == step.run ==> s.callers.phase[h].Returned?
  }

  ghost function Tickets(q: seq<Dispatch>): (r: seq<nat>)
    ensures |r| == |q| && forall i :: 0 <= i < |q| ==> r[i] == q[i].ticket
  {
    seq(|q|, i requires 0 <= i < |q| => q[i].ticket)
  }

  ghost function Signed(signs: set<Sign>, hs: set<Handle>, now: int): set<Sign> {
    signs + set h | h in hs :: Sign(h, now)
  }

  ghost function Entered(c: Callers, h: Handle): Callers {
    Callers(c.phase[h := Entering], c.posted, c.mail[h := []])
  }

  ghost function ToPhase(s: State, h: Handle, p: Phase): State {
    s.(callers := s.callers.(phase := s.callers.phase[h := p]))
  }

  /** The run state of a run is closed, whoever closed it. */
  ghost function Ended(s: State, run: RunId): State
    requires Linked(s.table)
  {
    s.(table := Closed(s.table, run),
       history := if run in s.table.active then s.history.(ended := s.history.ended + [s.table.active[run]]) else s.history)
  }

  ghost function Do(l: Limits, s: State, step: Step): State
    requires Linked(s.table) && Enabled(s, step)
  {
    match step
    case Tick(d) => s.(now := s.now + d)
    case Start(h, agent, run) =>
      s.(table := Enqueued(s.table, agent, Dispatch(s.next, run, false), h, s.now),
         callers := Entered(s.callers, h),
         history := s.history.(signs := Signed(s.history.signs, {h}, s.now)),
         next := s.next + 1)
    case Begin(h) => ToPhase(s, h, Unpicked(s.now + l.pickup))
    case Heartbeat(agent) =>
      var q := Queue(s.table, agent);
      s.(table := HandedOut(s.table, agent, s.now),
         history := s.history.(handed := s.history.handed + Tickets(q),
                               signs := Signed(s.history.signs, Owners(s.table.active, q), s.now)))
    case Update(agent) =>
      if Busy(s.table, agent) then s
      else s.(table := UpdateQueued(s.table, agent, Dispatch(s.next, "", true)), next := s.next + 1)
    case Note(run) =>
      if run in s.table.active then
        s.(table := Noted(s.table, run, s.now),
           history := s.history.(signs := Signed(s.history.signs, {s.table.active[run]}, s.now)))
      else s
    case Finish(run, result) =>
      var rs := Finishing(s.table, run);
      if rs.None? then s
      else Ended(s, run).(callers := s.callers.(posted := s.callers.posted[rs.value := result]))
    case Send(h) =>
      s.(callers := s.callers.(posted := s.callers.posted - {h},
                               mail := s.callers.mail[h := s.callers.mail[h] + [s.callers.posted[h]]]),
         history := s.history.(sent := s.history.sent + [h]))
    case Receive(h) =>
      var box := s.callers.mail[h];
      ToPhase(s, h, Returned(Finished(box[0]))).(callers :=
        s.callers.(phase := s.callers.phase[h := Returned(Finished(box[0]))], mail := s.callers.mail[h := box[1..]]))
    case Cancel(h) => ToPhase(s, h, Leaving(Cancelled))
    case PickupExpires(h) => ToPhase(s, h, Leaving(NotCollected))
    case SeePicked(h) => ToPhase(s, h, Watching)
    case Check(h) =>
      var silent := Silence(s.table, s.table.runs[h].run, s.now);
      if silent.Some? && silent.value >= l.stall then ToPhase(s, h, Leaving(Stalled(s.now - silent.value, s.now))) else s
    case Leave(h) => ToPhase(Ended(s, s.table.runs[h].run), h, Returned(s.callers.phase[h].why))
  }

  // ------------------------------------------------------------- invariants

  /** Active run states are open, filed under their own run, and known to a caller. */
  ghost predicate TableInv(s: State) {
    && Linked(s.table)
    && (forall r :: r in s.table.active ==> var rs := s.table.runs[s.table.active[r]]; rs.run == r && !rs.closed)
    && s.callers.phase.Keys == s.table.runs.Keys
    && s.callers.mail.Keys == s.table.runs.Keys
    && s.callers.posted.Keys <= s.table.runs.Keys
  }

  /** A run state is closed exactly when it has ended, and what it sent it sent once, after that. */
  ghost predicate OnceInv(s: State)
  {
    && TableInv(s)
    && Distinct(s.history.ended)
    && Distinct(s.history.sent)
    && (forall h :: h in s.history.ended <==> h in s.table.runs && s.table.runs[h].closed)
    && (forall h :: h in s.history.sent ==> h in s.history.ended && h !in s.callers.posted)
    && (forall h :: h in s.callers.posted ==> h in s.history.ended && s.callers.mail[h] == [])
    && (forall h :: h in s.callers.mail ==> |s.callers.mail[h]| <= 1 && (s.callers.mail[h] != [] ==> h in s.history.sent))
  }

  ghost predicate DistinctTickets(q: seq<Dispatch>) {
    forall i, j :: 0 <= i < j < |q| ==> q[i].ticket != q[j].ticket
  }

  ghost predicate AtMostOneUpdate(q: seq<Dispatch>) {
    forall i, j :: 0 <= i < j < |q| ==> !(q[i].update && q[j].update)
  }

  /** Queued tickets are all different, none was handed out, and each queue holds at most one update. */
  ghost predicate QueueInv(pending: map<AgentId, seq<Dispatch>>, handed: seq<nat>, next: nat) {
    && Distinct(handed)
    && (forall t :: t in handed ==> t < next)
    && (forall a :: a in pending ==> DistinctTickets(pending[a]) && AtMostOneUpdate(pending[a]))
    && (forall a, d :: a in pending && d in pending[a] ==> d.ticket < next && d.ticket !in handed)
    && (forall a, d, b, e ::
          (a in pending && d in pending[a] && b in pending && e in pending[b] && a != b) ==> d.ticket != e.ticket)
  }

  /** A stall that a caller reports was a real silence of its run state. */
  ghost predicate RealSilence(l: Limits, signs: set<Sign>, h: Handle, why: Outcome) {
    why.Stalled? ==>
      && Sign(h, why.last) in signs
      && why.at - why.last >= l.stall
      && (forall t :: Sign(h, t) in signs ==> t <= why.last || t >= why.at)
  }

  /** A run state's progress is its latest sign of life. */
  ghost predicate SignInv(l: Limits, s: State) {
    && (forall h :: h in s.table.runs ==> Sign(h, s.table.runs[h].progress) in s.history.signs)
    && (forall g :: g in s.history.signs ==> g.h in s.table.runs && g.at <= s.table.runs[g.h].progress <= s.now)
    && (forall h :: h in s.callers.phase && (s.callers.phase[h].Leaving? || s.callers.phase[h].Returned?) ==>
          (s.callers.phase[h].why.Stalled? ==> s.callers.phase[h].why.at <= s.now)
          && RealSilence(l, s.history.signs, h, s.callers.phase[h].why))
  }

  ghost predicate Unreturned(s: State, h: Handle) {
    h in s.table.runs && h in s.callers.phase && !s.callers.phase[h].Returned?
  }

  /** The caller's run state is active, or its result is on the way. */
  ghost predicate Provided(s: State, h: Handle)
    requires TableInv(s) && h in s.table.runs
  {
    var r := s.table.runs[h].run;
    if s.table.runs[h].closed then h in s.callers.posted || s.callers.mail[h] != []
    else r in s.table.active && s.table.active[r] == h
  }

  ghost predicate OneAttempt(s: State) {
    forall h, k :: (Unreturned(s, h) && Unreturned(s, k) && s.table.runs[h].run == s.table.runs[k].run) ==> h == k
  }

  /** A run has one waiting caller at most, active run states are awaited, and every waiting caller is provided for. */
  ghost predicate OwnInv(s: State) {
    && TableInv(s)
    && OneAttempt(s)
    && (forall r :: r in s.table.active ==> Unreturned(s, s.table.active[r]))
    && (forall h :: Unreturned(s, h) ==> Provided(s, h))
  }
}
