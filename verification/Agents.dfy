/**
 * The agent manager's tables: queued dispatches, active runs and their states,
 * and the critical sections that change them.
 */
module Agents {
  import opened Base

  type AgentId = string
  type RunId = string

  /** A run state object.  A retried run has a new one under the same run id. */
  type Handle = nat

  /** A queued work item; `ticket` tells apart items that look alike. */
  datatype Dispatch = Dispatch(ticket: nat, run: RunId, update: bool)

  datatype RunState = RunState(run: RunId, agent: AgentId, closed: bool, picked: bool, progress: int)

  datatype Table = Table(pending: map<AgentId, seq<Dispatch>>, active: map<RunId, Handle>, runs: map<Handle, RunState>)

  ghost predicate Linked(t: Table) {
    forall r :: r in t.active ==> t.active[r] in t.runs
  }

  function Queue(t: Table, agent: AgentId): seq<Dispatch> {
    if agent in t.pending then t.pending[agent] else []
  }

  // ------------------------------------------------------- what the steps mean

  function Enqueued(t: Table, agent: AgentId, d: Dispatch, h: Handle, now: int): Table {
    Table(t.pending[agent := Queue(t, agent) + [d]], t.active[d.run := h],
          t.runs[h := RunState(d.run, agent, false, false, now)])
  }

  /** The active run states a list of dispatches belongs to. */
  ghost function Owners(active: map<RunId, Handle>, q: seq<Dispatch>): set<Handle> {
    set d | d in q && d.run in active :: active[d.run]
  }

  ghost function Touched(runs: map<Handle, RunState>, hs: set<Handle>, now: int): map<Handle, RunState> {
    map h | h in runs :: if h in hs then runs[h].(progress := now, picked := true) else runs[h]
  }

  ghost function HandedOut(t: Table, agent: AgentId, now: int): Table {
    var q := Queue(t, agent);
    if q == [] then t else Table(t.pending - {agent}, t.active, Touched(t.runs, Owners(t.active, q), now))
  }

  ghost predicate Busy(t: Table, agent: AgentId)
    requires Linked(t)
  {
    exists r :: r in t.active && t.runs[t.active[r]].agent == agent && !t.runs[t.active[r]].closed
  }

  /** A queue without its updates. */
  function WithoutUpdates(q: seq<Dispatch>): seq<Dispatch> {
    if q == [] then [] else (if q[0].update then [] else [q[0]]) + WithoutUpdates(q[1..])
  }

  function UpdateQueued(t: Table, agent: AgentId, d: Dispatch): Table {
    t.(pending := t.pending[agent := WithoutUpdates(Queue(t, agent)) + [d.(update := true)]])
  }

  function Noted(t: Table, run: RunId, now: int): Table
    requires Linked(t)
  {
    if run in t.active then
      var h := t.active[run];
      t.(runs := t.runs[h := t.runs[h].(progress := now)])
    else t
  }

  /** How long a run's active state has shown no sign of life; None when no state is active. */
  function Silence(t: Table, run: RunId, now: int): Option<int>
    requires Linked(t)
  {
    if run in t.active then Some(now - t.runs[t.active[run]].progress) else None
  }

  /** The run state is closed and no longer active. */
  function Closed(t: Table, run: RunId): Table
    requires Linked(t)
  {
    if run in t.active then
      var h := t.active[run];
      t.(runs := t.runs[h := t.runs[h].(closed := true)], active := t.active - {run})
    else t
  }

  /** The run state `finish` would close. */
  function Finishing(t: Table, run: RunId): Option<Handle>
    requires Linked(t)
  {
    if run in t.active && !t.runs[t.active[run]].closed then Some(t.active[run]) else None
  }

  lemma {:induction false} WithoutUpdatesAppend(q: seq<Dispatch>, d: Dispatch)
    ensures WithoutUpdates(q + [d]) == WithoutUpdates(q) + (if d.update then [] else [d])
  {
    if q == [] {
      assert q + [d] == [d];
      assert WithoutUpdates([d]) == (if d.update then [] else [d]) + WithoutUpdates([]);
    } else {
      var rest := q[1..];
      assert (q + [d])[1..] == rest + [d] && (q + [d])[0] == q[0];
      WithoutUpdatesAppend(rest, d);
    }
  }

  // ----------------------------------------------------------------- the code

  class Manager {
    var pending: map<AgentId, seq<Dispatch>>
    var active: map<RunId, Handle>
    var runs: map<Handle, RunState>

    ghost function Value(): Table
      reads this
    {
      Table(pending, active, runs)
    }

    constructor ()
      ensures Value() == Table(map[], map[], map[])
    {
      pending, active, runs := map[], map[], map[];
    }

    method Enqueue(agent: AgentId, d: Dispatch, h: Handle, now: int)
      modifies this
      ensures Value() == Enqueued(old(Value()), agent, d, h, now)
    {
      runs := runs[h := RunState(d.run, agent, false, false, now)];
      active := active[d.run := h];
      pending := pending[agent := (if agent in pending then pending[agent] else []) + [d]];
    }

    method Heartbeat(agent: AgentId, now: int) returns (q: seq<Dispatch>)
      requires Linked(Value())
      modifies this
      ensures q == Queue(old(Value()), agent)
      ensures Value() == HandedOut(old(Value()), agent, now)
    {
      q := if agent in pending then pending[agent] else [];
      if |q| == 0 {
        return;
      }
      pending := pending - {agent};
      for i := 0 to |q|
        invariant pending == old(pending) - {agent} && active == old(active)
        invariant runs == Touched(old(runs), Owners(active, q[..i]), now)
      {
        var d := q[i];
        TouchOne(old(runs), active, q, i, now);
        if d.run in active {
          var h := active[d.run];
          runs := runs[h := runs[h].(progress := now, picked := true)];
        }
      }
      assert q[..|q|] == q;
    }

    method BusyLocked(agent: AgentId) returns (busy: bool)
      requires Linked(Value())
      ensures busy <==> Busy(Value(), agent)
    {
      var rest := active.Keys;
      while rest != {}
        invariant rest <= active.Keys
        invariant forall r :: r in active.Keys - rest ==> runs[active[r]].agent == agent ==> runs[active[r]].closed
        decreases rest
      {
        var r :| r in rest;
        var rs := runs[active[r]];
        if rs.agent == agent && !rs.closed {
          return true;
        }
        rest := rest - {r};
      }
      return false;
    }

    method QueueUpdate(agent: AgentId, d: Dispatch) returns (accepted: bool)
      requires Linked(Value())
      modifies this
      ensures accepted <==> !Busy(old(Value()), agent)
      ensures Value() == if accepted then UpdateQueued(old(Value()), agent, d) else old(Value())
    {
      var item := d.(update := true);
      var busy := BusyLocked(agent);
      if busy {
        return false;
      }
      var q := if agent in pending then pending[agent] else [];
      var kept: seq<Dispatch> := [];
      for i := 0 to |q|
        invariant kept == WithoutUpdates(q[..i]) && Value() == old(Value())
      {
        assert q[..i + 1] == q[..i] + [q[i]];
        WithoutUpdatesAppend(q[..i], q[i]);
        if !q[i].update {
          kept := kept + [q[i]];
        }
      }
      assert q[..|q|] == q;
      pending := pending[agent := kept + [item]];
      return true;
    }

    method NoteProgress(run: RunId, now: int)
      requires Linked(Value())
      modifies this
      ensures Value() == Noted(old(Value()), run, now)
    {
      if run in active {
        var h := active[run];
        runs := runs[h := runs[h].(progress := now)];
      }
    }

    method SinceProgress(run: RunId, now: int) returns (silent: int, isActive: bool)
      requires Linked(Value())
      ensures Silence(Value(), run, now) == if isActive then Some(silent) else None
      ensures !isActive ==> silent == 0
    {
      if run !in active {
        return 0, false;
      }
      return now - runs[active[run]].progress, true;
    }

    /** The critical section of finish; the result is sent afterwards, outside the lock. */
    method FinishLocked(run: RunId) returns (rs: Option<Handle>)
      requires Linked(Value())
      modifies this
      ensures rs == Finishing(old(Value()), run)
      ensures Value() == if rs.Some? then Closed(old(Value()), run) else old(Value())
    {
      if run !in active || runs[active[run]].closed {
        return None;
      }
      var h := active[run];
      runs := runs[h := runs[h].(closed := true)];
      active := active - {run};
      return Some(h);
    }

    method Abandon(run: RunId)
      requires Linked(Value())
      modifies this
      ensures Value() == Closed(old(Value()), run)
    {
      if run in active {
        var h := active[run];
        runs := runs[h := runs[h].(closed := true)];
        active := active - {run};
      }
    }
  }

  lemma TouchOne(runs: map<Handle, RunState>, active: map<RunId, Handle>, q: seq<Dispatch>, i: nat, now: int)
    requires i < |q|
    requires forall r :: r in active ==> active[r] in runs
    ensures var before := Touched(runs, Owners(active, q[..i]), now);
            Touched(runs, Owners(active, q[..i + 1]), now)
              == if q[i].run in active then
                   var h := active[q[i].run];
                   before[h := before[h].(progress := now, picked := true)]
                 else before
  {
    assert q[..i + 1] == q[..i] + [q[i]];
    assert Owners(active, q[..i + 1]) == Owners(active, q[..i]) + (if q[i].run in active then {active[q[i].run]} else {});
  }
}
