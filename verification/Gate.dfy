/**
 * The resizable concurrency gate: its critical sections as the code runs them,
 * and the protocol they form with callers that wait, cancel and release.
 */
module Gate {
  import opened Base

  /** A caller's wait channel. */
  type Id = nat

  datatype Core = Core(limit: nat, active: nat, waiters: seq<Id>)

  datatype Woken = Woken(core: Core, granted: seq<Id>)

  /** Hands free slots to waiters, first come first served. */
  function Wake(c: Core): Woken
    decreases |c.waiters|
  {
    if c.active < c.limit && c.waiters != [] then
      var rest := Wake(c.(active := c.active + 1, waiters := c.waiters[1..]));
      Woken(rest.core, [c.waiters[0]] + rest.granted)
    else Woken(c, [])
  }

  function Resize(c: Core, n: int): Woken {
    Wake(c.(limit := if n < 1 then 1 else n))
  }

  function Give(c: Core): Woken {
    Wake(c.(active := if c.active > 0 then c.active - 1 else 0))
  }

  /** The queue without one caller. */
  function Without(s: seq<Id>, id: Id): seq<Id> {
    if s == [] then [] else if s[0] == id then s[1..] else [s[0]] + Without(s[1..], id)
  }

  lemma {:induction false} WakeShape(c: Core)
    ensures var w := Wake(c);
            && c.waiters == w.granted + w.core.waiters
            && w.core.limit == c.limit
            && w.core.active == c.active + |w.granted|
            && (w.granted != [] ==> w.core.active <= c.limit)
            && (w.core.waiters != [] ==> w.core.active >= c.limit)
    decreases |c.waiters|
  {
    if c.active < c.limit && c.waiters != [] {
      WakeShape(c.(active := c.active + 1, waiters := c.waiters[1..]));
    }
  }

  /** A new limit takes effect at once, whatever is out: never below one, and the free slots it makes go to the front of the queue. */
  lemma ResizeShape(c: Core, n: int)
    ensures var w := Resize(c, n);
            && w.core.limit == (if n < 1 then 1 else n)
            && c.waiters == w.granted + w.core.waiters && w.core.active == c.active + |w.granted|
            && (w.core.waiters == [] || w.core.active >= w.core.limit)
            && (w.granted == [] || w.core.active <= w.core.limit)
  {
    WakeShape(c.(limit := if n < 1 then 1 else n));
  }

  /** A slot given back is one slot fewer out, before the queue is served. */
  lemma GiveShape(c: Core)
    ensures var w := Give(c);
            && w.core.limit == c.limit
            && c.waiters == w.granted + w.core.waiters
            && w.core.active == (if c.active > 0 then c.active - 1 else 0) + |w.granted|
            && (w.core.waiters == [] || w.core.active >= w.core.limit)
            && (w.granted == [] || w.core.active <= w.core.limit)
  {
    WakeShape(c.(active := if c.active > 0 then c.active - 1 else 0));
  }

  /** The callers in a list. */
  function Ids(s: seq<Id>): set<Id> {
    set id | id in s
  }

  lemma NoIds()
    ensures Ids([]) == {}
  {
  }

  lemma OneMoreId(s: seq<Id>, id: Id)
    ensures Ids(s + [id]) == Ids(s) + {id}
  {
  }

  lemma WakeOne(c: Core)
    requires c.active < c.limit && c.waiters != []
    ensures var rest := Wake(c.(active := c.active + 1, waiters := c.waiters[1..]));
            Wake(c) == Woken(rest.core, [c.waiters[0]] + rest.granted)
  {
  }

  lemma WakeNone(c: Core)
    requires c.active >= c.limit || c.waiters == []
    ensures Wake(c) == Woken(c, [])
  {
  }

  // ----------------------------------------------------------------- the code

  /** The gate; `closed` are the channels that have been closed, which is how a grant reaches its caller. */
  class ResizableGate {
    var limit: nat
    var active: nat
    var waiters: seq<Id>
    var closed: set<Id>

    ghost function Value(): Core
      reads this
    {
      Core(limit, active, waiters)
    }

    constructor (n: int)
      ensures Value() == Core(if n < 1 then 1 else n, 0, []) && closed == {}
    {
      limit := if n < 1 then 1 else n;
      active, waiters, closed := 0, [], {};
    }

    method WakeLocked()
      modifies this
      ensures Value() == Wake(old(Value())).core
      ensures closed == old(closed) + Ids(Wake(old(Value())).granted)
    {
      hide Wake, Ids;
      ghost var granted: seq<Id> := [];
      NoIds();
      while active < limit && waiters != []
        invariant Wake(old(Value())).core == Wake(Value()).core
        invariant Wake(old(Value())).granted == granted + Wake(Value()).granted
        invariant closed == old(closed) + Ids(granted)
        decreases |waiters|
      {
        WakeOne(Value());
        var ch := waiters[0];
        OneMoreId(granted, ch);
        waiters := waiters[1..];
        active := active + 1;
        closed := closed + {ch};
        assert granted + ([ch] + Wake(Value()).granted) == granted + [ch] + Wake(Value()).granted;
        granted := granted + [ch];
      }
      WakeNone(Value());
      assert granted + [] == granted;
    }

    method SetLimit(n: int)
      modifies this
      ensures Value() == Resize(old(Value()), n).core
      ensures closed == old(closed) + Ids(Resize(old(Value()), n).granted)
      ensures limit == (if n < 1 then 1 else n) && (waiters == [] || active >= limit)
    {
      ResizeShape(Value(), n);
      limit := if n < 1 then 1 else n;
      WakeLocked();
    }

    /** The first half of Acquire: a slot at once, or a place in the queue. */
    method Enter(ch: Id) returns (at_once: bool)
      modifies this
      ensures at_once <==> old(active) < old(limit)
      ensures Value() == if at_once then old(Value()).(active := old(active) + 1) else old(Value()).(waiters := old(waiters) + [ch])
      ensures closed == old(closed)
    {
      if active < limit {
        active := active + 1;
        return true;
      }
      waiters := waiters + [ch];
      return false;
    }

    /** The cancelled half of Acquire: leave the queue, or learn that the slot was already granted. */
    method Leave(ch: Id) returns (granted: bool)
      modifies this
      ensures granted <==> ch !in old(waiters)
      ensures Value() == old(Value()).(waiters := Without(old(waiters), ch))
      ensures closed == old(closed)
    {
      granted := true;
      var i := 0;
      WithoutMissing(waiters, ch);
      while i < |waiters|
        invariant 0 <= i <= |waiters| && waiters == old(waiters)
        invariant ch !in waiters[..i]
      {
        if waiters[i] == ch {
          WithoutAt(waiters, i);
          waiters := waiters[..i] + waiters[i + 1..];
          granted := false;
          return;
        }
        i := i + 1;
      }
    }

    method Release()
      modifies this
      ensures Value() == Give(old(Value())).core
      ensures closed == old(closed) + Ids(Give(old(Value())).granted)
      ensures limit == old(limit) && (waiters == [] || active >= limit)
    {
      GiveShape(Value());
      if active > 0 {
        active := active - 1;
      }
      WakeLocked();
    }
  }

  lemma {:induction false} WithoutAt(s: seq<Id>, i: nat)
    requires i < |s| && s[i] !in s[..i]
    ensures Without(s, s[i]) == s[..i] + s[i + 1..]
    decreases |s|
  {
    if i > 0 {
      assert s[0] in s[..i];
      assert s[1..][..i - 1] == s[1..i];
      assert s[i] !in s[1..i];
      WithoutAt(s[1..], i - 1);
    }
  }

  lemma {:induction false} WithoutMissing(s: seq<Id>, id: Id)
    ensures id !in s ==> Without(s, id) == s
  {
    if s != [] {
      WithoutMissing(s[1..], id);
    }
  }

  // ------------------------------------------------------------- the protocol

  /**
   * The gate with its callers: those holding a slot, those whose channel is
   * closed and who have not looked yet, and those that were cancelled after the
   * grant and owe the slot back.  `arrivals`, `served` and `withdrawn` are the
   * history of the queue.
   */
  datatype State = State(core: Core, holders: set<Id>, granted: set<Id>, owing: set<Id>,
                         arrivals: seq<Id>, served: seq<Id>, withdrawn: set<Id>)

  datatype Step =
    | Acquire(id: Id)
    | Return(id: Id)
    | Cancel(id: Id)
    | GiveBack(id: Id)
    | Release(id: Id)
    | SetLimit(n: int)

  ghost function Init(limit: int): State {
    State(Core(if limit < 1 then 1 else limit, 0, []), {}, {}, {}, [], [], {})
  }

  ghost predicate Enabled(s: State, step: Step) {
    match step
    case Acquire(id) => id !in s.holders + s.granted + s.owing && id !in s.arrivals
    case Return(id) => id in s.granted
    case Cancel(id) => id in s.granted || id in s.core.waiters
    case GiveBack(id) => id in s.owing
    case Release(id) => id in s.holders
    case SetLimit(_) => true
  }

  ghost function Serve(s: State, w: Woken): State {
    s.(core := w.core, granted := s.granted + Ids(w.granted), served := s.served + w.granted)
  }

  ghost function Do(s: State, step: Step): State {
    match step
    case Acquire(id) =>
      if s.core.active < s.core.limit then
        s.(core := s.core.(active := s.core.active + 1), holders := s.holders + {id})
      else s.(core := s.core.(waiters := s.core.waiters + [id]), arrivals := s.arrivals + [id])
    case Return(id) => s.(granted := s.granted - {id}, holders := s.holders + {id})
    case Cancel(id) =>
      if id in s.core.waiters then
        s.(core := s.core.(waiters := Without(s.core.waiters, id)), withdrawn := s.withdrawn + {id})
      else s.(granted := s.granted - {id}, owing := s.owing + {id})
    case GiveBack(id) => Serve(s.(owing := s.owing - {id}), Give(s.core))
    case Release(id) => Serve(s.(holders := s.holders - {id}), Give(s.core))
    case SetLimit(n) => Serve(s, Resize(s.core, n))
  }

  /** The queue's history without those who gave up. */
  ghost function Patient(arrivals: seq<Id>, withdrawn: set<Id>): seq<Id> {
    if arrivals == [] then [] else
      (if arrivals[0] in withdrawn then [] else [arrivals[0]]) + Patient(arrivals[1..], withdrawn)
  }

  ghost predicate Inv(s: State) {
    && s.core.limit >= 1
    && s.holders !! s.granted !! s.owing
    && s.core.active == |s.holders| + |s.granted| + |s.owing|
    && (s.core.waiters != [] ==> s.core.active >= s.core.limit)
    && Distinct(s.arrivals)
    && Patient(s.arrivals, s.withdrawn) == s.served + s.core.waiters
    && (forall id :: id in s.core.waiters ==> id !in s.holders && id !in s.granted && id !in s.owing)
    && (forall id :: id in s.withdrawn ==> id in s.arrivals)
  }

  // ----------------------------------------------------------- queue history

  lemma {:induction false} PatientAppend(a: seq<Id>, x: Id, w: set<Id>)
    ensures Patient(a + [x], w) == Patient(a, w) + (if x in w then [] else [x])
  {
    if a == [] {
      assert a + [x] == [x];
      assert Patient([x], w) == (if x in w then [] else [x]) + Patient([], w);
    } else {
      assert (a + [x])[1..] == a[1..] + [x];
      PatientAppend(a[1..], x, w);
    }
  }

  lemma {:induction false} PatientMembers(a: seq<Id>, w: set<Id>)
    ensures forall id :: id in Patient(a, w) <==> id in a && id !in w
    ensures Distinct(a) ==> Distinct(Patient(a, w))
  {
    if a != [] {
      PatientMembers(a[1..], w);
      assert Distinct(a) ==> Distinct(a[1..]) && a[0] !in a[1..];
    }
  }

  lemma {:induction false} PatientWithdraw(a: seq<Id>, w: set<Id>, id: Id)
    requires Distinct(a)
    ensures Patient(a, w + {id}) == Without(Patient(a, w), id)
  {
    if a != [] {
      var rest := Patient(a[1..], w);
      PatientWithdraw(a[1..], w, id);
      if a[0] == id {
        PatientMembers(a[1..], w);
        assert id !in a[1..];
        WithoutMissing(rest, id);
      }
      if a[0] !in w {
        assert Patient(a, w) == [a[0]] + rest && Patient(a, w)[1..] == rest;
      } else {
        assert Patient(a, w) == rest;
      }
    }
  }

  lemma {:induction false} WithoutConcat(a: seq<Id>, b: seq<Id>, id: Id)
    requires id !in a
    ensures Without(a + b, id) == a + Without(b, id)
  {
    if a == [] {
      assert a + b == b;
    } else {
      assert (a + b)[1..] == a[1..] + b;
      WithoutConcat(a[1..], b, id);
    }
  }

  lemma {:induction false} WithoutMembers(s: seq<Id>, id: Id)
    ensures forall x :: x in Without(s, id) ==> x in s
    ensures s != [] && |s| == 1 && s[0] == id ==> Without(s, id) == []
  {
    if s != [] {
      WithoutMembers(s[1..], id);
    }
  }

  lemma {:induction false} SetOfSeq(s: seq<Id>)
    requires Distinct(s)
    ensures |Ids(s)| == |s|
  {
    if s != [] {
      SetOfSeq(s[1..]);
      assert s[0] !in s[1..];
      assert Ids(s) == {s[0]} + Ids(s[1..]);
    }
  }

  lemma DistinctSplit(a: seq<Id>, b: seq<Id>, c: seq<Id>)
    requires Distinct(a + (b + c))
    ensures Distinct(b) && Distinct(b + c)
    ensures forall id :: id in b ==> id !in c
    ensures forall id :: id in b + c ==> id !in a
  {
    var s := a + (b + c);
    forall i, j | 0 <= i < j < |b + c|
      ensures (b + c)[i] != (b + c)[j]
    {
      assert s[|a| + i] == (b + c)[i] && s[|a| + j] == (b + c)[j];
    }
    forall i, j | 0 <= i < j < |b|
      ensures b[i] != b[j]
    {
      assert (b + c)[i] == b[i] && (b + c)[j] == b[j];
    }
    forall i, j | 0 <= i < |b| && 0 <= j < |c|
      ensures b[i] != c[j]
    {
      assert (b + c)[i] == b[i] && (b + c)[|b| + j] == c[j];
    }
    forall i, j | 0 <= i < |a| && 0 <= j < |b + c|
      ensures a[i] != (b + c)[j]
    {
      assert s[i] == a[i] && s[|a| + j] == (b + c)[j];
    }
  }

  // ------------------------------------------------------------ preservation

  /** Everything but the count of active slots, which is about to be corrected by `missing`. */
  ghost predicate AlmostInv(s: State, missing: int) {
    && s.core.limit >= 1
    && s.holders !! s.granted !! s.owing
    && s.core.active == |s.holders| + |s.granted| + |s.owing| + missing
    && Distinct(s.arrivals)
    && Patient(s.arrivals, s.withdrawn) == s.served + s.core.waiters
    && (forall id :: id in s.core.waiters ==> id !in s.holders && id !in s.granted && id !in s.owing)
    && (forall id :: id in s.withdrawn ==> id in s.arrivals)
  }

  /** Those granted were waiting, each once, and those still waiting are others. */
  lemma ServedAreOthers(s: State, c: Core)
    requires AlmostInv(s.(core := c), 0)
    ensures var w := Wake(c);
            && Distinct(w.granted)
            && (forall id :: id in w.granted ==> id !in w.core.waiters && id !in s.holders && id !in s.granted && id !in s.owing)
            && (forall id :: id in w.core.waiters ==> id !in s.holders && id !in s.granted && id !in s.owing)
            && Patient(s.arrivals, s.withdrawn) == s.served + w.granted + w.core.waiters
  {
    hide Wake;
    var w := Wake(c);
    WakeShape(c);
    PatientMembers(s.arrivals, s.withdrawn);
    DistinctSplit(s.served, w.granted, w.core.waiters);
    assert s.served + (w.granted + w.core.waiters) == s.served + w.granted + w.core.waiters;
  }

  lemma GrantCount(a: set<Id>, s: seq<Id>)
    requires Distinct(s) && forall id :: id in s ==> id !in a
    ensures |a + Ids(s)| == |a| + |s|
  {
    SetOfSeq(s);
    assert a !! Ids(s);
  }

  /** Waking restores the invariant: grants go to the head of the queue, and nobody waits below the limit. */
  lemma ServeKeeps(s: State, c: Core)
    requires AlmostInv(s.(core := c), 0)
    ensures Inv(Serve(s, Wake(c)))
  {
    hide Wake, Patient, Distinct;
    WakeShape(c);
    ServedAreOthers(s, c);
    GrantCount(s.granted, Wake(c).granted);
  }

  lemma CancelKeeps(s: State, id: Id)
    requires Inv(s) && Enabled(s, Cancel(id))
    ensures Inv(Do(s, Cancel(id)))
  {
    if id in s.core.waiters {
      assert Distinct(s.served + (s.core.waiters + [])) && id in s.arrivals by {
        PatientMembers(s.arrivals, s.withdrawn);
        assert s.core.waiters + [] == s.core.waiters;
        assert id in s.served + s.core.waiters;
      }
      DistinctSplit(s.served, s.core.waiters, []);
      PatientWithdraw(s.arrivals, s.withdrawn, id);
      WithoutConcat(s.served, s.core.waiters, id);
      WithoutMembers(s.core.waiters, id);
    }
  }

  lemma AcquireKeeps(s: State, id: Id)
    requires Inv(s) && Enabled(s, Acquire(id))
    ensures Inv(Do(s, Acquire(id)))
  {
    assert id !in s.core.waiters by {
      PatientMembers(s.arrivals, s.withdrawn);
      assert id in s.core.waiters ==> id in s.served + s.core.waiters;
    }
    if s.core.active < s.core.limit {
      hide Patient, Distinct, Without, Serve;
      assert |s.holders + {id}| == |s.holders| + 1;
    } else {
      QueuedKeeps(s, id);
    }
  }

  lemma QueuedKeeps(s: State, id: Id)
    requires Inv(s) && s.core.active >= s.core.limit
    requires id !in s.holders && id !in s.granted && id !in s.owing && id !in s.arrivals
    ensures Inv(s.(core := s.core.(waiters := s.core.waiters + [id]), arrivals := s.arrivals + [id]))
  {
    PatientAppend(s.arrivals, id, s.withdrawn);
    hide Patient;
    assert s.served + (s.core.waiters + [id]) == s.served + s.core.waiters + [id];
  }

  lemma ReturnKeeps(s: State, id: Id)
    requires Inv(s) && id in s.granted
    ensures Inv(s.(granted := s.granted - {id}, holders := s.holders + {id}))
  {
  }

  lemma OneFewer(a: set<Id>, id: Id)
    requires id in a
    ensures |a - {id}| == |a| - 1
  {
  }

  lemma GiveBackKeeps(s: State, id: Id)
    requires Inv(s) && id in s.owing
    ensures Inv(Serve(s.(owing := s.owing - {id}), Give(s.core)))
  {
    hide Patient, Distinct, Wake, Serve;
    OneFewer(s.owing, id);
    ServeKeeps(s.(owing := s.owing - {id}), s.core.(active := s.core.active - 1));
  }

  lemma ReleaseKeeps(s: State, id: Id)
    requires Inv(s) && id in s.holders
    ensures Inv(Serve(s.(holders := s.holders - {id}), Give(s.core)))
  {
    hide Patient, Distinct, Wake, Serve;
    OneFewer(s.holders, id);
    ServeKeeps(s.(holders := s.holders - {id}), s.core.(active := s.core.active - 1));
  }

  /** Every step of every caller keeps the invariant. */
  lemma InvStep(s: State, step: Step)
    requires Inv(s) && Enabled(s, step)
    ensures Inv(Do(s, step))
  {
    hide Inv;
    match step
    case Acquire(id) => AcquireKeeps(s, id);
    case Return(id) => ReturnKeeps(s, id);
    case Cancel(id) => CancelKeeps(s, id);
    case GiveBack(id) => GiveBackKeeps(s, id);
    case Release(id) => ReleaseKeeps(s, id);
    case SetLimit(n) => ResizeKeeps(s, n);
  }

  lemma ResizeKeeps(s: State, n: int)
    requires Inv(s)
    ensures Inv(Serve(s, Resize(s.core, n)))
  {
    ServeKeeps(s, s.core.(limit := if n < 1 then 1 else n));
  }

  /** The state after a whole run of callers' steps. */
  ghost predicate Runs(s: State, run: seq<Step>, s': State)
    decreases run
  {
    if run == [] then s' == s else Enabled(s, run[0]) && Runs(Do(s, run[0]), run[1..], s')
  }

  lemma {:induction false} InvRun(s: State, run: seq<Step>, s': State)
    requires Inv(s) && Runs(s, run, s')
    ensures Inv(s')
    decreases run
  {
    if run != [] {
      InvStep(s, run[0]);
      InvRun(Do(s, run[0]), run[1..], s');
    }
  }

  /**
   * For every interleaving of acquire, cancel, release and resize: the active
   * count is the slots held, granted or owed; nobody waits while a slot is free;
   * and the queue has been served in order of arrival, those who withdrew left
   * out, nobody served twice.
   */
  lemma GateIsFair(limit: int, run: seq<Step>, s: State)
    requires Runs(Init(limit), run, s)
    ensures s.core.active == |s.holders| + |s.granted| + |s.owing|
    ensures s.core.waiters != [] ==> s.core.active >= s.core.limit >= 1
    ensures Patient(s.arrivals, s.withdrawn) == s.served + s.core.waiters && Distinct(s.served + s.core.waiters)
  {
    InvRun(Init(limit), run, s);
    PatientMembers(s.arrivals, s.withdrawn);
  }

  /** No step grants a slot at or above the limit: after one that hands out slots, no more are out than the limit. */
  lemma NoGrantAboveLimit(s: State, step: Step)
    requires Inv(s) && Enabled(s, step)
    ensures var s' := Do(s, step);
            (s'.served != s.served || (step.Acquire? && step.id in s'.holders)) ==> s'.core.active <= s'.core.limit
  {
    match step
    case GiveBack(id) => WakeShape(s.core.(active := s.core.active - 1));
    case Release(id) => WakeShape(s.core.(active := s.core.active - 1));
    case SetLimit(n) => WakeShape(s.core.(limit := if n < 1 then 1 else n));
    case _ =>
  }

  /** With as many slots out as the limit allows, a release hands its slot to the head of the queue. */
  lemma ReleaseServesTheNext(s: State, id: Id)
    requires Inv(s) && id in s.holders && s.core.waiters != [] && s.core.active == s.core.limit
    ensures var s' := Do(s, Release(id));
            s'.served == s.served + [s.core.waiters[0]] && s.core.waiters[0] in s'.granted
  {
    var c := s.core.(active := s.core.active - 1);
    assert Wake(c.(active := c.active + 1, waiters := c.waiters[1..])).granted == [];
    assert Wake(c).granted == [s.core.waiters[0]];
  }
}
