/** EvaluateRetention as the loops that fill its maps, against the set specification. */
module RetentionCode {
  import opened Base
  import opened Retention

  datatype Decision = Decision(point: Point, reasons: seq<Reason>)

  datatype Plan = Plan(keeps: seq<Decision>, prunes: seq<Decision>)

  // ------------------------------------------------------------------ sorting

  /** Newest first; no later element is newer than an earlier one. */
  ghost predicate Sorted(s: seq<Point>) {
    forall i, j :: 0 <= i < j < |s| ==> !Newer(s[j], s[i])
  }

  function Insert(p: Point, s: seq<Point>): seq<Point> {
    if s == [] || Newer(p, s[0]) then [p] + s else [s[0]] + Insert(p, s[1..])
  }

  /** The stable sort newest first. */
  function SortNewest(points: seq<Point>): seq<Point> {
    if points == [] then [] else Insert(points[|points| - 1], SortNewest(points[..|points| - 1]))
  }

  lemma {:induction false} InsertSorts(p: Point, s: seq<Point>)
    requires Sorted(s)
    ensures Sorted(Insert(p, s)) && multiset(Insert(p, s)) == multiset(s) + multiset{p}
  {
    if s == [] {
    } else if Newer(p, s[0]) {
      forall j | 0 <= j < |s|
        ensures !Newer(s[j], p)
      {
        NewerOrder(p, s[j]);
        NewerOrder(s[0], s[j]);
        if j > 0 && Newer(s[0], s[j]) {
          NewerTransitive(p, s[0], s[j]);
        }
      }
    } else {
      InsertSorts(p, s[1..]);
      var t := Insert(p, s[1..]);
      assert s == [s[0]] + s[1..];
      forall j | 0 <= j < |t|
        ensures !Newer(t[j], s[0])
      {
        assert t[j] in multiset(t);
        if t[j] != p {
          assert t[j] in multiset(s[1..]);
        }
      }
    }
  }

  lemma {:induction false} SortSorts(points: seq<Point>)
    ensures Sorted(SortNewest(points)) && multiset(SortNewest(points)) == multiset(points)
  {
    if points != [] {
      var n := |points| - 1;
      SortSorts(points[..n]);
      InsertSorts(points[n], SortNewest(points[..n]));
      assert points == points[..n] + [points[n]];
    }
  }

  // ------------------------------------------------------ decisions by position

  function KeysBefore(sorted: seq<Point>, r: Reason, i: nat): set<Key>
    requires i <= |sorted|
  {
    set j | 0 <= j < i :: BucketKey(sorted[j].at, r)
  }

  /** A rule picks position `i` of the sorted list. */
  predicate Picks(sorted: seq<Point>, policy: Policy, r: Reason, i: nat)
    requires i < |sorted|
  {
    if r.Last? then i < policy.keepLast
    else BucketKey(sorted[i].at, r) !in KeysBefore(sorted, r, i) && |KeysBefore(sorted, r, i)| < policy.Count(r)
  }

  /** A rule picks some point with this id. */
  predicate Credited(sorted: seq<Point>, policy: Policy, r: Reason, id: string) {
    exists i :: 0 <= i < |sorted| && sorted[i].id == id && Picks(sorted, policy, r, i)
  }

  function Among(got: set<Reason>, order: seq<Reason>): seq<Reason> {
    if order == [] then []
    else (if order[0] in got then [order[0]] else []) + Among(got, order[1..])
  }

  function CreditOf(sorted: seq<Point>, policy: Policy, id: string): set<Reason> {
    set r | r in ORDER && Credited(sorted, policy, r, id)
  }

  function DecisionOf(sorted: seq<Point>, policy: Policy, p: Point): Decision {
    Decision(p, Among(CreditOf(sorted, policy, p.id), ORDER))
  }

  /** The plan for the first `n` points, in order. */
  function PlanFor(sorted: seq<Point>, policy: Policy, n: nat): Plan
    requires n <= |sorted|
  {
    if n == 0 then Plan([], []) else
      var before := PlanFor(sorted, policy, n - 1);
      var d := DecisionOf(sorted, policy, sorted[n - 1]);
      if d.reasons == [] then before.(prunes := before.prunes + [d]) else before.(keeps := before.keeps + [d])
  }

  // -------------------------------------------------------------------- loops

  function Get(reasons: map<string, seq<Reason>>, id: string): seq<Reason> {
    if id in reasons then reasons[id] else []
  }

  function Add(reasons: map<string, seq<Reason>>, id: string, r: Reason): (out: map<string, seq<Reason>>)
    ensures forall i, x :: x in Get(out, i) <==> x in Get(reasons, i) || (i == id && x == r)
  {
    if r in Get(reasons, id) then reasons else reasons[id := Get(reasons, id) + [r]]
  }

  /** A rule's credit for an id from the first `n` positions. */
  ghost predicate CreditedIn(sorted: seq<Point>, policy: Policy, r: Reason, id: string, n: nat)
    requires n <= |sorted|
  {
    exists i :: 0 <= i < n && sorted[i].id == id && Picks(sorted, policy, r, i)
  }

  lemma CreditedStep(sorted: seq<Point>, policy: Policy, r: Reason, id: string, n: nat)
    requires n < |sorted|
    ensures CreditedIn(sorted, policy, r, id, n + 1) <==>
            CreditedIn(sorted, policy, r, id, n) || (sorted[n].id == id && Picks(sorted, policy, r, n))
  {
  }

  /** The keep-last loop. */
  method CreditLast(sorted: seq<Point>, policy: Policy, reasons0: map<string, seq<Reason>>)
    returns (reasons: map<string, seq<Reason>>)
    ensures forall id, x :: x in Get(reasons, id) <==>
              x in Get(reasons0, id) || (x == Last && Credited(sorted, policy, Last, id))
  {
    reasons := reasons0;
    if policy.keepLast > 0 {
      var i := 0;
      while i < |sorted| && i < policy.keepLast
        invariant 0 <= i <= |sorted| && i <= policy.keepLast
        invariant forall id, x :: x in Get(reasons, id) <==>
                    x in Get(reasons0, id) || (x == Last && CreditedIn(sorted, policy, Last, id, i))
      {
        forall id {
          CreditedStep(sorted, policy, Last, id, i);
        }
        reasons := Add(reasons, sorted[i].id, Last);
        i := i + 1;
      }
      assert forall id :: CreditedIn(sorted, policy, Last, id, i) <==> Credited(sorted, policy, Last, id);
    }
  }

  /** The loop of one calendar rule: the first point of each new period, until the counter is used up. */
  method CreditPeriods(sorted: seq<Point>, policy: Policy, r: Reason, reasons0: map<string, seq<Reason>>)
    returns (reasons: map<string, seq<Reason>>)
    requires !r.Last?
    ensures forall id, x :: x in Get(reasons, id) <==>
              x in Get(reasons0, id) || (x == r && Credited(sorted, policy, r, id))
  {
    hide BucketKey, Picks, CreditedIn, Credited, KeysBefore, Get, Add;
    reasons := reasons0;
    var keep := policy.Count(r);
    if keep <= 0 {
      NothingCredited(sorted, policy, r);
      return;
    }
    var seen: set<Key> := {};
    var i := 0;
    NoKeysYet(sorted, policy, r);
    while i < |sorted|
      invariant 0 <= i <= |sorted|
      invariant seen == KeysBefore(sorted, r, i)
      invariant forall id, x :: x in Get(reasons, id) <==>
                  x in Get(reasons0, id) || (x == r && CreditedIn(sorted, policy, r, id, i))
    {
      var key := BucketKey(sorted[i].at, r);
      KeysGrow(sorted, r, i);
      PicksWhen(sorted, policy, r, i);
      forall id {
        CreditedStep(sorted, policy, r, id, i);
      }
      if key !in seen {
        if |seen| >= keep {
          NoMorePicks(sorted, policy, r, i);
          break;
        }
        seen := seen + {key};
        reasons := Add(reasons, sorted[i].id, r);
      } else {
        assert seen + {key} == seen;
      }
      i := i + 1;
    }
    AllCredited(sorted, policy, r, i);
  }

  lemma NothingCredited(sorted: seq<Point>, policy: Policy, r: Reason)
    requires !r.Last? && policy.Count(r) <= 0
    ensures forall id :: !Credited(sorted, policy, r, id)
  {
    hide KeysBefore;
  }

  lemma NoKeysYet(sorted: seq<Point>, policy: Policy, r: Reason)
    ensures KeysBefore(sorted, r, 0) == {} && forall id :: !CreditedIn(sorted, policy, r, id, 0)
  {
  }

  lemma PicksWhen(sorted: seq<Point>, policy: Policy, r: Reason, i: nat)
    requires !r.Last? && i < |sorted|
    ensures Picks(sorted, policy, r, i) <==>
              BucketKey(sorted[i].at, r) !in KeysBefore(sorted, r, i) && |KeysBefore(sorted, r, i)| < policy.Count(r)
  {
    hide BucketKey, KeysBefore;
  }

  /** Once nothing further is picked, what is credited so far is all. */
  lemma AllCredited(sorted: seq<Point>, policy: Policy, r: Reason, i: nat)
    requires i <= |sorted| && forall k :: i <= k < |sorted| ==> !Picks(sorted, policy, r, k)
    ensures forall id :: CreditedIn(sorted, policy, r, id, i) <==> Credited(sorted, policy, r, id)
  {
    hide Picks;
  }

  lemma KeysGrow(sorted: seq<Point>, r: Reason, i: nat)
    requires i < |sorted|
    ensures KeysBefore(sorted, r, i + 1) == KeysBefore(sorted, r, i) + {BucketKey(sorted[i].at, r)}
  {
  }

  lemma FullStaysFull(sorted: seq<Point>, r: Reason, i: nat, k: nat)
    requires i <= k <= |sorted|
    ensures |KeysBefore(sorted, r, i)| <= |KeysBefore(sorted, r, k)|
  {
    SubsetSize(KeysBefore(sorted, r, i), KeysBefore(sorted, r, k));
  }

  lemma NoMorePicks(sorted: seq<Point>, policy: Policy, r: Reason, i: nat)
    requires i < |sorted| && !r.Last? && |KeysBefore(sorted, r, i)| >= policy.Count(r)
    ensures forall k :: i <= k < |sorted| ==> !Picks(sorted, policy, r, k)
  {
    forall k | i <= k < |sorted|
      ensures !Picks(sorted, policy, r, k)
    {
      FullStaysFull(sorted, r, i, k);
    }
  }

  lemma AmongNone(have: set<Reason>)
    ensures Among(have, []) == []
  {
  }

  lemma AmongFrom(have: set<Reason>, order: seq<Reason>, i: nat)
    requires i < |order|
    ensures Among(have, order[i..]) == (if order[i] in have then [order[i]] else []) + Among(have, order[i + 1..])
  {
    assert order[i..][0] == order[i] && order[i..][1..] == order[i + 1..];
  }

  /** The reported order, whatever order the rules ran in. */
  method OrderReasons(got: seq<Reason>) returns (ordered: seq<Reason>)
    ensures ordered == Among((set r | r in got), ORDER)
  {
    hide Among;
    ordered := [];
    ghost var have := set r | r in got;
    assert ORDER[0..] == ORDER;
    for i := 0 to |ORDER|
      invariant ordered + Among(have, ORDER[i..]) == Among(have, ORDER)
    {
      AmongFrom(have, ORDER, i);
      if ORDER[i] in got {
        ordered := ordered + [ORDER[i]];
      }
    }
    AmongNone(have);
    assert ORDER[|ORDER|..] == [];
  }

  /** Which restore points a policy keeps, and why. */
  method EvaluateRetention(points: seq<Point>, policy: Policy) returns (plan: Plan)
    ensures plan == PlanFor(SortNewest(points), policy, |SortNewest(points)|)
  {
    hide Credited, SortNewest;
    var sorted := SortNewest(points);
    var reasons: map<string, seq<Reason>> := map[];
    reasons := CreditLast(sorted, policy, reasons);
    reasons := CreditPeriods(sorted, policy, Daily, reasons);
    reasons := CreditPeriods(sorted, policy, Weekly, reasons);
    reasons := CreditPeriods(sorted, policy, Monthly, reasons);
    reasons := CreditPeriods(sorted, policy, Yearly, reasons);
    assert forall id, x :: x in Get(reasons, id) <==> Credited(sorted, policy, x, id);
    plan := Plan([], []);
    for i := 0 to |sorted|
      invariant plan == PlanFor(sorted, policy, i)
    {
      var got := Get(reasons, sorted[i].id);
      AllReasons(got);
      assert (set r | r in got) == CreditOf(sorted, policy, sorted[i].id);
      if |got| == 0 {
        assert CreditOf(sorted, policy, sorted[i].id) == {};
        NoneAmong(ORDER);
        plan := plan.(prunes := plan.prunes + [Decision(sorted[i], [])]);
      } else {
        var ordered := OrderReasons(got);
        SomeAmong((set r | r in got), got[0]);
        plan := plan.(keeps := plan.keeps + [Decision(sorted[i], ordered)]);
      }
    }
  }

  lemma AllReasons(got: seq<Reason>)
    ensures forall r :: r in ORDER
  {
    forall r: Reason
      ensures r in ORDER
    {
      match r
      case Last => assert ORDER[0] == r;
      case Daily => assert ORDER[1] == r;
      case Weekly => assert ORDER[2] == r;
      case Monthly => assert ORDER[3] == r;
      case Yearly => assert ORDER[4] == r;
    }
  }

  lemma {:induction false} NoneAmong(order: seq<Reason>)
    ensures Among({}, order) == []
  {
    if order != [] {
      NoneAmong(order[1..]);
    }
  }

  lemma {:induction false} AmongMembers(got: set<Reason>, order: seq<Reason>, r: Reason)
    ensures r in Among(got, order) <==> r in got && r in order
  {
    if order != [] {
      AmongMembers(got, order[1..], r);
    }
  }

  lemma SomeAmong(got: set<Reason>, r: Reason)
    requires r in got
    ensures Among(got, ORDER) != []
  {
    AllReasons([]);
    AmongMembers(got, ORDER, r);
  }

  // ------------------------------------------------- the plan is the specification

  predicate DistinctIds(s: seq<Point>) {
    forall i, j :: 0 <= i < j < |s| ==> s[i].id != s[j].id
  }

  lemma {:induction false} InsertDistinct(p: Point, s: seq<Point>)
    requires DistinctIds(s) && forall i :: 0 <= i < |s| ==> s[i].id != p.id
    ensures DistinctIds(Insert(p, s))
    ensures forall x :: x in Insert(p, s) <==> x == p || x in s
  {
    if s != [] && !Newer(p, s[0]) {
      InsertDistinct(p, s[1..]);
      var t := Insert(p, s[1..]);
      forall j | 0 <= j < |t|
        ensures t[j].id != s[0].id
      {
        assert t[j] in t;
      }
    }
  }

  lemma {:induction false} SortDistinct(points: seq<Point>)
    requires DistinctIds(points)
    ensures DistinctIds(SortNewest(points))
    ensures forall x :: x in SortNewest(points) <==> x in points
  {
    if points != [] {
      var n := |points| - 1;
      SortDistinct(points[..n]);
      var s := SortNewest(points[..n]);
      forall i | 0 <= i < |s|
        ensures s[i].id != points[n].id
      {
        assert s[i] in points[..n];
      }
      InsertDistinct(points[n], s);
    }
  }

  lemma {:induction false} PrefixCount(s: seq<Point>, n: nat)
    requires n <= |s| && DistinctIds(s)
    ensures |Points(s[..n])| == n
  {
    if n > 0 {
      PrefixCount(s, n - 1);
      assert s[..n][..n - 1] == s[..n - 1];
      PointsLast(s[..n]);
      assert s[n - 1] !in Points(s[..n - 1]);
    }
  }

  /** In a sorted list with distinct ids, the newer points are exactly the ones before. */
  lemma BeforeIsNewer(s: seq<Point>, i: nat, j: nat)
    requires Sorted(s) && DistinctIds(s) && i < |s| && j < |s|
    ensures Newer(s[j], s[i]) <==> j < i
  {
    NewerOrder(s[i], s[j]);
  }

  lemma LastIsRetains(s: seq<Point>, policy: Policy, i: nat)
    requires Sorted(s) && DistinctIds(s) && i < |s|
    ensures Picks(s, policy, Last, i) <==> Retains(Points(s), policy, Last, s[i])
  {
    PrefixCount(s, i);
    assert NewerThan(Points(s), s[i]) == Points(s[..i]) by {
      forall p | p in NewerThan(Points(s), s[i]) ensures p in Points(s[..i]) {
        var j :| 0 <= j < |s| && s[j] == p;
        BeforeIsNewer(s, i, j);
        assert s[..i][j] == p;
      }
      forall p | p in Points(s[..i]) ensures p in NewerThan(Points(s), s[i]) {
        var j :| 0 <= j < i && s[..i][j] == p;
        BeforeIsNewer(s, i, j);
        assert s[j] == p;
      }
    }
  }

  lemma PeriodIsRetains(s: seq<Point>, policy: Policy, r: Reason, i: nat)
    requires Sorted(s) && DistinctIds(s) && i < |s| && !r.Last?
    ensures Picks(s, policy, r, i) <==> Retains(Points(s), policy, r, s[i])
  {
    hide BucketKey, PeriodIndex;
    var key := BucketKey(s[i].at, r);
    assert key !in KeysBefore(s, r, i) <==> NewestOfPeriod(Points(s), r, s[i]) by {
      ChampionIsFirst(s, r, i);
    }
    if key !in KeysBefore(s, r, i) {
      KeysAreLater(s, r, i);
    }
  }

  lemma ChampionIsFirst(s: seq<Point>, r: Reason, i: nat)
    requires Sorted(s) && DistinctIds(s) && i < |s|
    ensures BucketKey(s[i].at, r) !in KeysBefore(s, r, i) <==> NewestOfPeriod(Points(s), r, s[i])
  {
    hide BucketKey, PeriodIndex;
    forall j | 0 <= j < |s|
      ensures Newer(s[j], s[i]) <==> j < i
      ensures BucketKey(s[j].at, r) == BucketKey(s[i].at, r) <==> PeriodIndex(s[j].at, r) == PeriodIndex(s[i].at, r)
    {
      BeforeIsNewer(s, i, j);
      PeriodsAreMonotone(s[j].at, s[i].at, r);
    }
    forall j | 0 <= j < |s|
      ensures s[j] in Points(s)
    {
    }
  }

  lemma KeysAreLater(s: seq<Point>, r: Reason, i: nat)
    requires Sorted(s) && DistinctIds(s) && i < |s| && BucketKey(s[i].at, r) !in KeysBefore(s, r, i)
    ensures KeysBefore(s, r, i) == LaterPeriods(Points(s), r, s[i])
  {
    hide BucketKey, PeriodIndex;
    forall k | k in LaterPeriods(Points(s), r, s[i])
      ensures k in KeysBefore(s, r, i)
    {
      var q :| q in Points(s) && PeriodIndex(q.at, r) > PeriodIndex(s[i].at, r) && BucketKey(q.at, r) == k;
      var j :| 0 <= j < |s| && s[j] == q;
      PeriodsAreMonotone(q.at, s[i].at, r);
      BeforeIsNewer(s, i, j);
    }
    forall k | k in KeysBefore(s, r, i)
      ensures k in LaterPeriods(Points(s), r, s[i])
    {
      var j :| 0 <= j < i && BucketKey(s[j].at, r) == k;
      BeforeIsNewer(s, i, j);
      PeriodsAreMonotone(s[i].at, s[j].at, r);
      PeriodsAreMonotone(s[j].at, s[i].at, r);
      assert s[j] in Points(s);
    }
  }

  /** The points of `s` that lie in `chosen`, in order. */
  function Choose(s: seq<Point>, chosen: set<Point>): seq<Point> {
    if s == [] then [] else
      Choose(s[..|s| - 1], chosen) + (if s[|s| - 1] in chosen then [s[|s| - 1]] else [])
  }

  function PointsOf(ds: seq<Decision>): seq<Point> {
    seq(|ds|, i requires 0 <= i < |ds| => ds[i].point)
  }

  lemma CreditIsRetains(s: seq<Point>, policy: Policy, i: nat)
    requires Sorted(s) && DistinctIds(s) && i < |s|
    ensures forall r :: r in CreditOf(s, policy, s[i].id) <==> Retains(Points(s), policy, r, s[i])
  {
    AllReasons([]);
    forall r: Reason
      ensures Credited(s, policy, r, s[i].id) <==> Retains(Points(s), policy, r, s[i])
    {
      assert Credited(s, policy, r, s[i].id) <==> Picks(s, policy, r, i);
      if r.Last? {
        LastIsRetains(s, policy, i);
      } else {
        PeriodIsRetains(s, policy, r, i);
      }
    }
  }

  /** A decision lists exactly the rules that retain its point, in the fixed order. */
  ghost predicate Explains(s: set<Point>, policy: Policy, d: Decision) {
    forall r :: r in d.reasons <==> Retains(s, policy, r, d.point)
  }

  lemma DecisionExplains(s: seq<Point>, policy: Policy, i: nat)
    requires Sorted(s) && DistinctIds(s) && i < |s|
    ensures Explains(Points(s), policy, DecisionOf(s, policy, s[i]))
    ensures DecisionOf(s, policy, s[i]).reasons == [] <==> s[i] !in Kept(Points(s), policy)
  {
    var d := DecisionOf(s, policy, s[i]);
    CreditIsRetains(s, policy, i);
    AllReasons([]);
    forall r: Reason
      ensures r in d.reasons <==> Retains(Points(s), policy, r, s[i])
    {
      AmongMembers(CreditOf(s, policy, s[i].id), ORDER, r);
    }
    assert s[i] in Points(s);
    if d.reasons != [] {
      assert Retains(Points(s), policy, d.reasons[0], s[i]);
    }
  }

  lemma {:induction false} PlanIsKept(s: seq<Point>, policy: Policy, n: nat)
    requires Sorted(s) && DistinctIds(s) && n <= |s|
    ensures var plan := PlanFor(s, policy, n);
            && PointsOf(plan.keeps) == Choose(s[..n], Kept(Points(s), policy))
            && PointsOf(plan.prunes) == Choose(s[..n], Points(s) - Kept(Points(s), policy))
            && (forall d :: d in plan.keeps + plan.prunes ==> Explains(Points(s), policy, d))
  {
    if n > 0 {
      hide Kept, Explains, Sorted, DistinctIds, DecisionOf;
      PlanIsKept(s, policy, n - 1);
      DecisionExplains(s, policy, n - 1);
      DecisionIsOf(s, policy, s[n - 1]);
      assert s[..n][..n - 1] == s[..n - 1];
      assert s[n - 1] in Points(s);
    }
  }

  lemma DecisionIsOf(s: seq<Point>, policy: Policy, p: Point)
    ensures DecisionOf(s, policy, p).point == p
  {
  }

  /**
   * For restore points with distinct ids, in any order: the plan keeps exactly the
   * points some rule retains, prunes exactly the others, lists both newest first,
   * and gives every point exactly the rules that retain it.
   */
  lemma PlanMeetsSpecification(points: seq<Point>, policy: Policy)
    requires DistinctIds(points)
    ensures var sorted := SortNewest(points);
            var plan := PlanFor(sorted, policy, |sorted|);
            && Sorted(sorted) && multiset(sorted) == multiset(points) && Points(sorted) == Points(points)
            && PointsOf(plan.keeps) == Choose(sorted, Kept(Points(points), policy))
            && PointsOf(plan.prunes) == Choose(sorted, Points(points) - Kept(Points(points), policy))
            && (forall d :: d in plan.keeps + plan.prunes ==> Explains(Points(points), policy, d))
  {
    var sorted := SortNewest(points);
    SortSorts(points);
    SortDistinct(points);
    assert Points(sorted) == Points(points) by {
      forall x ensures x in Points(sorted) <==> x in Points(points) {
        assert x in Points(sorted) <==> x in sorted;
        assert x in Points(points) <==> x in points;
      }
    }
    PlanIsKept(sorted, policy, |sorted|);
    assert sorted[..|sorted|] == sorted;
  }
}
