/**
 * Grandfather-father-son retention: which restore points a policy keeps and why,
 * as a specification on sets of points.
 */
module Retention {
  import opened Base
  import Calendar
  import Text

  datatype Point = Point(id: string, at: int)

  datatype Reason = Last | Daily | Weekly | Monthly | Yearly

  /** The fixed order reasons are reported in. */
  const ORDER: seq<Reason> := [Last, Daily, Weekly, Monthly, Yearly]

  datatype Policy = Policy(keepLast: int, keepDaily: int, keepWeekly: int, keepMonthly: int, keepYearly: int) {
    function Total(): int {
      keepLast + keepDaily + keepWeekly + keepMonthly + keepYearly
    }

    function Count(r: Reason): int {
      match r
      case Last => keepLast
      case Daily => keepDaily
      case Weekly => keepWeekly
      case Monthly => keepMonthly
      case Yearly => keepYearly
    }
  }

  // ----------------------------------------------------------------- periods

  /** The calendar period of an instant, as its rendered key identifies it. */
  datatype Key = NoKey | DayKey(d: Calendar.Date) | WeekKey(w: Calendar.IsoWeek) | MonthKey(y: int, m: int) | YearKey(y: int)

  function BucketKey(at: int, r: Reason): Key {
    var day := at / Calendar.DAY;
    var date := Calendar.DateOf(day);
    match r
    case Last => NoKey
    case Daily => DayKey(date)
    case Weekly => WeekKey(Calendar.IsoWeekOf(day))
    case Monthly => MonthKey(date.year, date.month)
    case Yearly => YearKey(date.year)
  }

  /** Periods of one kind numbered along the time line. */
  function PeriodIndex(at: int, r: Reason): int {
    var day := at / Calendar.DAY;
    var date := Calendar.DateOf(day);
    match r
    case Last => 0
    case Daily => day
    case Weekly => Calendar.WeekIndex(day)
    case Monthly => 12 * date.year + date.month
    case Yearly => date.year
  }

  lemma DayMonotone(a: int, b: int)
    requires a <= b
    ensures a / Calendar.DAY <= b / Calendar.DAY
  {
  }

  /** Keys name periods, and later instants never fall in earlier periods. */
  lemma PeriodsAreMonotone(a: int, b: int, r: Reason)
    ensures BucketKey(a, r) == BucketKey(b, r) <==> PeriodIndex(a, r) == PeriodIndex(b, r)
    ensures a <= b ==> PeriodIndex(a, r) <= PeriodIndex(b, r)
  {
    hide Calendar.DateOf, Calendar.IsoWeekOf, Calendar.WeekIndex, Calendar.MonthLength;
    var x, y := a / Calendar.DAY, b / Calendar.DAY;
    Calendar.DateOrder(x, y);
    Calendar.IsoWeekIdentifiesWeek(x, y);
    MonthNumbers(Calendar.DateOf(x), Calendar.DateOf(y));
    if a <= b {
      DayMonotone(a, b);
      WeekMonotone(x, y);
    }
  }

  lemma WeekMonotone(a: int, b: int)
    requires a <= b
    ensures Calendar.WeekIndex(a) <= Calendar.WeekIndex(b)
  {
  }

  predicate LaterMonth(d: Calendar.Date, e: Calendar.Date) {
    d.year < e.year || (d.year == e.year && d.month < e.month)
  }

  lemma MonthNumbers(d: Calendar.Date, e: Calendar.Date)
    requires Calendar.ValidDate(d) && Calendar.ValidDate(e)
    ensures 12 * e.year + e.month > 12 * d.year + d.month <==> LaterMonth(d, e)
    ensures 12 * e.year + e.month == 12 * d.year + d.month <==> d.year == e.year && d.month == e.month
  {
  }

  // ------------------------------------------------------------------- order

  /** Later in time, the id breaking ties. */
  predicate Newer(p: Point, q: Point) {
    p.at > q.at || (p.at == q.at && Text.Less(q.id, p.id))
  }

  lemma NewerOrder(p: Point, q: Point)
    ensures Newer(p, q) || p == q || Newer(q, p)
    ensures !(Newer(p, q) && Newer(q, p))
    ensures !Newer(p, p)
  {
    Text.LessTotal(p.id, q.id);
    Text.LessTotal(p.id, p.id);
  }

  lemma NewerTransitive(p: Point, q: Point, r: Point)
    requires Newer(p, q) && Newer(q, r)
    ensures Newer(p, r)
  {
    if p.at == q.at == r.at {
      Text.LessTransitive(r.id, q.id, p.id);
    }
  }

  ghost predicate IsNewest(s: set<Point>, p: Point) {
    p in s && forall q :: q in s && q != p ==> Newer(p, q)
  }

  /** A non-empty set of points has a newest one. */
  lemma {:induction false} NewestExists(s: set<Point>) returns (p: Point)
    requires s != {}
    ensures IsNewest(s, p)
    decreases s
  {
    var x :| x in s;
    if s == {x} {
      p := x;
    } else {
      var rest := s - {x};
      assert rest != {} by {
        assert s == rest + {x};
      }
      var m := NewestExists(rest);
      NewerOrder(x, m);
      p := if Newer(m, x) then m else x;
      forall q | q in s && q != p
        ensures Newer(p, q)
      {
        if p == x && q != m {
          NewerTransitive(x, m, q);
        }
      }
    }
  }

  // ----------------------------------------------------------- specification

  /** The points newer than `p`. */
  ghost function NewerThan(s: set<Point>, p: Point): set<Point> {
    set q | q in s && Newer(q, p)
  }

  /** The non-empty periods after the one `p` falls in. */
  ghost function LaterPeriods(s: set<Point>, r: Reason, p: Point): set<Key> {
    set q | q in s && PeriodIndex(q.at, r) > PeriodIndex(p.at, r) :: BucketKey(q.at, r)
  }

  /** No point of the same period is newer. */
  ghost predicate NewestOfPeriod(s: set<Point>, r: Reason, p: Point) {
    forall q :: q in s && PeriodIndex(q.at, r) == PeriodIndex(p.at, r) ==> !Newer(q, p)
  }

  /**
   * A rule retains a point: among the n newest, or the newest of one of the n
   * most recent periods in which anything was backed up.
   */
  ghost predicate Retains(s: set<Point>, policy: Policy, r: Reason, p: Point) {
    if r.Last? then |NewerThan(s, p)| < policy.keepLast
    else NewestOfPeriod(s, r, p) && |LaterPeriods(s, r, p)| < policy.Count(r)
  }

  ghost predicate IsKept(s: set<Point>, policy: Policy, p: Point) {
    exists r :: Retains(s, policy, r, p)
  }

  ghost function Kept(s: set<Point>, policy: Policy): set<Point> {
    set p | p in s && IsKept(s, policy, p)
  }

  function DateAt(at: int): Calendar.Date {
    Calendar.DateOf(at / Calendar.DAY)
  }

  function WeekAt(at: int): Calendar.IsoWeek {
    Calendar.IsoWeekOf(at / Calendar.DAY)
  }

  /** The daily rule in terms of dates: none newer on its date, and fewer later dates with a point than it counts. */
  lemma DailyRule(s: set<Point>, policy: Policy, p: Point)
    ensures Retains(s, policy, Daily, p) <==>
              && (forall q :: q in s && DateAt(q.at) == DateAt(p.at) ==> !Newer(q, p))
              && |set q | q in s && Calendar.DateBefore(DateAt(p.at), DateAt(q.at)) :: DayKey(DateAt(q.at))| < policy.keepDaily
  {
    hide Newer;
    forall q
      ensures PeriodIndex(q, Daily) > PeriodIndex(p.at, Daily) <==> Calendar.DateBefore(DateAt(p.at), DateAt(q))
      ensures PeriodIndex(q, Daily) == PeriodIndex(p.at, Daily) <==> DateAt(q) == DateAt(p.at)
      ensures BucketKey(q, Daily) == DayKey(DateAt(q))
    {
      Calendar.DateOrder(p.at / Calendar.DAY, q / Calendar.DAY);
    }
    hide DateAt, PeriodIndex, BucketKey;
    assert LaterPeriods(s, Daily, p)
        == set q | q in s && Calendar.DateBefore(DateAt(p.at), DateAt(q.at)) :: DayKey(DateAt(q.at));
  }

  /** The weekly rule in terms of ISO weeks. */
  lemma WeeklyRule(s: set<Point>, policy: Policy, p: Point)
    ensures Retains(s, policy, Weekly, p) <==>
              && (forall q :: q in s && WeekAt(q.at) == WeekAt(p.at) ==> !Newer(q, p))
              && |set q | q in s && Calendar.WeekBefore(WeekAt(p.at), WeekAt(q.at)) :: WeekKey(WeekAt(q.at))| < policy.keepWeekly
  {
    hide Newer;
    forall q
      ensures PeriodIndex(q, Weekly) > PeriodIndex(p.at, Weekly) <==> Calendar.WeekBefore(WeekAt(p.at), WeekAt(q))
      ensures PeriodIndex(q, Weekly) == PeriodIndex(p.at, Weekly) <==> WeekAt(q) == WeekAt(p.at)
      ensures BucketKey(q, Weekly) == WeekKey(WeekAt(q))
    {
      Calendar.IsoWeekOrder(p.at / Calendar.DAY, q / Calendar.DAY);
      Calendar.IsoWeekIdentifiesWeek(p.at / Calendar.DAY, q / Calendar.DAY);
    }
    hide WeekAt, PeriodIndex, BucketKey;
    assert LaterPeriods(s, Weekly, p)
        == set q | q in s && Calendar.WeekBefore(WeekAt(p.at), WeekAt(q.at)) :: WeekKey(WeekAt(q.at));
  }

  lemma MonthPeriods(a: int, b: int)
    ensures PeriodIndex(b, Monthly) > PeriodIndex(a, Monthly) <==> LaterMonth(DateAt(a), DateAt(b))
    ensures PeriodIndex(b, Monthly) == PeriodIndex(a, Monthly) <==> DateAt(b).year == DateAt(a).year && DateAt(b).month == DateAt(a).month
    ensures BucketKey(b, Monthly) == MonthKey(DateAt(b).year, DateAt(b).month)
  {
    MonthNumbers(DateAt(a), DateAt(b));
    hide Calendar.DateOf, LaterMonth;
  }

  /** The monthly rule in terms of year and month. */
  lemma MonthlyRule(s: set<Point>, policy: Policy, p: Point)
    ensures Retains(s, policy, Monthly, p) <==>
              && (forall q :: q in s && DateAt(q.at).year == DateAt(p.at).year && DateAt(q.at).month == DateAt(p.at).month ==> !Newer(q, p))
              && |set q | q in s && LaterMonth(DateAt(p.at), DateAt(q.at)) :: MonthKey(DateAt(q.at).year, DateAt(q.at).month)| < policy.keepMonthly
  {
    hide Newer, DateAt, PeriodIndex, BucketKey, LaterMonth;
    forall q
      ensures PeriodIndex(q, Monthly) > PeriodIndex(p.at, Monthly) <==> LaterMonth(DateAt(p.at), DateAt(q))
      ensures PeriodIndex(q, Monthly) == PeriodIndex(p.at, Monthly) <==> DateAt(q).year == DateAt(p.at).year && DateAt(q).month == DateAt(p.at).month
      ensures BucketKey(q, Monthly) == MonthKey(DateAt(q).year, DateAt(q).month)
    {
      MonthPeriods(p.at, q);
    }
    assert LaterPeriods(s, Monthly, p)
        == set q | q in s && LaterMonth(DateAt(p.at), DateAt(q.at)) :: MonthKey(DateAt(q.at).year, DateAt(q.at).month);
  }

  /** The yearly rule in terms of years. */
  lemma YearlyRule(s: set<Point>, policy: Policy, p: Point)
    ensures Retains(s, policy, Yearly, p) <==>
              && (forall q :: q in s && DateAt(q.at).year == DateAt(p.at).year ==> !Newer(q, p))
              && |set q | q in s && DateAt(p.at).year < DateAt(q.at).year :: YearKey(DateAt(q.at).year)| < policy.keepYearly
  {
    hide Newer;
    forall q
      ensures PeriodIndex(q, Yearly) == DateAt(q).year && BucketKey(q, Yearly) == YearKey(DateAt(q).year)
    {
    }
    hide DateAt, PeriodIndex, BucketKey;
    assert LaterPeriods(s, Yearly, p)
        == set q | q in s && DateAt(p.at).year < DateAt(q.at).year :: YearKey(DateAt(q.at).year);
  }

  lemma SubsetSize<T>(a: set<T>, b: set<T>)
    requires a <= b
    ensures |a| <= |b|
  {
    assert b == a + (b - a);
  }

  // ------------------------------------------------------- path independence

  /** What a rule retains of a set it retains of every smaller set that still holds the point. */
  lemma RetainedByFewer(s: set<Point>, s': set<Point>, policy: Policy, r: Reason, p: Point)
    requires s' <= s && Retains(s, policy, r, p)
    ensures Retains(s', policy, r, p)
  {
    if r.Last? {
      SubsetSize(NewerThan(s', p), NewerThan(s, p));
    } else {
      SubsetSize(LaterPeriods(s', r, p), LaterPeriods(s, r, p));
    }
  }

  /** If the n newest are all still there, a point that was not among them is not among them now. */
  lemma LastStays(s: set<Point>, s': set<Point>, policy: Policy, p: Point)
    requires Kept(s, policy) <= s' <= s && p in s' && Retains(s', policy, Last, p)
    ensures Retains(s, policy, Last, p)
  {
    var missing := NewerThan(s, p) - NewerThan(s', p);
    if missing == {} {
      assert NewerThan(s, p) <= NewerThan(s', p) by {
        assert NewerThan(s, p) <= missing + NewerThan(s', p);
      }
      SubsetSize(NewerThan(s, p), NewerThan(s', p));
    } else {
      var m := NewestExists(missing);
      forall q | q in NewerThan(s, m)
        ensures q in NewerThan(s', p)
      {
        NewerTransitive(q, m, p);
        if q in missing {
          NewerOrder(q, m);
        }
      }
      SubsetSize(NewerThan(s, m), NewerThan(s', p));
      assert Retains(s, policy, Last, m);
    }
  }

  /** Points of periods after `p`'s that `later` does not list. */
  ghost function Unlisted(s: set<Point>, r: Reason, p: Point, later: set<Key>): set<Point> {
    set q | q in s && PeriodIndex(q.at, r) > PeriodIndex(p.at, r) && BucketKey(q.at, r) !in later
  }

  /** The newest point of the latest period that is not listed is retained, fewer than n being listed. */
  lemma UnlistedChampion(s: set<Point>, policy: Policy, r: Reason, p: Point, later: set<Key>, m: Point)
    requires !r.Last? && |later| < policy.Count(r) && IsNewest(Unlisted(s, r, p, later), m)
    ensures Retains(s, policy, r, m)
  {
    forall q | q in s && PeriodIndex(q.at, r) == PeriodIndex(m.at, r)
      ensures !Newer(q, m)
    {
      PeriodsAreMonotone(q.at, m.at, r);
      assert q in Unlisted(s, r, p, later);
      NewerOrder(q, m);
    }
    forall q | q in s && PeriodIndex(q.at, r) > PeriodIndex(m.at, r)
      ensures BucketKey(q.at, r) in later
    {
      PeriodsAreMonotone(q.at, m.at, r);
      assert q !in Unlisted(s, r, p, later);
    }
    assert LaterPeriods(s, r, m) <= later;
    SubsetSize(LaterPeriods(s, r, m), later);
  }

  /** If every retained point is still there, the periods before the n-th are all still there. */
  lemma LaterPeriodsStay(s: set<Point>, s': set<Point>, policy: Policy, r: Reason, p: Point)
    requires Kept(s, policy) <= s' <= s && !r.Last? && |LaterPeriods(s', r, p)| < policy.Count(r)
    ensures LaterPeriods(s, r, p) == LaterPeriods(s', r, p)
  {
    var later := LaterPeriods(s', r, p);
    if Unlisted(s, r, p, later) != {} {
      var m := NewestExists(Unlisted(s, r, p, later));
      UnlistedChampion(s, policy, r, p, later, m);
      assert IsKept(s, policy, m);
    }
    forall q | q in s && PeriodIndex(q.at, r) > PeriodIndex(p.at, r)
      ensures BucketKey(q.at, r) in later
    {
      assert q !in Unlisted(s, r, p, later);
    }
  }

  /** And the newest point of each of those periods is still its newest. */
  lemma PeriodStays(s: set<Point>, s': set<Point>, policy: Policy, r: Reason, p: Point)
    requires Kept(s, policy) <= s' <= s && p in s' && !r.Last? && Retains(s', policy, r, p)
    ensures Retains(s, policy, r, p)
  {
    LaterPeriodsStay(s, s', policy, r, p);
    var rivals := set q | q in s && PeriodIndex(q.at, r) == PeriodIndex(p.at, r);
    assert p in rivals;
    var top := NewestExists(rivals);
    forall q | q in s && PeriodIndex(q.at, r) == PeriodIndex(top.at, r)
      ensures !Newer(q, top)
    {
      assert q in rivals;
      NewerOrder(q, top);
    }
    assert LaterPeriods(s, r, top) == LaterPeriods(s, r, p);
    assert Retains(s, policy, r, top);
    assert IsKept(s, policy, top);
    assert top in s';
    NewerOrder(top, p);
    assert top == p;
  }

  /**
   * Any set between what is kept and the whole history evaluates alike: the same
   * rules retain each point that is still there.
   */
  lemma BetweenEvaluatesAlike(s: set<Point>, s': set<Point>, policy: Policy)
    requires Kept(s, policy) <= s' <= s
    ensures forall p, r :: p in s' ==> (Retains(s', policy, r, p) <==> Retains(s, policy, r, p))
    ensures Kept(s', policy) == Kept(s, policy)
  {
    forall p, r | p in s'
      ensures Retains(s', policy, r, p) <==> Retains(s, policy, r, p)
    {
      if Retains(s, policy, r, p) {
        RetainedByFewer(s, s', policy, r, p);
      }
      if Retains(s', policy, r, p) {
        if r.Last? {
          LastStays(s, s', policy, p);
        } else {
          PeriodStays(s, s', policy, r, p);
        }
      }
    }
    forall p | p in s'
      ensures IsKept(s', policy, p) <==> IsKept(s, policy, p)
    {
      if IsKept(s, policy, p) {
        var r :| Retains(s, policy, r, p);
        assert Retains(s', policy, r, p);
      }
      if IsKept(s', policy, p) {
        var r :| Retains(s', policy, r, p);
        assert Retains(s, policy, r, p);
      }
    }
  }

  /** Pruning after every arrival. */
  ghost function PruneEach(history: seq<Point>, policy: Policy): set<Point> {
    if history == [] then {} else
      var n := |history| - 1;
      Kept(PruneEach(history[..n], policy) + {history[n]}, policy)
  }

  ghost function Points(history: seq<Point>): set<Point> {
    set i | 0 <= i < |history| :: history[i]
  }

  lemma PointsLast(history: seq<Point>)
    requires history != []
    ensures Points(history) == Points(history[..|history| - 1]) + {history[|history| - 1]}
  {
    var n := |history| - 1;
    forall p | p in Points(history[..n]) + {history[n]}
      ensures p in Points(history)
    {
      if p != history[n] {
        var i :| 0 <= i < n && history[..n][i] == p;
        assert history[i] == p;
      }
    }
    forall p | p in Points(history) && p != history[n]
      ensures p in Points(history[..n])
    {
      var i :| 0 <= i < |history| && history[i] == p;
      assert history[..n][i] == p;
    }
  }

  /** What survives the arrival of a point was kept before it arrived. */
  lemma KeptShrinks(s: set<Point>, p: Point, policy: Policy)
    ensures Kept(s + {p}, policy) <= Kept(s, policy) + {p}
  {
    forall q | q in Kept(s + {p}, policy) && q != p
      ensures q in Kept(s, policy)
    {
      var r :| Retains(s + {p}, policy, r, q);
      RetainedByFewer(s + {p}, s, policy, r, q);
      assert IsKept(s, policy, q);
    }
  }

  /**
   * Retention is path independent: pruning after each arrival, in whatever order
   * points arrive, leaves exactly the points, with exactly the reasons, that
   * evaluating the whole unpruned history once would keep.
   */
  lemma {:induction false} PathIndependence(history: seq<Point>, policy: Policy)
    ensures PruneEach(history, policy) == Kept(Points(history), policy)
    ensures forall p, r :: p in PruneEach(history, policy) ==>
              (Retains(PruneEach(history, policy), policy, r, p) <==> Retains(Points(history), policy, r, p))
  {
    var all := Points(history);
    if history == [] {
      assert all == {};
    } else {
      var n := |history| - 1;
      var before := Points(history[..n]);
      PathIndependence(history[..n], policy);
      PointsLast(history);
      KeptShrinks(before, history[n], policy);
      BetweenEvaluatesAlike(all, Kept(before, policy) + {history[n]}, policy);
    }
    BetweenEvaluatesAlike(all, Kept(all, policy), policy);
  }

  // -------------------------------------------------------------- size and order

  ghost function KeptBy(s: set<Point>, policy: Policy, r: Reason): set<Point> {
    set p | p in s && Retains(s, policy, r, p)
  }

  /** The oldest of a non-empty set. */
  lemma {:induction false} OldestExists(s: set<Point>) returns (p: Point)
    requires s != {}
    ensures p in s && forall q :: q in s && q != p ==> Newer(q, p)
    decreases s
  {
    var x :| x in s;
    if s == {x} {
      p := x;
    } else {
      var rest := s - {x};
      assert rest != {} by {
        assert s == rest + {x};
      }
      var m := OldestExists(rest);
      NewerOrder(x, m);
      p := if Newer(x, m) then m else x;
      forall q | q in s && q != p
        ensures Newer(q, p)
      {
        if p == x && q != m {
          NewerTransitive(q, m, x);
        }
      }
    }
  }

  /** A set that maps one to one into another is no larger. */
  lemma {:induction false} InjectInto<T(!new), U>(s: set<T>, f: T -> U, into: set<U>)
    requires forall x :: x in s ==> f(x) in into
    requires forall x, y :: x in s && y in s && f(x) == f(y) ==> x == y
    ensures |s| <= |into|
    decreases s
  {
    if s != {} {
      var x :| x in s;
      InjectInto(s - {x}, f, into - {f(x)});
    }
  }

  /** A rule keeps no more points than its counter says. */
  lemma RuleBound(s: set<Point>, policy: Policy, r: Reason)
    requires policy.Count(r) >= 0
    ensures |KeptBy(s, policy, r)| <= policy.Count(r)
  {
    var k := KeptBy(s, policy, r);
    if k != {} {
      var eldest := OldestExists(k);
      if r.Last? {
        SubsetSize(k - {eldest}, NewerThan(s, eldest));
      } else {
        PeriodRuleBound(s, policy, r, eldest);
      }
    }
  }

  lemma PeriodRuleBound(s: set<Point>, policy: Policy, r: Reason, eldest: Point)
    requires !r.Last? && eldest in KeptBy(s, policy, r)
    requires forall q :: q in KeptBy(s, policy, r) && q != eldest ==> Newer(q, eldest)
    ensures |KeptBy(s, policy, r)| <= policy.Count(r)
  {
    hide BucketKey, PeriodIndex;
    var rest := KeptBy(s, policy, r) - {eldest};
    var key := (p: Point) => BucketKey(p.at, r);
    forall p, q | p in rest && q in rest && key(p) == key(q)
      ensures p == q
    {
      PeriodsAreMonotone(p.at, q.at, r);
      NewerOrder(p, q);
    }
    forall p | p in rest
      ensures key(p) in LaterPeriods(s, r, eldest)
    {
      PeriodsAreMonotone(eldest.at, p.at, r);
    }
    InjectInto(rest, key, LaterPeriods(s, r, eldest));
  }

  lemma UnionSize<T>(a: set<T>, b: set<T>)
    ensures |a + b| <= |a| + |b|
  {
    assert a + b == a + (b - a);
    SubsetSize(b - a, b);
  }

  ghost predicate NonNegative(policy: Policy) {
    forall r :: policy.Count(r) >= 0
  }

  lemma KeptByRules(s: set<Point>, policy: Policy)
    ensures Kept(s, policy) <= KeptBy(s, policy, Last) + (KeptBy(s, policy, Daily) + (KeptBy(s, policy, Weekly)
                               + (KeptBy(s, policy, Monthly) + KeptBy(s, policy, Yearly))))
  {
    hide BucketKey, PeriodIndex;
    forall p | p in Kept(s, policy)
      ensures p in KeptBy(s, policy, Last) || p in KeptBy(s, policy, Daily) || p in KeptBy(s, policy, Weekly)
           || p in KeptBy(s, policy, Monthly) || p in KeptBy(s, policy, Yearly)
    {
      var r :| Retains(s, policy, r, p);
      assert p in KeptBy(s, policy, r);
      hide KeptBy, Retains, Kept;
      assert r == Last || r == Daily || r == Weekly || r == Monthly || r == Yearly;
    }
  }

  lemma FiveSets<T>(a: set<T>, b: set<T>, c: set<T>, d: set<T>, e: set<T>, all: set<T>)
    requires all <= a + (b + (c + (d + e)))
    ensures |all| <= |a| + |b| + |c| + |d| + |e|
  {
    SubsetSize(all, a + (b + (c + (d + e))));
    UnionSize(a, b + (c + (d + e)));
    UnionSize(b, c + (d + e));
    UnionSize(c, d + e);
    UnionSize(d, e);
  }

  /** A policy keeps at most as many points as its counters add up to. */
  lemma KeptBound(s: set<Point>, policy: Policy)
    requires NonNegative(policy)
    ensures |Kept(s, policy)| <= policy.Total()
  {
    hide Kept, KeptBy;
    KeptByRules(s, policy);
    FiveSets(KeptBy(s, policy, Last), KeptBy(s, policy, Daily), KeptBy(s, policy, Weekly),
             KeptBy(s, policy, Monthly), KeptBy(s, policy, Yearly), Kept(s, policy));
    forall r: Reason
      ensures |KeptBy(s, policy, r)| <= policy.Count(r)
    {
      assert policy.Count(r) >= 0;
      RuleBound(s, policy, r);
    }
  }

  /** Raising counters never prunes more. */
  lemma MoreKeepsMore(s: set<Point>, policy: Policy, policy': Policy)
    requires forall r :: policy.Count(r) <= policy'.Count(r)
    ensures Kept(s, policy) <= Kept(s, policy')
  {
    forall p | p in Kept(s, policy)
      ensures p in Kept(s, policy')
    {
      var r :| Retains(s, policy, r, p);
      assert policy.Count(r) <= policy'.Count(r);
      assert Retains(s, policy', r, p);
    }
  }

  /** A policy with a positive total always keeps the newest point, so it never keeps nothing. */
  lemma NewestIsKept(s: set<Point>, policy: Policy, p: Point)
    requires policy.Total() > 0 && IsNewest(s, p)
    ensures p in Kept(s, policy)
  {
    assert policy.Count(Last) > 0 || policy.Count(Daily) > 0 || policy.Count(Weekly) > 0
        || policy.Count(Monthly) > 0 || policy.Count(Yearly) > 0;
    var r :| policy.Count(r) > 0;
    forall q | q in s
      ensures !Newer(q, p) && PeriodIndex(q.at, r) <= PeriodIndex(p.at, r)
    {
      NewerOrder(p, q);
      PeriodsAreMonotone(q.at, p.at, r);
    }
    assert NewerThan(s, p) == {} && LaterPeriods(s, r, p) == {};
    assert Retains(s, policy, r, p);
  }
}
