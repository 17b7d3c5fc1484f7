/** The restore points of a target as the scheduler keeps them, and the pruning of one source's points. */
module Catalog {
  import opened Base
  import opened Retention
  import opened RetentionCode
  import opened Target

  datatype Backup = Backup(kind: string, source: string, at: int)

  /** The restore points of one source, as retention sees them. */
  ghost function SourcePoints(rows: map<string, Backup>, kind: string, source: string): set<Point> {
    set id | id in rows && rows[id].kind == kind && rows[id].source == source :: Point(id, rows[id].at)
  }

  /** The manifest keys of a set of restore points of one source. */
  ghost function KeysOf(kind: string, source: string, points: set<Point>): set<string> {
    set p | p in points :: ManifestKey(kind, source, p.id)
  }

  lemma ManifestKeyDiffers(kind: string, source: string, a: string, b: string)
    ensures ManifestKey(kind, source, a) == ManifestKey(kind, source, b) <==> a == b
  {
    var head := MANIFEST_PREFIX + kind + "/" + source + "/";
    assert ManifestKey(kind, source, a) == head + a + MANIFEST_SUFFIX && ManifestKey(kind, source, b) == head + b + MANIFEST_SUFFIX;
    if ManifestKey(kind, source, a) == ManifestKey(kind, source, b) {
      SameMiddle(head, a, b, MANIFEST_SUFFIX);
    }
  }

  lemma RemoveRow(rows: map<string, Backup>, kind: string, source: string, id: string)
    requires id in rows && rows[id].kind == kind && rows[id].source == source
    ensures SourcePoints(rows - {id}, kind, source) == SourcePoints(rows, kind, source) - {Point(id, rows[id].at)}
  {
    var rest := rows - {id};
    forall p | p in SourcePoints(rows, kind, source) && p != Point(id, rows[id].at)
      ensures p in SourcePoints(rest, kind, source)
    {
      assert p.id in rest && rest[p.id] == rows[p.id];
    }
    forall p | p in SourcePoints(rest, kind, source)
      ensures p in SourcePoints(rows, kind, source) && p != Point(id, rows[id].at)
    {
      assert rest[p.id] == rows[p.id];
    }
  }

  /** Deleting the manifests of some of a source's points leaves those of its other points. */
  lemma OtherManifestsStay(rows: map<string, Backup>, kind: string, source: string, pruned: set<Point>, p: Point)
    requires pruned <= SourcePoints(rows, kind, source) && p in SourcePoints(rows, kind, source) && p !in pruned
    ensures ManifestKey(kind, source, p.id) !in KeysOf(kind, source, pruned)
  {
    forall q | q in pruned
      ensures ManifestKey(kind, source, q.id) != ManifestKey(kind, source, p.id)
    {
      ManifestKeyDiffers(kind, source, q.id, p.id);
    }
  }

  lemma NoIds()
    ensures DistinctIds([])
  {
  }

  lemma OneMoreId(points: seq<Point>, p: Point)
    requires DistinctIds(points) && forall i :: 0 <= i < |points| ==> points[i].id != p.id
    ensures DistinctIds(points + [p])
  {
  }

  lemma ListedPoints(points: seq<Point>, rows: map<string, Backup>, kind: string, source: string, done: set<string>)
    requires done == set id | id in rows && rows[id].kind == kind && rows[id].source == source
    requires forall i :: 0 <= i < |points| ==> points[i].id in done && points[i] == Point(points[i].id, rows[points[i].id].at)
    requires forall id :: id in done ==> Point(id, rows[id].at) in points
    ensures Points(points) == SourcePoints(rows, kind, source)
  {
    forall p | p in SourcePoints(rows, kind, source)
      ensures p in Points(points)
    {
      assert p in points;
    }
  }

  class BackupCatalog {
    var rows: map<string, Backup>
    var blobs: map<string, Blob>

    constructor ()
      ensures rows == map[] && blobs == map[]
    {
      rows, blobs := map[], map[];
    }

    /** The source's restore points, each once. */
    method ListPoints(kind: string, source: string) returns (points: seq<Point>)
      ensures DistinctIds(points) && Points(points) == SourcePoints(rows, kind, source)
    {
      hide DistinctIds;
      points := [];
      NoIds();
      var todo := set id | id in rows && rows[id].kind == kind && rows[id].source == source;
      ghost var done: set<string> := {};
      ghost var all := todo;
      while todo != {}
        invariant todo !! done && todo + done == all
        invariant DistinctIds(points)
        invariant forall i :: 0 <= i < |points| ==> points[i].id in done && points[i] == Point(points[i].id, rows[points[i].id].at)
        invariant forall id :: id in done ==> Point(id, rows[id].at) in points
        decreases |todo|
      {
        var id :| id in todo;
        OneMoreId(points, Point(id, rows[id].at));
        points := points + [Point(id, rows[id].at)];
        todo, done := todo - {id}, done + {id};
      }
      ListedPoints(points, rows, kind, source, done);
    }

    /** The decisions a policy's plan prunes; none when it would retain nothing at all. */
    method PlanPrune(policy: Policy, kind: string, source: string) returns (prunes: seq<Decision>)
      ensures policy.Total() <= 0 ==> prunes == []
      ensures policy.Total() > 0 ==>
                var before := SourcePoints(rows, kind, source);
                forall p :: p in before - Kept(before, policy) <==> p in PointsOf(prunes)
    {
      ghost var before := SourcePoints(rows, kind, source);
      ghost var kept := Kept(before, policy);
      if policy.Total() <= 0 {
        return [];
      }
      var points := ListPoints(kind, source);
      var plan := EvaluateRetention(points, policy);
      PlanMeetsSpecification(points, policy);
      PrunesAll(plan.prunes, SortNewest(points), before, kept);
      if |plan.prunes| != 0 && |plan.keeps| == 0 {
        ghost var newest := NewestExists(before);
        NewestIsKept(before, policy, newest);
        KeepsSome(plan, SortNewest(points), kept, newest);
        assert false;
      }
      return plan.prunes;
    }

    /**
     * Prunes the points of one source that the policy does not retain, each one's
     * manifest before its row.  A policy that retains nothing prunes nothing; a
     * prune that fails half way leaves every retained point, so running it again
     * ends in the same place, and at most one point without its manifest.
     */
    method ApplyRetention(policy: Policy, kind: string, source: string, works: bool) returns (ok: bool, ghost pruned: set<Point>, ghost torn: Point)
      modifies this
      ensures works ==> ok
      ensures var before := old(SourcePoints(rows, kind, source));
              && (ok && policy.Total() > 0 ==>
                    SourcePoints(rows, kind, source) == Kept(before, policy) && pruned == before - Kept(before, policy))
              && pruned <= before - Kept(before, policy)
              && Kept(before, policy) <= SourcePoints(rows, kind, source) <= before
              && Kept(SourcePoints(rows, kind, source), policy) == Kept(before, policy)
              && (forall p :: p in Kept(before, policy) && ManifestKey(kind, source, p.id) in old(blobs) ==>
                    ManifestKey(kind, source, p.id) in blobs)
              && (forall p :: p in before && p !in SourcePoints(rows, kind, source) ==> ManifestKey(kind, source, p.id) !in blobs)
              && (forall p :: p in SourcePoints(rows, kind, source) && p in pruned ==> p == torn)
      ensures forall p :: p in pruned ==> ManifestKey(kind, source, p.id) !in blobs
      ensures blobs == old(blobs) - KeysOf(kind, source, pruned)
      ensures policy.Total() <= 0 ==> ok && rows == old(rows) && blobs == old(blobs)
      ensures forall id :: id in old(rows) && (old(rows)[id].kind != kind || old(rows)[id].source != source) ==>
                id in rows && rows[id] == old(rows)[id]
    {
      ghost var before, kept := SourcePoints(rows, kind, source), Kept(SourcePoints(rows, kind, source), policy);
      pruned, torn := {}, Point("", 0);
      var prunes := PlanPrune(policy, kind, source);
      if policy.Total() <= 0 {
        BetweenEvaluatesAlike(before, before, policy);
        NoKeys(blobs, kind, source);
        return true, pruned, torn;
      }
      ok, pruned, torn := DeleteAll(prunes, kind, source, before, before - kept, works);
      BetweenEvaluatesAlike(before, SourcePoints(rows, kind, source), policy);
      forall p | p in kept && ManifestKey(kind, source, p.id) in old(blobs)
        ensures ManifestKey(kind, source, p.id) in blobs
      {
        OtherManifestsStay(old(rows), kind, source, pruned, p);
      }
    }

    /** Deletes manifest and row of each listed point, stopping at the first failure. */
    method DeleteAll(prunes: seq<Decision>, kind: string, source: string, ghost before: set<Point>, ghost doomed: set<Point>, works: bool)
      returns (ok: bool, ghost pruned: set<Point>, ghost torn: Point)
      requires before == SourcePoints(rows, kind, source) && doomed <= before
      requires forall p :: p in doomed <==> p in PointsOf(prunes)
      modifies this
      ensures works ==> ok
      ensures pruned <= doomed && (ok ==> pruned == doomed)
      ensures before - doomed <= SourcePoints(rows, kind, source) <= before
      ensures ok ==> SourcePoints(rows, kind, source) == before - doomed
      ensures blobs == old(blobs) - KeysOf(kind, source, pruned)
      ensures forall p :: p in pruned ==> ManifestKey(kind, source, p.id) !in blobs
      ensures forall p :: p in before && p !in SourcePoints(rows, kind, source) ==> ManifestKey(kind, source, p.id) !in blobs
      ensures forall p :: p in SourcePoints(rows, kind, source) && p in pruned ==> p == torn
      ensures forall id :: id in old(rows) && (old(rows)[id].kind != kind || old(rows)[id].source != source) ==>
                id in rows && rows[id] == old(rows)[id]
    {
      hide ManifestKey, SourcePoints;
      ok, pruned, torn := true, {}, Point("", 0);
      NoKeys(blobs, kind, source);
      for i := 0 to |prunes|
        invariant ok && pruned <= doomed
        invariant SourcePoints(rows, kind, source) == before - pruned
        invariant forall j :: 0 <= j < i ==> prunes[j].point in pruned
        invariant blobs == old(blobs) - KeysOf(kind, source, pruned)
        invariant forall id :: id in old(rows) && (old(rows)[id].kind != kind || old(rows)[id].source != source) ==>
                    id in rows && rows[id] == old(rows)[id]
      {
        var p := prunes[i].point;
        assert PointsOf(prunes)[i] == p;
        var fails := Fails(works);
        if fails {
          KeysGone(old(blobs), kind, source, pruned);
          return false, pruned, torn;  // the manifest could not be deleted
        }
        OneMoreKey(old(blobs), kind, source, pruned, p);
        blobs := blobs - {ManifestKey(kind, source, p.id)};
        ghost var left := pruned;
        pruned := pruned + {p};
        fails := Fails(works);
        if fails {
          KeysGone(old(blobs), kind, source, pruned);
          return false, pruned, p;  // the row could not be deleted
        }
        HasRow(rows, kind, source, p);
        if p.id in rows && rows[p.id] == Backup(kind, source, p.at) {
          RemoveRow(rows, kind, source, p.id);
          rows := rows - {p.id};
        }
        assert SourcePoints(rows, kind, source) == before - left - {p};
      }
      KeysGone(old(blobs), kind, source, pruned);
      assert pruned == doomed by {
        forall p | p in doomed ensures p in pruned {
          var i :| 0 <= i < |prunes| && PointsOf(prunes)[i] == p;
        }
      }
    }
  }

  lemma HasRow(rows: map<string, Backup>, kind: string, source: string, p: Point)
    ensures p in SourcePoints(rows, kind, source) <==> p.id in rows && rows[p.id] == Backup(kind, source, p.at)
  {
  }

  lemma NoKeys(blobs: map<string, Blob>, kind: string, source: string)
    ensures blobs - KeysOf(kind, source, {}) == blobs
  {
  }

  lemma OneMoreKey(blobs: map<string, Blob>, kind: string, source: string, pruned: set<Point>, p: Point)
    ensures blobs - KeysOf(kind, source, pruned) - {ManifestKey(kind, source, p.id)} == blobs - KeysOf(kind, source, pruned + {p})
  {
    hide ManifestKey;
    assert KeysOf(kind, source, pruned + {p}) == KeysOf(kind, source, pruned) + {ManifestKey(kind, source, p.id)};
  }

  lemma KeysGone(blobs: map<string, Blob>, kind: string, source: string, pruned: set<Point>)
    ensures forall p :: p in pruned ==> ManifestKey(kind, source, p.id) !in blobs - KeysOf(kind, source, pruned)
  {
    hide ManifestKey;
  }

  lemma {:induction false} ChooseMembers(s: seq<Point>, chosen: set<Point>)
    ensures forall p :: p in Choose(s, chosen) <==> p in s && p in chosen
  {
    if s != [] {
      ChooseMembers(s[..|s| - 1], chosen);
      assert s == s[..|s| - 1] + [s[|s| - 1]];
    }
  }

  lemma PrunesAll(prunes: seq<Decision>, sorted: seq<Point>, before: set<Point>, kept: set<Point>)
    requires Points(sorted) == before && PointsOf(prunes) == Choose(sorted, before - kept)
    ensures forall p :: p in before - kept <==> p in PointsOf(prunes)
    ensures |prunes| == 0 ==> before - kept == {}
  {
    ChooseMembers(sorted, before - kept);
    forall p | p in before
      ensures p in sorted
    {
      assert p in Points(sorted);
    }
  }

  /** A plan whose kept set is not empty keeps something. */
  lemma KeepsSome(plan: Plan, sorted: seq<Point>, kept: set<Point>, p: Point)
    requires p in kept && p in Points(sorted) && PointsOf(plan.keeps) == Choose(sorted, kept)
    ensures plan.keeps != []
  {
    ChooseMembers(sorted, kept);
    assert p in sorted;
    assert p in PointsOf(plan.keeps);
  }

  /** What pruning leaves of a source after every arrival is what one look at the whole history would keep. */
  lemma PrunedHistory(history: seq<Point>, policy: Policy)
    requires policy.Total() > 0 && history != []
    ensures PruneEach(history, policy) == Kept(Points(history), policy)
    ensures exists p :: IsNewest(Points(history), p) && p in PruneEach(history, policy)
  {
    PathIndependence(history, policy);
    assert history[0] in Points(history);
    var p := NewestExists(Points(history));
    NewestIsKept(Points(history), policy, p);
  }
}
