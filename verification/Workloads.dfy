/**
 The DVO views: `processWorkloadsRecommendations` summarises each namespace from a map of hit counts,
 `fillInWorkloadsData` details one namespace from its recommendations. Both grade by severity.
 */
module Workloads {
  import opened Sequences
  import opened Identifiers
  import opened RuleContent
  import opened ContentStorage
  import opened Clusters
  import opened ClusterList

  datatype Metadata = Metadata(recommendations: int, objects: int, reportedAt: string, lastCheckedAt: string,
                               highestSeverity: int, hitsBySeverity: map<int, int>)

  datatype Cluster = Cluster(uuid: string, displayName: string)

  datatype NamespaceHits = NamespaceHits(cluster: Cluster, namespace: string, metadata: Metadata,
                                         hitCount: map<string, int>)

  datatype Workload = Workload(cluster: Cluster, namespace: string, metadata: Metadata)

  datatype Recommendation = Recommendation(check: string, objects: seq<string>, details: string, resolution: string,
                                           moreInfo: string, reason: string, totalRisk: int, modified: Time)

  // ---------- grading ----------

  /** `k` contributes to severity `sev`. */
  predicate Graded(severities: map<RuleID, int>, k: RuleID, sev: int)
  {
    k in severities && severities[k] == sev
  }

  function CountAt(severities: map<RuleID, int>, hitCount: map<string, int>, sev: int, k: string): int
  {
    if Graded(severities, k, sev) && k in hitCount then hitCount[k] else 0
  }

  function HitsFromCounts(severities: map<RuleID, int>, unique: set<int>, hitCount: map<string, int>,
                          order: seq<string>): map<int, int>
  {
    map sev | sev in unique :: Sum(order, k => CountAt(severities, hitCount, sev, k))
  }

  function ObjectsAt(severities: map<RuleID, int>, sev: int, r: Recommendation): int
  {
    if Graded(severities, r.check, sev) then |r.objects| else 0
  }

  function HitsFromObjects(severities: map<RuleID, int>, unique: set<int>, recs: seq<Recommendation>): map<int, int>
  {
    map sev | sev in unique :: Sum(recs, r => ObjectsAt(severities, sev, r))
  }

  /** The running maximum over the known severities. */
  function Highest(start: int, severities: map<RuleID, int>, checks: seq<string>): int
  {
    if checks == [] then start else
      var h, k := Highest(start, severities, checks[..|checks| - 1]), checks[|checks| - 1];
      if k in severities && severities[k] > h then severities[k] else h
  }

  function ChecksOf(recs: seq<Recommendation>): seq<string>
  {
    Map(recs, (r: Recommendation) => r.check)
  }

  function Summarise(s: Snapshot, w: NamespaceHits, order: seq<string>): Metadata
    requires LookupsSafe(s)
  {
    w.metadata.(hitsBySeverity := HitsFromCounts(Severities(s), UniqueSeverities(s), w.hitCount, order),
                highestSeverity := Highest(w.metadata.highestSeverity, Severities(s), order))
  }

  function DetailMetadata(s: Snapshot, metadata: Metadata, recs: seq<Recommendation>): Metadata
    requires LookupsSafe(s)
  {
    metadata.(hitsBySeverity := HitsFromObjects(Severities(s), UniqueSeverities(s), recs),
              highestSeverity := Highest(metadata.highestSeverity, Severities(s), ChecksOf(recs)))
  }

  // ---------- the list ----------

  predicate Active(infoMap: map<ClusterName, ClusterInfo>, w: NamespaceHits)
  {
    w.cluster.uuid in infoMap
  }

  ghost predicate ValidOrders(ws: seq<NamespaceHits>, orders: seq<seq<string>>)
  {
    |orders| == |ws| && forall i :: 0 <= i < |ws| ==> Enumerates(orders[i], ws[i].hitCount.Keys)
  }

  ghost function ListOf(s: Snapshot, infoMap: map<ClusterName, ClusterInfo>, ws: seq<NamespaceHits>,
                        orders: seq<seq<string>>): seq<Workload>
    requires LookupsSafe(s) && |orders| == |ws|
  {
    if ws == [] then [] else
      var n := |ws| - 1;
      var before := ListOf(s, infoMap, ws[..n], orders[..n]);
      if !Active(infoMap, ws[n]) then before
      else before + [Workload(Cluster(ws[n].cluster.uuid, infoMap[ws[n].cluster.uuid].displayName), ws[n].namespace,
                              Summarise(s, ws[n], orders[n]))]
  }

  method ProcessWorkloadsRecommendations(infoMap: map<ClusterName, ClusterInfo>, ws: seq<NamespaceHits>,
                                         orders: seq<seq<string>>, storage: RulesWithContentStorage, ready: bool)
    returns (r: Outcome<seq<Workload>>)
    requires ValidOrders(ws, orders)
    ensures r.TimedOut? <==> !ready
    ensures r.Done? <==> ready && LookupsSafe(storage.View())
    ensures r.Done? ==> r.value == ListOf(storage.View(), infoMap, ws, orders)
  {
    if !ready {
      return TimedOut;
    }
    var info := storage.GetExternalRuleSeverities();
    if info.None? {
      return Crashed;
    }
    var list := [];
    for i := 0 to |ws|
      invariant list == ListOf(storage.View(), infoMap, ws[..i], orders[..i])
    {
      assert ws[..i + 1][..i] == ws[..i] && orders[..i + 1][..i] == orders[..i];
      var w := ws[i];
      if w.cluster.uuid !in infoMap {
        continue;
      }
      var hits, highest := GradeCounts(info.value, w, orders[i]);
      list := list + [Workload(Cluster(w.cluster.uuid, infoMap[w.cluster.uuid].displayName), w.namespace,
                               w.metadata.(hitsBySeverity := hits, highestSeverity := highest))];
    }
    assert ws[..|ws|] == ws && orders[..|ws|] == orders;
    return Done(list);
  }

  /** The inner loop over one namespace's map of hit counts. */
  method GradeCounts(info: SeverityInfo, w: NamespaceHits, order: seq<string>)
    returns (hits: map<int, int>, highest: int)
    requires Enumerates(order, w.hitCount.Keys)
    requires forall k :: k in info.severities ==> info.severities[k] in info.unique
    ensures hits == HitsFromCounts(info.severities, info.unique, w.hitCount, order)
    ensures highest == Highest(w.metadata.highestSeverity, info.severities, order)
  {
    hits := map sev | sev in info.unique :: 0;
    highest := w.metadata.highestSeverity;
    for i := 0 to |order|
      invariant hits == HitsFromCounts(info.severities, info.unique, w.hitCount, order[..i])
      invariant highest == Highest(w.metadata.highestSeverity, info.severities, order[..i])
    {
      CountsStep(info.severities, info.unique, w.hitCount, order, i);
      HighestStep(w.metadata.highestSeverity, info.severities, order, i);
      if order[i] in info.severities {
        var sev := info.severities[order[i]];
        hits := hits[sev := hits[sev] + w.hitCount[order[i]]];
        if sev > highest {
          highest := sev;
        }
      }
    }
    assert order[..|order|] == order;
  }

  lemma CountsStep(severities: map<RuleID, int>, unique: set<int>, hitCount: map<string, int>, order: seq<string>,
                   i: nat)
    requires i < |order| && order[i] in hitCount
    requires forall k :: k in severities ==> severities[k] in unique
    ensures var before, k := HitsFromCounts(severities, unique, hitCount, order[..i]), order[i];
            HitsFromCounts(severities, unique, hitCount, order[..i + 1]) ==
            if k in severities then before[severities[k] := before[severities[k]] + hitCount[k]] else before
  {
    forall sev | sev in unique
      ensures Sum(order[..i + 1], k => CountAt(severities, hitCount, sev, k)) ==
              Sum(order[..i], k => CountAt(severities, hitCount, sev, k)) + CountAt(severities, hitCount, sev, order[i])
    {
      SumStep(order, i, k => CountAt(severities, hitCount, sev, k));
    }
  }

  lemma HighestStep(start: int, severities: map<RuleID, int>, checks: seq<string>, i: nat)
    requires i < |checks|
    ensures var h, k := Highest(start, severities, checks[..i]), checks[i];
            Highest(start, severities, checks[..i + 1]) ==
            if k in severities && severities[k] > h then severities[k] else h
  {
    assert checks[..i + 1][..i] == checks[..i];
  }

  // ---------- the detail ----------

  function Fill(r: Recommendation, content: RuleWithContent): Recommendation
  {
    r.(details := content.description, resolution := content.resolution, moreInfo := content.moreInfo,
       reason := content.reason, totalRisk := content.totalRisk, modified := content.publishDate)
  }

  /** The recommendation after it got its content. */
  predicate Filled(now: Recommendation, was: Recommendation, content: RuleWithContent)
  {
    && now.check == was.check && now.objects == was.objects
    && now.details == content.description && now.resolution == content.resolution
    && now.moreInfo == content.moreInfo && now.reason == content.reason
    && now.totalRisk == content.totalRisk && now.modified == content.publishDate
  }

  predicate AllHaveContent(s: Snapshot, recs: seq<Recommendation>)
  {
    forall i :: 0 <= i < |recs| ==> recs[i].check in s.recommendations
  }

  /** Fills the recommendations in place; on success returns the new metadata. */
  method FillInWorkloadsData(metadata: Metadata, recs: array<Recommendation>, storage: RulesWithContentStorage,
                             ready: bool)
    returns (r: Outcome<Option<Metadata>>)
    modifies recs
    ensures r.TimedOut? <==> !ready
    ensures r.Done? <==> ready && LookupsSafe(storage.View())
    ensures r.Done? ==> (r.value.Some? <==> AllHaveContent(storage.View(), old(recs[..])))
    ensures r.Done? && r.value.Some? ==> r.value.value == DetailMetadata(storage.View(), metadata, old(recs[..]))
    ensures r.Done? && r.value.Some? ==> FilledUpTo(storage.View(), old(recs[..]), recs[..], recs.Length)
    ensures r.Done? && r.value.None? ==> FilledToFirstGap(storage.View(), old(recs[..]), recs[..])
    ensures !r.Done? ==> recs[..] == old(recs[..])
  {
    if !ready {
      return TimedOut;
    }
    var info := storage.GetExternalRuleSeverities();
    if info.None? {
      return Crashed;
    }
    var s := Snapshot(storage.rulesWithContent, storage.recommendationsWithContent,
                      storage.internalRuleIDs, storage.externalRuleIDs);
    var filled := FillRecommendations(s, info.value, metadata, recs);
    return Done(filled);
  }

  /** The first `n` recommendations carry their rule's content, the others are untouched. */
  ghost predicate FilledUpTo(s: Snapshot, was: seq<Recommendation>, now: seq<Recommendation>, n: nat)
  {
    && n <= |now| == |was|
    && (forall j :: 0 <= j < n ==>
          was[j].check in s.recommendations && Filled(now[j], was[j], s.recommendations[was[j].check]))
    && (forall j :: n <= j < |now| ==> now[j] == was[j])
  }

  lemma FilledStep(s: Snapshot, was: seq<Recommendation>, now: seq<Recommendation>, i: nat)
    requires FilledUpTo(s, was, now, i) && i < |was| && was[i].check in s.recommendations
    ensures FilledUpTo(s, was, now[i := Fill(was[i], s.recommendations[was[i].check])], i + 1)
  {
  }

  /** The recommendations before the first one without content are filled, the others untouched. */
  ghost predicate FilledToFirstGap(s: Snapshot, was: seq<Recommendation>, now: seq<Recommendation>)
  {
    exists n :: 0 <= n < |was| && FilledUpTo(s, was, now, n) && was[n].check !in s.recommendations
  }

  /** The loop of `fillInWorkloadsData`; None when a recommendation has no content. */
  method FillRecommendations(s: Snapshot, info: SeverityInfo, metadata: Metadata, recs: array<Recommendation>)
    returns (r: Option<Metadata>)
    requires LookupsSafe(s) && info == SeverityInfo(Severities(s), UniqueSeverities(s))
    modifies recs
    ensures r.Some? <==> AllHaveContent(s, old(recs[..]))
    ensures r.Some? ==> r.value == DetailMetadata(s, metadata, old(recs[..]))
    ensures r.Some? ==> FilledUpTo(s, old(recs[..]), recs[..], recs.Length)
    ensures r.None? ==> FilledToFirstGap(s, old(recs[..]), recs[..])
  {
    var hits := map sev | sev in info.unique :: 0;
    var highest := metadata.highestSeverity;
    ghost var was := recs[..];
    for i := 0 to recs.Length
      invariant hits == HitsFromObjects(info.severities, info.unique, was[..i])
      invariant highest == Highest(metadata.highestSeverity, info.severities, ChecksOf(was)[..i])
      invariant FilledUpTo(s, was, recs[..], i)
    {
      var rec := recs[i];
      assert rec == was[i] && ChecksOf(was)[i] == rec.check;
      hits, highest := GradeRecommendation(info, metadata, rec, hits, highest, was, i);
      if rec.check !in s.recommendations {
        return None;
      }
      FilledStep(s, was, recs[..], i);
      recs[i] := Fill(rec, s.recommendations[rec.check]);
    }
    assert was[..recs.Length] == was && ChecksOf(was)[..recs.Length] == ChecksOf(was);
    return Some(metadata.(hitsBySeverity := hits, highestSeverity := highest));
  }

  method GradeRecommendation(info: SeverityInfo, metadata: Metadata, rec: Recommendation, hits: map<int, int>,
                             highest: int,
                             ghost was: seq<Recommendation>, ghost i: nat)
    returns (hits': map<int, int>, highest': int)
    requires i < |was| && was[i] == rec
    requires forall k :: k in info.severities ==> info.severities[k] in info.unique
    requires hits == HitsFromObjects(info.severities, info.unique, was[..i])
    requires highest == Highest(metadata.highestSeverity, info.severities, ChecksOf(was)[..i])
    ensures hits' == HitsFromObjects(info.severities, info.unique, was[..i + 1])
    ensures highest' == Highest(metadata.highestSeverity, info.severities, ChecksOf(was)[..i + 1])
  {
    hits', highest' := hits, highest;
    ObjectsStep(info.severities, info.unique, was, i);
    HighestStep(metadata.highestSeverity, info.severities, ChecksOf(was), i);
    if rec.check in info.severities {
      var sev := info.severities[rec.check];
      hits' := hits[sev := hits[sev] + |rec.objects|];
      if sev > highest {
        highest' := sev;
      }
    }
  }

  lemma ObjectsStep(severities: map<RuleID, int>, unique: set<int>, recs: seq<Recommendation>, i: nat)
    requires i < |recs|
    requires forall k :: k in severities ==> severities[k] in unique
    ensures var before, r := HitsFromObjects(severities, unique, recs[..i]), recs[i];
            HitsFromObjects(severities, unique, recs[..i + 1]) ==
            if r.check in severities then before[severities[r.check] := before[severities[r.check]] + |r.objects|]
            else before
  {
    forall sev | sev in unique
      ensures Sum(recs[..i + 1], r => ObjectsAt(severities, sev, r)) ==
              Sum(recs[..i], r => ObjectsAt(severities, sev, r)) + ObjectsAt(severities, sev, recs[i])
    {
      SumStep(recs, i, r => ObjectsAt(severities, sev, r));
    }
  }

  // ---------- the highest severity ----------

  /** `h` is the maximum of `start` and the severities of the known checks. */
  ghost predicate IsMaximum(h: int, start: int, severities: map<RuleID, int>, checks: seq<string>)
  {
    && h >= start && (forall k :: k in checks && k in severities ==> h >= severities[k])
    && (h == start || exists k :: k in checks && k in severities && h == severities[k])
  }

  lemma {:induction false} HighestIsMaximum(start: int, severities: map<RuleID, int>, checks: seq<string>)
    ensures IsMaximum(Highest(start, severities, checks), start, severities, checks)
  {
    if checks != [] {
      var init, last := checks[..|checks| - 1], checks[|checks| - 1];
      assert checks == init + [last];
      HighestIsMaximum(start, severities, init);
    }
  }

  lemma HighestDependsOnSet(start: int, severities: map<RuleID, int>, a: seq<string>, b: seq<string>)
    requires forall k :: k in a <==> k in b
    ensures Highest(start, severities, a) == Highest(start, severities, b)
  {
    HighestIsMaximum(start, severities, a);
    HighestIsMaximum(start, severities, b);
  }

  // ---------- the two views agree ----------

  /** The summary of a namespace does not depend on the order in which its map is iterated. */
  lemma SummaryIgnoresOrder(s: Snapshot, w: NamespaceHits, a: seq<string>, b: seq<string>)
    requires LookupsSafe(s) && Enumerates(a, w.hitCount.Keys) && Enumerates(b, w.hitCount.Keys)
    ensures Summarise(s, w, a) == Summarise(s, w, b)
  {
    HighestDependsOnSet(w.metadata.highestSeverity, Severities(s), a, b);
    forall sev | sev in UniqueSeverities(s)
      ensures Sum(a, k => CountAt(Severities(s), w.hitCount, sev, k)) ==
                Sum(b, k => CountAt(Severities(s), w.hitCount, sev, k))
    {
      SumOfEnumerations(a, b, k => CountAt(Severities(s), w.hitCount, sev, k));
    }
  }

  /** So the whole list is independent of every map's iteration order. */
  lemma {:induction false} ListIgnoresOrder(s: Snapshot, infoMap: map<ClusterName, ClusterInfo>, ws: seq<NamespaceHits>,
                                            a: seq<seq<string>>, b: seq<seq<string>>)
    requires LookupsSafe(s) && ValidOrders(ws, a) && ValidOrders(ws, b)
    ensures ListOf(s, infoMap, ws, a) == ListOf(s, infoMap, ws, b)
  {
    if ws != [] {
      var n := |ws| - 1;
      ListIgnoresOrder(s, infoMap, ws[..n], a[..n], b[..n]);
      SummaryIgnoresOrder(s, ws[n], a[n], b[n]);
    }
  }

  function ObjectsOf(check: string, r: Recommendation): int
  {
    if r.check == check then |r.objects| else 0
  }

  /** The hit-count map is the object counts of the recommendations, grouped by check. */
  ghost predicate GroupedByCheck(hitCount: map<string, int>, recs: seq<Recommendation>)
  {
    && (forall k :: k in hitCount <==> k in ChecksOf(recs))
    && (forall k :: k in hitCount ==> hitCount[k] == Sum(recs, r => ObjectsOf(k, r)))
  }

  function CellAt(severities: map<RuleID, int>, sev: int, r: Recommendation, k: string): int
  {
    if r.check == k then ObjectsAt(severities, sev, r) else 0
  }

  /** One column of the grouping: the recommendations of one check. */
  lemma ColumnOfCheck(severities: map<RuleID, int>, hitCount: map<string, int>, recs: seq<Recommendation>, sev: int,
                      k: string)
    requires GroupedByCheck(hitCount, recs) && k in hitCount
    ensures CountAt(severities, hitCount, sev, k) == Sum(recs, r => CellAt(severities, sev, r, k))
  {
    if Graded(severities, k, sev) {
      SumCongruent(recs, r => CellAt(severities, sev, r, k), r => ObjectsOf(k, r));
    } else {
      SumZero(recs, r => CellAt(severities, sev, r, k));
    }
  }

  lemma GradesAgree(severities: map<RuleID, int>, hitCount: map<string, int>, recs: seq<Recommendation>,
                    order: seq<string>, sev: int)
    requires GroupedByCheck(hitCount, recs) && Enumerates(order, hitCount.Keys)
    ensures Sum(recs, r => ObjectsAt(severities, sev, r)) == Sum(order, k => CountAt(severities, hitCount, sev, k))
  {
    var byRec: Recommendation -> string -> int := r => k => CellAt(severities, sev, r, k);
    var byCheck: string -> Recommendation -> int := k => r => CellAt(severities, sev, r, k);
    var rowSum: Recommendation -> int := r => ObjectsAt(severities, sev, r);
    var colSum: string -> int := k => CountAt(severities, hitCount, sev, k);
    forall r | r in recs ensures rowSum(r) == Sum(order, byRec(r)) {
      var i :| 0 <= i < |recs| && recs[i] == r;
      assert ChecksOf(recs)[i] == r.check;
      SumIndicator(order, r.check, ObjectsAt(severities, sev, r), byRec(r));
    }
    forall k | k in order ensures colSum(k) == Sum(recs, byCheck(k)) {
      ColumnOfCheck(severities, hitCount, recs, sev, k);
      SumCongruent(recs, r => CellAt(severities, sev, r, k), byCheck(k));
    }
    SumExchange(recs, order, byRec, byCheck, rowSum, colSum);
    SumCongruent(recs, r => ObjectsAt(severities, sev, r), rowSum);
    SumCongruent(order, k => CountAt(severities, hitCount, sev, k), colSum);
  }

  /** If the list's hit counts are the detail's object counts grouped by check, both views show the
      same hits by severity and the same highest severity. */
  lemma ListAgreesWithDetail(s: Snapshot, w: NamespaceHits, order: seq<string>, recs: seq<Recommendation>)
    requires LookupsSafe(s) && Enumerates(order, w.hitCount.Keys) && GroupedByCheck(w.hitCount, recs)
    ensures Summarise(s, w, order) == DetailMetadata(s, w.metadata, recs)
  {
    HighestDependsOnSet(w.metadata.highestSeverity, Severities(s), order, ChecksOf(recs));
    forall sev | sev in UniqueSeverities(s)
      ensures Sum(recs, r => ObjectsAt(Severities(s), sev, r)) ==
                Sum(order, k => CountAt(Severities(s), w.hitCount, sev, k))
    {
      GradesAgree(Severities(s), w.hitCount, recs, order, sev);
    }
  }

  // ---------- what the two views show ----------

  /** The check is an external rule of that severity. */
  predicate OfSeverity(s: Snapshot, check: string, sev: int)
  {
    check in s.externalIDs && check in s.recommendations && s.recommendations[check].totalRisk == sev
  }

  /** `h` is the maximum of `start` and the severities of the external rules among the checks. */
  ghost predicate HighestOf(s: Snapshot, h: int, start: int, checks: seq<string>)
  {
    && h >= start && (forall k, sev :: k in checks && OfSeverity(s, k, sev) ==> h >= sev)
    && (h == start || exists k :: k in checks && OfSeverity(s, k, h))
  }

  /** The grades of a namespace: every severity of an external rule with its hits, and the highest. */
  ghost predicate Grades(s: Snapshot, now: Metadata, was: Metadata, checks: seq<string>, hits: int -> int)
  {
    && now.recommendations == was.recommendations && now.objects == was.objects
    && now.reportedAt == was.reportedAt && now.lastCheckedAt == was.lastCheckedAt
    && HighestOf(s, now.highestSeverity, was.highestSeverity, checks)
    && (forall sev :: sev in now.hitsBySeverity <==> exists k :: OfSeverity(s, k, sev))
    && (forall sev :: sev in now.hitsBySeverity ==> now.hitsBySeverity[sev] == hits(sev))
  }

  lemma SeveritiesAre(s: Snapshot, k: RuleID, sev: int)
    requires LookupsSafe(s)
    ensures Graded(Severities(s), k, sev) <==> OfSeverity(s, k, sev)
    ensures sev in UniqueSeverities(s) <==> exists r :: OfSeverity(s, r, sev)
  {
    if sev in UniqueSeverities(s) {
      var r :| r in s.externalIDs && s.recommendations[r].totalRisk == sev;
      assert OfSeverity(s, r, sev);
    }
  }

  lemma HighestIsHighestOf(s: Snapshot, start: int, checks: seq<string>)
    requires LookupsSafe(s)
    ensures HighestOf(s, Highest(start, Severities(s), checks), start, checks)
  {
    var h := Highest(start, Severities(s), checks);
    HighestIsMaximum(start, Severities(s), checks);
    if h != start {
      var k :| k in checks && k in Severities(s) && h == Severities(s)[k];
      assert OfSeverity(s, k, h);
    }
  }

  /** The hit count of a check, if it has the severity. */
  function HitsAt(s: Snapshot, hitCount: map<string, int>, sev: int, k: string): int
  {
    if k in hitCount && OfSeverity(s, k, sev) then hitCount[k] else 0
  }

  lemma SummaryIsExact(s: Snapshot, w: NamespaceHits, order: seq<string>, hits: int -> int)
    requires LookupsSafe(s)
    requires forall sev :: hits(sev) == Sum(order, k => HitsAt(s, w.hitCount, sev, k))
    ensures Grades(s, Summarise(s, w, order), w.metadata, order, hits)
  {
    HighestIsHighestOf(s, w.metadata.highestSeverity, order);
    forall sev
      ensures sev in UniqueSeverities(s) <==> exists r :: OfSeverity(s, r, sev)
      ensures Sum(order, k => CountAt(Severities(s), w.hitCount, sev, k)) == hits(sev)
    {
      SeveritiesAre(s, "", sev);
      SumCongruent(order, k => CountAt(Severities(s), w.hitCount, sev, k), k => HitsAt(s, w.hitCount, sev, k));
    }
  }

  /** The entry shows a namespace: its cluster with the display name AMS gives it, and its grades. */
  ghost predicate ShowsNamespace(s: Snapshot, infoMap: map<ClusterName, ClusterInfo>, e: Workload, w: NamespaceHits,
                                 order: seq<string>)
    requires w.cluster.uuid in infoMap
  {
    && e.cluster.uuid == w.cluster.uuid && e.cluster.displayName == infoMap[w.cluster.uuid].displayName
    && e.namespace == w.namespace
    && Grades(s, e.metadata, w.metadata, order, sev => Sum(order, k => HitsAt(s, w.hitCount, sev, k)))
  }

  lemma {:induction false} ListAt(s: Snapshot, infoMap: map<ClusterName, ClusterInfo>, ws: seq<NamespaceHits>,
                                  orders: seq<seq<string>>, active: nat -> bool, n: nat)
    requires LookupsSafe(s) && |orders| == |ws| && n <= |ws|
    requires forall i: nat :: active(i) <==> i < |ws| && ws[i].cluster.uuid in infoMap
    ensures var list, ps := ListOf(s, infoMap, ws[..n], orders[..n]), Where(n, active);
            && |list| == |ps|
            && forall j :: 0 <= j < |ps| ==> ShowsNamespace(s, infoMap, list[j], ws[ps[j]], orders[ps[j]])
  {
    if n > 0 {
      assert ws[..n][..n - 1] == ws[..n - 1] && orders[..n][..n - 1] == orders[..n - 1];
      ListAt(s, infoMap, ws, orders, active, n - 1);
      var w, order := ws[n - 1], orders[n - 1];
      SummaryIsExact(s, w, order, sev => Sum(order, k => HitsAt(s, w.hitCount, sev, k)));
    }
  }

  /** The list shows exactly the namespaces of active clusters, in order, each graded by the hit counts of
      its checks. */
  lemma ListIsExact(s: Snapshot, infoMap: map<ClusterName, ClusterInfo>, ws: seq<NamespaceHits>,
                    orders: seq<seq<string>>, active: nat -> bool)
    requires LookupsSafe(s) && ValidOrders(ws, orders)
    requires forall i: nat :: active(i) <==> i < |ws| && ws[i].cluster.uuid in infoMap
    ensures var list, ps := ListOf(s, infoMap, ws, orders), Where(|ws|, active);
            && |list| == |ps|
            && forall j :: 0 <= j < |ps| ==> ShowsNamespace(s, infoMap, list[j], ws[ps[j]], orders[ps[j]])
  {
    assert ws[..|ws|] == ws && orders[..|ws|] == orders;
    ListAt(s, infoMap, ws, orders, active, |ws|);
  }

  /** The objects of a recommendation, if its check has the severity. */
  function ObjectsWith(s: Snapshot, sev: int, rec: Recommendation): int
  {
    if OfSeverity(s, rec.check, sev) then |rec.objects| else 0
  }

  /** The detail is graded by the objects of its recommendations. */
  lemma DetailIsExact(s: Snapshot, metadata: Metadata, recs: seq<Recommendation>, hits: int -> int)
    requires LookupsSafe(s)
    requires forall sev :: hits(sev) == Sum(recs, rec => ObjectsWith(s, sev, rec))
    ensures Grades(s, DetailMetadata(s, metadata, recs), metadata, Map(recs, (rec: Recommendation) => rec.check), hits)
  {
    HighestIsHighestOf(s, metadata.highestSeverity, ChecksOf(recs));
    forall sev
      ensures sev in UniqueSeverities(s) <==> exists r :: OfSeverity(s, r, sev)
      ensures Sum(recs, r => ObjectsAt(Severities(s), sev, r)) == hits(sev)
    {
      SeveritiesAre(s, "", sev);
      SumCongruent(recs, r => ObjectsAt(Severities(s), sev, r), rec => ObjectsWith(s, sev, rec));
    }
  }
}
