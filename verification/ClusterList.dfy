/**
 The cluster list: `matchClusterInfoAndUserData` joins AMS clusters, rule hits, acknowledgements,
 per-cluster disables and rule content into one row per cluster.
 */
module ClusterList {
  import opened Sequences
  import opened Identifiers
  import opened RuleContent
  import opened ContentStorage
  import opened DisabledRules
  import opened Clusters

  /** The aggregator's answer for one cluster. */
  datatype ClusterHits = ClusterHits(createdAt: string, version: string, recommendations: seq<RuleID>)

  datatype ClusterView = ClusterView(clusterID: ClusterName, clusterName: string, managed: bool, lastCheckedAt: string,
                                     version: string, totalHitCount: nat, hitsByTotalRisk: map<int, int>)

  /** How a view ends: an answer, the content timeout, or a nil dereference in a content lookup. */
  datatype Outcome<+T> = Done(value: T) | TimedOut | Crashed

  /** The uint32 that holds `n`: the remainder modulo 2^32. */
  function Wrap32(n: nat): (r: nat)
    ensures n < 0x1_0000_0000 ==> r == n
  {
    if n < 0x1_0000_0000 then n else Wrap32(n - 0x1_0000_0000)
  }

  /** Go's `++` on a uint32 counter. */
  function Increment32(n: nat): nat
  {
    if n == 0xFFFF_FFFF then 0 else n + 1
  }

  // ---------- the filtered hit relation ----------

  predicate Acked(acks: map<RuleID, bool>, r: RuleID)
  {
    r in acks && acks[r]
  }

  predicate EnabledOn(acks: map<RuleID, bool>, perCluster: map<ClusterName, seq<RuleID>>, c: ClusterName, r: RuleID)
  {
    !Acked(acks, r) && r !in At(perCluster, c)
  }

  function EnabledHits(hits: seq<RuleID>, c: ClusterName, acks: map<RuleID, bool>,
                       perCluster: map<ClusterName, seq<RuleID>>): seq<RuleID>
  {
    Filter(hits, r => EnabledOn(acks, perCluster, c, r))
  }

  /** The rule is external with content, and a managed cluster only counts managed rules. */
  predicate Countable(s: Snapshot, managed: bool, r: RuleID)
    requires LookupsSafe(s)
  {
    r in s.externalIDs && (managed ==> s.recommendations[r].osdCustomer)
  }

  function CountedHits(s: Snapshot, managed: bool, enabled: seq<RuleID>): seq<RuleID>
    requires LookupsSafe(s)
  {
    Filter(enabled, r => Countable(s, managed, r))
  }

  function RiskCount(s: Snapshot, counted: seq<RuleID>, risk: int): nat
  {
    |Filter(counted, r => HasRisk(s, r, risk))|
  }

  function Histogram(s: Snapshot, counted: seq<RuleID>): map<int, int>
    requires LookupsSafe(s)
  {
    map risk | risk in UniqueSeverities(s) :: RiskCount(s, counted, risk)
  }

  function HitsOf(hits: map<ClusterName, ClusterHits>, c: ClusterName): seq<RuleID>
  {
    if c in hits then hits[c].recommendations else []
  }

  /** The rules counted in the row of one cluster. */
  function RowHits(s: Snapshot, info: ClusterInfo, hits: map<ClusterName, ClusterHits>, acks: map<RuleID, bool>,
                   perCluster: map<ClusterName, seq<RuleID>>): seq<RuleID>
    requires LookupsSafe(s)
  {
    CountedHits(s, info.managed, EnabledHits(HitsOf(hits, info.id), info.id, acks, perCluster))
  }

  function Row(s: Snapshot, info: ClusterInfo, hits: map<ClusterName, ClusterHits>, acks: map<RuleID, bool>,
               perCluster: map<ClusterName, seq<RuleID>>): ClusterView
    requires LookupsSafe(s)
  {
    var counted := RowHits(s, info, hits, acks, perCluster);
    ClusterView(info.id, info.displayName, info.managed,
                if info.id in hits then hits[info.id].createdAt else "",
                if info.id in hits then hits[info.id].version else "",
                Wrap32(|counted|),
                Histogram(s, counted))
  }

  function Rows(s: Snapshot, infos: seq<ClusterInfo>, hits: map<ClusterName, ClusterHits>, acks: map<RuleID, bool>,
                perCluster: map<ClusterName, seq<RuleID>>): seq<ClusterView>
    requires LookupsSafe(s)
  {
    Map(infos, info => Row(s, info, hits, acks, perCluster))
  }

  // ---------- the code ----------

  method FilterOutDisabledRules(hits: seq<RuleID>, c: ClusterName, acks: map<RuleID, bool>,
                                perCluster: map<ClusterName, seq<RuleID>>) returns (enabled: seq<RuleID>)
    ensures enabled == EnabledHits(hits, c, acks, perCluster)
  {
    enabled := [];
    for i := 0 to |hits|
      invariant enabled == EnabledHits(hits[..i], c, acks, perCluster)
    {
      assert hits[..i + 1][..i] == hits[..i];
      if hits[i] in acks && acks[hits[i]] {
        continue;
      }
      var ruleDisabled := false;
      if c in perCluster {
        var list := perCluster[c];
        for j := 0 to |list|
          invariant ruleDisabled <==> hits[i] in list[..j]
        {
          if list[j] == hits[i] {
            ruleDisabled := true;
          }
        }
        assert list[..|list|] == list;
      }
      if !ruleDisabled {
        enabled := enabled + [hits[i]];
      }
    }
    assert hits[..|hits|] == hits;
  }

  method BuildRow(s: Snapshot, info: ClusterInfo, hits: map<ClusterName, ClusterHits>, acks: map<RuleID, bool>,
                  perCluster: map<ClusterName, seq<RuleID>>, severities: SeverityInfo, managedInfo: map<RuleID, bool>)
    returns (row: ClusterView)
    requires LookupsSafe(s)
    requires severities == SeverityInfo(Severities(s), UniqueSeverities(s)) && managedInfo == ManagedInfo(s)
    ensures row == Row(s, info, hits, acks, perCluster)
  {
    var byRisk := map risk | risk in severities.unique :: 0;
    var total := 0;
    var lastChecked, version := "", "";
    if info.id in hits {
      lastChecked, version := hits[info.id].createdAt, hits[info.id].version;
      var enabled := FilterOutDisabledRules(hits[info.id].recommendations, info.id, acks, perCluster);
      byRisk, total := CountHits(s, info.managed, enabled, severities, managedInfo);
    } else {
      assert RowHits(s, info, hits, acks, perCluster) == [];
    }
    row := ClusterView(info.id, info.displayName, info.managed, lastChecked, version, total, byRisk);
  }

  lemma CountedStep(s: Snapshot, managed: bool, enabled: seq<RuleID>, i: nat)
    requires LookupsSafe(s) && i < |enabled|
    ensures CountedHits(s, managed, enabled[..i + 1]) ==
            if Countable(s, managed, enabled[i]) then CountedHits(s, managed, enabled[..i]) + [enabled[i]]
            else CountedHits(s, managed, enabled[..i])
  {
    assert enabled[..i + 1][..i] == enabled[..i];
  }

  lemma RiskCountSnoc(s: Snapshot, counted: seq<RuleID>, r: RuleID, risk: int)
    ensures RiskCount(s, counted + [r], risk) == RiskCount(s, counted, risk) + if HasRisk(s, r, risk) then 1 else 0
  {
    assert (counted + [r])[..|counted|] == counted;
  }

  lemma HistogramStep(s: Snapshot, counted: seq<RuleID>, r: RuleID)
    requires LookupsSafe(s) && r in s.externalIDs
    ensures var risk := s.recommendations[r].totalRisk;
            risk in Histogram(s, counted)
            && Histogram(s, counted + [r]) == Histogram(s, counted)[risk := Histogram(s, counted)[risk] + 1]
  {
    assert s.recommendations[r].totalRisk in UniqueSeverities(s);
    forall risk | risk in UniqueSeverities(s)
      ensures RiskCount(s, counted + [r], risk) == RiskCount(s, counted, risk) + if HasRisk(s, r, risk) then 1 else 0
    {
      RiskCountSnoc(s, counted, r, risk);
    }
  }

  lemma {:induction false} WrapStep(n: nat)
    ensures Increment32(Wrap32(n)) == Wrap32(n + 1)
  {
    if n >= 0x1_0000_0000 {
      WrapStep(n - 0x1_0000_0000);
    }
  }

  /** The counters of a row after the hits in `counted`. */
  ghost predicate Counting(s: Snapshot, counted: seq<RuleID>, byRisk: map<int, int>, total: nat)
    requires LookupsSafe(s)
  {
    total == Wrap32(|counted|) && byRisk == Histogram(s, counted)
  }

  /** The counters wrap around: 2^32 more hits show the same number. */
  lemma WrapsAround(n: nat)
    ensures Wrap32(n + 0x1_0000_0000) == Wrap32(n)
    ensures Increment32(0xFFFF_FFFF) == 0 && forall k: nat :: k < 0xFFFF_FFFF ==> Increment32(k) == k + 1
  {
  }

  /** One pass of the counting loop, for a rule that is counted. */
  method CountHit(s: Snapshot, r: RuleID, severities: SeverityInfo, byRisk: map<int, int>, total: nat,
                  ghost counted: seq<RuleID>) returns (byRisk': map<int, int>, total': nat)
    requires LookupsSafe(s) && r in s.externalIDs && severities.severities == Severities(s)
    requires Counting(s, counted, byRisk, total)
    ensures Counting(s, counted + [r], byRisk', total')
  {
    HistogramStep(s, counted, r);
    WrapStep(|counted|);
    var risk := severities.severities[r];
    byRisk' := byRisk[risk := byRisk[risk] + 1];
    total' := Increment32(total);
  }

  method CountHits(s: Snapshot, managed: bool, enabled: seq<RuleID>, severities: SeverityInfo,
                   managedInfo: map<RuleID, bool>)
    returns (byRisk: map<int, int>, total: nat)
    requires LookupsSafe(s)
    requires severities == SeverityInfo(Severities(s), UniqueSeverities(s)) && managedInfo == ManagedInfo(s)
    ensures total == Wrap32(|CountedHits(s, managed, enabled)|)
    ensures byRisk == Histogram(s, CountedHits(s, managed, enabled))
  {
    byRisk := map risk | risk in severities.unique :: 0;
    total := 0;
    ghost var counted := [];
    assert Counting(s, counted, byRisk, total);
    for i := 0 to |enabled|
      invariant counted == CountedHits(s, managed, enabled[..i]) && Counting(s, counted, byRisk, total)
    {
      var r := enabled[i];
      CountedStep(s, managed, enabled, i);
      if managed && !(r in managedInfo && managedInfo[r]) {
        continue;
      }
      if r in severities.severities {
        byRisk, total := CountHit(s, r, severities, byRisk, total, counted);
        counted := counted + [r];
      }
    }
    assert enabled[..|enabled|] == enabled;
  }

  /** `matchClusterInfoAndUserData`; `ready` is whether the content directory was set. */
  method MatchClusterInfoAndUserData(infos: seq<ClusterInfo>, hits: map<ClusterName, ClusterHits>,
                                     acks: map<RuleID, bool>, perCluster: map<ClusterName, seq<RuleID>>,
                                     storage: RulesWithContentStorage, ready: bool)
    returns (r: Outcome<seq<ClusterView>>)
    ensures r.TimedOut? <==> !ready
    ensures r.Done? <==> ready && LookupsSafe(storage.View())
    ensures r.Done? ==> r.value == Rows(storage.View(), infos, hits, acks, perCluster)
  {
    if !ready {
      return TimedOut;
    }
    var severities := storage.GetExternalRuleSeverities();
    var managedInfo := storage.GetExternalRulesManagedInfo();
    if severities.None? || managedInfo.None? {
      return Crashed;
    }
    var rows := [];
    ghost var s := storage.View();
    for i := 0 to |infos|
      invariant rows == Rows(s, infos[..i], hits, acks, perCluster)
    {
      var snapshot := Snapshot(storage.rulesWithContent, storage.recommendationsWithContent,
                               storage.internalRuleIDs, storage.externalRuleIDs);
      var row := BuildRow(snapshot, infos[i], hits, acks, perCluster, severities.value, managedInfo.value);
      rows := rows + [row];
    }
    assert infos[..|infos|] == infos;
    return Done(rows);
  }

  // ---------- one row ----------

  /** Rule `r` counts on cluster `info`: neither acknowledged nor disabled there, listed as external, and
      meant for managed clusters if this is one. */
  predicate CountsOn(s: Snapshot, info: ClusterInfo, acks: map<RuleID, bool>,
                     perCluster: map<ClusterName, seq<RuleID>>, r: RuleID)
  {
    && !(r in acks && acks[r]) && !(info.id in perCluster && r in perCluster[info.id])
    && r in s.externalIDs && (info.managed ==> r in s.recommendations && s.recommendations[r].osdCustomer)
  }

  lemma RowHitsAre(s: Snapshot, info: ClusterInfo, hits: map<ClusterName, ClusterHits>, acks: map<RuleID, bool>,
                   perCluster: map<ClusterName, seq<RuleID>>)
    requires LookupsSafe(s)
    ensures RowHits(s, info, hits, acks, perCluster) ==
            Filter(HitsOf(hits, info.id), r => CountsOn(s, info, acks, perCluster, r))
  {
    FilterFilter(HitsOf(hits, info.id), r => EnabledOn(acks, perCluster, info.id, r),
                 r => Countable(s, info.managed, r), r => CountsOn(s, info, acks, perCluster, r));
  }

  /** Row `i` of the list shows cluster `i`: its record from AMS, the aggregator's times for it, and the
      hits that count on it, in total and by each total risk of an external rule. */
  lemma RowIsExact(s: Snapshot, infos: seq<ClusterInfo>, hits: map<ClusterName, ClusterHits>,
                   acks: map<RuleID, bool>, perCluster: map<ClusterName, seq<RuleID>>, i: nat)
    requires LookupsSafe(s) && i < |infos|
    ensures |Rows(s, infos, hits, acks, perCluster)| == |infos|
    ensures var row, info := Rows(s, infos, hits, acks, perCluster)[i], infos[i];
            var counted := Filter(if info.id in hits then hits[info.id].recommendations else [],
                                  r => CountsOn(s, info, acks, perCluster, r));
            && row.clusterID == info.id && row.clusterName == info.displayName && row.managed == info.managed
            && (info.id in hits ==>
                  row.lastCheckedAt == hits[info.id].createdAt && row.version == hits[info.id].version)
            && (info.id !in hits ==> row.lastCheckedAt == "" && row.version == "")
            && row.totalHitCount == Wrap32(|counted|)
            && (forall risk :: risk in row.hitsByTotalRisk
                               <==> exists r :: r in s.externalIDs && s.recommendations[r].totalRisk == risk)
            && (forall risk :: risk in row.hitsByTotalRisk ==>
                  row.hitsByTotalRisk[risk] == |Filter(counted, r => HasRisk(s, r, risk))|)
  {
    RowHitsAre(s, infos[i], hits, acks, perCluster);
  }

  /** A rule is counted in a row as often as it hits, unless a filter removes it altogether. */
  lemma RowMultiplicity(s: Snapshot, info: ClusterInfo, hits: map<ClusterName, ClusterHits>, acks: map<RuleID, bool>,
                        perCluster: map<ClusterName, seq<RuleID>>, r: RuleID)
    requires LookupsSafe(s)
    ensures multiset(RowHits(s, info, hits, acks, perCluster))[r] ==
            if EnabledOn(acks, perCluster, info.id, r) && Countable(s, info.managed, r)
            then multiset(HitsOf(hits, info.id))[r] else 0
  {
    FilterMultiplicity(HitsOf(hits, info.id), r => EnabledOn(acks, perCluster, info.id, r), r);
    FilterMultiplicity(EnabledHits(HitsOf(hits, info.id), info.id, acks, perCluster),
                       r => Countable(s, info.managed, r), r);
  }

  predicate HasRisk(s: Snapshot, r: RuleID, risk: int)
  {
    r in s.recommendations && s.recommendations[r].totalRisk == risk
  }

  /** Every counted rule has exactly one listed risk. */
  lemma RisksSumUp(s: Snapshot, counted: seq<RuleID>, risks: seq<int>, riskCount: int -> int)
    requires LookupsSafe(s) && forall r :: r in counted ==> r in s.externalIDs
    requires Enumerates(risks, UniqueSeverities(s))
    requires forall risk :: risk in risks ==> riskCount(risk) == RiskCount(s, counted, risk)
    ensures Sum(risks, riskCount) == |counted|
  {
    var byRule: RuleID -> int -> int := r => risk => if HasRisk(s, r, risk) then 1 else 0;
    var byRisk: int -> RuleID -> int := risk => r => if HasRisk(s, r, risk) then 1 else 0;
    var one: RuleID -> int := r => 1;
    forall r | r in counted ensures Sum(risks, byRule(r)) == 1 {
      assert s.recommendations[r].totalRisk in UniqueSeverities(s);
      SumIndicator(risks, s.recommendations[r].totalRisk, 1, byRule(r));
    }
    forall risk | risk in risks ensures riskCount(risk) == Sum(counted, byRisk(risk)) {
      FilterLength(counted, r => HasRisk(s, r, risk), byRisk(risk));
    }
    SumExchange(counted, risks, byRule, byRisk, one, riskCount);
    SumOnes(counted, one);
  }

  /** The hits by total risk of a row add up to its total, which is a uint32. */
  lemma RowSumsToTotal(s: Snapshot, info: ClusterInfo, hits: map<ClusterName, ClusterHits>, acks: map<RuleID, bool>,
                       perCluster: map<ClusterName, seq<RuleID>>, risks: seq<int>)
    requires LookupsSafe(s) && Enumerates(risks, Row(s, info, hits, acks, perCluster).hitsByTotalRisk.Keys)
    ensures var row := Row(s, info, hits, acks, perCluster);
            var sum := Sum(risks, risk => Get(row.hitsByTotalRisk, risk));
            && sum >= 0 && row.totalHitCount == Wrap32(sum)
            && (|HitsOf(hits, info.id)| < 0x1_0000_0000 ==> row.totalHitCount == sum)
  {
    var row, counted := Row(s, info, hits, acks, perCluster), RowHits(s, info, hits, acks, perCluster);
    RisksSumUp(s, counted, risks, risk => Get(row.hitsByTotalRisk, risk));
  }
}
