/**
 The recommendation list: `getFilteredRecommendationsList` walks rule IDs, counts impacted clusters
 and converts content into list entries.
 */
module Recommendations {
  import opened Sequences
  import opened Identifiers
  import opened RuleContent
  import opened DisabledRules
  import opened Clusters
  import opened ClusterList

  datatype ImpactingFlag = OnlyImpacting | IncludingImpacting | ExcludingImpacting

  datatype RecommendationView = RecommendationView(
    ruleID: RuleID, description: string, generic: string, publishDate: Time, totalRisk: nat, resolutionRisk: nat,
    impact: nat, likelihood: nat, tags: seq<string>, disabled: bool, impactedClustersCnt: nat)

  datatype ListError = ContentTimeout | NotFound(ruleID: RuleID) | OutOfRange

  /** The list is returned even beside an error. */
  datatype ListResult = ListResult(list: seq<RecommendationView>, err: Option<ListError>)

  /** Everything the walk reads besides the ID list. */
  datatype Inputs = Inputs(s: Snapshot, ready: bool, infos: seq<ClusterInfo>, impacting: map<RuleID, seq<ClusterName>>,
                           acks: map<RuleID, bool>, perRule: map<RuleID, seq<ClusterName>>)

  function SafeUint8(value: int): (r: Option<nat>)
    ensures r.Some? <==> 0 <= value <= 255
    ensures r.Some? ==> r.value == value
  {
    if value < 0 then None else if value > 255 then None else Some(value)
  }

  function SafeUint32(value: int): (r: Option<nat>)
    ensures r.Some? <==> 0 <= value < 0x1_0000_0000
    ensures r.Some? ==> r.value == value
  {
    if value < 0 then None else if value > 0xFFFF_FFFF then None else Some(value)
  }

  function ParseRecommendationListView(r: RuleID, content: RuleWithContent, disabled: bool, cnt: nat)
    : Option<RecommendationView>
  {
    var totalRisk, resolutionRisk := SafeUint8(content.totalRisk), SafeUint8(content.resolutionRisk);
    var impact, likelihood := SafeUint8(content.impact), SafeUint8(content.likelihood);
    if totalRisk.None? || resolutionRisk.None? || impact.None? || likelihood.None? then None
    else Some(RecommendationView(r, content.description, content.generic, content.publishDate, totalRisk.value,
                                 resolutionRisk.value, impact.value, likelihood.value, content.tags, disabled, cnt))
  }

  // ---------- one rule ----------

  datatype Visit = Missing | Listed(view: RecommendationView) | Fails(error: ListError)

  function EnabledClusters(impacted: seq<ClusterName>, disabled: seq<ClusterName>): seq<ClusterName>
  {
    Filter(impacted, c => c !in disabled)
  }

  /** A cluster unknown to AMS reads as the zero record, which is not managed. */
  predicate Managed(infoMap: map<ClusterName, ClusterInfo>, c: ClusterName)
  {
    c in infoMap && infoMap[c].managed
  }

  /** The clusters a rule is counted on. */
  function CountedClusters(x: Inputs, r: RuleID, osdCustomer: bool): seq<ClusterName>
  {
    Filter(EnabledClusters(At(x.impacting, r), At(x.perRule, r)),
           c => osdCustomer || !Managed(InfoMap(x.infos), c))
  }

  /** What becomes of one rule that is not skipped. */
  function Look(x: Inputs, r: RuleID): Visit
  {
    if !x.ready then Fails(ContentTimeout)
    else if r !in x.s.recommendations then Missing
    else
      var content := x.s.recommendations[r];
      var n := |CountedClusters(x, r, content.osdCustomer)|;
      if content.osdCustomer && n > 0xFFFF_FFFF then Fails(OutOfRange)
      else
        match ParseRecommendationListView(r, content, r in x.acks, Wrap32(n))
        case None => Fails(OutOfRange)
        case Some(view) => Listed(view)
  }

  // ---------- the walk ----------

  datatype Progress = Progress(list: seq<RecommendationView>, err: Option<ListError>, stopped: bool)

  function Advance(p: Progress, r: RuleID, v: Visit): Progress
  {
    if p.stopped then p else
    match v
    case Missing => Progress(p.list, Some(NotFound(r)), false)
    case Listed(view) => Progress(p.list + [view], None, false)
    case Fails(e) => Progress(p.list, Some(e), true)
  }

  function Walk(x: Inputs, ids: seq<RuleID>): Progress
  {
    if ids == [] then Progress([], None, false)
    else Advance(Walk(x, ids[..|ids| - 1]), ids[|ids| - 1], Look(x, ids[|ids| - 1]))
  }

  predicate Skipped(x: Inputs, flag: ImpactingFlag, r: RuleID)
  {
    flag.ExcludingImpacting? && r in x.impacting
  }

  function Visited(x: Inputs, flag: ImpactingFlag, ids: seq<RuleID>): seq<RuleID>
  {
    Filter(ids, r => !Skipped(x, flag, r))
  }

  /** The result for a flag; `order` is the order in which the impacting map is iterated. */
  function Result(x: Inputs, flag: ImpactingFlag, order: seq<RuleID>): ListResult
  {
    if !flag.OnlyImpacting? && !x.ready then ListResult([], Some(ContentTimeout)) else
      var p := Walk(x, Visited(x, flag, if flag.OnlyImpacting? then order else x.s.externalIDs));
      ListResult(p.list, p.err)
  }

  // ---------- the code ----------

  method ExcludeDisabledClusters(impacting: seq<ClusterName>, disabledClusters: seq<ClusterName>)
    returns (kept: seq<ClusterName>)
    ensures kept == EnabledClusters(impacting, disabledClusters)
  {
    kept := [];
    for i := 0 to |impacting|
      invariant kept == EnabledClusters(impacting[..i], disabledClusters)
    {
      assert impacting[..i + 1][..i] == impacting[..i];
      var disabled, j := false, 0;
      while j < |disabledClusters| && !disabled
        invariant 0 <= j <= |disabledClusters|
        invariant disabled <==> impacting[i] in disabledClusters[..j]
        decreases |disabledClusters| - j
      {
        disabled := impacting[i] == disabledClusters[j];
        j := j + 1;
      }
      if !disabled {
        assert disabledClusters[..j] == disabledClusters;
        kept := kept + [impacting[i]];
      }
    }
    assert impacting[..|impacting|] == impacting;
  }

  function Unmanaged(clusters: seq<ClusterName>, infoMap: map<ClusterName, ClusterInfo>): seq<ClusterName>
  {
    Filter(clusters, c => !Managed(infoMap, c))
  }

  lemma UnmanagedStep(clusters: seq<ClusterName>, infoMap: map<ClusterName, ClusterInfo>, i: nat)
    requires i < |clusters|
    ensures |Unmanaged(clusters[..i + 1], infoMap)| ==
            |Unmanaged(clusters[..i], infoMap)| + if Managed(infoMap, clusters[i]) then 0 else 1
  {
    assert clusters[..i + 1][..i] == clusters[..i];
  }

  /** The counting loop for a rule that does not apply to managed clusters. */
  method CountUnmanaged(clusters: seq<ClusterName>, infoMap: map<ClusterName, ClusterInfo>) returns (cnt: nat)
    ensures cnt == Wrap32(|Unmanaged(clusters, infoMap)|)
  {
    cnt := 0;
    ghost var counted := 0;
    for i := 0 to |clusters|
      invariant counted == |Unmanaged(clusters[..i], infoMap)|
      invariant cnt == Wrap32(counted)
    {
      UnmanagedStep(clusters, infoMap, i);
      if !(clusters[i] in infoMap && infoMap[clusters[i]].managed) {
        WrapStep(counted);
        cnt := Increment32(cnt);
        counted := counted + 1;
      }
    }
    assert clusters[..|clusters|] == clusters;
  }

  /** The part of the loop body after the impacting check. */
  method VisitRule(x: Inputs, infoMap: map<ClusterName, ClusterInfo>, r: RuleID) returns (v: Visit)
    requires infoMap == InfoMap(x.infos)
    ensures v == Look(x, r)
  {
    var clusters := if r in x.impacting then x.impacting[r] else [];
    if r in x.perRule {
      clusters := ExcludeDisabledClusters(clusters, x.perRule[r]);
    } else {
      FilterAll(clusters, c => c !in At(x.perRule, r));
    }
    assert clusters == EnabledClusters(At(x.impacting, r), At(x.perRule, r));
    if !x.ready {
      return Fails(ContentTimeout);
    }
    if r !in x.s.recommendations {
      return Missing;
    }
    var content := x.s.recommendations[r];
    var cnt := 0;
    if !content.osdCustomer {
      FilterCongruent(clusters, c => !Managed(infoMap, c), c => content.osdCustomer || !Managed(InfoMap(x.infos), c));
      cnt := CountUnmanaged(clusters, infoMap);
    } else {
      FilterAll(clusters, c => content.osdCustomer || !Managed(InfoMap(x.infos), c));
      var converted := SafeUint32(|clusters|);
      if converted.None? {
        return Fails(OutOfRange);
      }
      cnt := converted.value;
    }
    var view := ParseRecommendationListView(r, content, r in x.acks, cnt);
    if view.None? {
      return Fails(OutOfRange);
    }
    return Listed(view.value);
  }

  method GetFilteredRecommendationsList(x: Inputs, flag: ImpactingFlag, order: seq<RuleID>) returns (result: ListResult)
    requires Enumerates(order, x.impacting.Keys)
    ensures result == Result(x, flag, order)
  {
    var infoMap := ClusterInfoArrayToMap(x.infos);
    var ids := order;
    if flag != OnlyImpacting {
      if !x.ready {
        return ListResult([], Some(ContentTimeout));
      }
      ids := x.s.externalIDs;
    }
    result := ListRules(x, infoMap, flag, ids);
  }

  /** The loop over the selected IDs. */
  method ListRules(x: Inputs, infoMap: map<ClusterName, ClusterInfo>, flag: ImpactingFlag, ids: seq<RuleID>)
    returns (result: ListResult)
    requires infoMap == InfoMap(x.infos)
    ensures var p := Walk(x, Visited(x, flag, ids)); result == ListResult(p.list, p.err)
  {
    var list, err := [], None;
    for i := 0 to |ids|
      invariant Walk(x, Visited(x, flag, ids[..i])) == Progress(list, err, false)
    {
      VisitedStep(x, flag, ids, i);
      if ids[i] in x.impacting && flag == ExcludingImpacting {
        continue;
      }
      var v := VisitRule(x, infoMap, ids[i]);
      match v
      case Missing => err := Some(NotFound(ids[i]));
      case Listed(view) => list, err := list + [view], None;
      case Fails(e) =>
        StoppedAt(x, flag, ids, i, e);
        return ListResult(list, Some(e));
    }
    assert ids[..|ids|] == ids;
    return ListResult(list, err);
  }

  lemma VisitedStep(x: Inputs, flag: ImpactingFlag, ids: seq<RuleID>, i: nat)
    requires i < |ids|
    ensures var before := Visited(x, flag, ids[..i]);
            Visited(x, flag, ids[..i + 1]) == if Skipped(x, flag, ids[i]) then before else before + [ids[i]]
    ensures !Skipped(x, flag, ids[i]) ==>
              Walk(x, Visited(x, flag, ids[..i + 1])) ==
                Advance(Walk(x, Visited(x, flag, ids[..i])), ids[i], Look(x, ids[i]))
  {
    FilterStep(ids, i, r => !Skipped(x, flag, r));
    var before := Visited(x, flag, ids[..i]);
    assert (before + [ids[i]])[..|before|] == before;
  }

  lemma VisitedAppend(x: Inputs, flag: ImpactingFlag, ids: seq<RuleID>, n: nat)
    requires n <= |ids|
    ensures Visited(x, flag, ids) == Visited(x, flag, ids[..n]) + Visited(x, flag, ids[n..])
  {
    FilterAppend(ids[..n], ids[n..], r => !Skipped(x, flag, r));
    assert ids == ids[..n] + ids[n..];
  }

  lemma StoppedAt(x: Inputs, flag: ImpactingFlag, ids: seq<RuleID>, i: nat, e: ListError)
    requires i < |ids| && !Skipped(x, flag, ids[i]) && Look(x, ids[i]) == Fails(e)
    requires !Walk(x, Visited(x, flag, ids[..i])).stopped
    ensures Walk(x, Visited(x, flag, ids)) == Progress(Walk(x, Visited(x, flag, ids[..i])).list, Some(e), true)
  {
    VisitedStep(x, flag, ids, i);
    VisitedAppend(x, flag, ids, i + 1);
    StopsForGood(x, Visited(x, flag, ids[..i + 1]), Visited(x, flag, ids[i + 1..]));
  }

  lemma {:induction false} StopsForGood(x: Inputs, a: seq<RuleID>, b: seq<RuleID>)
    requires Walk(x, a).stopped
    ensures Walk(x, a + b) == Walk(x, a)
  {
    if b == [] {
      assert a + b == a;
    } else {
      assert (a + b)[..|a + b| - 1] == a + b[..|b| - 1];
      StopsForGood(x, a, b[..|b| - 1]);
    }
  }
}
