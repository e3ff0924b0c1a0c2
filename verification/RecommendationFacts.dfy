/**
 What the recommendation list guarantees: when it fails, when map iteration order shows, how the
 three impacting flags divide the rules, and that it agrees with the cluster list in total.
 */
module RecommendationFacts {
  import opened Sequences
  import opened Identifiers
  import opened RuleContent
  import opened DisabledRules
  import opened Clusters
  import opened ClusterList
  import opened Recommendations

  // ---------- errors ----------

  /** The entries of the rules that can be listed, in order. */
  function ListedViews(x: Inputs, ids: seq<RuleID>): seq<RecommendationView>
  {
    if ids == [] then [] else
      var views := ListedViews(x, ids[..|ids| - 1]);
      match Look(x, ids[|ids| - 1])
      case Listed(view) => views + [view]
      case _ => views
  }

  predicate InUint8(value: int)
  {
    0 <= value <= 255
  }

  predicate Convertible(content: RuleWithContent)
  {
    InUint8(content.totalRisk) && InUint8(content.resolutionRisk) && InUint8(content.impact)
    && InUint8(content.likelihood)
  }

  /** The content directory was not set, or a number of the rule does not fit its type. */
  predicate Fatal(x: Inputs, r: RuleID)
  {
    || !x.ready
    || (r in x.s.recommendations
        && (!Convertible(x.s.recommendations[r])
            || (x.s.recommendations[r].osdCustomer && |CountedClusters(x, r, true)| >= 0x1_0000_0000)))
  }

  ghost predicate SomeFails(x: Inputs, ids: seq<RuleID>)
  {
    exists r :: r in ids && Fatal(x, r)
  }

  predicate LastMissing(x: Inputs, ids: seq<RuleID>)
  {
    ids != [] && x.ready && ids[|ids| - 1] !in x.s.recommendations
  }

  lemma SomeFailsSnoc(x: Inputs, ids: seq<RuleID>, r: RuleID)
    ensures SomeFails(x, ids + [r]) <==> SomeFails(x, ids) || Fatal(x, r)
  {
    if Fatal(x, r) {
      assert r in ids + [r];
    }
    if bad :| bad in ids && Fatal(x, bad) {
      assert bad in ids + [r];
    }
  }

  /** A visited rule fails iff the content timed out or its numbers do not fit their types; it is missing
      iff it has no content. */
  lemma FailsIff(x: Inputs, r: RuleID)
    ensures Look(x, r).Fails? <==> Fatal(x, r)
    ensures Look(x, r).Missing? <==> x.ready && r !in x.s.recommendations
  {
  }

  lemma WalkSnoc(x: Inputs, ids: seq<RuleID>, r: RuleID)
    ensures Walk(x, ids + [r]) == Advance(Walk(x, ids), r, Look(x, r))
  {
    assert (ids + [r])[..|ids|] == ids;
  }

  lemma {:induction false} WalkSummary(x: Inputs, ids: seq<RuleID>)
    ensures Walk(x, ids).stopped <==> SomeFails(x, ids)
    ensures Walk(x, ids).err.Some? <==> SomeFails(x, ids) || LastMissing(x, ids)
    ensures !SomeFails(x, ids) ==> Walk(x, ids).list == ListedViews(x, ids)
    ensures !SomeFails(x, ids) && LastMissing(x, ids) ==> Walk(x, ids).err == Some(NotFound(ids[|ids| - 1]))
    ensures SomeFails(x, ids) ==> Walk(x, ids).err == Some(if x.ready then OutOfRange else ContentTimeout)
  {
    if ids != [] {
      var init, last := ids[..|ids| - 1], ids[|ids| - 1];
      assert ids == init + [last];
      WalkSummary(x, init);
      SomeFailsSnoc(x, init, last);
      FailsIff(x, last);
      WalkSnoc(x, init, last);
      ListedViewsSnoc(x, init, last);
    }
  }

  /** A listed entry carries its rule's numbers unchanged, its acknowledgement, and the number of
      clusters it is counted on. */
  lemma ListedEntryIsExact(x: Inputs, r: RuleID, v: RecommendationView)
    requires Look(x, r) == Listed(v) && |At(x.impacting, r)| < 0x1_0000_0000
    ensures var content := x.s.recommendations[r];
            && v.ruleID == r && v.totalRisk == content.totalRisk && v.resolutionRisk == content.resolutionRisk
            && v.impact == content.impact && v.likelihood == content.likelihood
            && (v.disabled <==> r in x.acks)
            && v.impactedClustersCnt == |CountedClusters(x, r, content.osdCustomer)|
  {
  }

  /** The rule is counted on cluster `c`: not disabled there, and meant for managed clusters if AMS knows
      this one as managed. */
  predicate CountsFor(x: Inputs, r: RuleID, osdCustomer: bool, c: ClusterName)
  {
    && !(r in x.perRule && c in x.perRule[r])
    && (c in InfoMap(x.infos) && InfoMap(x.infos)[c].managed ==> osdCustomer)
  }

  lemma CountedClustersAre(x: Inputs, r: RuleID, osd: bool)
    ensures CountedClusters(x, r, osd) == Filter(At(x.impacting, r), c => CountsFor(x, r, osd, c))
  {
    FilterFilter(At(x.impacting, r), c => c !in At(x.perRule, r), c => osd || !Managed(InfoMap(x.infos), c),
                 c => CountsFor(x, r, osd, c));
  }

  /** Every listed entry shows its rule's content and the number of impacted clusters it counts on. */
  lemma EntryShowsContent(x: Inputs, r: RuleID, v: RecommendationView)
    requires Look(x, r) == Listed(v)
    ensures r in x.s.recommendations
    ensures var content := x.s.recommendations[r];
            var counted := Filter(if r in x.impacting then x.impacting[r] else [],
                                  c => CountsFor(x, r, content.osdCustomer, c));
            && v.ruleID == r && v.description == content.description && v.generic == content.generic
            && v.publishDate == content.publishDate && v.tags == content.tags
            && v.totalRisk == content.totalRisk && v.resolutionRisk == content.resolutionRisk
            && v.impact == content.impact && v.likelihood == content.likelihood
            && (v.disabled <==> r in x.acks) && v.impactedClustersCnt == Wrap32(|counted|)
  {
    CountedClustersAre(x, r, x.s.recommendations[r].osdCustomer);
  }

  /** The list is returned with an error iff the content timed out, a number did not fit, or the last
      rule that reached the content lookup has no content; and with which. */
  lemma ErrorIff(x: Inputs, flag: ImpactingFlag, order: seq<RuleID>)
    ensures var visited := Visited(x, flag, if flag.OnlyImpacting? then order else x.s.externalIDs);
            Result(x, flag, order).err ==
              if !flag.OnlyImpacting? && !x.ready then Some(ContentTimeout)
              else if SomeFails(x, visited) then Some(if x.ready then OutOfRange else ContentTimeout)
              else if LastMissing(x, visited) then Some(NotFound(visited[|visited| - 1]))
              else None
  {
    WalkSummary(x, Visited(x, flag, if flag.OnlyImpacting? then order else x.s.externalIDs));
  }

  /** A rule without content is omitted, not fatal, unless it is the last one: an input where it is. */
  lemma OmissionCanFail(x: Inputs, r: RuleID)
    requires x.ready && r !in x.s.recommendations && Enumerates([r], x.impacting.Keys)
    ensures Result(x, OnlyImpacting, [r]) == ListResult([], Some(NotFound(r)))
  {
    FilterAll([r], r => !Skipped(x, OnlyImpacting, r));
    assert [r][..0] == [];
    assert Walk(x, []) == Progress([], None, false);
  }

  lemma OnlyVisitsAll(x: Inputs, order: seq<RuleID>)
    ensures Visited(x, OnlyImpacting, order) == order
  {
    FilterAll(order, r => !Skipped(x, OnlyImpacting, r));
  }

  /** Another iteration order of the same map, ending in `r`. */
  lemma EndingIn(order: seq<RuleID>, keys: set<RuleID>, r: RuleID) returns (moved: seq<RuleID>)
    requires Enumerates(order, keys) && r in keys
    ensures Enumerates(moved, keys) && moved != [] && moved[|moved| - 1] == r
  {
    var rest := Filter(order, k => k != r);
    FilterDistinct(order, k => k != r);
    moved := rest + [r];
  }

  /** Whether the OnlyImpacting list fails depends on Go's map iteration order exactly when nothing
      fails outright and the map mixes rules with and without content. */
  lemma OrderIndependentIff(x: Inputs, order: seq<RuleID>)
    requires Enumerates(order, x.impacting.Keys)
    ensures (forall order' :: Enumerates(order', x.impacting.Keys) ==>
               Result(x, OnlyImpacting, order').err.Some? == Result(x, OnlyImpacting, order).err.Some?)
       <==> || SomeFails(x, order)
            || (forall r :: r in x.impacting ==> r in x.s.recommendations)
            || (forall r :: r in x.impacting ==> r !in x.s.recommendations)
  {
    forall order' | Enumerates(order', x.impacting.Keys)
      ensures Result(x, OnlyImpacting, order').err.Some? <==> SomeFails(x, order) || LastMissing(x, order')
    {
      ErrorIff(x, OnlyImpacting, order');
      OnlyVisitsAll(x, order');
      assert SomeFails(x, order') <==> SomeFails(x, order);
    }
    if !SomeFails(x, order) && (exists r :: r in x.impacting && r !in x.s.recommendations)
       && (exists r :: r in x.impacting && r in x.s.recommendations)
    {
      var gone :| gone in x.impacting && gone !in x.s.recommendations;
      var kept :| kept in x.impacting && kept in x.s.recommendations;
      assert x.ready by {
        assert !Fatal(x, gone);
      }
      var a := EndingIn(order, x.impacting.Keys, gone);
      var b := EndingIn(order, x.impacting.Keys, kept);
      assert LastMissing(x, a) && !LastMissing(x, b);
    } else {
      forall order' | Enumerates(order', x.impacting.Keys)
        ensures SomeFails(x, order) || LastMissing(x, order') == LastMissing(x, order)
      {
        if order != [] {
          assert order[|order| - 1] in order;
        }
        if order' != [] {
          assert order'[|order'| - 1] in order';
        }
        assert order == [] <==> order' == [] by {
          if order != [] { assert order[0] in x.impacting.Keys; }
          if order' != [] { assert order'[0] in x.impacting.Keys; }
        }
      }
    }
  }

  /** How often an entry is listed. */
  function Shows(x: Inputs, v: RecommendationView, r: RuleID): int
  {
    if Look(x, r) == Listed(v) then 1 else 0
  }

  lemma {:induction false} ListedViewsMultiplicity(x: Inputs, ids: seq<RuleID>, v: RecommendationView, f: RuleID -> int)
    requires forall r :: r in ids ==> f(r) == Shows(x, v, r)
    ensures multiset(ListedViews(x, ids))[v] == Sum(ids, f)
  {
    if ids != [] {
      var init, last := ids[..|ids| - 1], ids[|ids| - 1];
      assert ids == init + [last];
      ListedViewsMultiplicity(x, init, v, f);
      ListedViewsSnoc(x, init, last);
      assert Sum(ids, f) == Sum(init, f) + Shows(x, v, last);
      if Look(x, last).Listed? {
        SnocMultiplicity(ListedViews(x, init), Look(x, last).view, v);
      }
    }
  }

  lemma OnlyLists(x: Inputs, order: seq<RuleID>)
    requires !SomeFails(x, order)
    ensures Result(x, OnlyImpacting, order).list == ListedViews(x, order)
  {
    OnlyVisitsAll(x, order);
    WalkSummary(x, order);
  }

  /** What is listed never depends on the order: when nothing fails outright, the OnlyImpacting list has the
      same entries for every iteration order, as often, whether or not it comes with an error. */
  lemma EntriesIgnoreOrder(x: Inputs, order: seq<RuleID>, order': seq<RuleID>)
    requires Enumerates(order, x.impacting.Keys) && Enumerates(order', x.impacting.Keys) && !SomeFails(x, order)
    ensures multiset(Result(x, OnlyImpacting, order').list) == multiset(Result(x, OnlyImpacting, order).list)
  {
    assert !SomeFails(x, order') by {
      assert forall r :: r in order' ==> r in order;
    }
    OnlyLists(x, order);
    OnlyLists(x, order');
    forall v ensures multiset(ListedViews(x, order'))[v] == multiset(ListedViews(x, order))[v] {
      var f := r => Shows(x, v, r);
      ListedViewsMultiplicity(x, order, v, f);
      ListedViewsMultiplicity(x, order', v, f);
      SumOfEnumerations(order', order, f);
    }
  }

  // ---------- which rules are listed ----------

  function RuleIDs(list: seq<RecommendationView>): seq<RuleID>
  {
    Map(list, (v: RecommendationView) => v.ruleID)
  }

  lemma {:induction false} ListedRuleIDs(x: Inputs, ids: seq<RuleID>)
    requires !SomeFails(x, ids)
    ensures RuleIDs(ListedViews(x, ids)) == Filter(ids, r => r in x.s.recommendations)
  {
    if ids != [] {
      var init, last := ids[..|ids| - 1], ids[|ids| - 1];
      assert ids == init + [last];
      SomeFailsSnoc(x, init, last);
      ListedRuleIDs(x, init);
      ListedViewsSnoc(x, init, last);
      FailsIff(x, last);
      if Look(x, last).Listed? {
        ListedNamesItsRule(x, last);
        MapSnoc(ListedViews(x, init), Look(x, last).view, (v: RecommendationView) => v.ruleID);
      }
    }
  }

  /** Rule `n` is the first that ends the walk. */
  ghost predicate FirstFatal(x: Inputs, ids: seq<RuleID>, n: nat)
  {
    n < |ids| && Fatal(x, ids[n]) && !SomeFails(x, ids[..n])
  }

  lemma {:induction false} WalkUntilFailure(x: Inputs, ids: seq<RuleID>) returns (n: nat)
    requires SomeFails(x, ids)
    ensures FirstFatal(x, ids, n) && Walk(x, ids).list == ListedViews(x, ids[..n])
  {
    n := |ids| - 1;
    var init, last := ids[..n], ids[n];
    assert ids == init + [last];
    SomeFailsSnoc(x, init, last);
    WalkSnoc(x, init, last);
    WalkSummary(x, init);
    FailsIff(x, last);
    if SomeFails(x, init) {
      n := WalkUntilFailure(x, init);
      assert init[..n] == ids[..n] && init[n] == ids[n];
    }
  }

  /** The IDs a flag selects. */
  predicate Selected(x: Inputs, flag: ImpactingFlag, r: RuleID)
  {
    flag.ExcludingImpacting? ==> r !in x.impacting
  }

  /** The list shows, in order, the selected rules that have content: of the impacting rules or of the
      external ones, all of them or those before the first that ends the walk; each as its entry. */
  lemma ListIsExact(x: Inputs, flag: ImpactingFlag, order: seq<RuleID>)
    requires x.ready
    ensures var base := if flag.OnlyImpacting? then order else x.s.externalIDs;
            var ids := Filter(base, r => Selected(x, flag, r));
            var list := Result(x, flag, order).list;
            && (forall v :: v in list ==> Look(x, v.ruleID) == Listed(v))
            && (!SomeFails(x, ids) ==> RuleIDs(list) == Filter(ids, r => r in x.s.recommendations))
            && (SomeFails(x, ids) ==>
                  exists n: nat :: FirstFatal(x, ids, n)
                                   && RuleIDs(list) == Filter(ids[..n], r => r in x.s.recommendations))
  {
    var base := if flag.OnlyImpacting? then order else x.s.externalIDs;
    var ids := Filter(base, r => Selected(x, flag, r));
    FilterCongruent(base, r => !Skipped(x, flag, r), r => Selected(x, flag, r));
    WalkSummary(x, ids);
    if SomeFails(x, ids) {
      var n := WalkUntilFailure(x, ids);
      ListedRuleIDs(x, ids[..n]);
      forall v | v in ListedViews(x, ids[..n]) ensures Look(x, v.ruleID) == Listed(v) {
        ListedViewsMembers(x, ids[..n], v);
      }
    } else {
      ListedRuleIDs(x, ids);
      forall v | v in ListedViews(x, ids) ensures Look(x, v.ruleID) == Listed(v) {
        ListedViewsMembers(x, ids, v);
      }
    }
  }

  // ---------- the impacting flags ----------

  lemma {:induction false} ListedViewsMembers(x: Inputs, ids: seq<RuleID>, v: RecommendationView)
    ensures v in ListedViews(x, ids) <==> v.ruleID in ids && Look(x, v.ruleID) == Listed(v)
  {
    if ids != [] {
      assert ids == ids[..|ids| - 1] + [ids[|ids| - 1]];
      ListedViewsMembers(x, ids[..|ids| - 1], v);
    }
  }

  lemma ListedViewsSnoc(x: Inputs, ids: seq<RuleID>, r: RuleID)
    ensures ListedViews(x, ids + [r]) ==
            if Look(x, r).Listed? then ListedViews(x, ids) + [Look(x, r).view] else ListedViews(x, ids)
  {
    assert (ids + [r])[..|ids|] == ids;
  }

  lemma ListedNamesItsRule(x: Inputs, r: RuleID)
    requires Look(x, r).Listed?
    ensures Look(x, r).view.ruleID == r
  {
  }

  /** Dropping IDs drops exactly their entries. */
  lemma {:induction false} ListedViewsFilter(x: Inputs, ids: seq<RuleID>, p: RuleID -> bool,
                                             q: RecommendationView -> bool)
    requires forall v :: q(v) == p(v.ruleID)
    ensures ListedViews(x, Filter(ids, p)) == Filter(ListedViews(x, ids), q)
  {
    if ids != [] {
      var init, last := ids[..|ids| - 1], ids[|ids| - 1];
      assert ids == init + [last];
      ListedViewsFilter(x, init, p, q);
      ListedViewsSnoc(x, init, last);
      ListedViewsSnoc(x, Filter(init, p), last);
      FilterSnoc(init, last, p);
      if Look(x, last).Listed? {
        ListedNamesItsRule(x, last);
        FilterSnoc(ListedViews(x, init), Look(x, last).view, q);
      }
    }
  }

  lemma ViewOfUnhitRule(x: Inputs, r: RuleID)
    requires r !in x.impacting && Look(x, r).Listed?
    ensures Look(x, r).view.impactedClustersCnt == 0
  {
    assert At(x.impacting, r) == [];
  }

  /** ExcludingImpacting is, in order, the IncludingImpacting entries whose rule hits nothing, and
      those entries all count zero clusters. */
  lemma ExcludingIsTheUnhitPart(x: Inputs, order: seq<RuleID>)
    requires Result(x, IncludingImpacting, order).err.None?
    ensures Result(x, ExcludingImpacting, order).list ==
            Filter(Result(x, IncludingImpacting, order).list, (v: RecommendationView) => v.ruleID !in x.impacting)
    ensures forall v :: v in Result(x, ExcludingImpacting, order).list ==> v.impactedClustersCnt == 0
  {
    var ext := x.s.externalIDs;
    var unhit := Visited(x, ExcludingImpacting, ext);
    IncludingLists(x, order);
    FilterCongruent(ext, r => !Skipped(x, ExcludingImpacting, r), r => r !in x.impacting);
    WalkSummary(x, unhit);
    ListedViewsFilter(x, ext, r => r !in x.impacting, (v: RecommendationView) => v.ruleID !in x.impacting);
    forall v | v in ListedViews(x, unhit) ensures v.impactedClustersCnt == 0 {
      ListedViewsMembers(x, unhit, v);
      ViewOfUnhitRule(x, v.ruleID);
    }
  }

  lemma IncludingLists(x: Inputs, order: seq<RuleID>)
    requires Result(x, IncludingImpacting, order).err.None?
    ensures x.ready && !SomeFails(x, x.s.externalIDs)
    ensures Result(x, IncludingImpacting, order).list == ListedViews(x, x.s.externalIDs)
  {
    FilterAll(x.s.externalIDs, r => !Skipped(x, IncludingImpacting, r));
    WalkSummary(x, x.s.externalIDs);
  }

  /** The remaining IncludingImpacting entries are the OnlyImpacting entries of external rules. */
  lemma IncludingMeetsOnly(x: Inputs, order: seq<RuleID>, v: RecommendationView)
    requires Enumerates(order, x.impacting.Keys)
    requires Result(x, IncludingImpacting, order).err.None? && Result(x, OnlyImpacting, order).err.None?
    ensures v in Result(x, IncludingImpacting, order).list && v.ruleID in x.impacting
       <==> v in Result(x, OnlyImpacting, order).list && v.ruleID in x.s.externalIDs
  {
    IncludingLists(x, order);
    OnlyVisitsAll(x, order);
    WalkSummary(x, order);
    ListedViewsMembers(x, x.s.externalIDs, v);
    ListedViewsMembers(x, order, v);
  }

  // ---------- double counting ----------

  /** Both hit relations describe the same hits on the active clusters, as often. */
  ghost predicate SameHits(infos: seq<ClusterInfo>, hits: map<ClusterName, ClusterHits>,
                           impacting: map<RuleID, seq<ClusterName>>)
  {
    && (forall r, c :: r in impacting && c in impacting[r] ==> c in NamesOf(infos))
    && (forall c, r :: c in NamesOf(infos) ==> multiset(HitsOf(hits, c))[r] == multiset(At(impacting, r))[c])
  }

  ghost predicate FitsUint32(hits: map<ClusterName, ClusterHits>, impacting: map<RuleID, seq<ClusterName>>)
  {
    && (forall c :: c in hits ==> |hits[c].recommendations| < 0x1_0000_0000)
    && (forall r :: r in impacting ==> |impacting[r]| < 0x1_0000_0000)
  }

  /** Rule `r` is shown on cluster `info`: the relation both views count. */
  predicate Shown(x: Inputs, info: ClusterInfo, r: RuleID)
  {
    && r !in x.acks && info.id !in At(x.perRule, r)
    && r in x.s.recommendations && (x.s.recommendations[r].osdCustomer || !info.managed)
  }

  /** One cell of the table: how often `r` hits `info`, if it is shown. */
  function Cell(x: Inputs, info: ClusterInfo, r: RuleID): nat
  {
    if Shown(x, info, r) then multiset(At(x.impacting, r))[info.id] else 0
  }

  /** `rules` lists the external rules, each once. */
  ghost predicate ExternalOnce(s: Snapshot, rules: seq<RuleID>)
  {
    Distinct(rules) && forall r :: r in rules <==> r in s.externalIDs
  }

  /** A cluster's total is the sum of its cells over the external rules. */
  lemma RowTotal(x: Inputs, hits: map<ClusterName, ClusterHits>, acks: seq<RuleAck>, ds: seq<DisabledRule>,
                 info: ClusterInfo, rules: seq<RuleID>, cells: RuleID -> int)
    requires LookupsSafe(x.s) && ExternalOnce(x.s, rules) && x.acks == AckMap(acks) && x.perRule == ByRule(ds)
    requires SameHits(x.infos, hits, x.impacting) && info in x.infos
    requires forall r :: r in rules ==> cells(r) == Cell(x, info, r)
    ensures |RowHits(x.s, info, hits, x.acks, ByCluster(ds))| == Sum(rules, cells)
  {
    var row := RowHits(x.s, info, hits, x.acks, ByCluster(ds));
    var one: RuleID -> int := r => 1;
    SumOnes(row, one);
    assert info.id in NamesOf(x.infos) by {
      var i :| 0 <= i < |x.infos| && x.infos[i] == info;
      assert NamesOf(x.infos)[i] == info.id;
    }
    forall r | r in rules ensures cells(r) == Weighted(row, one, r) {
      RowMultiplicity(x.s, info, hits, x.acks, ByCluster(ds), r);
      GroupingsAreTransposes(ds, r, info.id);
    }
    SumByValue(row, rules, one, cells);
  }

  /** A rule's cluster count is the sum of its cells over the active clusters. */
  lemma ColumnTotal(x: Inputs, hits: map<ClusterName, ClusterHits>, r: RuleID, cells: ClusterInfo -> int)
    requires DistinctIDs(x.infos) && SameHits(x.infos, hits, x.impacting)
    requires r in x.s.recommendations && r !in x.acks
    requires forall info :: info in x.infos ==> cells(info) == Cell(x, info, r)
    ensures |CountedClusters(x, r, x.s.recommendations[r].osdCustomer)| == Sum(x.infos, cells)
  {
    var osd := x.s.recommendations[r].osdCustomer;
    var counted, names := CountedClusters(x, r, osd), NamesOf(x.infos);
    var one: ClusterName -> int := c => 1;
    var weight: ClusterName -> int := c => Weighted(counted, one, c);
    SumOnes(counted, one);
    assert Distinct(names);
    SumByValue(counted, names, one, weight);
    forall info | info in x.infos ensures cells(info) == weight(info.id) {
      var i :| 0 <= i < |x.infos| && x.infos[i] == info;
      InfoMapLossless(x.infos, i);
      var enabled := EnabledClusters(At(x.impacting, r), At(x.perRule, r));
      FilterMultiplicity(At(x.impacting, r), c => c !in At(x.perRule, r), info.id);
      FilterMultiplicity(enabled, c => osd || !Managed(InfoMap(x.infos), c), info.id);
    }
    SumMap(x.infos, (info: ClusterInfo) => info.id, weight, cells);
  }

  function EnabledCount(v: RecommendationView): int
  {
    if v.disabled then 0 else v.impactedClustersCnt
  }

  lemma {:induction false} ListedViewsSum(x: Inputs, ids: seq<RuleID>, perRule: RuleID -> int)
    requires forall r :: r in ids ==> Look(x, r).Listed? && perRule(r) == EnabledCount(Look(x, r).view)
    ensures Sum(ListedViews(x, ids), EnabledCount) == Sum(ids, perRule)
  {
    if ids != [] {
      var init, last := ids[..|ids| - 1], ids[|ids| - 1];
      assert ids == init + [last];
      ListedViewsSum(x, init, perRule);
      ListedViewsSnoc(x, init, last);
      SumSnoc(ListedViews(x, init), Look(x, last).view, EnabledCount);
    }
  }

  /** The cluster list totals, as a function of the cluster. */
  function TotalOn(x: Inputs, hits: map<ClusterName, ClusterHits>, ds: seq<DisabledRule>, info: ClusterInfo): nat
    requires LookupsSafe(x.s)
  {
    Row(x.s, info, hits, x.acks, ByCluster(ds)).totalHitCount
  }

  lemma RowsSum(x: Inputs, hits: map<ClusterName, ClusterHits>, ds: seq<DisabledRule>, rowTotal: ClusterInfo -> int)
    requires LookupsSafe(x.s) && forall info :: rowTotal(info) == TotalOn(x, hits, ds, info)
    ensures Sum(Rows(x.s, x.infos, hits, x.acks, ByCluster(ds)), TotalHitCount) == Sum(x.infos, rowTotal)
  {
    SumMap(x.infos, info => Row(x.s, info, hits, x.acks, ByCluster(ds)), TotalHitCount, rowTotal);
  }

  function TotalHitCount(row: ClusterView): int
  {
    row.totalHitCount
  }

  /** The enabled count of a listed rule is its column total. */
  lemma EnabledColumn(x: Inputs, hits: map<ClusterName, ClusterHits>, r: RuleID, cells: ClusterInfo -> int)
    requires DistinctIDs(x.infos) && SameHits(x.infos, hits, x.impacting) && FitsUint32(hits, x.impacting)
    requires Look(x, r).Listed?
    requires forall info :: info in x.infos ==> cells(info) == Cell(x, info, r)
    ensures EnabledCount(Look(x, r).view) == Sum(x.infos, cells)
  {
    if r in x.acks {
      SumZero(x.infos, cells);
    } else {
      ColumnTotal(x, hits, r, cells);
      assert |At(x.impacting, r)| < 0x1_0000_0000;
    }
  }

  /** What the recommendation list shows for a rule, as an enabled count. */
  function CountShown(x: Inputs, r: RuleID): int
  {
    if Look(x, r).Listed? then EnabledCount(Look(x, r).view) else 0
  }

  /** The inputs of the two views describe the same organisation at one moment. */
  ghost predicate SameFacts(x: Inputs, hits: map<ClusterName, ClusterHits>, acks: seq<RuleAck>, ds: seq<DisabledRule>)
  {
    && DistinctIDs(x.infos) && x.acks == AckMap(acks) && x.perRule == ByRule(ds)
    && SameHits(x.infos, hits, x.impacting) && FitsUint32(hits, x.impacting)
  }

  /** Rule by rule or cluster by cluster: the cluster list totals are the counts of the external rules,
      each rule taken once. */
  lemma CountsMeetTotals(x: Inputs, hits: map<ClusterName, ClusterHits>, acks: seq<RuleAck>, ds: seq<DisabledRule>,
                         rules: seq<RuleID>, columnTotal: RuleID -> int)
    requires LookupsSafe(x.s) && SameFacts(x, hits, acks, ds) && ExternalOnce(x.s, rules)
    requires forall r :: r in rules ==> Look(x, r).Listed? && columnTotal(r) == CountShown(x, r)
    ensures Sum(Rows(x.s, x.infos, hits, x.acks, ByCluster(ds)), TotalHitCount) == Sum(rules, columnTotal)
  {
    var byCluster: ClusterInfo -> RuleID -> int := info => r => Cell(x, info, r);
    var byRule: RuleID -> ClusterInfo -> int := r => info => Cell(x, info, r);
    var rowTotal: ClusterInfo -> int := info => TotalOn(x, hits, ds, info);
    forall info | info in x.infos ensures rowTotal(info) == Sum(rules, byCluster(info)) {
      RowTotal(x, hits, acks, ds, info, rules, byCluster(info));
      RowFits(x.s, info, hits, x.acks, ByCluster(ds));
    }
    forall r | r in rules ensures columnTotal(r) == Sum(x.infos, byRule(r)) {
      EnabledColumn(x, hits, r, byRule(r));
    }
    SumExchange(x.infos, rules, byCluster, byRule, rowTotal, columnTotal);
    RowsSum(x, hits, ds, rowTotal);
  }

  /** An IncludingImpacting list without error has an entry for every ID listed as external. */
  lemma ListCountsEveryID(x: Inputs, order: seq<RuleID>, columnTotal: RuleID -> int)
    requires LookupsSafe(x.s) && Result(x, IncludingImpacting, order).err.None?
    requires forall r :: columnTotal(r) == CountShown(x, r)
    ensures forall r :: r in x.s.externalIDs ==> Look(x, r).Listed?
    ensures Sum(Result(x, IncludingImpacting, order).list, EnabledCount) == Sum(x.s.externalIDs, columnTotal)
  {
    IncludingLists(x, order);
    forall r | r in x.s.externalIDs ensures Look(x, r).Listed? {
      assert !Fatal(x, r);
      FailsIff(x, r);
    }
    ListedViewsSum(x, x.s.externalIDs, columnTotal);
  }

  /** The two sums agree iff repeated rules count nothing in the recommendation list. */
  lemma CountsAgreeIff(x: Inputs, hits: map<ClusterName, ClusterHits>, acks: seq<RuleAck>, ds: seq<DisabledRule>,
                       order: seq<RuleID>)
    requires LookupsSafe(x.s) && SameFacts(x, hits, acks, ds)
    requires Result(x, IncludingImpacting, order).err.None?
    ensures var counted := Sum(Result(x, IncludingImpacting, order).list, EnabledCount);
            var total := Sum(Rows(x.s, x.infos, hits, x.acks, ByCluster(ds)), TotalHitCount);
            && total <= counted
            && (counted == total
                <==> forall r :: r in x.s.externalIDs && multiset(x.s.externalIDs)[r] > 1 ==> CountShown(x, r) == 0)
    ensures forall r :: r in x.s.externalIDs ==> Look(x, r).Listed?
  {
    var columnTotal: RuleID -> int := r => CountShown(x, r);
    ListCountsEveryID(x, order, columnTotal);
    var rules := DistinctValues(x.s.externalIDs);
    CountsMeetTotals(x, hits, acks, ds, rules, columnTotal);
    SumOfRepeats(x.s.externalIDs, rules, columnTotal);
  }

  /** The rule is not shown on the cluster: it is disabled there, or does not apply to managed clusters. */
  predicate HiddenOn(x: Inputs, r: RuleID, c: ClusterName)
    requires r in x.s.recommendations
  {
    c in At(x.perRule, r) || (Managed(InfoMap(x.infos), c) && !x.s.recommendations[r].osdCustomer)
  }

  lemma CountedNowhereIff(x: Inputs, r: RuleID)
    requires r in x.s.recommendations
    ensures CountedClusters(x, r, x.s.recommendations[r].osdCustomer) == []
       <==> forall c :: c in At(x.impacting, r) ==> HiddenOn(x, r, c)
  {
    var osd := x.s.recommendations[r].osdCustomer;
    var counted := CountedClusters(x, r, osd);
    if counted != [] {
      assert counted[0] in At(x.impacting, r) && !HiddenOn(x, r, counted[0]);
    }
    if c :| c in At(x.impacting, r) && !HiddenOn(x, r, c) {
      assert c in EnabledClusters(At(x.impacting, r), At(x.perRule, r));
      assert c in counted;
    }
  }

  lemma ShowsNothingIff(x: Inputs, r: RuleID)
    requires Look(x, r).Listed? && |At(x.impacting, r)| < 0x1_0000_0000
    ensures CountShown(x, r) == 0 <==> r in x.acks || CountedClusters(x, r, x.s.recommendations[r].osdCustomer) == []
  {
    ListedEntryIsExact(x, r, Look(x, r).view);
  }

  /** The rule is acknowledged, or hidden on every cluster it hits. */
  ghost predicate CountsNowhere(x: Inputs, r: RuleID)
    requires r in x.s.recommendations
  {
    r in x.acks || forall c :: c in At(x.impacting, r) ==> HiddenOn(x, r, c)
  }

  /** The IncludingImpacting list and the cluster list count the same hits, so that the impacted-cluster
      counts of the enabled rules add up to the hit totals of the clusters, iff every rule that is
      listed as external more than once is acknowledged or hidden on every cluster it hits; otherwise the
      recommendations count more. */
  lemma DoubleCountingIff(x: Inputs, hits: map<ClusterName, ClusterHits>, acks: seq<RuleAck>, ds: seq<DisabledRule>,
                          order: seq<RuleID>)
    requires LookupsSafe(x.s) && SameFacts(x, hits, acks, ds)
    requires Result(x, IncludingImpacting, order).err.None?
    ensures var counted := Sum(Result(x, IncludingImpacting, order).list, EnabledCount);
            var total := Sum(Rows(x.s, x.infos, hits, x.acks, ByCluster(ds)), TotalHitCount);
            && total <= counted
            && (counted == total
                <==> forall r :: r in x.s.externalIDs && multiset(x.s.externalIDs)[r] > 1 ==> CountsNowhere(x, r))
  {
    CountsAgreeIff(x, hits, acks, ds, order);
    forall r | r in x.s.externalIDs ensures CountShown(x, r) == 0 <==> CountsNowhere(x, r) {
      ShowsNothingIff(x, r);
      CountedNowhereIff(x, r);
    }
  }

  /** One cluster with one hit. */
  lemma OneHitIsCounted(x: Inputs, r: RuleID, info: ClusterInfo, osd: bool)
    requires !info.managed && x == Inputs(x.s, x.ready, [info], map[r := [info.id]], map[], map[])
    ensures CountedClusters(x, r, osd) == [info.id]
  {
    FilterAll([info.id], c => c !in At(x.perRule, r));
    InfoMapLossless(x.infos, 0);
    FilterAll([info.id], c => osd || !Managed(InfoMap(x.infos), c));
  }

  lemma CountedOnceIsShown(x: Inputs, r: RuleID)
    requires x.ready && r in x.s.recommendations && Convertible(x.s.recommendations[r]) && r !in x.acks
    requires |CountedClusters(x, r, x.s.recommendations[r].osdCustomer)| == 1
    ensures Look(x, r).Listed? && CountShown(x, r) == 1
  {
  }

  lemma AllListedNoError(x: Inputs, order: seq<RuleID>)
    requires x.ready && forall r :: r in x.s.externalIDs ==> Look(x, r).Listed?
    ensures Result(x, IncludingImpacting, order).err.None?
  {
    var ext := x.s.externalIDs;
    FilterAll(ext, r => !Skipped(x, IncludingImpacting, r));
    forall r | r in ext ensures !Fatal(x, r) && r in x.s.recommendations {
      FailsIff(x, r);
    }
    WalkSummary(x, ext);
  }

  lemma OneHitFacts(x: Inputs, r: RuleID, info: ClusterInfo, hits: map<ClusterName, ClusterHits>)
    requires hits == map[info.id := ClusterHits("", "", [r])]
    requires x == Inputs(x.s, x.ready, [info], map[r := [info.id]], map[], map[])
    ensures SameFacts(x, hits, [], [])
  {
    assert NamesOf(x.infos) == [info.id] && HitsOf(hits, info.id) == [r];
    forall q ensures multiset([r])[q] == multiset(At(x.impacting, q))[info.id] {
      assert multiset([r])[q] == if q == r then 1 else 0;
    }
  }

  /** One cluster with one hit, of a rule that is listed as external twice: the recommendation list counts
      more than the cluster list. */
  lemma RepeatedRuleOvercounts(x: Inputs, r: RuleID, info: ClusterInfo, hits: map<ClusterName, ClusterHits>)
    requires x.s.externalIDs == [r, r] && r in x.s.recommendations && Convertible(x.s.recommendations[r])
    requires !info.managed && hits == map[info.id := ClusterHits("", "", [r])]
    requires x == Inputs(x.s, true, [info], map[r := [info.id]], map[], map[])
    ensures LookupsSafe(x.s) && Result(x, IncludingImpacting, []).err.None?
    ensures Sum(Result(x, IncludingImpacting, []).list, EnabledCount) >
            Sum(Rows(x.s, x.infos, hits, x.acks, ByCluster([])), TotalHitCount)
  {
    OneHitIsCounted(x, r, info, x.s.recommendations[r].osdCustomer);
    CountedOnceIsShown(x, r);
    AllListedNoError(x, []);
    OneHitFacts(x, r, info, hits);
    CountsAgreeIff(x, hits, [], [], []);
    assert multiset(x.s.externalIDs)[r] == 2 && r in x.s.externalIDs;
  }

  /** With each external rule listed once, the two views always count the same hits. */
  lemma DoubleCounting(x: Inputs, hits: map<ClusterName, ClusterHits>, acks: seq<RuleAck>, ds: seq<DisabledRule>,
                       order: seq<RuleID>)
    requires LookupsSafe(x.s) && Distinct(x.s.externalIDs) && SameFacts(x, hits, acks, ds)
    requires Result(x, IncludingImpacting, order).err.None?
    ensures Sum(Result(x, IncludingImpacting, order).list, EnabledCount) ==
            Sum(Rows(x.s, x.infos, hits, x.acks, ByCluster(ds)), TotalHitCount)
  {
    DoubleCountingIff(x, hits, acks, ds, order);
    forall r | r in x.s.externalIDs ensures multiset(x.s.externalIDs)[r] == 1 {
      DistinctMultiplicity(x.s.externalIDs, r);
    }
  }

  lemma RowFits(s: Snapshot, info: ClusterInfo, hits: map<ClusterName, ClusterHits>, acks: map<RuleID, bool>,
                perCluster: map<ClusterName, seq<RuleID>>)
    requires LookupsSafe(s) && |HitsOf(hits, info.id)| < 0x1_0000_0000
    ensures Row(s, info, hits, acks, perCluster).totalHitCount == |RowHits(s, info, hits, acks, perCluster)|
  {
  }
}
