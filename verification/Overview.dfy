/**
 The organisation overview: `getOrganizationOverview` counts the same hits as the cluster list, but
 over all clusters at once and including internal rules.
 */
module Overview {
  import opened Sequences
  import opened Identifiers
  import opened RuleContent
  import opened Clusters
  import opened ClusterList

  datatype OrgOverview = OrgOverview(clustersHit: nat, byRisk: map<int, int>, byTag: map<string, int>)

  /** The user data shared by the two views. */
  datatype UserData = UserData(hits: map<ClusterName, ClusterHits>, acks: map<RuleID, bool>,
                               perCluster: map<ClusterName, seq<RuleID>>)

  function Enabled(u: UserData, info: ClusterInfo): seq<RuleID>
  {
    EnabledHits(HitsOf(u.hits, info.id), info.id, u.acks, u.perCluster)
  }

  predicate HasHits(u: UserData, info: ClusterInfo)
  {
    |Enabled(u, info)| > 0
  }

  /** The rule has content and may be shown on the cluster. */
  predicate Showable(s: Snapshot, managed: bool, r: RuleID)
  {
    r in s.recommendations && (managed ==> s.recommendations[r].osdCustomer)
  }

  function ShownHits(s: Snapshot, u: UserData, info: ClusterInfo): seq<RuleID>
  {
    Showables(s, info.managed, Enabled(u, info))
  }

  function AllHits(s: Snapshot, u: UserData, infos: seq<ClusterInfo>): seq<RuleID>
  {
    if infos == [] then [] else AllHits(s, u, infos[..|infos| - 1]) + ShownHits(s, u, infos[|infos| - 1])
  }

  function TagsOf(s: Snapshot, r: RuleID): seq<string>
  {
    if r in s.recommendations then s.recommendations[r].tags else []
  }

  function TagCount(s: Snapshot, counted: seq<RuleID>, tag: string): nat
  {
    multiset(Flatten(Map(counted, r => TagsOf(s, r))))[tag]
  }

  /** The counters hold exactly the hits in `counted`. */
  ghost predicate Counts(s: Snapshot, o: OrgOverview, counted: seq<RuleID>)
  {
    && (forall risk :: Get(o.byRisk, risk) == RiskCount(s, counted, risk))
    && (forall tag :: Get(o.byTag, tag) == TagCount(s, counted, tag))
    && (forall risk :: risk in o.byRisk ==> o.byRisk[risk] > 0)
    && (forall tag :: tag in o.byTag ==> o.byTag[tag] > 0)
  }

  function HitClusters(s: Snapshot, u: UserData, infos: seq<ClusterInfo>): seq<ClusterInfo>
  {
    Filter(infos, info => ShownHits(s, u, info) != [])
  }

  // ---------- the code ----------

  lemma TagCountSnoc(s: Snapshot, counted: seq<RuleID>, r: RuleID, tag: string)
    ensures TagCount(s, counted + [r], tag) == TagCount(s, counted, tag) + multiset(TagsOf(s, r))[tag]
  {
    MapSnoc(counted, r, r => TagsOf(s, r));
    var lists := Map(counted, r => TagsOf(s, r));
    assert (lists + [TagsOf(s, r)])[..|lists|] == lists;
  }

  method CountTags(byTag: map<string, int>, tags: seq<string>) returns (byTag': map<string, int>)
    requires forall tag :: tag in byTag ==> byTag[tag] > 0
    ensures forall tag :: Get(byTag', tag) == Get(byTag, tag) + multiset(tags)[tag]
    ensures forall tag :: tag in byTag' ==> byTag'[tag] > 0
  {
    byTag' := byTag;
    for i := 0 to |tags|
      invariant forall tag :: Get(byTag', tag) == Get(byTag, tag) + multiset(tags[..i])[tag]
      invariant forall tag :: tag in byTag' ==> byTag'[tag] > 0
    {
      assert tags[..i + 1] == tags[..i] + [tags[i]];
      byTag' := byTag'[tags[i] := Get(byTag', tags[i]) + 1];
    }
    assert tags[..|tags|] == tags;
  }

  method CountShown(s: Snapshot, o: OrgOverview, r: RuleID, ghost counted: seq<RuleID>) returns (o': OrgOverview)
    requires r in s.recommendations && Counts(s, o, counted)
    ensures Counts(s, o', counted + [r]) && o'.clustersHit == o.clustersHit
  {
    var content := s.recommendations[r];
    var byTag := CountTags(o.byTag, content.tags);
    o' := OrgOverview(o.clustersHit, o.byRisk[content.totalRisk := Get(o.byRisk, content.totalRisk) + 1], byTag);
    forall risk ensures Get(o'.byRisk, risk) == RiskCount(s, counted + [r], risk) {
      RiskCountSnoc(s, counted, r, risk);
    }
    forall tag ensures Get(o'.byTag, tag) == TagCount(s, counted + [r], tag) {
      TagCountSnoc(s, counted, r, tag);
    }
  }

  function Showables(s: Snapshot, managed: bool, enabled: seq<RuleID>): seq<RuleID>
  {
    Filter(enabled, r => Showable(s, managed, r))
  }

  lemma ShowablesStep(s: Snapshot, managed: bool, enabled: seq<RuleID>, i: nat)
    requires i < |enabled|
    ensures var before := Showables(s, managed, enabled[..i]);
            Showables(s, managed, enabled[..i + 1]) ==
            if Showable(s, managed, enabled[i]) then before + [enabled[i]] else before
  {
    assert enabled[..i + 1][..i] == enabled[..i];
  }

  /** One pass of the inner loop: counts the rule unless it is filtered. */
  method CountRule(s: Snapshot, managed: bool, o: OrgOverview, r: RuleID, ghost counted: seq<RuleID>)
    returns (o': OrgOverview, filtered: bool)
    requires Counts(s, o, counted)
    ensures filtered <==> !Showable(s, managed, r)
    ensures Counts(s, o', if filtered then counted else counted + [r]) && o'.clustersHit == o.clustersHit
  {
    if r !in s.recommendations {
      return o, true;
    }
    if managed && !s.recommendations[r].osdCustomer {
      return o, true;
    }
    o' := CountShown(s, o, r, counted);
    filtered := false;
  }

  /** The inner loop over the enabled rules of one cluster, left at the first lookup that times out. */
  method CountRules(s: Snapshot, ready: bool, managed: bool, o: OrgOverview, enabled: seq<RuleID>,
                    ghost counted: seq<RuleID>)
    returns (timedOut: bool, o': OrgOverview, filtered: nat)
    requires Counts(s, o, counted)
    ensures timedOut <==> !ready && enabled != []
    ensures !timedOut ==>
              && Counts(s, o', counted + Showables(s, managed, enabled)) && o'.clustersHit == o.clustersHit
              && filtered == |enabled| - |Showables(s, managed, enabled)|
  {
    timedOut, o', filtered := false, o, 0;
    ghost var shown := [];
    assert counted + shown == counted;
    for i := 0 to |enabled|
      invariant i > 0 ==> ready
      invariant shown == Showables(s, managed, enabled[..i]) && filtered == i - |shown|
      invariant Counts(s, o', counted + shown) && o'.clustersHit == o.clustersHit
    {
      if !ready {
        timedOut := true;
        return;
      }
      ShowablesStep(s, managed, enabled, i);
      var skip;
      o', skip := CountRule(s, managed, o', enabled[i], counted + shown);
      if skip {
        filtered := filtered + 1;
      } else {
        ConcatAssoc(counted, shown, [enabled[i]]);
        shown := shown + [enabled[i]];
      }
    }
    assert enabled[..|enabled|] == enabled;
  }

  /** The body of the outer loop, for a cluster with hits; None is the content timeout. */
  method CountCluster(s: Snapshot, ready: bool, o: OrgOverview, managed: bool, enabled: seq<RuleID>,
                      ghost counted: seq<RuleID>) returns (r: Option<OrgOverview>)
    requires Counts(s, o, counted)
    ensures r.None? <==> !ready && enabled != []
    ensures r.Some? ==>
              var shown := Showables(s, managed, enabled);
              Counts(s, r.value, counted + shown) && r.value.clustersHit == o.clustersHit + if shown == [] then 0 else 1
  {
    var timedOut, o', filtered := CountRules(s, ready, managed, o, enabled, counted);
    if timedOut {
      return None;
    }
    if |enabled| - filtered > 0 {
      return Some(o'.(clustersHit := o'.clustersHit + 1));
    }
    return Some(o');
  }

  /** One cluster of the outer loop, with or without hits. */
  method VisitCluster(s: Snapshot, ready: bool, u: UserData, info: ClusterInfo, o: OrgOverview,
                      ghost counted: seq<RuleID>)
    returns (r: Option<OrgOverview>)
    requires Counts(s, o, counted)
    ensures r.None? <==> !ready && HasHits(u, info)
    ensures r.Some? ==> Counts(s, r.value, counted + ShownHits(s, u, info))
                        && r.value.clustersHit == o.clustersHit + if ShownHits(s, u, info) == [] then 0 else 1
  {
    if info.id !in u.hits {
      assert Enabled(u, info) == [] && ShownHits(s, u, info) == [];
      assert counted + [] == counted;
      return Some(o);
    }
    var enabled := FilterOutDisabledRules(u.hits[info.id].recommendations, info.id, u.acks, u.perCluster);
    r := CountCluster(s, ready, o, info.managed, enabled, counted);
  }

  lemma HitClustersStep(s: Snapshot, u: UserData, infos: seq<ClusterInfo>, i: nat)
    requires i < |infos|
    ensures |HitClusters(s, u, infos[..i + 1])| ==
            |HitClusters(s, u, infos[..i])| + if ShownHits(s, u, infos[i]) == [] then 0 else 1
  {
    FilterStep(infos, i, info => ShownHits(s, u, info) != []);
  }

  lemma AllHitsStep(s: Snapshot, u: UserData, infos: seq<ClusterInfo>, i: nat)
    requires i < |infos|
    ensures AllHits(s, u, infos[..i + 1]) == AllHits(s, u, infos[..i]) + ShownHits(s, u, infos[i])
  {
    assert infos[..i + 1][..i] == infos[..i];
  }

  /** No cluster has an enabled hit, so no content is looked up. */
  ghost predicate Quiet(u: UserData, infos: seq<ClusterInfo>)
  {
    forall info :: info in infos ==> !HasHits(u, info)
  }

  lemma QuietStep(u: UserData, infos: seq<ClusterInfo>, i: nat)
    requires i < |infos|
    ensures Quiet(u, infos[..i + 1]) <==> Quiet(u, infos[..i]) && !HasHits(u, infos[i])
    ensures HasHits(u, infos[i]) ==> !Quiet(u, infos)
  {
    assert infos[..i + 1] == infos[..i] + [infos[i]];
    assert infos[i] in infos;
  }

  method GetOrganizationOverview(s: Snapshot, ready: bool, infos: seq<ClusterInfo>, u: UserData)
    returns (r: Option<OrgOverview>)
    ensures r.None? <==> !ready && !Quiet(u, infos)
    ensures r.Some? ==> Counts(s, r.value, AllHits(s, u, infos)) && r.value.clustersHit == |HitClusters(s, u, infos)|
  {
    var o := OrgOverview(0, map[], map[]);
    ghost var counted := [];
    for i := 0 to |infos|
      invariant !ready ==> Quiet(u, infos[..i])
      invariant counted == AllHits(s, u, infos[..i]) && Counts(s, o, counted)
      invariant o.clustersHit == |HitClusters(s, u, infos[..i])|
    {
      HitClustersStep(s, u, infos, i);
      AllHitsStep(s, u, infos, i);
      QuietStep(u, infos, i);
      var next := VisitCluster(s, ready, u, infos[i], o, counted);
      if next.None? {
        return None;
      }
      o := next.value;
      counted := counted + ShownHits(s, u, infos[i]);
    }
    assert infos[..|infos|] == infos;
    return Some(o);
  }

  // ---------- what the overview counts ----------

  /** Rule `r` shows on cluster `info`: neither acknowledged nor disabled there, with content, and meant for
      managed clusters if this is one. */
  predicate ShowsOn(s: Snapshot, u: UserData, info: ClusterInfo, r: RuleID)
  {
    && !(r in u.acks && u.acks[r]) && !(info.id in u.perCluster && r in u.perCluster[info.id])
    && r in s.recommendations && (info.managed ==> s.recommendations[r].osdCustomer)
  }

  /** The hits of a cluster that show on it. */
  function HitsShown(s: Snapshot, u: UserData, info: ClusterInfo): seq<RuleID>
  {
    Filter(if info.id in u.hits then u.hits[info.id].recommendations else [], r => ShowsOn(s, u, info, r))
  }

  lemma ShownHitsAre(s: Snapshot, u: UserData, info: ClusterInfo)
    ensures ShownHits(s, u, info) == HitsShown(s, u, info)
  {
    FilterFilter(HitsOf(u.hits, info.id), r => EnabledOn(u.acks, u.perCluster, info.id, r),
                 r => Showable(s, info.managed, r), r => ShowsOn(s, u, info, r));
  }

  /** How often a rule carries a tag. */
  function Tagged(s: Snapshot, tag: string, r: RuleID): int
  {
    if r in s.recommendations then multiset(s.recommendations[r].tags)[tag] else 0
  }

  lemma {:induction false} TagCountIsSum(s: Snapshot, hits: seq<RuleID>, tag: string, f: RuleID -> int)
    requires forall r :: r in hits ==> f(r) == Tagged(s, tag, r)
    ensures TagCount(s, hits, tag) == Sum(hits, f)
  {
    if hits != [] {
      var init, last := hits[..|hits| - 1], hits[|hits| - 1];
      assert hits == init + [last];
      TagCountIsSum(s, init, tag, f);
      TagCountSnoc(s, init, last, tag);
    }
  }

  lemma {:induction false} AllHitsSum(s: Snapshot, u: UserData, infos: seq<ClusterInfo>, f: RuleID -> int,
                                      g: ClusterInfo -> int)
    requires forall info :: info in infos ==> g(info) == Sum(HitsShown(s, u, info), f)
    ensures Sum(AllHits(s, u, infos), f) == Sum(infos, g)
  {
    if infos != [] {
      var init, last := infos[..|infos| - 1], infos[|infos| - 1];
      assert infos == init + [last];
      AllHitsSum(s, u, init, f, g);
      ShownHitsAre(s, u, last);
      SumAppend(AllHits(s, u, init), ShownHits(s, u, last), f);
    }
  }

  /** The overview, counted over the inputs: at every risk and for every tag it adds up the hits that show
      on the clusters, a tag as often as their rules carry it; the clusters hit are those with such a
      hit. */
  lemma OverviewIsExact(s: Snapshot, u: UserData, infos: seq<ClusterInfo>, o: OrgOverview,
                        atRisk: int -> RuleID -> int, withTag: string -> RuleID -> int)
    requires Counts(s, o, AllHits(s, u, infos)) && o.clustersHit == |HitClusters(s, u, infos)|
    requires forall risk, r :: atRisk(risk)(r) ==
               if r in s.recommendations && s.recommendations[r].totalRisk == risk then 1 else 0
    requires forall tag, r :: withTag(tag)(r) == Tagged(s, tag, r)
    ensures forall risk :: Get(o.byRisk, risk) == Sum(infos, info => Sum(HitsShown(s, u, info), atRisk(risk)))
    ensures forall tag :: Get(o.byTag, tag) == Sum(infos, info => Sum(HitsShown(s, u, info), withTag(tag)))
    ensures o.clustersHit == |Filter(infos, info => HitsShown(s, u, info) != [])|
  {
    var all := AllHits(s, u, infos);
    forall risk ensures Get(o.byRisk, risk) == Sum(infos, info => Sum(HitsShown(s, u, info), atRisk(risk))) {
      FilterLength(all, r => HasRisk(s, r, risk), atRisk(risk));
      AllHitsSum(s, u, infos, atRisk(risk), info => Sum(HitsShown(s, u, info), atRisk(risk)));
    }
    forall tag ensures Get(o.byTag, tag) == Sum(infos, info => Sum(HitsShown(s, u, info), withTag(tag))) {
      TagCountIsSum(s, all, tag, withTag(tag));
      AllHitsSum(s, u, infos, withTag(tag), info => Sum(HitsShown(s, u, info), withTag(tag)));
    }
    forall info ensures ShownHits(s, u, info) == HitsShown(s, u, info) {
      ShownHitsAre(s, u, info);
    }
    FilterCongruent(infos, info => ShownHits(s, u, info) != [], info => HitsShown(s, u, info) != []);
  }

  // ---------- the overview is the column sum of the cluster list ----------

  /** Shown hits of rules the cluster list does not count. */
  function UnlistedHits(s: Snapshot, u: UserData, info: ClusterInfo): seq<RuleID>
  {
    Filter(ShownHits(s, u, info), r => r !in s.externalIDs)
  }

  lemma ListedPart(s: Snapshot, u: UserData, info: ClusterInfo)
    requires LookupsSafe(s)
    ensures RowHits(s, info, u.hits, u.acks, u.perCluster) == Filter(ShownHits(s, u, info), r => r in s.externalIDs)
  {
    FilterFilter(Enabled(u, info), r => Showable(s, info.managed, r), r => r in s.externalIDs,
                 r => Countable(s, info.managed, r));
  }

  lemma {:induction false} RiskCountSplits(s: Snapshot, hits: seq<RuleID>, risk: int)
    ensures RiskCount(s, hits, risk) == RiskCount(s, Filter(hits, r => r in s.externalIDs), risk)
                                      + RiskCount(s, Filter(hits, r => r !in s.externalIDs), risk)
  {
    if hits != [] {
      var init, last := hits[..|hits| - 1], hits[|hits| - 1];
      assert hits == init + [last];
      RiskCountSplits(s, init, risk);
      RiskCountSnoc(s, init, last, risk);
      RiskCountSnoc(s, Filter(init, r => r in s.externalIDs), last, risk);
      RiskCountSnoc(s, Filter(init, r => r !in s.externalIDs), last, risk);
    }
  }

  lemma RiskCountAppend(s: Snapshot, a: seq<RuleID>, b: seq<RuleID>, risk: int)
    ensures RiskCount(s, a + b, risk) == RiskCount(s, a, risk) + RiskCount(s, b, risk)
  {
    FilterAppend(a, b, r => HasRisk(s, r, risk));
  }

  lemma {:induction false} AllHitsByRisk(s: Snapshot, u: UserData, infos: seq<ClusterInfo>, risk: int,
                                         row: ClusterInfo -> int, rest: ClusterInfo -> int)
    requires LookupsSafe(s)
    requires forall info :: info in infos ==>
               row(info) == RiskCount(s, RowHits(s, info, u.hits, u.acks, u.perCluster), risk)
    requires forall info :: info in infos ==> rest(info) == RiskCount(s, UnlistedHits(s, u, info), risk)
    ensures RiskCount(s, AllHits(s, u, infos), risk) == Sum(infos, row) + Sum(infos, rest)
  {
    if infos != [] {
      var init, last := infos[..|infos| - 1], infos[|infos| - 1];
      AllHitsByRisk(s, u, init, risk, row, rest);
      RiskCountAppend(s, AllHits(s, u, init), ShownHits(s, u, last), risk);
      RiskCountSplits(s, ShownHits(s, u, last), risk);
      ListedPart(s, u, last);
    }
  }

  lemma {:induction false} NoRiskOutsideList(s: Snapshot, counted: seq<RuleID>, risk: int)
    requires LookupsSafe(s) && risk !in UniqueSeverities(s) && forall r :: r in counted ==> r in s.externalIDs
    ensures RiskCount(s, counted, risk) == 0
  {
    if counted != [] {
      assert counted == counted[..|counted| - 1] + [counted[|counted| - 1]];
      NoRiskOutsideList(s, counted[..|counted| - 1], risk);
      assert counted[|counted| - 1] in s.externalIDs;
    }
  }

  /** A row's histogram, absent keys read as zero, counts the row's hits at every risk. */
  lemma RowHistogram(s: Snapshot, u: UserData, info: ClusterInfo, risk: int)
    requires LookupsSafe(s)
    ensures Get(Row(s, info, u.hits, u.acks, u.perCluster).hitsByTotalRisk, risk) ==
            RiskCount(s, RowHits(s, info, u.hits, u.acks, u.perCluster), risk)
  {
    if risk !in UniqueSeverities(s) {
      NoRiskOutsideList(s, RowHits(s, info, u.hits, u.acks, u.perCluster), risk);
    }
  }

  /** For every risk, the overview is the column sum of the cluster list plus the shown hits of rules
      the cluster list does not count. */
  lemma OverviewIsColumnSum(s: Snapshot, u: UserData, infos: seq<ClusterInfo>, o: OrgOverview, risk: int,
                            column: ClusterView -> int, rest: ClusterInfo -> int)
    requires LookupsSafe(s) && Counts(s, o, AllHits(s, u, infos))
    requires forall row :: column(row) == Get(row.hitsByTotalRisk, risk)
    requires forall info :: rest(info) == Unlisted(s, u, risk, info)
    ensures Get(o.byRisk, risk) == Sum(Rows(s, infos, u.hits, u.acks, u.perCluster), column) + Sum(infos, rest)
  {
    var row: ClusterInfo -> int := info => RiskCount(s, RowHits(s, info, u.hits, u.acks, u.perCluster), risk);
    AllHitsByRisk(s, u, infos, risk, row, rest);
    forall info | info in infos ensures row(info) == column(Row(s, info, u.hits, u.acks, u.perCluster)) {
      RowHistogram(s, u, info, risk);
    }
    SumMap(infos, info => Row(s, info, u.hits, u.acks, u.perCluster), column, row);
  }

  ghost predicate OnlyListedHits(s: Snapshot, u: UserData, infos: seq<ClusterInfo>)
  {
    forall info :: info in infos ==> UnlistedHits(s, u, info) == []
  }

  function Unlisted(s: Snapshot, u: UserData, risk: int, info: ClusterInfo): int
  {
    RiskCount(s, UnlistedHits(s, u, info), risk)
  }

  lemma UnlistedIsPositive(s: Snapshot, u: UserData, infos: seq<ClusterInfo>, info: ClusterInfo) returns (risk: int)
    requires info in infos && UnlistedHits(s, u, info) != []
    ensures Sum(infos, info => Unlisted(s, u, risk, info)) > 0
  {
    var unlisted := UnlistedHits(s, u, info);
    assert unlisted[0] in unlisted;
    risk := s.recommendations[unlisted[0]].totalRisk;
    assert unlisted[0] in Filter(unlisted, r => HasRisk(s, r, risk));
    SumPositive(infos, info => Unlisted(s, u, risk, info), info);
  }

  /** The overview equals the column sums at every risk iff no rule outside the external list is shown. */
  lemma OverviewAgreesIff(s: Snapshot, u: UserData, infos: seq<ClusterInfo>, o: OrgOverview,
                          column: int -> ClusterView -> int)
    requires LookupsSafe(s) && Counts(s, o, AllHits(s, u, infos))
    requires forall risk, row :: column(risk)(row) == Get(row.hitsByTotalRisk, risk)
    ensures (forall risk :: Get(o.byRisk, risk) == Sum(Rows(s, infos, u.hits, u.acks, u.perCluster), column(risk)))
       <==> OnlyListedHits(s, u, infos)
  {
    forall risk
      ensures Get(o.byRisk, risk) == Sum(Rows(s, infos, u.hits, u.acks, u.perCluster), column(risk))
                                     + Sum(infos, info => Unlisted(s, u, risk, info))
      ensures OnlyListedHits(s, u, infos) ==> Sum(infos, info => Unlisted(s, u, risk, info)) == 0
    {
      OverviewIsColumnSum(s, u, infos, o, risk, column(risk), info => Unlisted(s, u, risk, info));
      if OnlyListedHits(s, u, infos) {
        SumZero(infos, info => Unlisted(s, u, risk, info));
      }
    }
    if !OnlyListedHits(s, u, infos) {
      var info :| info in infos && UnlistedHits(s, u, info) != [];
      var risk := UnlistedIsPositive(s, u, infos, info);
      assert Get(o.byRisk, risk) != Sum(Rows(s, infos, u.hits, u.acks, u.perCluster), column(risk));
    }
  }

  /** A cluster shows some rule the cluster list counts. */
  ghost predicate ShowsListed(s: Snapshot, u: UserData, info: ClusterInfo)
  {
    exists r :: r in ShownHits(s, u, info) && r in s.externalIDs
  }

  /** A row has a positive total iff its cluster shows a rule the list counts. */
  lemma PositiveRowIff(s: Snapshot, u: UserData, info: ClusterInfo)
    requires LookupsSafe(s) && |HitsOf(u.hits, info.id)| < 0x1_0000_0000
    ensures Row(s, info, u.hits, u.acks, u.perCluster).totalHitCount > 0 <==> ShowsListed(s, u, info)
  {
    ListedPart(s, u, info);
    var counted := RowHits(s, info, u.hits, u.acks, u.perCluster);
    if counted != [] {
      assert counted[0] in ShownHits(s, u, info) && counted[0] in s.externalIDs;
    }
  }

  /** The clusters hit are as many as the rows with a positive total iff every cluster that shows a hit
      shows one the cluster list counts; they are never fewer. */
  lemma ClustersHitAgreeIff(s: Snapshot, u: UserData, infos: seq<ClusterInfo>)
    requires LookupsSafe(s)
    requires forall c :: c in u.hits ==> |u.hits[c].recommendations| < 0x1_0000_0000
    ensures var positive := Filter(Rows(s, infos, u.hits, u.acks, u.perCluster),
                                   (row: ClusterView) => row.totalHitCount > 0);
            && |positive| <= |HitClusters(s, u, infos)|
            && (|positive| == |HitClusters(s, u, infos)|
                <==> forall info :: info in infos && ShownHits(s, u, info) != [] ==> ShowsListed(s, u, info))
  {
    var positive: ClusterInfo -> bool := info => Row(s, info, u.hits, u.acks, u.perCluster).totalHitCount > 0;
    forall info | info in infos
      ensures positive(info) <==> ShowsListed(s, u, info)
      ensures positive(info) ==> ShownHits(s, u, info) != []
    {
      PositiveRowIff(s, u, info);
    }
    FilterMapLength(infos, info => Row(s, info, u.hits, u.acks, u.perCluster), positive,
                    (row: ClusterView) => row.totalHitCount > 0);
    NarrowerFilterLength(infos, positive, info => ShownHits(s, u, info) != []);
  }

  /** When only listed rules are shown, the clusters hit are those with a positive total in the list. */
  lemma ClustersHitArePositiveRows(s: Snapshot, u: UserData, infos: seq<ClusterInfo>, info: ClusterInfo)
    requires LookupsSafe(s) && OnlyListedHits(s, u, infos)
    requires forall c :: c in u.hits ==> |u.hits[c].recommendations| < 0x1_0000_0000
    ensures info in HitClusters(s, u, infos)
       <==> info in infos && Row(s, info, u.hits, u.acks, u.perCluster).totalHitCount > 0
    ensures |HitClusters(s, u, infos)| ==
            |Filter(Rows(s, infos, u.hits, u.acks, u.perCluster), (row: ClusterView) => row.totalHitCount > 0)|
  {
    forall info | info in infos ensures ShownHits(s, u, info) != [] <==> ShowsListed(s, u, info) {
      var shown := ShownHits(s, u, info);
      if shown != [] {
        assert shown[0] in shown && UnlistedHits(s, u, info) == [];
      }
    }
    PositiveRowIff(s, u, info);
    ClustersHitAgreeIff(s, u, infos);
  }

  /** One cluster with one hit, of a rule that is stored but not listed as external. */
  lemma UnlistedHit(s: Snapshot, r: RuleID, risk: int, info: ClusterInfo, u: UserData)
    requires s.externalIDs == [] && HasRisk(s, r, risk) && !info.managed
    requires u == UserData(map[info.id := ClusterHits("", "", [r])], map[], map[])
    ensures ShownHits(s, u, info) == [r] && RowHits(s, info, u.hits, u.acks, u.perCluster) == []
  {
    FilterAll([r], r => EnabledOn(u.acks, u.perCluster, info.id, r));
    FilterAll([r], r => Showable(s, info.managed, r));
    FilterNone([r], r => Countable(s, info.managed, r));
  }

  lemma OneCluster(s: Snapshot, u: UserData, info: ClusterInfo)
    requires ShownHits(s, u, info) != []
    ensures AllHits(s, u, [info]) == ShownHits(s, u, info) && HitClusters(s, u, [info]) == [info]
  {
    var shown := ShownHits(s, u, info);
    assert [info][..0] == [] && AllHits(s, u, []) + shown == shown;
    FilterAll([info], info => ShownHits(s, u, info) != []);
  }

  lemma OneRisk(s: Snapshot, r: RuleID, risk: int)
    requires HasRisk(s, r, risk)
    ensures RiskCount(s, [r], risk) == 1
  {
    FilterAll([r], r => HasRisk(s, r, risk));
  }

  /** Then the overview has a cluster hit and a hit at the rule's risk, the cluster list has neither. */
  lemma UnlistedHitDisagrees(s: Snapshot, r: RuleID, risk: int, info: ClusterInfo, u: UserData, o: OrgOverview)
    requires s.externalIDs == [] && HasRisk(s, r, risk) && !info.managed
    requires u == UserData(map[info.id := ClusterHits("", "", [r])], map[], map[])
    requires Counts(s, o, AllHits(s, u, [info]))
    ensures LookupsSafe(s) && HitClusters(s, u, [info]) == [info] && Get(o.byRisk, risk) == 1
    ensures var row := Row(s, info, u.hits, u.acks, u.perCluster);
            Get(row.hitsByTotalRisk, risk) == 0 && row.totalHitCount == 0
  {
    UnlistedHit(s, r, risk, info, u);
    OneCluster(s, u, info);
    OneRisk(s, r, risk);
    RowHistogram(s, u, info, risk);
  }

  /** The two views do disagree: an organisation whose only hit is an internal rule, loaded from any
      directory of one such rule. */
  lemma InternalHitDisagrees(src: RuleSource, k: ErrorKey, parse: DateParser, s: Snapshot, info: ClusterInfo,
                             u: UserData, o: OrgOverview)
    requires src.table.Keys == {k} && Acceptable(src.table[k], parse) && Internal(src.pythonModule)
    requires ValidPart(src.pythonModule) && ValidPart(k) && !info.managed
    requires ValidOrders([src], [[k]]) && s == Load([src], [[k]], parse)
    requires u == UserData(map[info.id := ClusterHits("", "", [Composite(src.pythonModule, k)])], map[], map[])
    requires Counts(s, o, AllHits(s, u, [info]))
    ensures LookupsSafe(s) && HitClusters(s, u, [info]) == [info]
    ensures var meta := src.table[k].metadata;
            var risk := CalculateTotalRisk(meta.impact, meta.likelihood);
            var row := Row(s, info, u.hits, u.acks, u.perCluster);
            Get(o.byRisk, risk) == 1 && Get(row.hitsByTotalRisk, risk) == 0 && row.totalHitCount == 0
  {
    var meta, r := src.table[k].metadata, Composite(src.pythonModule, k);
    var risk := CalculateTotalRisk(meta.impact, meta.likelihood);
    SingleRuleLoads(src, k, parse);
    assert s.externalIDs == [] && HasRisk(s, r, risk);
    UnlistedHitDisagrees(s, r, risk, info, u, o);
  }
}
