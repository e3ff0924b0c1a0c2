/**
 User choices read from the aggregator: per-cluster disables, grouped once by cluster and once by
 rule, and organisation-wide acknowledgements.
 */
module DisabledRules {
  import opened Sequences
  import opened Identifiers

  datatype DisabledRule = DisabledRule(clusterID: ClusterName, ruleID: string, errorKey: ErrorKey)

  /** An acknowledgement as listed by the aggregator. */
  datatype RuleAck = RuleAck(ruleID: string, errorKey: ErrorKey, justification: string)

  /** A Go map of slices: an absent key reads as the empty slice. */
  function At<K, V>(m: map<K, seq<V>>, k: K): seq<V>
  {
    if k in m then m[k] else []
  }

  /** `generateCompositeRuleIDFromDisabled`. */
  function CompositeFromDisabled(d: DisabledRule): Option<RuleID>
  {
    GenerateCompositeRuleID(TrimSuffix(d.ruleID, DOT_REPORT), d.errorKey)
  }

  /** A disable counts for the plain module whether it was stored with `.report` or without. */
  lemma ReportSuffixIrrelevant(c: ClusterName, m: string, k: ErrorKey)
    requires !HasSuffix(m, DOT_REPORT)
    ensures CompositeFromDisabled(DisabledRule(c, m + DOT_REPORT, k)) == GenerateCompositeRuleID(m, k)
    ensures CompositeFromDisabled(DisabledRule(c, m, k)) == GenerateCompositeRuleID(m, k)
  {
    TrimReport(m);
  }

  function ByCluster(ds: seq<DisabledRule>): map<ClusterName, seq<RuleID>>
  {
    if ds == [] then map[] else
      var m, d := ByCluster(ds[..|ds| - 1]), ds[|ds| - 1];
      match CompositeFromDisabled(d)
      case None => m
      case Some(id) => m[d.clusterID := At(m, d.clusterID) + [id]]
  }

  function ByRule(ds: seq<DisabledRule>): map<RuleID, seq<ClusterName>>
  {
    if ds == [] then map[] else
      var m, d := ByRule(ds[..|ds| - 1]), ds[|ds| - 1];
      match CompositeFromDisabled(d)
      case None => m
      case Some(id) => m[id := At(m, id) + [d.clusterID]]
  }

  /** `getUserDisabledRulesPerCluster`, given the aggregator's list. */
  method GetUserDisabledRulesPerCluster(ds: seq<DisabledRule>) returns (perCluster: map<ClusterName, seq<RuleID>>)
    ensures perCluster == ByCluster(ds)
  {
    perCluster := map[];
    for i := 0 to |ds|
      invariant perCluster == ByCluster(ds[..i])
    {
      assert ds[..i + 1][..i] == ds[..i];
      var id := CompositeFromDisabled(ds[i]);
      if id.None? {
        continue;
      }
      if ds[i].clusterID in perCluster {
        perCluster := perCluster[ds[i].clusterID := perCluster[ds[i].clusterID] + [id.value]];
      } else {
        assert [] + [id.value] == [id.value];
        perCluster := perCluster[ds[i].clusterID := [id.value]];
      }
    }
    assert ds[..|ds|] == ds;
  }

  /** `getRuleDisabledClusters`, given the aggregator's list. */
  method GetRuleDisabledClusters(ds: seq<DisabledRule>) returns (perRule: map<RuleID, seq<ClusterName>>)
    ensures perRule == ByRule(ds)
  {
    perRule := map[];
    for i := 0 to |ds|
      invariant perRule == ByRule(ds[..i])
    {
      assert ds[..i + 1][..i] == ds[..i];
      var id := CompositeFromDisabled(ds[i]);
      if id.None? {
        continue;
      }
      perRule := perRule[id.value := At(perRule, id.value) + [ds[i].clusterID]];
    }
    assert ds[..|ds|] == ds;
  }

  predicate Names(d: DisabledRule, r: RuleID, c: ClusterName)
  {
    CompositeFromDisabled(d) == Some(r) && d.clusterID == c
  }

  /** How many records disable rule `r` on cluster `c`. */
  function Records(ds: seq<DisabledRule>, r: RuleID, c: ClusterName): nat
  {
    |Filter(ds, d => Names(d, r, c))|
  }

  lemma RecordsSnoc(ds: seq<DisabledRule>, d: DisabledRule, r: RuleID, c: ClusterName)
    ensures Records(ds + [d], r, c) == Records(ds, r, c) + if Names(d, r, c) then 1 else 0
  {
    assert (ds + [d])[..|ds|] == ds;
  }

  /** Both groupings hold a (rule, cluster) pair once per record that names it. */
  lemma {:induction false} ByClusterCountsRecords(ds: seq<DisabledRule>, r: RuleID, c: ClusterName)
    ensures multiset(At(ByCluster(ds), c))[r] == Records(ds, r, c)
  {
    if ds != [] {
      var init, d := ds[..|ds| - 1], ds[|ds| - 1];
      assert ds == init + [d];
      ByClusterCountsRecords(init, r, c);
      RecordsSnoc(init, d, r, c);
      if CompositeFromDisabled(d).Some? {
        SnocMultiplicity(At(ByCluster(init), c), CompositeFromDisabled(d).value, r);
      }
    }
  }

  lemma {:induction false} ByRuleCountsRecords(ds: seq<DisabledRule>, r: RuleID, c: ClusterName)
    ensures multiset(At(ByRule(ds), r))[c] == Records(ds, r, c)
  {
    if ds != [] {
      var init, d := ds[..|ds| - 1], ds[|ds| - 1];
      assert ds == init + [d];
      ByRuleCountsRecords(init, r, c);
      RecordsSnoc(init, d, r, c);
      SnocMultiplicity(At(ByRule(init), r), d.clusterID, c);
    }
  }

  /** The two groupings of one list are transposes, with equal multiplicities, and a record whose ID
      cannot be generated appears in neither. */
  lemma GroupingsAreTransposes(ds: seq<DisabledRule>, r: RuleID, c: ClusterName)
    ensures multiset(At(ByCluster(ds), c))[r] == multiset(At(ByRule(ds), r))[c]
    ensures r in At(ByCluster(ds), c) <==> c in At(ByRule(ds), r)
    ensures r in At(ByCluster(ds), c) <==> exists d :: d in ds && Names(d, r, c)
  {
    ByClusterCountsRecords(ds, r, c);
    ByRuleCountsRecords(ds, r, c);
    var named := Filter(ds, d => Names(d, r, c));
    assert r in At(ByCluster(ds), c) <==> r in multiset(At(ByCluster(ds), c));
    assert c in At(ByRule(ds), r) <==> c in multiset(At(ByRule(ds), r));
    if |named| > 0 {
      assert named[0] in ds && Names(named[0], r, c);
    }
    if d :| d in ds && Names(d, r, c) {
      assert d in named;
    }
  }

  /** `generateRuleAckMap`. */
  method GenerateRuleAckMap(acks: seq<RuleAck>) returns (m: map<RuleID, bool>)
    ensures m == AckMap(acks)
  {
    m := map[];
    for i := 0 to |acks|
      invariant m == AckMap(acks[..i])
    {
      assert acks[..i + 1] == acks[..i] + [acks[i]];
      var id := GenerateCompositeRuleID(acks[i].ruleID, acks[i].errorKey);
      if id.Some? {
        m := m[id.value := true];
      }
    }
    assert acks[..|acks|] == acks;
  }

  /** The acknowledged composite IDs: those some listed acknowledgement generates. */
  function AckMap(acks: seq<RuleAck>): map<RuleID, bool>
  {
    map id | id in AckedIDs(acks) :: true
  }

  function AckedIDs(acks: seq<RuleAck>): set<RuleID>
  {
    set a | a in acks && GenerateCompositeRuleID(a.ruleID, a.errorKey).Some? :: Composite(a.ruleID, a.errorKey)
  }
}
