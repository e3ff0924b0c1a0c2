/**
 `RulesWithContentStorage` and `LoadRuleContent`: the mutable storage behind the value-level index
 of RuleContent. Plugin-level rules share their error-key table with the directory they came from,
 which the load updates in place.
 */
module ContentStorage {
  import opened Sequences
  import opened Identifiers
  import opened RuleContent
  import opened RuleLoading

  /** A Go map of error keys: shared by reference between the directory and the storage. */
  class ErrorKeys {
    var table: map<ErrorKey, ErrorProperties>

    constructor (table: map<ErrorKey, ErrorProperties>)
      ensures this.table == table
    {
      this.table := table;
    }
  }

  type Rule = Plugin<ErrorKeys>

  datatype SeverityInfo = SeverityInfo(severities: map<RuleID, int>, unique: set<int>)

  class RulesWithContentStorage {
    var rules: map<RuleID, Rule>
    var rulesWithContent: map<(RuleID, ErrorKey), RuleWithContent>
    var recommendationsWithContent: map<RuleID, RuleWithContent>
    var internalRuleIDs: seq<RuleID>
    var externalRuleIDs: seq<RuleID>

    ghost function View(): Snapshot
      reads this
    {
      Snapshot(rulesWithContent, recommendationsWithContent, internalRuleIDs, externalRuleIDs)
    }

    constructor ()
      ensures View() == EMPTY && rules == map[]
    {
      rules, rulesWithContent, recommendationsWithContent := map[], map[], map[];
      internalRuleIDs, externalRuleIDs := [], [];
    }

    method SetRuleWithContent(ruleID: RuleID, errorKey: ErrorKey, content: RuleWithContent)
      modifies this
      ensures View() == Store(old(View()), Entry(ruleID, errorKey, content))
      ensures rules == old(rules)
    {
      var compositeRuleID := "";
      var generated := GenerateCompositeRuleID(ruleID, errorKey);
      if generated.Some? {
        compositeRuleID := generated.value;
        recommendationsWithContent := recommendationsWithContent[compositeRuleID := content];
      }
      rulesWithContent := rulesWithContent[(ruleID, errorKey) := content];
      if content.isInternal {
        internalRuleIDs := internalRuleIDs + [compositeRuleID];
      } else {
        externalRuleIDs := externalRuleIDs + [compositeRuleID];
      }
    }

    method SetRule(ruleID: RuleID, rule: Rule)
      modifies this
      ensures rules == old(rules)[ruleID := rule] && View() == old(View())
    {
      rules := rules[ruleID := rule];
    }

    /** None stands for the nil dereference of a listed ID that the map does not hold. */
    method GetExternalRuleSeverities() returns (r: Option<SeverityInfo>)
      ensures r.Some? <==> LookupsSafe(View())
      ensures r.Some? ==> r.value == SeverityInfo(Severities(View()), UniqueSeverities(View()))
      ensures r.Some? ==> forall id :: id in r.value.severities <==> id in externalRuleIDs
      ensures r.Some? ==> forall id :: id in externalRuleIDs ==>
                && r.value.severities[id] == recommendationsWithContent[id].totalRisk
                && r.value.severities[id] in r.value.unique
      ensures r.Some? ==> forall risk :: risk in r.value.unique ==>
                exists id :: id in externalRuleIDs && recommendationsWithContent[id].totalRisk == risk
    {
      var severityMap, unique := map[], {};
      for i := 0 to |externalRuleIDs|
        invariant forall id :: id in externalRuleIDs[..i] ==> id in recommendationsWithContent
        invariant severityMap == map id | id in externalRuleIDs[..i] :: recommendationsWithContent[id].totalRisk
        invariant unique == set id | id in externalRuleIDs[..i] :: recommendationsWithContent[id].totalRisk
      {
        var id := externalRuleIDs[i];
        assert externalRuleIDs[..i + 1] == externalRuleIDs[..i] + [id];
        if id !in recommendationsWithContent {
          return None;
        }
        severityMap := severityMap[id := recommendationsWithContent[id].totalRisk];
        unique := unique + {recommendationsWithContent[id].totalRisk};
      }
      assert externalRuleIDs[..|externalRuleIDs|] == externalRuleIDs;
      return Some(SeverityInfo(severityMap, unique));
    }

    method GetExternalRulesManagedInfo() returns (r: Option<map<RuleID, bool>>)
      ensures r.Some? <==> LookupsSafe(View())
      ensures r.Some? ==> r.value == ManagedInfo(View())
      ensures r.Some? ==> forall id :: id in r.value <==> id in externalRuleIDs
      ensures r.Some? ==> forall id :: id in externalRuleIDs ==>
                r.value[id] == recommendationsWithContent[id].osdCustomer
    {
      var managed := map[];
      for i := 0 to |externalRuleIDs|
        invariant forall id :: id in externalRuleIDs[..i] ==> id in recommendationsWithContent
        invariant managed == map id | id in externalRuleIDs[..i] :: recommendationsWithContent[id].osdCustomer
      {
        var id := externalRuleIDs[i];
        assert externalRuleIDs[..i + 1] == externalRuleIDs[..i] + [id];
        if id !in recommendationsWithContent {
          return None;
        }
        managed := managed[id := recommendationsWithContent[id].osdCustomer];
      }
      assert externalRuleIDs[..|externalRuleIDs|] == externalRuleIDs;
      return Some(managed);
    }
  }

  ghost function Tables(dir: seq<Rule>): set<object>
  {
    set r | r in dir :: r.errorKeys
  }

  /** The directory's contents as values, read from the heap. */
  ghost function Sources(dir: seq<Rule>): (srcs: seq<RuleSource>)
    reads Tables(dir)
    ensures |srcs| == |dir|
    ensures forall i :: 0 <= i < |dir| ==>
              srcs[i] == RuleSource(dir[i].pythonModule, dir[i].name, dir[i].errorKeys.table)
  {
    if dir == [] then [] else
      var n := |dir| - 1;
      assert forall i :: 0 <= i < n ==> dir[..n][i] in dir;
      Sources(dir[..n]) + [RuleSource(dir[n].pythonModule, dir[n].name, dir[n].errorKeys.table)]
  }

  ghost predicate SeparateTables(dir: seq<Rule>)
  {
    forall i, j :: 0 <= i < j < |dir| ==> dir[i].errorKeys != dir[j].errorKeys
  }

  /** The storage and the directory after the first `i` rules were loaded. */
  ghost predicate LoadedUpTo(s: RulesWithContentStorage, dir: seq<Rule>, srcs: seq<RuleSource>,
                             orders: seq<seq<ErrorKey>>, i: nat, parse: DateParser)
    requires |dir| == |srcs| && ValidOrders(srcs, orders) && i <= |dir|
    reads s, Tables(dir)
  {
    && s.View() == Load(srcs[..i], orders[..i], parse)
    && s.rules == RulesOf(dir[..i], srcs[..i], orders[..i], parse)
    && (forall j :: 0 <= j < i ==> dir[j].errorKeys.table == Rescored(srcs[j].table, orders[j], parse))
    && (forall j :: i <= j < |dir| ==> dir[j].errorKeys.table == srcs[j].table)
  }

  method LoadRuleContent(dir: seq<Rule>, orders: seq<seq<ErrorKey>>, parse: DateParser)
    returns (s: RulesWithContentStorage)
    requires SeparateTables(dir)
    requires ValidOrders(Sources(dir), orders)
    modifies Tables(dir)
    ensures fresh(s)
    ensures s.View() == Load(old(Sources(dir)), orders, parse)
    ensures s.rules == RulesOf(dir, old(Sources(dir)), orders, parse)
    ensures forall i :: 0 <= i < |dir| ==>
              dir[i].errorKeys.table == Rescored(old(dir[i].errorKeys.table), orders[i], parse)
  {
    s := new RulesWithContentStorage();
    ghost var srcs := Sources(dir);
    for i := 0 to |dir|
      invariant fresh(s)
      invariant LoadedUpTo(s, dir, srcs, orders, i, parse)
    {
      LoadRuleAt(s, dir, i, orders, parse, srcs);
    }
    assert srcs[..|dir|] == srcs && orders[..|dir|] == orders && dir[..|dir|] == dir;
  }

  /** One iteration of the outer loop of `LoadRuleContent`. */
  method LoadRuleAt(s: RulesWithContentStorage, dir: seq<Rule>, i: nat, orders: seq<seq<ErrorKey>>, parse: DateParser,
                    ghost srcs: seq<RuleSource>)
    requires i < |dir| == |srcs| && SeparateTables(dir) && ValidOrders(srcs, orders)
    requires forall j :: 0 <= j < |dir| ==> srcs[j].pythonModule == dir[j].pythonModule && srcs[j].name == dir[j].name
    requires LoadedUpTo(s, dir, srcs, orders, i, parse)
    modifies s, dir[i].errorKeys
    ensures LoadedUpTo(s, dir, srcs, orders, i + 1, parse)
  {
    LoadStep(srcs, orders, i, parse);
    RulesOfStep(dir, srcs, orders, i, parse);
    LoadRule(s, dir[i], orders[i], parse, srcs[i]);
    forall j | 0 <= j <= i ensures dir[j].errorKeys.table == Rescored(srcs[j].table, orders[j], parse) {
      if j < i {
        assert dir[j].errorKeys != dir[i].errorKeys;
      } else {
        assert j == i;
      }
    }
  }

  ghost function StateOf(s: RulesWithContentStorage, rule: Rule): LoadState<ErrorKeys>
    reads s, rule.errorKeys
  {
    LoadState(s.View(), s.rules, rule.errorKeys.table)
  }

  /** The inner loop of `LoadRuleContent`, for one rule of the directory. */
  method LoadRule(s: RulesWithContentStorage, rule: Rule, order: seq<ErrorKey>, parse: DateParser,
                  ghost src: RuleSource)
    requires src == RuleSource(rule.pythonModule, rule.name, rule.errorKeys.table)
    requires Enumerates(order, src.table.Keys)
    modifies s, rule.errorKeys
    ensures s.View() == StoreAll(old(s.View()), EntriesOfRule(src, order, parse))
    ensures s.rules == if EntriesOfRule(src, order, parse) == [] then old(s.rules)
                       else old(s.rules)[rule.pythonModule := rule]
    ensures rule.errorKeys.table == Rescored(src.table, order, parse)
  {
    for j := 0 to |order|
      invariant rule.errorKeys.table.Keys == src.table.Keys
      invariant StateOf(s, rule) == AfterKeys(old(StateOf(s, rule)), rule, order[..j], parse)
    {
      assert order[..j + 1][..j] == order[..j];
      var props := rule.errorKeys.table[order[j]];
      if Acceptable(props, parse) {
        LoadKey(s, rule, order[j], props, parse);
      }
    }
    AfterKeysView(old(StateOf(s, rule)), rule, order, |order|, parse);
    AfterKeysRules(old(StateOf(s, rule)), rule, order, |order|, parse);
    AfterKeysTable(old(StateOf(s, rule)), rule, order, parse);
    assert order[..|order|] == order;
  }

  /** The accepted branch of the inner loop: scores the key in place and stores both levels. */
  method LoadKey(s: RulesWithContentStorage, rule: Rule, key: ErrorKey, props: ErrorProperties, parse: DateParser)
    requires key in rule.errorKeys.table && rule.errorKeys.table[key] == props && Acceptable(props, parse)
    modifies s, rule.errorKeys
    ensures s.View() == Store(old(s.View()), Entry(rule.pythonModule, key,
                                                   BuildContent(rule.pythonModule, rule.name, key, props, parse)))
    ensures s.rules == old(s.rules)[rule.pythonModule := rule]
    ensures rule.errorKeys.table == old(rule.errorKeys.table)[
              key := Score(props)]
  {
    var meta := props.metadata;
    var totalRisk := CalculateTotalRisk(meta.impact, meta.likelihood);
    if key in rule.errorKeys.table {
      rule.errorKeys.table := rule.errorKeys.table[key := rule.errorKeys.table[key].(totalRisk := totalRisk)];
    }
    s.SetRule(rule.pythonModule, rule);
    s.SetRuleWithContent(rule.pythonModule, key, RuleWithContent(
      rule.pythonModule, rule.name, props.generic, props.summary, props.reason, props.resolution, props.moreInfo,
      key, meta.description, totalRisk, meta.resolutionRisk, meta.impact, meta.likelihood,
      TimeParse(meta.publishDate, parse).value, GetActiveStatus(meta.status).active, Internal(rule.pythonModule),
      meta.tags, "osd_customer" in meta.tags));
  }

  /** After a load of distinct modules, the total risk found through the plugin-level map is the one
      held by the key-level maps, for every stored pair. */
  lemma {:induction false} TotalRiskAgrees(s: RulesWithContentStorage, dir: seq<Rule>, srcs: seq<RuleSource>,
                        orders: seq<seq<ErrorKey>>, parse: DateParser, m: string, k: ErrorKey)
    requires |srcs| == |dir| && ValidOrders(srcs, orders) && DistinctModules(srcs)
    requires forall i :: 0 <= i < |dir| ==> srcs[i].pythonModule == dir[i].pythonModule
    requires s.View() == Load(srcs, orders, parse)
    requires s.rules == RulesOf(dir, srcs, orders, parse)
    requires forall i :: 0 <= i < |dir| ==> dir[i].errorKeys.table == Rescored(srcs[i].table, orders[i], parse)
    requires (m, k) in s.rulesWithContent
    ensures m in s.rules && k in s.rules[m].errorKeys.table
    ensures s.rules[m].errorKeys.table[k].totalRisk == s.rulesWithContent[(m, k)].totalRisk
  {
    var i := StoredOnce(srcs, orders, parse, m, k);
    RulesOfFinds(dir, srcs, orders, parse, i);
    RescoredAt(srcs[i].table, orders[i], parse, k);
  }
}
