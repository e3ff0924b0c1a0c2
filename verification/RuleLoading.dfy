/**
 The value level of `LoadRuleContent`: what its inner loop does to the plugin-level map and to the
 error-key tables. A plugin holds its table through `T`: a reference where tables are shared, the
 table itself where only its contents matter.
 */
module RuleLoading {
  import opened Sequences
  import opened Identifiers
  import opened RuleContent

  type Table = map<ErrorKey, ErrorProperties>

  datatype Plugin<+T> = Plugin(pythonModule: string, name: string, errorKeys: T)

  function Score(props: ErrorProperties): ErrorProperties
  {
    props.(totalRisk := CalculateTotalRisk(props.metadata.impact, props.metadata.likelihood))
  }

  /** The in-place update of a table by the keys in `done`. */
  function Rescored(table: Table, done: seq<ErrorKey>, parse: DateParser)
    : Table
  {
    if done == [] then table else
      var t, k := Rescored(table, done[..|done| - 1], parse), done[|done| - 1];
      if k in t && Acceptable(t[k], parse) then t[k := Score(t[k])] else t
  }

  /** Accepted keys are scored, the others keep what they had; no key comes or goes. */
  lemma {:induction false} RescoredAt(table: Table, done: seq<ErrorKey>, parse: DateParser, k: ErrorKey)
    ensures Lookup(Rescored(table, done, parse), k) ==
            if k !in table then None
            else if k in done && Acceptable(table[k], parse) then
              var meta := table[k].metadata;
              Some(table[k].(totalRisk := CalculateTotalRisk(meta.impact, meta.likelihood)))
            else Some(table[k])
  {
    if done != [] {
      assert done == done[..|done| - 1] + [done[|done| - 1]];
      RescoredAt(table, done[..|done| - 1], parse, k);
    }
  }

  /** The plugin-level map: a rule is stored under its module once one of its keys is accepted. */
  ghost function RulesOf<T>(dir: seq<Plugin<T>>, srcs: seq<RuleSource>, orders: seq<seq<ErrorKey>>, parse: DateParser)
    : map<RuleID, Plugin<T>>
    requires |dir| == |srcs| && ValidOrders(srcs, orders)
  {
    if dir == [] then map[] else
      var n := |dir| - 1;
      var rules := RulesOf(dir[..n], srcs[..n], orders[..n], parse);
      if EntriesOfRule(srcs[n], orders[n], parse) == [] then rules else rules[dir[n].pythonModule := dir[n]]
  }

  lemma RulesOfStep<T>(dir: seq<Plugin<T>>, srcs: seq<RuleSource>, orders: seq<seq<ErrorKey>>, i: nat,
                       parse: DateParser)
    requires |dir| == |srcs| && ValidOrders(srcs, orders) && i < |dir|
    ensures RulesOf(dir[..i + 1], srcs[..i + 1], orders[..i + 1], parse) ==
            var rules := RulesOf(dir[..i], srcs[..i], orders[..i], parse);
            if EntriesOfRule(srcs[i], orders[i], parse) == [] then rules else rules[dir[i].pythonModule := dir[i]]
  {
    assert srcs[..i + 1][..i] == srcs[..i] && orders[..i + 1][..i] == orders[..i] && dir[..i + 1][..i] == dir[..i];
  }

  lemma {:induction false} RulesOfMembers<T>(dir: seq<Plugin<T>>, srcs: seq<RuleSource>, orders: seq<seq<ErrorKey>>,
                                             parse: DateParser)
    requires |dir| == |srcs| && ValidOrders(srcs, orders)
    ensures forall m :: m in RulesOf(dir, srcs, orders, parse) ==> RulesOf(dir, srcs, orders, parse)[m] in dir
  {
    if dir != [] {
      var n := |dir| - 1;
      RulesOfMembers(dir[..n], srcs[..n], orders[..n], parse);
    }
  }

  ghost predicate SomeAccepted(src: RuleSource, parse: DateParser)
  {
    exists k :: k in src.table && Acceptable(src.table[k], parse)
  }

  lemma EntriesIffAccepted(src: RuleSource, order: seq<ErrorKey>, parse: DateParser)
    requires Enumerates(order, src.table.Keys)
    ensures EntriesOfRule(src, order, parse) != [] <==> SomeAccepted(src, parse)
  {
    EntriesOfRuleMembers(src, order, parse);
    var es := EntriesOfRule(src, order, parse);
    if es != [] {
      assert EntryFrom(es[0], src, order, parse);
    }
    if k :| k in src.table && Acceptable(src.table[k], parse) {
      assert EntryFrom(EntryAt(src, k, parse), src, order, parse);
    }
  }

  /** Rule `i` of the directory is the last one of its module with an accepted key. */
  ghost predicate LastAccepted(srcs: seq<RuleSource>, parse: DateParser, m: string, i: nat)
  {
    && i < |srcs| && srcs[i].pythonModule == m && SomeAccepted(srcs[i], parse)
    && forall j :: i < j < |srcs| && srcs[j].pythonModule == m ==> !SomeAccepted(srcs[j], parse)
  }

  lemma LastAcceptedEarlier(srcs: seq<RuleSource>, parse: DateParser, m: string, i: nat)
    requires srcs != [] && !(srcs[|srcs| - 1].pythonModule == m && SomeAccepted(srcs[|srcs| - 1], parse))
    ensures LastAccepted(srcs, parse, m, i) <==> LastAccepted(srcs[..|srcs| - 1], parse, m, i)
  {
    var n := |srcs| - 1;
    assert forall j :: 0 <= j < n ==> srcs[..n][j] == srcs[j];
  }

  lemma RulesOfLast<T>(dir: seq<Plugin<T>>, srcs: seq<RuleSource>, orders: seq<seq<ErrorKey>>, parse: DateParser)
    requires |dir| == |srcs| > 0 && ValidOrders(srcs, orders)
    ensures var n := |dir| - 1;
            RulesOf(dir, srcs, orders, parse) ==
            var rules := RulesOf(dir[..n], srcs[..n], orders[..n], parse);
            if SomeAccepted(srcs[n], parse) then rules[dir[n].pythonModule := dir[n]] else rules
  {
    EntriesIffAccepted(srcs[|dir| - 1], orders[|dir| - 1], parse);
  }

  lemma {:induction false} PluginIsLast<T>(dir: seq<Plugin<T>>, srcs: seq<RuleSource>, orders: seq<seq<ErrorKey>>,
                                           parse: DateParser, m: string, i: nat)
    requires |dir| == |srcs| && ValidOrders(srcs, orders) && LastAccepted(srcs, parse, m, i)
    requires forall i :: 0 <= i < |dir| ==> dir[i].pythonModule == srcs[i].pythonModule
    ensures Lookup(RulesOf(dir, srcs, orders, parse), m) == Some(dir[i])
  {
    var n := |dir| - 1;
    RulesOfLast(dir, srcs, orders, parse);
    if i < n {
      assert dir[..n][i] == dir[i];
      LastAcceptedEarlier(srcs, parse, m, i);
      PluginIsLast(dir[..n], srcs[..n], orders[..n], parse, m, i);
    } else {
      assert i == n;
    }
  }

  lemma {:induction false} PluginHasSource<T>(dir: seq<Plugin<T>>, srcs: seq<RuleSource>, orders: seq<seq<ErrorKey>>,
                                              parse: DateParser, m: string) returns (i: nat)
    requires |dir| == |srcs| && ValidOrders(srcs, orders) && m in RulesOf(dir, srcs, orders, parse)
    requires forall i :: 0 <= i < |dir| ==> dir[i].pythonModule == srcs[i].pythonModule
    ensures LastAccepted(srcs, parse, m, i)
  {
    i := |dir| - 1;
    RulesOfLast(dir, srcs, orders, parse);
    if !(srcs[i].pythonModule == m && SomeAccepted(srcs[i], parse)) {
      var n := i;
      i := PluginHasSource(dir[..n], srcs[..n], orders[..n], parse, m);
      LastAcceptedEarlier(srcs, parse, m, i);
    }
  }

  /** The plugin-level map holds a module iff the directory has it with an accepted key, and then its last
      such rule. */
  lemma PluginStoredIff<T>(dir: seq<Plugin<T>>, srcs: seq<RuleSource>, orders: seq<seq<ErrorKey>>,
                           parse: DateParser, m: string)
    requires |dir| == |srcs| && ValidOrders(srcs, orders)
    requires forall i :: 0 <= i < |dir| ==> dir[i].pythonModule == srcs[i].pythonModule
    ensures m in RulesOf(dir, srcs, orders, parse) <==> exists i: nat :: LastAccepted(srcs, parse, m, i)
    ensures forall i: nat :: LastAccepted(srcs, parse, m, i) ==>
              Lookup(RulesOf(dir, srcs, orders, parse), m) == Some(dir[i])
  {
    forall i: nat | LastAccepted(srcs, parse, m, i)
      ensures Lookup(RulesOf(dir, srcs, orders, parse), m) == Some(dir[i])
    {
      PluginIsLast(dir, srcs, orders, parse, m, i);
    }
    if m in RulesOf(dir, srcs, orders, parse) {
      var i := PluginHasSource(dir, srcs, orders, parse, m);
    }
  }

  /** What the inner loop of `LoadRuleContent` changes. */
  datatype LoadState<T> = LoadState(view: Snapshot, rules: map<RuleID, Plugin<T>>, table: Table)

  ghost function AfterKey<T>(st: LoadState<T>, rule: Plugin<T>, key: ErrorKey, parse: DateParser): LoadState<T>
  {
    if key !in st.table || !Acceptable(st.table[key], parse) then st else
      var props := st.table[key];
      LoadState(
        Store(st.view, Entry(rule.pythonModule, key, BuildContent(rule.pythonModule, rule.name, key, props, parse))),
        st.rules[rule.pythonModule := rule],
        st.table[key := Score(props)])
  }

  ghost function AfterKeys<T>(st: LoadState<T>, rule: Plugin<T>, order: seq<ErrorKey>, parse: DateParser): LoadState<T>
  {
    if order == [] then st
    else AfterKey(AfterKeys(st, rule, order[..|order| - 1], parse), rule, order[|order| - 1], parse)
  }

  lemma {:induction false} AfterKeysTable<T>(st: LoadState<T>, rule: Plugin<T>, order: seq<ErrorKey>, parse: DateParser)
    ensures AfterKeys(st, rule, order, parse).table == Rescored(st.table, order, parse)
  {
    if order != [] {
      AfterKeysTable(st, rule, order[..|order| - 1], parse);
    }
  }

  /** One key of the inner loop, seen from the table the loop started with. */
  lemma AfterKeyAt<T>(st: LoadState<T>, rule: Plugin<T>, order: seq<ErrorKey>, j: nat, parse: DateParser)
    requires Enumerates(order, st.table.Keys) && j < |order|
    ensures var src := RuleSource(rule.pythonModule, rule.name, st.table);
            var before := AfterKeys(st, rule, order[..j], parse);
            var after := AfterKeys(st, rule, order[..j + 1], parse);
            if Acceptable(st.table[order[j]], parse)
            then after.view == Store(before.view, EntryAt(src, order[j], parse))
                 && after.rules == before.rules[rule.pythonModule := rule]
            else after == before
  {
    assert order[..j + 1][..j] == order[..j];
    AfterKeysTable(st, rule, order[..j], parse);
    RescoredAt(st.table, order[..j], parse, order[j]);
    assert order[j] !in order[..j];
  }

  /** The inner loop, key by key, stores exactly the accepted entries. */
  lemma {:induction false} AfterKeysView<T>(st: LoadState<T>, rule: Plugin<T>, order: seq<ErrorKey>, j: nat,
                                            parse: DateParser)
    requires Enumerates(order, st.table.Keys) && j <= |order|
    ensures AfterKeys(st, rule, order[..j], parse).view ==
            StoreAll(st.view, EntriesOfRule(RuleSource(rule.pythonModule, rule.name, st.table), order[..j], parse))
  {
    if j > 0 {
      var src := RuleSource(rule.pythonModule, rule.name, st.table);
      AfterKeysView(st, rule, order, j - 1, parse);
      AfterKeyAt(st, rule, order, j - 1, parse);
      EntriesOfRuleStep(src, order, j - 1, parse);
      if Acceptable(st.table[order[j - 1]], parse) {
        StoreAllSnoc(st.view, EntriesOfRule(src, order[..j - 1], parse), EntryAt(src, order[j - 1], parse));
      }
    }
  }

  lemma UpdateTwice<K, V>(m: map<K, V>, k: K, v: V)
    ensures m[k := v][k := v] == m[k := v]
  {
  }

  /** The rule itself is stored once one of its keys is accepted. */
  lemma {:induction false} AfterKeysRules<T>(st: LoadState<T>, rule: Plugin<T>, order: seq<ErrorKey>, j: nat,
                                             parse: DateParser)
    requires Enumerates(order, st.table.Keys) && j <= |order|
    ensures AfterKeys(st, rule, order[..j], parse).rules ==
            if EntriesOfRule(RuleSource(rule.pythonModule, rule.name, st.table), order[..j], parse) == [] then st.rules
            else st.rules[rule.pythonModule := rule]
  {
    if j > 0 {
      var m, k := rule.pythonModule, order[j - 1];
      var src := RuleSource(m, rule.name, st.table);
      AfterKeysRules(st, rule, order, j - 1, parse);
      AfterKeyAt(st, rule, order, j - 1, parse);
      EntriesOfRuleStep(src, order, j - 1, parse);
      if Acceptable(st.table[k], parse) {
        assert EntriesOfRule(src, order[..j], parse) != [];
        UpdateTwice(st.rules, m, rule);
      }
    }
  }

  /** With distinct modules, a rule that has an accepted key is found under its own module. */
  lemma RulesOfFinds<T>(dir: seq<Plugin<T>>, srcs: seq<RuleSource>, orders: seq<seq<ErrorKey>>,
                        parse: DateParser, i: nat)
    requires |dir| == |srcs| && ValidOrders(srcs, orders) && DistinctModules(srcs)
    requires forall i :: 0 <= i < |dir| ==> dir[i].pythonModule == srcs[i].pythonModule
    requires i < |dir| && EntriesOfRule(srcs[i], orders[i], parse) != []
    ensures Lookup(RulesOf(dir, srcs, orders, parse), dir[i].pythonModule) == Some(dir[i])
  {
    EntriesIffAccepted(srcs[i], orders[i], parse);
    assert LastAccepted(srcs, parse, srcs[i].pythonModule, i);
    PluginIsLast(dir, srcs, orders, parse, srcs[i].pythonModule, i);
  }

  /** The rules of a loaded directory with their tables as the load leaves them. */
  ghost function Finished(srcs: seq<RuleSource>, orders: seq<seq<ErrorKey>>, parse: DateParser)
    : (dir: seq<Plugin<Table>>)
    requires |orders| == |srcs|
    ensures |dir| == |srcs|
  {
    seq(|srcs|, i requires 0 <= i < |srcs| =>
      Plugin(srcs[i].pythonModule, srcs[i].name, Rescored(srcs[i].table, orders[i], parse)))
  }

  /** After a load of distinct modules, the total risk found through the plugin-level map is the one
      held by the key-level maps, for every stored pair. */
  lemma FinishedRiskAgrees(srcs: seq<RuleSource>, orders: seq<seq<ErrorKey>>, parse: DateParser, m: string, k: ErrorKey)
    requires ValidOrders(srcs, orders) && DistinctModules(srcs)
    requires (m, k) in Load(srcs, orders, parse).pairs
    ensures var rules: map<RuleID, Plugin<Table>> := RulesOf(Finished(srcs, orders, parse), srcs, orders, parse);
            && m in rules && k in rules[m].errorKeys
            && rules[m].errorKeys[k].totalRisk == Load(srcs, orders, parse).pairs[(m, k)].totalRisk
  {
    var i := StoredOnce(srcs, orders, parse, m, k);
    RulesOfFinds(Finished(srcs, orders, parse), srcs, orders, parse, i);
    RescoredAt(srcs[i].table, orders[i], parse, k);
  }

  /** The rule a stored pair comes from, when modules are distinct. */
  lemma StoredOnce(srcs: seq<RuleSource>, orders: seq<seq<ErrorKey>>, parse: DateParser, m: string, k: ErrorKey)
    returns (i: nat)
    requires ValidOrders(srcs, orders) && DistinctModules(srcs)
    requires (m, k) in Load(srcs, orders, parse).pairs
    ensures i < |srcs| && srcs[i].pythonModule == m && k in srcs[i].table && Acceptable(srcs[i].table[k], parse)
    ensures k in orders[i] && EntriesOfRule(srcs[i], orders[i], parse) != []
    ensures Load(srcs, orders, parse).pairs[(m, k)] == EntryAt(srcs[i], k, parse).content
  {
    StoredIffAccepted(srcs, orders, parse, m, k);
    i :| 0 <= i < |srcs| && srcs[i].pythonModule == m && k in srcs[i].table && Acceptable(srcs[i].table[k], parse);
    StoredContent(srcs, orders, parse, i, k);
    EntriesOfRuleMembers(srcs[i], orders[i], parse);
    assert EntryFrom(EntryAt(srcs[i], k, parse), srcs[i], orders[i], parse);
  }
}
