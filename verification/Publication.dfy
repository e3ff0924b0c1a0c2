/**
 Publication of rule content: one updater fetches a directory, fills a private storage key by key
 and publishes it by a pointer assignment, while lookups pass the wait for the directory, take the
 pointer and read through it. A step relation over interleaved events; theorems are about every run.
 */
module Publication {
  import opened Identifiers
  import opened RuleContent
  import opened RuleLoading

  type Ref = nat
  type Reader = nat

  /** An error-key table: `index` is its rule's place in the directory that was decoded for `owner`. */
  datatype TableRef = TableRef(owner: Ref, index: nat)

  /** A directory as fetched, with the order in which its maps will be iterated. */
  datatype Fetched = Fetched(srcs: seq<RuleSource>, orders: seq<seq<ErrorKey>>)
  {
    ghost predicate Valid()
    {
      ValidOrders(srcs, orders)
    }

    /** The rules of the directory, holding their tables by reference. */
    ghost function Dir(owner: Ref): (dir: seq<Plugin<TableRef>>)
      ensures |dir| == |srcs|
    {
      seq(|srcs|, k requires 0 <= k < |srcs| => Plugin(srcs[k].pythonModule, srcs[k].name, TableRef(owner, k)))
    }

    /** The tables of the directory as decoded. */
    ghost function Decoded(owner: Ref): map<TableRef, Table>
    {
      map t: TableRef | t in Refs(owner) :: srcs[t.index].table
    }

    ghost function Refs(owner: Ref): (refs: set<TableRef>)
      ensures forall t :: t in refs <==> t.owner == owner && t.index < |srcs|
    {
      set k | 0 <= k < |srcs| :: TableRef(owner, k)
    }
  }

  /** A storage object: the key-level indexes and the plugin-level map. */
  datatype Storage = Storage(view: Snapshot, rules: map<RuleID, Plugin<TableRef>>)

  /** The updater is idle or inside the loops of `LoadRuleContent`, at key `key` of rule `rule`. */
  datatype Updater = Idle | Filling(fetched: Fetched, target: Ref, rule: nat, key: nat)

  /** A lookup: it found the directory set or not, and then took the pointer or gave up waiting. */
  datatype Phase = Passed | Blocked | Reading(ref: Ref) | GaveUp

  /** `heap` and `tables` hold every object ever allocated. `loads` and `version` are history: the
      published directories and the load each settled object holds. */
  datatype State = State(heap: map<Ref, Storage>, tables: map<TableRef, Table>, published: Ref, next: Ref,
                         directorySet: bool, updater: Updater, readers: map<Reader, Phase>,
                         loads: seq<Fetched>, version: map<Ref, nat>)

  datatype Event =
    | FetchFails
    | FetchSucceeds(fetched: Fetched)
    | LoadKey
    | NextRule
    | Publish
    | Begin(reader: Reader)
    | TakePointer(reader: Reader)
    | TimeOut(reader: Reader)
    | Leave(reader: Reader)

  const NOTHING := Storage(EMPTY, map[])
  const INITIAL := State(map[0 := NOTHING], map[], 0, 1, false, Idle, map[], [], map[0 := 0])

  ghost predicate AtKey(s: State)
  {
    && s.updater.Filling? && s.updater.rule < |s.updater.fetched.srcs| == |s.updater.fetched.orders|
    && s.updater.key < |s.updater.fetched.orders[s.updater.rule]|
    && s.updater.target in s.heap && TableRef(s.updater.target, s.updater.rule) in s.tables
  }

  ghost predicate AtRuleEnd(s: State)
  {
    && s.updater.Filling? && s.updater.rule < |s.updater.fetched.srcs| == |s.updater.fetched.orders|
    && s.updater.key == |s.updater.fetched.orders[s.updater.rule]|
  }

  /** The wait's condition variable is never signalled: whoever found no directory can only time out. */
  ghost predicate Enabled(s: State, e: Event)
  {
    match e
    case FetchFails => s.updater.Idle?
    case FetchSucceeds(f) => s.updater.Idle? && f.Valid()
    case LoadKey => AtKey(s)
    case NextRule => AtRuleEnd(s)
    case Publish => s.updater.Filling? && s.updater.rule == |s.updater.fetched.srcs|
    case Begin(r) => r !in s.readers
    case TakePointer(r) => r in s.readers && s.readers[r].Passed?
    case TimeOut(r) => r in s.readers && s.readers[r].Blocked?
    case Leave(r) => r in s.readers && (s.readers[r].Reading? || s.readers[r].GaveUp?)
  }

  /** What the inner loop is about to change. */
  ghost function Current(s: State): LoadState<TableRef>
    requires AtKey(s)
  {
    var u := s.updater;
    LoadState(s.heap[u.target].view, s.heap[u.target].rules, s.tables[TableRef(u.target, u.rule)])
  }

  /** One pass of the inner loop: scores the key in place and stores both levels, if it is acceptable. */
  ghost function LoadOneKey(s: State, parse: DateParser): State
    requires AtKey(s)
  {
    var u := s.updater;
    var after := AfterKey(Current(s), u.fetched.Dir(u.target)[u.rule], u.fetched.orders[u.rule][u.key], parse);
    s.(heap := s.heap[u.target := Storage(after.view, after.rules)],
       tables := s.tables[TableRef(u.target, u.rule) := after.table],
       updater := u.(key := u.key + 1))
  }

  /** A decoded directory is set, and its load starts on a new, empty storage. */
  ghost function StartLoad(s: State, f: Fetched): State
  {
    s.(heap := s.heap[s.next := NOTHING], tables := s.tables + f.Decoded(s.next), next := s.next + 1,
       directorySet := true, updater := Filling(f, s.next, 0, 0))
  }

  ghost function EnterNextRule(s: State): State
    requires s.updater.Filling?
  {
    s.(updater := s.updater.(rule := s.updater.rule + 1, key := 0))
  }

  ghost function PublishTarget(s: State): State
    requires s.updater.Filling?
  {
    var u := s.updater;
    s.(published := u.target, updater := Idle, loads := s.loads + [u.fetched],
       version := s.version[u.target := |s.loads| + 1])
  }

  /** One event; an event that cannot happen in `s` changes nothing. */
  ghost function Apply(s: State, e: Event, parse: DateParser): State
  {
    if !Enabled(s, e) then s else
    match e
    case FetchFails => s
    case FetchSucceeds(f) => StartLoad(s, f)
    case LoadKey => LoadOneKey(s, parse)
    case NextRule => EnterNextRule(s)
    case Publish => PublishTarget(s)
    case Begin(r) => s.(readers := s.readers[r := if s.directorySet then Passed else Blocked])
    case TakePointer(r) => s.(readers := s.readers[r := Reading(s.published)])
    case TimeOut(r) => s.(readers := s.readers[r := GaveUp])
    case Leave(r) => s.(readers := s.readers - {r})
  }

  ghost function Final(s: State, es: seq<Event>, parse: DateParser): State
  {
    if es == [] then s else Apply(Final(s, es[..|es| - 1], parse), es[|es| - 1], parse)
  }

  /** Every event of the list happens. */
  ghost predicate IsRun(s: State, es: seq<Event>, parse: DateParser)
  {
    es == [] || (IsRun(s, es[..|es| - 1], parse) && Enabled(Final(s, es[..|es| - 1], parse), es[|es| - 1]))
  }

  // ---------- what a lookup can see ----------

  /** A storage as a lookup sees it, with every table followed. */
  datatype Seen = Seen(view: Snapshot, rules: map<RuleID, Plugin<Table>>)

  ghost function Follow(tables: map<TableRef, Table>, rules: map<RuleID, Plugin<TableRef>>)
    : map<RuleID, Plugin<Table>>
  {
    map m | m in rules && rules[m].errorKeys in tables ::
      Plugin(rules[m].pythonModule, rules[m].name, tables[rules[m].errorKeys])
  }

  ghost function SeenAt(s: State, ref: Ref): Seen
    requires ref in s.heap
  {
    Seen(s.heap[ref].view, Follow(s.tables, s.heap[ref].rules))
  }

  /** The complete load of a directory, as values. */
  ghost function Complete(f: Fetched, parse: DateParser): Seen
    requires f.Valid()
  {
    Seen(Load(f.srcs, f.orders, parse), RulesOf(Finished(f.srcs, f.orders, parse), f.srcs, f.orders, parse))
  }

  /** What the v-th published storage must show: nothing before the first load, then complete loads. */
  ghost function Content(loads: seq<Fetched>, v: nat, parse: DateParser): Seen
    requires v <= |loads| && forall f :: f in loads ==> f.Valid()
  {
    if v == 0 then Seen(EMPTY, map[]) else Complete(loads[v - 1], parse)
  }

  // ---------- the invariant ----------

  /** `ref` is an object whose contents are final. */
  ghost predicate Settled(s: State, ref: Ref)
  {
    ref in s.version && ref in s.heap
  }

  ghost predicate ValidLoads(s: State)
  {
    forall f :: f in s.loads ==> f.Valid()
  }

  /** Every rule of the object keeps its table in the object's own directory. */
  ghost predicate OwnTables(s: State, ref: Ref)
    requires ref in s.heap
  {
    forall m :: m in s.heap[ref].rules ==>
      s.heap[ref].rules[m].errorKeys in s.tables && s.heap[ref].rules[m].errorKeys.owner == ref
  }

  /** The settled object shows the complete load its version names. */
  ghost predicate Intact(s: State, ref: Ref, parse: DateParser)
    requires ValidLoads(s) && ref in s.version
  {
    && ref in s.heap && OwnTables(s, ref)
    && s.version[ref] <= |s.loads| && SeenAt(s, ref) == Content(s.loads, s.version[ref], parse)
  }

  ghost predicate SettledComplete(s: State, parse: DateParser)
    requires ValidLoads(s)
  {
    forall ref :: ref in s.version ==> Intact(s, ref, parse)
  }

  /** The storage before rule `i` of the load. */
  ghost function Before(f: Fetched, target: Ref, i: nat, parse: DateParser): Storage
    requires f.Valid() && i <= |f.srcs|
  {
    Storage(Load(f.srcs[..i], f.orders[..i], parse),
            RulesOf(f.Dir(target)[..i], f.srcs[..i], f.orders[..i], parse))
  }

  /** The state of the inner loop at key `j` of rule `i`. */
  ghost function Within(f: Fetched, target: Ref, i: nat, j: nat, parse: DateParser): LoadState<TableRef>
    requires f.Valid() && i < |f.srcs| && j <= |f.orders[i]|
  {
    var before := Before(f, target, i, parse);
    AfterKeys(LoadState(before.view, before.rules, f.srcs[i].table), f.Dir(target)[i], f.orders[i][..j], parse)
  }

  /** The tables of the load in progress: rescored behind rule `i`, as decoded after it. */
  ghost predicate TablesAround(tables: map<TableRef, Table>, f: Fetched, target: Ref, i: nat, parse: DateParser)
    requires f.Valid()
  {
    && (forall k :: 0 <= k < |f.srcs| ==> TableRef(target, k) in tables)
    && (forall k :: 0 <= k < i && k < |f.srcs| ==>
          tables[TableRef(target, k)] == Rescored(f.srcs[k].table, f.orders[k], parse))
    && (forall k :: i < k < |f.srcs| ==> tables[TableRef(target, k)] == f.srcs[k].table)
  }

  /** The storage and the tables are exactly as far as the updater's loops are. */
  ghost predicate InStep(u: Updater, storage: Storage, tables: map<TableRef, Table>, parse: DateParser)
    requires u.Filling?
  {
    var f := u.fetched;
    && f.Valid() && u.rule <= |f.srcs| && TablesAround(tables, f, u.target, u.rule, parse)
    && if u.rule == |f.srcs| then storage == Before(f, u.target, u.rule, parse)
       else && u.key <= |f.orders[u.rule]|
            && LoadState(storage.view, storage.rules, tables[TableRef(u.target, u.rule)])
               == Within(f, u.target, u.rule, u.key, parse)
  }

  /** The updater's storage is nobody else's. */
  ghost predicate PrivateTarget(s: State, parse: DateParser)
  {
    s.updater.Filling? ==>
      && s.updater.target in s.heap && s.updater.target !in s.version
      && InStep(s.updater, s.heap[s.updater.target], s.tables, parse)
  }

  ghost predicate Allocated(s: State)
  {
    && (forall ref :: ref in s.heap ==> ref < s.next)
    && (forall t :: t in s.tables ==> t.owner < s.next)
  }

  ghost predicate SettledPointers(s: State)
  {
    && Settled(s, s.published) && s.version[s.published] == |s.loads|
    && (forall r :: r in s.readers && s.readers[r].Reading? ==> Settled(s, s.readers[r].ref))
  }

  ghost predicate Inv(s: State, parse: DateParser)
  {
    && ValidLoads(s) && Allocated(s) && SettledComplete(s, parse) && SettledPointers(s) && PrivateTarget(s, parse)
  }

  // ---------- every step keeps it ----------

  /** An object shows the same as long as it and the tables of its own directory stay. */
  lemma SeenKept(s: State, s': State, ref: Ref)
    requires ref in s.heap && ref in s'.heap && s'.heap[ref] == s.heap[ref] && OwnTables(s, ref)
    requires forall t :: t in s.tables && t.owner == ref ==> t in s'.tables && s'.tables[t] == s.tables[t]
    ensures OwnTables(s', ref) && SeenAt(s', ref) == SeenAt(s, ref)
  {
  }

  /** A step that leaves the settled objects and their tables alone keeps what they show. */
  lemma SettledKept(s: State, s': State, parse: DateParser)
    requires ValidLoads(s) && SettledComplete(s, parse) && s'.loads == s.loads && s'.version == s.version
    requires forall ref :: ref in s.version ==> ref in s'.heap && s'.heap[ref] == s.heap[ref]
    requires forall t :: t in s.tables && t.owner in s.version ==> t in s'.tables && s'.tables[t] == s.tables[t]
    ensures SettledComplete(s', parse)
  {
    forall ref | ref in s'.version ensures Intact(s', ref, parse) {
      assert Intact(s, ref, parse);
      SeenKept(s, s', ref);
    }
  }

  /** So does a step that writes nothing at all. */
  lemma MemoryKept(s: State, s': State, parse: DateParser)
    requires ValidLoads(s) && SettledComplete(s, parse) && s'.loads == s.loads && s'.version == s.version
    requires s'.heap == s.heap && s'.tables == s.tables
    ensures SettledComplete(s', parse)
  {
    forall ref | ref in s'.version ensures Intact(s', ref, parse) {
      assert Intact(s, ref, parse);
    }
  }

  lemma RuleStarts(f: Fetched, target: Ref, i: nat, parse: DateParser)
    requires f.Valid() && i < |f.srcs|
    ensures var before := Before(f, target, i, parse);
            Within(f, target, i, 0, parse) == LoadState(before.view, before.rules, f.srcs[i].table)
  {
    assert f.orders[i][..0] == [];
  }

  /** The updater is in step when it enters rule `i`, or leaves the last one. */
  lemma StartsInStep(f: Fetched, target: Ref, i: nat, tables: map<TableRef, Table>, parse: DateParser)
    requires f.Valid() && i <= |f.srcs| && TablesAround(tables, f, target, i, parse)
    requires i < |f.srcs| ==> tables[TableRef(target, i)] == f.srcs[i].table
    ensures InStep(Filling(f, target, i, 0), Before(f, target, i, parse), tables, parse)
  {
    if i < |f.srcs| {
      RuleStarts(f, target, i, parse);
    }
  }

  lemma FetchStartsInStep(f: Fetched, target: Ref, tables: map<TableRef, Table>, parse: DateParser)
    requires f.Valid()
    ensures InStep(Filling(f, target, 0, 0), NOTHING, tables + f.Decoded(target), parse)
  {
    assert Before(f, target, 0, parse) == NOTHING;
    assert forall k :: 0 <= k < |f.srcs| ==> TableRef(target, k) in f.Refs(target);
    StartsInStep(f, target, 0, tables + f.Decoded(target), parse);
  }

  lemma FetchKeepsSettled(s: State, f: Fetched, parse: DateParser)
    requires ValidLoads(s) && Allocated(s) && SettledComplete(s, parse)
    ensures SettledComplete(StartLoad(s, f), parse)
  {
    SettledKept(s, StartLoad(s, f), parse);
  }

  lemma FetchKeepsPointers(s: State, f: Fetched)
    requires Allocated(s) && SettledPointers(s)
    ensures Allocated(StartLoad(s, f)) && SettledPointers(StartLoad(s, f))
  {
  }

  lemma InvFetch(s: State, f: Fetched, parse: DateParser)
    requires Inv(s, parse) && f.Valid()
    ensures Inv(StartLoad(s, f), parse)
  {
    FetchKeepsSettled(s, f, parse);
    FetchKeepsPointers(s, f);
    FetchStartsInStep(f, s.next, s.tables, parse);
  }

  lemma WithinStep(f: Fetched, target: Ref, i: nat, j: nat, parse: DateParser)
    requires f.Valid() && i < |f.srcs| && j < |f.orders[i]|
    ensures Within(f, target, i, j + 1, parse) ==
            AfterKey(Within(f, target, i, j, parse), f.Dir(target)[i], f.orders[i][j], parse)
  {
    assert f.orders[i][..j + 1][..j] == f.orders[i][..j];
  }

  lemma LoadKeyStaysInStep(s: State, parse: DateParser)
    requires PrivateTarget(s, parse) && AtKey(s)
    ensures PrivateTarget(LoadOneKey(s, parse), parse)
  {
    WithinStep(s.updater.fetched, s.updater.target, s.updater.rule, s.updater.key, parse);
  }

  lemma LoadKeyKeepsSettled(s: State, parse: DateParser)
    requires ValidLoads(s) && SettledComplete(s, parse) && AtKey(s) && s.updater.target !in s.version
    ensures SettledComplete(LoadOneKey(s, parse), parse)
  {
    SettledKept(s, LoadOneKey(s, parse), parse);
  }

  lemma LoadKeyKeepsPointers(s: State, parse: DateParser)
    requires Allocated(s) && SettledPointers(s) && AtKey(s)
    ensures Allocated(LoadOneKey(s, parse)) && SettledPointers(LoadOneKey(s, parse))
  {
  }

  lemma InvLoadKey(s: State, parse: DateParser)
    requires Inv(s, parse) && AtKey(s)
    ensures Inv(LoadOneKey(s, parse), parse)
  {
    LoadKeyKeepsSettled(s, parse);
    LoadKeyKeepsPointers(s, parse);
    LoadKeyStaysInStep(s, parse);
  }

  /** At the end of rule `i` the storage is where rule `i + 1` starts, and the rule's table is rescored. */
  lemma RuleDone(f: Fetched, target: Ref, i: nat, parse: DateParser)
    requires f.Valid() && i < |f.srcs|
    ensures var done := Within(f, target, i, |f.orders[i]|, parse);
            && Storage(done.view, done.rules) == Before(f, target, i + 1, parse)
            && done.table == Rescored(f.srcs[i].table, f.orders[i], parse)
  {
    var before, order, rule := Before(f, target, i, parse), f.orders[i], f.Dir(target)[i];
    var st := LoadState(before.view, before.rules, f.srcs[i].table);
    assert order[..|order|] == order;
    assert RuleSource(rule.pythonModule, rule.name, st.table) == f.srcs[i];
    AfterKeysTable(st, rule, order, parse);
    AfterKeysView(st, rule, order, |order|, parse);
    AfterKeysRules(st, rule, order, |order|, parse);
    LoadStep(f.srcs, f.orders, i, parse);
    RulesOfStep(f.Dir(target), f.srcs, f.orders, i, parse);
  }

  lemma TablesMoveOn(tables: map<TableRef, Table>, f: Fetched, target: Ref, i: nat, parse: DateParser)
    requires f.Valid() && i < |f.srcs| && TablesAround(tables, f, target, i, parse)
    requires tables[TableRef(target, i)] == Rescored(f.srcs[i].table, f.orders[i], parse)
    ensures TablesAround(tables, f, target, i + 1, parse)
  {
  }

  lemma NextRuleStaysInStep(u: Updater, storage: Storage, tables: map<TableRef, Table>, parse: DateParser)
    requires u.Filling? && InStep(u, storage, tables, parse)
    requires u.rule < |u.fetched.srcs| && u.key == |u.fetched.orders[u.rule]|
    ensures InStep(u.(rule := u.rule + 1, key := 0), storage, tables, parse)
  {
    var f := u.fetched;
    RuleDone(f, u.target, u.rule, parse);
    TablesMoveOn(tables, f, u.target, u.rule, parse);
    assert storage == Before(f, u.target, u.rule + 1, parse);
    StartsInStep(f, u.target, u.rule + 1, tables, parse);
  }

  lemma NextRuleKeepsTarget(s: State, parse: DateParser)
    requires PrivateTarget(s, parse) && AtRuleEnd(s)
    ensures PrivateTarget(EnterNextRule(s), parse)
  {
    var u, s' := s.updater, EnterNextRule(s);
    NextRuleStaysInStep(u, s.heap[u.target], s.tables, parse);
    assert s'.updater == u.(rule := u.rule + 1, key := 0);
    assert s'.heap == s.heap && s'.tables == s.tables && s'.version == s.version;
  }

  lemma NextRuleKeepsRest(s: State, parse: DateParser)
    requires ValidLoads(s) && Allocated(s) && SettledComplete(s, parse) && SettledPointers(s) && s.updater.Filling?
    ensures var s' := EnterNextRule(s);
            ValidLoads(s') && Allocated(s') && SettledComplete(s', parse) && SettledPointers(s')
  {
    MemoryKept(s, EnterNextRule(s), parse);
  }

  lemma InvNextRule(s: State, parse: DateParser)
    requires Inv(s, parse) && AtRuleEnd(s)
    ensures Inv(EnterNextRule(s), parse)
  {
    NextRuleKeepsTarget(s, parse);
    NextRuleKeepsRest(s, parse);
  }

  /** Following the tables of a plugin-level map built from references gives the map built from the
      tables themselves. */
  lemma {:induction false} FollowRulesOf(tables: map<TableRef, Table>, dir: seq<Plugin<TableRef>>,
                                         values: seq<Plugin<Table>>, srcs: seq<RuleSource>,
                                         orders: seq<seq<ErrorKey>>, parse: DateParser)
    requires |dir| == |values| == |srcs| && ValidOrders(srcs, orders)
    requires forall k :: 0 <= k < |dir| ==>
               dir[k].errorKeys in tables
               && values[k] == Plugin(dir[k].pythonModule, dir[k].name, tables[dir[k].errorKeys])
    ensures Follow(tables, RulesOf(dir, srcs, orders, parse)) == RulesOf(values, srcs, orders, parse)
  {
    if dir != [] {
      var n := |dir| - 1;
      FollowRulesOf(tables, dir[..n], values[..n], srcs[..n], orders[..n], parse);
    }
  }

  lemma PublishedIsComplete(s: State, parse: DateParser)
    requires PrivateTarget(s, parse) && Enabled(s, Publish)
    ensures OwnTables(s, s.updater.target) && SeenAt(s, s.updater.target) == Complete(s.updater.fetched, parse)
  {
    var u := s.updater;
    var f, dir := u.fetched, u.fetched.Dir(u.target);
    assert f.srcs[..|f.srcs|] == f.srcs && f.orders[..|f.srcs|] == f.orders && dir[..|f.srcs|] == dir;
    RulesOfMembers(dir, f.srcs, f.orders, parse);
    FollowRulesOf(s.tables, dir, Finished(f.srcs, f.orders, parse), f.srcs, f.orders, parse);
  }

  lemma ContentKept(loads: seq<Fetched>, f: Fetched, v: nat, parse: DateParser)
    requires v <= |loads| && (forall g :: g in loads ==> g.Valid()) && f.Valid()
    ensures Content(loads + [f], v, parse) == Content(loads, v, parse)
    ensures Content(loads + [f], |loads| + 1, parse) == Complete(f, parse)
  {
  }

  lemma PublishKeepsIntact(s: State, ref: Ref, parse: DateParser)
    requires ValidLoads(s) && ref in s.version && Intact(s, ref, parse)
    requires s.updater.Filling? && s.updater.fetched.Valid() && s.updater.target != ref
    ensures ValidLoads(PublishTarget(s)) && Intact(PublishTarget(s), ref, parse)
  {
    SeenKept(s, PublishTarget(s), ref);
    ContentKept(s.loads, s.updater.fetched, s.version[ref], parse);
  }

  lemma PublishSettlesTarget(s: State, parse: DateParser)
    requires ValidLoads(s) && s.updater.Filling? && s.updater.fetched.Valid()
    requires s.updater.target in s.heap && OwnTables(s, s.updater.target)
    requires SeenAt(s, s.updater.target) == Complete(s.updater.fetched, parse)
    ensures ValidLoads(PublishTarget(s)) && Intact(PublishTarget(s), s.updater.target, parse)
  {
    SeenKept(s, PublishTarget(s), s.updater.target);
    ContentKept(s.loads, s.updater.fetched, 0, parse);
  }

  /** Publishing keeps every settled object and settles the target, whose load is complete. */
  lemma PublishSettles(s: State, parse: DateParser)
    requires ValidLoads(s) && SettledComplete(s, parse) && PrivateTarget(s, parse) && Enabled(s, Publish)
    ensures ValidLoads(PublishTarget(s)) && SettledComplete(PublishTarget(s), parse)
  {
    PublishedIsComplete(s, parse);
    PublishSettlesTarget(s, parse);
    forall ref | ref in s.version ensures Intact(PublishTarget(s), ref, parse) {
      PublishKeepsIntact(s, ref, parse);
    }
  }

  lemma InvPublish(s: State, parse: DateParser)
    requires Inv(s, parse) && Enabled(s, Publish)
    ensures Inv(PublishTarget(s), parse)
  {
    PublishSettles(s, parse);
  }

  predicate OfReader(e: Event)
  {
    e.Begin? || e.TakePointer? || e.TimeOut? || e.Leave?
  }

  lemma ReaderTouchesNothing(s: State, e: Event, parse: DateParser)
    requires Enabled(s, e) && OfReader(e)
    ensures Apply(s, e, parse) == s.(readers := Apply(s, e, parse).readers)
  {
  }

  lemma ReaderKeepsPointers(s: State, e: Event, parse: DateParser)
    requires SettledPointers(s) && Enabled(s, e) && OfReader(e)
    ensures SettledPointers(Apply(s, e, parse))
  {
  }

  lemma InvReader(s: State, e: Event, parse: DateParser)
    requires Inv(s, parse) && Enabled(s, e) && OfReader(e)
    ensures Inv(Apply(s, e, parse), parse)
  {
    ReaderTouchesNothing(s, e, parse);
    ReaderKeepsPointers(s, e, parse);
    MemoryKept(s, Apply(s, e, parse), parse);
  }

  lemma InvStep(s: State, e: Event, parse: DateParser)
    requires Inv(s, parse)
    ensures Inv(Apply(s, e, parse), parse)
  {
    if Enabled(s, e) {
      match e
      case FetchFails =>
      case FetchSucceeds(f) => InvFetch(s, f, parse);
      case LoadKey => InvLoadKey(s, parse);
      case NextRule => InvNextRule(s, parse);
      case Publish => InvPublish(s, parse);
      case Begin(_) => InvReader(s, e, parse);
      case TakePointer(_) => InvReader(s, e, parse);
      case TimeOut(_) => InvReader(s, e, parse);
      case Leave(_) => InvReader(s, e, parse);
    }
  }

  lemma {:induction false} InvRun(s: State, es: seq<Event>, parse: DateParser)
    requires Inv(s, parse)
    ensures Inv(Final(s, es, parse), parse)
  {
    if es != [] {
      InvRun(s, es[..|es| - 1], parse);
      InvStep(Final(s, es[..|es| - 1], parse), es[|es| - 1], parse);
    }
  }

  lemma InvInitial(parse: DateParser)
    ensures Inv(INITIAL, parse)
  {
    assert Follow(INITIAL.tables, NOTHING.rules) == map[];
  }

  // ---------- what lookups read ----------

  /** In every run, whatever a lookup sees through its pointer, at both levels, is the initial empty
      storage or the complete load of one fetched directory; what is published is the latest complete
      load. */
  lemma ReadsSeeCompleteLoads(es: seq<Event>, parse: DateParser, r: Reader)
    ensures var s := Final(INITIAL, es, parse);
            && ValidLoads(s)
            && s.published in s.heap && SeenAt(s, s.published) == Content(s.loads, |s.loads|, parse)
            && (Reads(s, r) ==> s.readers[r].ref in s.heap)
            && (Reads(s, r) ==>
                  exists v: nat :: v <= |s.loads| && SeenAt(s, s.readers[r].ref) == Content(s.loads, v, parse))
  {
    InvInitial(parse);
    InvRun(INITIAL, es, parse);
    var s := Final(INITIAL, es, parse);
    assert Intact(s, s.published, parse);
    if Reads(s, r) {
      assert Intact(s, s.readers[r].ref, parse);
      assert s.version[s.readers[r].ref] <= |s.loads|;
    }
  }

  ghost predicate Reads(s: State, r: Reader)
  {
    r in s.readers && s.readers[r].Reading?
  }

  lemma ContentHasOneRisk(loads: seq<Fetched>, v: nat, parse: DateParser, m: string, k: ErrorKey)
    requires v <= |loads| && forall f :: f in loads ==> f.Valid() && DistinctModules(f.srcs)
    requires (m, k) in Content(loads, v, parse).view.pairs
    ensures var seen := Content(loads, v, parse);
            && m in seen.rules && k in seen.rules[m].errorKeys
            && seen.rules[m].errorKeys[k].totalRisk == seen.view.pairs[(m, k)].totalRisk
  {
    var f := loads[v - 1];
    assert f in loads;
    FinishedRiskAgrees(f.srcs, f.orders, parse, m, k);
  }

  /** So, in every run over directories of distinct modules, the two levels a lookup sees give the same
      total risk for every stored pair. */
  lemma ReadersSeeOneRisk(es: seq<Event>, parse: DateParser, r: Reader, m: string, k: ErrorKey)
    requires var s := Final(INITIAL, es, parse);
             && Reads(s, r) && s.readers[r].ref in s.heap && (m, k) in SeenAt(s, s.readers[r].ref).view.pairs
             && forall f :: f in s.loads ==> DistinctModules(f.srcs)
    ensures var s := Final(INITIAL, es, parse);
            var seen := SeenAt(s, s.readers[r].ref);
            && m in seen.rules && k in seen.rules[m].errorKeys
            && seen.rules[m].errorKeys[k].totalRisk == seen.view.pairs[(m, k)].totalRisk
  {
    ReadsSeeCompleteLoads(es, parse, r);
    var s := Final(INITIAL, es, parse);
    var v: nat :| v <= |s.loads| && SeenAt(s, s.readers[r].ref) == Content(s.loads, v, parse);
    ContentHasOneRisk(s.loads, v, parse, m, k);
  }

  /** No event writes a settled object or a table of its directory. */
  lemma StepSpares(s: State, e: Event, parse: DateParser, ref: Ref)
    requires Allocated(s) && Settled(s, ref) && (s.updater.Filling? ==> s.updater.target != ref)
    ensures var s' := Apply(s, e, parse);
            && Settled(s', ref) && s'.version[ref] == s.version[ref] && |s.loads| <= |s'.loads|
            && s'.heap[ref] == s.heap[ref]
            && forall t :: t in s.tables && t.owner == ref ==> t in s'.tables && s'.tables[t] == s.tables[t]
  {
  }

  lemma SettledStep(s: State, e: Event, parse: DateParser, ref: Ref)
    requires Inv(s, parse) && Settled(s, ref)
    ensures var s' := Apply(s, e, parse);
            && Settled(s', ref) && s'.version[ref] == s.version[ref] && |s.loads| <= |s'.loads|
            && SeenAt(s', ref) == SeenAt(s, ref)
  {
    assert Intact(s, ref, parse);
    StepSpares(s, e, parse, ref);
    SeenKept(s, Apply(s, e, parse), ref);
  }

  /** A published storage is never written again, nor are the tables it shares with its directory, and
      its place in the publication order is fixed. */
  lemma {:induction false} SettledForever(s: State, es: seq<Event>, parse: DateParser, ref: Ref)
    requires Inv(s, parse) && Settled(s, ref)
    ensures var s' := Final(s, es, parse);
            && Settled(s', ref) && s'.version[ref] == s.version[ref] && |s.loads| <= |s'.loads|
            && SeenAt(s', ref) == SeenAt(s, ref)
  {
    if es != [] {
      SettledForever(s, es[..|es| - 1], parse, ref);
      InvRun(s, es[..|es| - 1], parse);
      SettledStep(Final(s, es[..|es| - 1], parse), es[|es| - 1], parse, ref);
    }
  }

  /** Two reads through one pointer agree however the updater runs in between; a pointer taken later
      never leads to an older load. */
  lemma ReadsAreStableAndMonotone(es: seq<Event>, more: seq<Event>, parse: DateParser, r: Reader, r': Reader)
    requires Reads(Final(INITIAL, es, parse), r)
    requires Enabled(Final(Final(INITIAL, es, parse), more, parse), TakePointer(r'))
    ensures var s := Final(INITIAL, es, parse);
            var later := Apply(Final(s, more, parse), TakePointer(r'), parse);
            var ref := s.readers[r].ref;
            && Settled(s, ref) && Settled(later, ref) && SeenAt(later, ref) == SeenAt(s, ref)
            && Reads(later, r') && Settled(later, later.readers[r'].ref)
            && s.version[ref] <= later.version[later.readers[r'].ref]
  {
    var s := Final(INITIAL, es, parse);
    var before := Final(s, more, parse);
    InvInitial(parse);
    InvRun(INITIAL, es, parse);
    assert Intact(s, s.readers[r].ref, parse);
    SettledForever(s, more, parse, s.readers[r].ref);
    InvRun(s, more, parse);
    SettledStep(before, TakePointer(r'), parse, s.readers[r].ref);
  }

  lemma PointerStep(s: State, e: Event, parse: DateParser)
    requires e != Publish
    ensures Apply(s, e, parse).published == s.published
  {
  }

  lemma {:induction false} PointerKept(s: State, es: seq<Event>, parse: DateParser)
    requires Publish !in es
    ensures Final(s, es, parse).published == s.published
  {
    if es != [] {
      assert es[|es| - 1] in es;
      PointerKept(s, es[..|es| - 1], parse);
      PointerStep(Final(s, es[..|es| - 1], parse), es[|es| - 1], parse);
    }
  }

  /** Events that publish nothing leave every lookup's next pointer, and what it shows, as they were;
      in particular a failed fetch does, and so does the whole filling of a new storage. */
  lemma OnlyPublishPublishes(s: State, es: seq<Event>, parse: DateParser)
    requires Inv(s, parse)
    requires Publish !in es
    ensures var s' := Final(s, es, parse);
            && s'.published == s.published && Settled(s', s.published)
            && SeenAt(s', s.published) == SeenAt(s, s.published)
  {
    PointerKept(s, es, parse);
    SettledForever(s, es, parse, s.published);
  }

  // ---------- the wait for the directory ----------

  ghost predicate SomeFetched(es: seq<Event>)
  {
    exists e :: e in es && e.FetchSucceeds?
  }

  lemma SomeFetchedSnoc(es: seq<Event>, e: Event)
    ensures SomeFetched(es + [e]) <==> SomeFetched(es) || e.FetchSucceeds?
  {
    if e.FetchSucceeds? {
      assert e in es + [e];
    }
    if f :| f in es && f.FetchSucceeds? {
      assert f in es + [e];
    }
  }

  lemma {:induction false} RunStep(es: seq<Event>, n: nat, parse: DateParser)
    requires IsRun(INITIAL, es, parse) && n < |es|
    ensures Enabled(Final(INITIAL, es[..n], parse), es[n])
  {
    if n < |es| - 1 {
      RunStep(es[..|es| - 1], n, parse);
      assert es[..|es| - 1][..n] == es[..n];
    }
  }

  lemma FinalStep(es: seq<Event>, n: nat, parse: DateParser)
    requires n < |es|
    ensures Final(INITIAL, es[..n + 1], parse) == Apply(Final(INITIAL, es[..n], parse), es[n], parse)
  {
    assert es[..n + 1][..n] == es[..n];
  }

  lemma FlagStep(s: State, e: Event, parse: DateParser)
    requires Enabled(s, e)
    ensures Apply(s, e, parse).directorySet <==> s.directorySet || e.FetchSucceeds?
  {
  }

  lemma {:induction false} DirectorySetIff(es: seq<Event>, n: nat, parse: DateParser)
    requires IsRun(INITIAL, es, parse) && n <= |es|
    ensures Final(INITIAL, es[..n], parse).directorySet <==> SomeFetched(es[..n])
  {
    if n > 0 {
      DirectorySetIff(es, n - 1, parse);
      FinalStep(es, n - 1, parse);
      RunStep(es, n - 1, parse);
      FlagStep(Final(INITIAL, es[..n - 1], parse), es[n - 1], parse);
      assert es[..n] == es[..n - 1] + [es[n - 1]];
      SomeFetchedSnoc(es[..n - 1], es[n - 1]);
    }
  }

  /** How far a lookup has come that found the directory set (or not) and saw the events `since`. */
  ghost predicate PhaseSince(p: Phase, found: bool, since: seq<Event>, r: Reader)
  {
    if found then TimeOut(r) !in since && if TakePointer(r) in since then p.Reading? else p.Passed?
    else TakePointer(r) !in since && if TimeOut(r) in since then p.GaveUp? else p.Blocked?
  }

  lemma BeginStep(s: State, parse: DateParser, r: Reader)
    requires Enabled(s, Begin(r))
    ensures var s' := Apply(s, Begin(r), parse);
            r in s'.readers && PhaseSince(s'.readers[r], s.directorySet, [], r)
  {
  }

  lemma PhaseStep(s: State, e: Event, parse: DateParser, r: Reader, found: bool, since: seq<Event>)
    requires Enabled(s, e) && e != Leave(r) && r in s.readers && PhaseSince(s.readers[r], found, since, r)
    ensures var s' := Apply(s, e, parse); r in s'.readers && PhaseSince(s'.readers[r], found, since + [e], r)
  {
  }

  /** A lookup that began at event `i`, at any later moment before it leaves. */
  lemma {:induction false} Waited(es: seq<Event>, i: nat, n: nat, parse: DateParser, r: Reader)
    requires IsRun(INITIAL, es, parse) && i < n <= |es| && es[i] == Begin(r) && Leave(r) !in es[i + 1..n]
    ensures var s := Final(INITIAL, es[..n], parse);
            r in s.readers && PhaseSince(s.readers[r], SomeFetched(es[..i]), es[i + 1..n], r)
  {
    var before := Final(INITIAL, es[..n - 1], parse);
    FinalStep(es, n - 1, parse);
    RunStep(es, n - 1, parse);
    if n == i + 1 {
      DirectorySetIff(es, i, parse);
      BeginStep(before, parse, r);
    } else {
      var since := es[i + 1..n - 1];
      assert es[i + 1..n] == since + [es[n - 1]];
      Waited(es, i, n - 1, parse, r);
      PhaseStep(before, es[n - 1], parse, r, SomeFetched(es[..i]), since);
    }
  }

  /** In every run, a lookup times out iff no fetch had succeeded when it began, whatever was fetched or
      published while it waited; otherwise it takes the pointer. */
  lemma TimesOutIffBeganEmpty(es: seq<Event>, i: nat, parse: DateParser, r: Reader)
    requires IsRun(INITIAL, es, parse) && i < |es| && es[i] == Begin(r) && Leave(r) !in es[i + 1..]
    ensures var s := Final(INITIAL, es, parse);
            && (TimeOut(r) in es[i + 1..] || Enabled(s, TimeOut(r)) <==> !SomeFetched(es[..i]))
            && (TakePointer(r) in es[i + 1..] || Enabled(s, TakePointer(r)) <==> SomeFetched(es[..i]))
  {
    assert es[..|es|] == es && es[i + 1..|es|] == es[i + 1..];
    Waited(es, i, |es|, parse, r);
  }

  lemma RunSnoc(es: seq<Event>, e: Event, parse: DateParser)
    requires IsRun(INITIAL, es, parse) && Enabled(Final(INITIAL, es, parse), e)
    ensures IsRun(INITIAL, es + [e], parse)
    ensures Final(INITIAL, es + [e], parse) == Apply(Final(INITIAL, es, parse), e, parse)
  {
    assert (es + [e])[..|es|] == es;
  }

  /** A lookup times out although a directory was fetched and published during its wait, and another
      lookup has meanwhile read it. */
  lemma TimesOutAfterPublication(parse: DateParser)
    ensures var es := [Begin(0), FetchSucceeds(Fetched([], [])), Publish, Begin(1), TakePointer(1), TimeOut(0)];
            var s := Final(INITIAL, es, parse);
            && IsRun(INITIAL, es, parse)
            && 0 in s.readers && s.readers[0] == GaveUp
            && 1 in s.readers && s.readers[1] == Reading(s.published) && |s.loads| == 1
  {
    var f := Fetched([], []);
    RunSnoc([], Begin(0), parse);
    RunSnoc([Begin(0)], FetchSucceeds(f), parse);
    assert [Begin(0)] + [FetchSucceeds(f)] == [Begin(0), FetchSucceeds(f)];
    RunSnoc([Begin(0), FetchSucceeds(f)], Publish, parse);
    var a := [Begin(0), FetchSucceeds(f), Publish];
    assert [Begin(0), FetchSucceeds(f)] + [Publish] == a;
    RunSnoc(a, Begin(1), parse);
    RunSnoc(a + [Begin(1)], TakePointer(1), parse);
    RunSnoc(a + [Begin(1)] + [TakePointer(1)], TimeOut(0), parse);
    assert a + [Begin(1)] + [TakePointer(1)] + [TimeOut(0)]
        == [Begin(0), FetchSucceeds(f), Publish, Begin(1), TakePointer(1), TimeOut(0)];
  }

  // ---------- what lookups read, by the events of the run ----------

  /** The directories fetched in a run, in order. */
  ghost function Directories(es: seq<Event>): seq<Fetched>
  {
    if es == [] then [] else
      var before, last := Directories(es[..|es| - 1]), es[|es| - 1];
      if last.FetchSucceeds? then before + [last.fetched] else before
  }

  ghost function Publications(es: seq<Event>): nat
  {
    if es == [] then 0 else Publications(es[..|es| - 1]) + if es[|es| - 1].Publish? then 1 else 0
  }

  /** The directory the updater is loading. */
  ghost function InProgress(u: Updater): seq<Fetched>
  {
    if u.Filling? then [u.fetched] else []
  }

  lemma LoadsStep(s: State, e: Event, parse: DateParser)
    requires Enabled(s, e)
    ensures var s' := Apply(s, e, parse);
            && s'.loads + InProgress(s'.updater) ==
               s.loads + InProgress(s.updater) + (if e.FetchSucceeds? then [e.fetched] else [])
            && |s'.loads| == |s.loads| + if e.Publish? then 1 else 0
  {
  }

  /** In every run the published directories are the fetched ones, in order and without gaps, but for the
      one being loaded; one is published by every publication. */
  lemma {:induction false} LoadsAreHistory(es: seq<Event>, parse: DateParser)
    requires IsRun(INITIAL, es, parse)
    ensures var s := Final(INITIAL, es, parse);
            s.loads + InProgress(s.updater) == Directories(es) && |s.loads| == Publications(es)
  {
    if es != [] {
      var init, last := es[..|es| - 1], es[|es| - 1];
      LoadsAreHistory(init, parse);
      LoadsStep(Final(INITIAL, init, parse), last, parse);
    }
  }

  /** What a storage must show after `n` publications of the directories `ds`. */
  ghost predicate ShowsNth(seen: Seen, ds: seq<Fetched>, n: nat, parse: DateParser)
  {
    if n == 0 then seen == Seen(EMPTY, map[])
    else n <= |ds| && ds[n - 1].Valid() && seen == Complete(ds[n - 1], parse)
  }

  /** The published storage shows the directory of the latest publication; every publication publishes the
      directory fetched last. */
  lemma PublishedIsLatest(es: seq<Event>, parse: DateParser)
    requires IsRun(INITIAL, es, parse)
    ensures var s, n := Final(INITIAL, es, parse), Publications(es);
            && n <= |Directories(es)| <= n + 1
            && s.published in s.heap && ShowsNth(SeenAt(s, s.published), Directories(es), n, parse)
    ensures es != [] && es[|es| - 1] == Publish ==> Publications(es) == |Directories(es)| > 0
  {
    ReadsSeeCompleteLoads(es, parse, 0);
    LoadsAreHistory(es, parse);
    var s := Final(INITIAL, es, parse);
    if s.loads != [] {
      assert s.loads[|s.loads| - 1] in s.loads;
      assert Directories(es)[|s.loads| - 1] == s.loads[|s.loads| - 1];
    }
  }

  lemma ReaderStep(s: State, e: Event, parse: DateParser, r: Reader)
    requires Enabled(s, e) && Reads(s, r) && e != Leave(r)
    ensures Reads(Apply(s, e, parse), r) && Apply(s, e, parse).readers[r] == s.readers[r]
  {
  }

  /** A lookup that took the pointer at event `i` holds it at any later moment before it leaves. */
  lemma {:induction false} ReadingSince(es: seq<Event>, i: nat, n: nat, parse: DateParser, r: Reader)
    requires IsRun(INITIAL, es, parse) && i < n <= |es| && es[i] == TakePointer(r) && Leave(r) !in es[i + 1..n]
    ensures var s := Final(INITIAL, es[..n], parse);
            Reads(s, r) && s.readers[r].ref == Final(INITIAL, es[..i], parse).published
  {
    FinalStep(es, n - 1, parse);
    RunStep(es, n - 1, parse);
    if n > i + 1 {
      assert es[i + 1..n] == es[i + 1..n - 1] + [es[n - 1]];
      ReadingSince(es, i, n - 1, parse, r);
      ReaderStep(Final(INITIAL, es[..n - 1], parse), es[n - 1], parse, r);
    }
  }

  lemma {:induction false} FinalAppend(s: State, a: seq<Event>, b: seq<Event>, parse: DateParser)
    ensures Final(s, a + b, parse) == Final(Final(s, a, parse), b, parse)
  {
    if b == [] {
      assert a + b == a;
    } else {
      assert (a + b)[..|a + b| - 1] == a + b[..|b| - 1];
      FinalAppend(s, a, b[..|b| - 1], parse);
    }
  }

  lemma {:induction false} PrefixIsRun(es: seq<Event>, n: nat, parse: DateParser)
    requires IsRun(INITIAL, es, parse) && n <= |es|
    ensures IsRun(INITIAL, es[..n], parse)
  {
    if n == |es| {
      assert es[..n] == es;
    } else {
      assert es[..|es| - 1][..n] == es[..n];
      PrefixIsRun(es[..|es| - 1], n, parse);
    }
  }

  lemma FinalSplit(s: State, es: seq<Event>, i: nat, parse: DateParser)
    requires i <= |es|
    ensures Final(s, es, parse) == Final(Final(s, es[..i], parse), es[i..], parse)
  {
    assert es[..i] + es[i..] == es;
    FinalAppend(s, es[..i], es[i..], parse);
  }

  lemma PublishedStays(at: State, more: seq<Event>, parse: DateParser)
    requires Inv(at, parse)
    ensures at.published in at.heap && at.published in Final(at, more, parse).heap
    ensures SeenAt(Final(at, more, parse), at.published) == SeenAt(at, at.published)
  {
    SettledForever(at, more, parse, at.published);
  }

  /** In every run, a lookup that took the pointer at event `i` sees, until it leaves, the complete load of
      the directory published last before `i`, or nothing if there was none. */
  lemma LookupSeesLatest(es: seq<Event>, i: nat, parse: DateParser, r: Reader)
    requires IsRun(INITIAL, es, parse) && i < |es| && es[i] == TakePointer(r) && Leave(r) !in es[i + 1..]
    ensures var s := Final(INITIAL, es, parse);
            && Reads(s, r) && s.readers[r].ref in s.heap
            && ShowsNth(SeenAt(s, s.readers[r].ref), Directories(es[..i]), Publications(es[..i]), parse)
  {
    assert es[..|es|] == es && es[i + 1..|es|] == es[i + 1..];
    ReadingSince(es, i, |es|, parse, r);
    InvInitial(parse);
    InvRun(INITIAL, es[..i], parse);
    PublishedStays(Final(INITIAL, es[..i], parse), es[i..], parse);
    FinalSplit(INITIAL, es, i, parse);
    PrefixIsRun(es, i, parse);
    PublishedIsLatest(es[..i], parse);
  }

  // ---------- updates go through ----------

  lemma {:induction false} RunAfter(s: State, e: Event, es: seq<Event>, parse: DateParser)
    requires Enabled(s, e) && IsRun(Apply(s, e, parse), es, parse)
    ensures IsRun(s, [e] + es, parse) && Final(s, [e] + es, parse) == Final(Apply(s, e, parse), es, parse)
  {
    var all := [e] + es;
    if es == [] {
      assert all == [e] && [e][..0] == [];
    } else {
      assert all[..|all| - 1] == [e] + es[..|es| - 1] && all[|all| - 1] == es[|es| - 1];
      RunAfter(s, e, es[..|es| - 1], parse);
    }
  }

  /** The updater's next step in a load. */
  ghost function NextStep(u: Updater): Event
    requires u.Filling? && u.fetched.Valid()
  {
    if u.rule >= |u.fetched.srcs| then Publish
    else if u.key < |u.fetched.orders[u.rule]| then LoadKey
    else NextRule
  }

  ghost function KeysLeft(u: Updater): int
    requires u.Filling?
  {
    if u.rule < |u.fetched.orders| then |u.fetched.orders[u.rule]| - u.key else 0
  }

  lemma NextStepIsEnabled(s: State, parse: DateParser)
    requires PrivateTarget(s, parse) && s.updater.Filling?
    ensures s.updater.fetched.Valid() && Enabled(s, NextStep(s.updater))
  {
  }

  lemma NextStepMoves(s: State, parse: DateParser)
    requires s.updater.Filling? && s.updater.fetched.Valid() && Enabled(s, NextStep(s.updater))
    ensures var u, s' := s.updater, Apply(s, NextStep(s.updater), parse);
            match NextStep(u)
            case LoadKey => s'.updater == u.(key := u.key + 1) && s'.loads == s.loads
            case NextRule => s'.updater == u.(rule := u.rule + 1, key := 0) && s'.loads == s.loads
            case _ => s'.updater == Idle && s'.loads == s.loads + [u.fetched]
  {
  }

  /** A load that has begun can always be completed: the updater's own steps lead to its publication. */
  lemma {:induction false} LoadCompletes(s: State, parse: DateParser) returns (es: seq<Event>)
    requires Inv(s, parse) && s.updater.Filling?
    ensures IsRun(s, es, parse) && Final(s, es, parse).updater == Idle
    ensures Final(s, es, parse).loads == s.loads + [s.updater.fetched]
    decreases |s.updater.fetched.srcs| - s.updater.rule, KeysLeft(s.updater)
  {
    NextStepIsEnabled(s, parse);
    var e := NextStep(s.updater);
    NextStepMoves(s, parse);
    InvStep(s, e, parse);
    var rest := [];
    if e != Publish {
      rest := LoadCompletes(Apply(s, e, parse), parse);
    }
    RunAfter(s, e, rest, parse);
    es := [e] + rest;
  }
}
