/**
 Rule content: the directory fetched from the content service, the acceptance rules of
 `content/parsing.go`, and the value-level index that a load builds from a directory.
 */
module RuleContent {
  import opened Sequences
  import opened Identifiers

  type Time = int

  datatype Metadata = Metadata(status: string, publishDate: string, impact: int, likelihood: int,
                               resolutionRisk: int, description: string, tags: seq<string>)

  datatype ErrorProperties = ErrorProperties(generic: string, summary: string, reason: string, resolution: string,
                                             moreInfo: string, totalRisk: int, metadata: Metadata)

  /** One rule of the directory, as a value. */
  datatype RuleSource = RuleSource(pythonModule: string, name: string, table: map<ErrorKey, ErrorProperties>)

  datatype RuleWithContent = RuleWithContent(
    ruleModule: string, name: string, generic: string, summary: string, reason: string, resolution: string,
    moreInfo: string, errorKey: ErrorKey, description: string, totalRisk: int, resolutionRisk: int, impact: int,
    likelihood: int, publishDate: Time, active: bool, isInternal: bool, tags: seq<string>, osdCustomer: bool)

  /** The publish-date parser: the first of two layouts that accepts the text, if any. */
  type DateParser = string -> Option<Time>

  const ZERO_TIME: Time := 0

  datatype ActiveStatus = ActiveStatus(active: bool, success: bool, missing: bool)

  // ---------- acceptance ----------

  /** Go's `unicode.IsSpace`. */
  predicate IsSpace(c: char)
  {
    var n := c as int;
    9 <= n <= 13 || n in {0x20, 0x85, 0xA0, 0x1680, 0x2028, 0x2029, 0x202F, 0x205F, 0x3000} || 0x2000 <= n <= 0x200A
  }

  /** Go's `unicode.ToLower`, exact on every character whose lower case is an ASCII character. */
  function LowerChar(c: char): char
  {
    if 'A' <= c <= 'Z' then (c as int + 32) as char
    else if c == '\U{130}' then 'i'
    else if c == '\U{212A}' then 'k'
    else c
  }

  function TrimSpace(s: string): string
  {
    if s == "" then ""
    else if IsSpace(s[0]) then TrimSpace(s[1..])
    else if IsSpace(s[|s| - 1]) then TrimSpace(s[..|s| - 1])
    else s
  }

  function GetActiveStatus(status: string): ActiveStatus
  {
    var word := Map(TrimSpace(status), LowerChar);
    if word == "active" then ActiveStatus(true, true, false)
    else if word == "inactive" then ActiveStatus(false, true, false)
    else if word == "" then ActiveStatus(false, true, true)
    else ActiveStatus(false, false, false)
  }

  lemma {:induction false} TrimSpaceRight(s: string, c: char)
    requires IsSpace(c)
    ensures TrimSpace(s + [c]) == TrimSpace(s)
  {
    if s == "" {
      assert (s + [c])[1..] == "";
    } else if IsSpace(s[0]) {
      assert (s + [c])[1..] == s[1..] + [c];
      TrimSpaceRight(s[1..], c);
    } else {
      assert (s + [c])[..|s|] == s;
    }
  }

  lemma LowerKeepsSpace(c: char)
    ensures IsSpace(LowerChar(c)) == IsSpace(c) && LowerChar(LowerChar(c)) == LowerChar(c)
  {
  }

  lemma LowerTwice(s: string)
    ensures Map(Map(s, LowerChar), LowerChar) == Map(s, LowerChar)
  {
    var low := Map(s, LowerChar);
    forall i | 0 <= i < |s| ensures LowerChar(low[i]) == low[i] {
      LowerKeepsSpace(s[i]);
    }
  }

  lemma LowerSlices(s: string)
    requires s != ""
    ensures var low := Map(s, LowerChar);
            && low[1..] == Map(s[1..], LowerChar) && low[..|s| - 1] == Map(s[..|s| - 1], LowerChar)
            && IsSpace(low[0]) == IsSpace(s[0]) && IsSpace(low[|s| - 1]) == IsSpace(s[|s| - 1])
  {
    LowerKeepsSpace(s[0]);
    LowerKeepsSpace(s[|s| - 1]);
  }

  lemma {:induction false} TrimThenLower(s: string)
    ensures Map(TrimSpace(Map(s, LowerChar)), LowerChar) == Map(TrimSpace(s), LowerChar)
  {
    if s != "" {
      LowerSlices(s);
      if IsSpace(s[0]) {
        TrimThenLower(s[1..]);
      } else if IsSpace(s[|s| - 1]) {
        TrimThenLower(s[..|s| - 1]);
      } else {
        LowerTwice(s);
      }
    }
  }

  lemma StatusWords()
    ensures GetActiveStatus("active") == ActiveStatus(true, true, false)
    ensures GetActiveStatus("inactive") == ActiveStatus(false, true, false)
    ensures GetActiveStatus("") == ActiveStatus(false, true, true)
  {
    assert Map("active", LowerChar) == "active" && Map("inactive", LowerChar) == "inactive" && Map("", LowerChar) == "";
  }

  /** The three accepted statuses; case and surrounding white space never change the verdict. */
  lemma StatusReading(s: string, c: char)
    ensures GetActiveStatus("active") == ActiveStatus(true, true, false)
    ensures GetActiveStatus("inactive") == ActiveStatus(false, true, false)
    ensures GetActiveStatus("") == ActiveStatus(false, true, true)
    ensures GetActiveStatus(Map(s, LowerChar)) == GetActiveStatus(s)
    ensures IsSpace(c) ==> GetActiveStatus([c] + s) == GetActiveStatus(s) == GetActiveStatus(s + [c])
  {
    StatusWords();
    TrimThenLower(s);
    if IsSpace(c) {
      TrimSpaceRight(s, c);
      assert ([c] + s)[1..] == s;
    }
  }

  // ---------- which statuses are accepted ----------

  ghost predicate AllSpace(s: string)
  {
    forall i :: 0 <= i < |s| ==> IsSpace(s[i])
  }

  /** `s` is `core` between white space. */
  ghost predicate Pads(s: string, before: string, core: string, after: string)
  {
    s == before + core + after && AllSpace(before) && AllSpace(after)
  }

  /** Up to white space around it and letter case, the status is `word`. */
  ghost predicate Says(status: string, word: string)
  {
    exists before, core, after :: Pads(status, before, core, after) && Map(core, LowerChar) == word
  }

  lemma {:induction false} TrimSpacePads(s: string) returns (before: string, after: string)
    ensures Pads(s, before, TrimSpace(s), after)
  {
    before, after := "", "";
    if s == "" {
    } else if IsSpace(s[0]) {
      before, after := TrimSpacePads(s[1..]);
      assert s == [s[0]] + s[1..];
      before := [s[0]] + before;
    } else if IsSpace(s[|s| - 1]) {
      before, after := TrimSpacePads(s[..|s| - 1]);
      assert s == s[..|s| - 1] + [s[|s| - 1]];
      after := after + [s[|s| - 1]];
    }
  }

  /** No white space at either end. */
  predicate Trimmed(core: string)
  {
    core == "" || (!IsSpace(core[0]) && !IsSpace(core[|core| - 1]))
  }

  lemma {:induction false} TrimSpaceFinds(s: string, before: string, core: string, after: string)
    requires Pads(s, before, core, after) && Trimmed(core)
    ensures TrimSpace(s) == core
    decreases |s|
  {
    if before != "" {
      assert s[0] == before[0] && s[1..] == before[1..] + core + after;
      TrimSpaceFinds(s[1..], before[1..], core, after);
    } else if after != "" {
      var n := |after| - 1;
      var init := s[..|s| - 1];
      assert init == before + core + after[..n] && s == init + [after[n]];
      TrimSpaceFinds(init, before, core, after[..n]);
      TrimSpaceRight(init, after[n]);
    } else {
      assert s == core;
    }
  }

  /** A status that says `word` is trimmed and lower-cased to it, and conversely. */
  lemma SaysIff(status: string, word: string)
    requires Trimmed(word)
    ensures Says(status, word) <==> Map(TrimSpace(status), LowerChar) == word
  {
    var before, after := TrimSpacePads(status);
    if Says(status, word) {
      var b, core, a :| Pads(status, b, core, a) && Map(core, LowerChar) == word;
      if core != "" {
        LowerKeepsSpace(core[0]);
        LowerKeepsSpace(core[|core| - 1]);
      }
      TrimSpaceFinds(status, b, core, a);
    }
  }

  /** A status is accepted iff it says one of three words; it is active iff it says the first, and missing
      iff it says nothing. */
  lemma StatusIff(status: string)
    ensures var st := GetActiveStatus(status);
            && (st.success <==> Says(status, "active") || Says(status, "inactive") || Says(status, ""))
            && (st.active <==> Says(status, "active"))
            && (st.missing <==> Says(status, ""))
  {
    SaysIff(status, "active");
    SaysIff(status, "inactive");
    SaysIff(status, "");
  }

  /** Any other word is rejected. */
  lemma DraftIsRejected(props: ErrorProperties, parse: DateParser)
    requires props.metadata.status == "draft"
    ensures !Acceptable(props, parse)
  {
    assert Map("draft", LowerChar) == "draft";
  }

  /** None is a malformed date; a missing date is accepted as the zero time. */
  function TimeParse(value: string, parse: DateParser): Option<Time>
  {
    if value == "" then Some(ZERO_TIME) else parse(value)
  }

  /** Go's integer division by two truncates toward zero. */
  function CalculateTotalRisk(impact: int, likelihood: int): int
  {
    var sum := impact + likelihood;
    if sum >= 0 then sum / 2 else -((-sum) / 2)
  }

  /** The specification asks for the floor of the mean; the code meets it unless the sum is negative and odd. */
  lemma TotalRiskIsFloor(impact: int, likelihood: int)
    ensures CalculateTotalRisk(impact, likelihood) == (impact + likelihood) / 2
       <==> impact + likelihood >= 0 || (impact + likelihood) % 2 == 0
  {
  }

  /** Such a sum: minus one half is rounded to zero. */
  lemma TotalRiskIsNotFloor()
    ensures CalculateTotalRisk(-1, 0) == 0 && (-1 + 0) / 2 == -1
  {
  }

  predicate Acceptable(props: ErrorProperties, parse: DateParser)
  {
    GetActiveStatus(props.metadata.status).success && TimeParse(props.metadata.publishDate, parse).Some?
  }

  function BuildContent(ruleModule: string, name: string, key: ErrorKey, props: ErrorProperties, parse: DateParser)
    : RuleWithContent
    requires Acceptable(props, parse)
  {
    var meta := props.metadata;
    RuleWithContent(
      ruleModule, name, props.generic, props.summary, props.reason, props.resolution, props.moreInfo, key,
      meta.description, CalculateTotalRisk(meta.impact, meta.likelihood), meta.resolutionRisk, meta.impact,
      meta.likelihood, TimeParse(meta.publishDate, parse).value, GetActiveStatus(meta.status).active,
      Internal(ruleModule), meta.tags, "osd_customer" in meta.tags)
  }

  // ---------- the index ----------

  datatype Entry = Entry(ruleModule: string, key: ErrorKey, content: RuleWithContent)

  /** The four key-level indexes of `RulesWithContentStorage` at one moment. */
  datatype Snapshot = Snapshot(pairs: map<(RuleID, ErrorKey), RuleWithContent>,
                               recommendations: map<RuleID, RuleWithContent>,
                               internalIDs: seq<RuleID>,
                               externalIDs: seq<RuleID>)

  const EMPTY := Snapshot(map[], map[], [], [])

  /** The ID appended to the lists: a failed generation leaves Go's empty string. */
  function ListedID(e: Entry): RuleID
  {
    match GenerateCompositeRuleID(e.ruleModule, e.key)
    case Some(id) => id
    case None => ""
  }

  /** The effect of one `SetRuleWithContent`. */
  function Store(s: Snapshot, e: Entry): Snapshot
  {
    var generated := GenerateCompositeRuleID(e.ruleModule, e.key);
    Snapshot(
      s.pairs[(e.ruleModule, e.key) := e.content],
      if generated.Some? then s.recommendations[generated.value := e.content] else s.recommendations,
      if e.content.isInternal then s.internalIDs + [ListedID(e)] else s.internalIDs,
      if e.content.isInternal then s.externalIDs else s.externalIDs + [ListedID(e)])
  }

  function StoreAll(s: Snapshot, es: seq<Entry>): Snapshot
  {
    if es == [] then s else Store(StoreAll(s, es[..|es| - 1]), es[|es| - 1])
  }

  lemma StoreAllSnoc(s: Snapshot, es: seq<Entry>, e: Entry)
    ensures StoreAll(s, es + [e]) == Store(StoreAll(s, es), e)
  {
    assert (es + [e])[..|es|] == es;
  }

  lemma {:induction false} StoreAllAppend(s: Snapshot, a: seq<Entry>, b: seq<Entry>)
    ensures StoreAll(s, a + b) == StoreAll(StoreAll(s, a), b)
  {
    if b == [] {
      assert a + b == a;
    } else {
      assert (a + b)[..|a + b| - 1] == a + b[..|b| - 1];
      StoreAllAppend(s, a, b[..|b| - 1]);
    }
  }

  function EntryAt(src: RuleSource, k: ErrorKey, parse: DateParser): Entry
    requires k in src.table && Acceptable(src.table[k], parse)
  {
    Entry(src.pythonModule, k, BuildContent(src.pythonModule, src.name, k, src.table[k], parse))
  }

  /** The accepted keys of one rule, in the order the map delivers them. */
  function EntriesOfRule(src: RuleSource, order: seq<ErrorKey>, parse: DateParser): (es: seq<Entry>)
    requires forall k :: k in order ==> k in src.table
  {
    if order == [] then [] else
      var init, k := order[..|order| - 1], order[|order| - 1];
      if Acceptable(src.table[k], parse)
      then EntriesOfRule(src, init, parse) + [EntryAt(src, k, parse)]
      else EntriesOfRule(src, init, parse)
  }

  lemma EntriesOfRuleStep(src: RuleSource, order: seq<ErrorKey>, j: nat, parse: DateParser)
    requires forall k :: k in order ==> k in src.table
    requires j < |order|
    ensures EntriesOfRule(src, order[..j + 1], parse) ==
            if Acceptable(src.table[order[j]], parse)
            then EntriesOfRule(src, order[..j], parse) + [EntryAt(src, order[j], parse)]
            else EntriesOfRule(src, order[..j], parse)
  {
    assert order[..j + 1][..j] == order[..j];
  }

  ghost predicate EntryFrom(e: Entry, src: RuleSource, order: seq<ErrorKey>, parse: DateParser)
  {
    e.key in order && e.key in src.table && Acceptable(src.table[e.key], parse) && e == EntryAt(src, e.key, parse)
  }

  lemma {:induction false} EntriesOfRuleMembers(src: RuleSource, order: seq<ErrorKey>, parse: DateParser)
    requires forall k :: k in order ==> k in src.table
    ensures forall e :: e in EntriesOfRule(src, order, parse) <==> EntryFrom(e, src, order, parse)
  {
    if order != [] {
      var init, k := order[..|order| - 1], order[|order| - 1];
      assert order == init + [k];
      EntriesOfRuleMembers(src, init, parse);
    }
  }

  ghost predicate ValidOrders(srcs: seq<RuleSource>, orders: seq<seq<ErrorKey>>)
  {
    |orders| == |srcs| && forall i :: 0 <= i < |srcs| ==> Enumerates(orders[i], srcs[i].table.Keys)
  }

  /** Every accepted entry of the directory, in load order. */
  ghost function EntriesOf(srcs: seq<RuleSource>, orders: seq<seq<ErrorKey>>, parse: DateParser): (es: seq<Entry>)
    requires ValidOrders(srcs, orders)
  {
    if srcs == [] then [] else
      var n := |srcs| - 1;
      EntriesOf(srcs[..n], orders[..n], parse) + EntriesOfRule(srcs[n], orders[n], parse)
  }

  lemma {:induction false} EntriesOfMembers(srcs: seq<RuleSource>, orders: seq<seq<ErrorKey>>, parse: DateParser)
    requires ValidOrders(srcs, orders)
    ensures forall e :: e in EntriesOf(srcs, orders, parse)
                   <==> exists i :: 0 <= i < |srcs| && EntryFrom(e, srcs[i], orders[i], parse)
  {
    if srcs != [] {
      var n := |srcs| - 1;
      EntriesOfMembers(srcs[..n], orders[..n], parse);
      EntriesOfRuleMembers(srcs[n], orders[n], parse);
      forall e, i | 0 <= i < |srcs| && EntryFrom(e, srcs[i], orders[i], parse)
        ensures e in EntriesOf(srcs, orders, parse)
      {
        if i < n {
          assert EntryFrom(e, srcs[..n][i], orders[..n][i], parse);
        }
      }
    }
  }

  /** The index a complete load publishes. */
  ghost function Load(srcs: seq<RuleSource>, orders: seq<seq<ErrorKey>>, parse: DateParser): Snapshot
    requires ValidOrders(srcs, orders)
  {
    StoreAll(EMPTY, EntriesOf(srcs, orders, parse))
  }

  lemma LoadStep(srcs: seq<RuleSource>, orders: seq<seq<ErrorKey>>, i: nat, parse: DateParser)
    requires ValidOrders(srcs, orders) && i < |srcs|
    ensures ValidOrders(srcs[..i], orders[..i]) && ValidOrders(srcs[..i + 1], orders[..i + 1])
    ensures Load(srcs[..i + 1], orders[..i + 1], parse) ==
            StoreAll(Load(srcs[..i], orders[..i], parse), EntriesOfRule(srcs[i], orders[i], parse))
  {
    assert srcs[..i + 1][..i] == srcs[..i] && orders[..i + 1][..i] == orders[..i];
    StoreAllAppend(EMPTY, EntriesOf(srcs[..i], orders[..i], parse), EntriesOfRule(srcs[i], orders[i], parse));
  }

  // ---------- what the indexes answer ----------

  function LastContent(es: seq<Entry>, m: string, k: ErrorKey): Option<RuleWithContent>
  {
    if es == [] then None
    else if es[|es| - 1].ruleModule == m && es[|es| - 1].key == k then Some(es[|es| - 1].content)
    else LastContent(es[..|es| - 1], m, k)
  }

  function Lookup<K, V>(m: map<K, V>, k: K): Option<V>
  {
    if k in m then Some(m[k]) else None
  }

  /** Both content maps answer with the same object under matching keys, whatever was stored. */
  lemma {:induction false} MapsAgree(es: seq<Entry>, m: string, k: ErrorKey, id: RuleID)
    ensures Lookup(StoreAll(EMPTY, es).pairs, (m, k)) == LastContent(es, m, k)
    ensures Lookup(StoreAll(EMPTY, es).recommendations, id) ==
            match ParseComposite(id) case Some(mk) => LastContent(es, mk.0, mk.1) case None => None
  {
    if es != [] {
      var e := es[|es| - 1];
      MapsAgree(es[..|es| - 1], m, k, id);
      ParsePrintRoundTrip(id, e.ruleModule, e.key);
    }
  }

  /** The lists hold one ID per stored entry, in load order. */
  lemma {:induction false} ListsInOrder(es: seq<Entry>)
    ensures StoreAll(EMPTY, es).internalIDs == Map(Filter(es, (e: Entry) => e.content.isInternal), ListedID)
    ensures StoreAll(EMPTY, es).externalIDs == Map(Filter(es, (e: Entry) => !e.content.isInternal), ListedID)
  {
    if es != [] {
      var init, last := es[..|es| - 1], es[|es| - 1];
      ListsInOrder(init);
      if last.content.isInternal {
        MapSnoc(Filter(init, (e: Entry) => e.content.isInternal), last, ListedID);
      } else {
        MapSnoc(Filter(init, (e: Entry) => !e.content.isInternal), last, ListedID);
      }
    }
  }

  lemma {:induction false} LastContentFound(es: seq<Entry>, m: string, k: ErrorKey)
    ensures LastContent(es, m, k).Some? <==> exists e :: e in es && e.ruleModule == m && e.key == k
    ensures LastContent(es, m, k).Some? ==> Entry(m, k, LastContent(es, m, k).value) in es
  {
    if es != [] {
      var init, last := es[..|es| - 1], es[|es| - 1];
      assert es == init + [last];
      LastContentFound(init, m, k);
    }
  }

  /** The status says one of the three known words, and the date is missing or proper. */
  ghost predicate Admissible(meta: Metadata, parse: DateParser)
  {
    && (Says(meta.status, "active") || Says(meta.status, "inactive") || Says(meta.status, ""))
    && (meta.publishDate == "" || parse(meta.publishDate).Some?)
  }

  /** A (module, key) pair is stored iff the directory has it with a known status and a proper or missing
      date. */
  lemma StoredIffAcceptable(srcs: seq<RuleSource>, orders: seq<seq<ErrorKey>>, parse: DateParser, m: string,
                            k: ErrorKey)
    requires ValidOrders(srcs, orders)
    ensures (m, k) in Load(srcs, orders, parse).pairs
       <==> exists i :: 0 <= i < |srcs| && srcs[i].pythonModule == m && k in srcs[i].table
                        && Admissible(srcs[i].table[k].metadata, parse)
  {
    StoredIffAccepted(srcs, orders, parse, m, k);
    forall i | 0 <= i < |srcs| && k in srcs[i].table
      ensures Acceptable(srcs[i].table[k], parse) <==> Admissible(srcs[i].table[k].metadata, parse)
    {
      StatusIff(srcs[i].table[k].metadata.status);
    }
  }

  lemma StoredIffAccepted(srcs: seq<RuleSource>, orders: seq<seq<ErrorKey>>, parse: DateParser, m: string,
                            k: ErrorKey)
    requires ValidOrders(srcs, orders)
    ensures (m, k) in Load(srcs, orders, parse).pairs
       <==> exists i :: 0 <= i < |srcs| && srcs[i].pythonModule == m && k in srcs[i].table
                        && Acceptable(srcs[i].table[k], parse)
  {
    var es := EntriesOf(srcs, orders, parse);
    EntriesOfMembers(srcs, orders, parse);
    MapsAgree(es, m, k, "");
    LastContentFound(es, m, k);
    if i :| 0 <= i < |srcs| && srcs[i].pythonModule == m && k in srcs[i].table && Acceptable(srcs[i].table[k], parse) {
      assert EntryFrom(EntryAt(srcs[i], k, parse), srcs[i], orders[i], parse);
    }
  }

  /** The content is that of the rule's own properties, field by field. */
  ghost predicate Shows(content: RuleWithContent, src: RuleSource, k: ErrorKey, parse: DateParser)
    requires k in src.table
  {
    var props, meta := src.table[k], src.table[k].metadata;
    && content.ruleModule == src.pythonModule && content.name == src.name && content.errorKey == k
    && content.generic == props.generic && content.summary == props.summary && content.reason == props.reason
    && content.resolution == props.resolution && content.moreInfo == props.moreInfo
    && content.description == meta.description && content.resolutionRisk == meta.resolutionRisk
    && content.impact == meta.impact && content.likelihood == meta.likelihood
    && content.totalRisk == CalculateTotalRisk(meta.impact, meta.likelihood)
    && (if meta.publishDate == "" then content.publishDate == ZERO_TIME
        else parse(meta.publishDate) == Some(content.publishDate))
    && (content.active <==> Says(meta.status, "active")) && content.isInternal == Internal(src.pythonModule)
    && content.tags == meta.tags && (content.osdCustomer <==> "osd_customer" in meta.tags)
  }

  /** With distinct modules the stored object is the one built from the rule's own properties. */
  lemma StoredContent(srcs: seq<RuleSource>, orders: seq<seq<ErrorKey>>, parse: DateParser, i: nat, k: ErrorKey)
    requires ValidOrders(srcs, orders) && DistinctModules(srcs)
    requires i < |srcs| && k in srcs[i].table && Acceptable(srcs[i].table[k], parse)
    ensures Lookup(Load(srcs, orders, parse).pairs, (srcs[i].pythonModule, k)) ==
            Some(EntryAt(srcs[i], k, parse).content)
    ensures Shows(EntryAt(srcs[i], k, parse).content, srcs[i], k, parse)
  {
    StatusIff(srcs[i].table[k].metadata.status);
    var es, m := EntriesOf(srcs, orders, parse), srcs[i].pythonModule;
    EntriesOfMembers(srcs, orders, parse);
    MapsAgree(es, m, k, "");
    LastContentFound(es, m, k);
    assert EntryFrom(EntryAt(srcs[i], k, parse), srcs[i], orders[i], parse);
    var found := Entry(m, k, LastContent(es, m, k).value);
    var j :| 0 <= j < |srcs| && EntryFrom(found, srcs[j], orders[j], parse);
    assert j == i;
  }

  /** Every stored object names the key it is stored under, is flagged by its module, and is rated by
      its own impact and likelihood, in both content maps of any load. */
  lemma StoredObjectsNameTheirKeys(srcs: seq<RuleSource>, orders: seq<seq<ErrorKey>>, parse: DateParser,
                                   m: string, k: ErrorKey, id: RuleID)
    requires ValidOrders(srcs, orders)
    ensures var s := Load(srcs, orders, parse);
            && ((m, k) in s.pairs ==> ConsistentContent(s.pairs[(m, k)], m, k))
            && (id in s.recommendations ==>
                  var content := s.recommendations[id];
                  id == Composite(content.ruleModule, content.errorKey)
                  && ConsistentContent(content, content.ruleModule, content.errorKey))
  {
    var es := EntriesOf(srcs, orders, parse);
    EntriesOfMembers(srcs, orders, parse);
    MapsAgree(es, m, k, id);
    LastContentFound(es, m, k);
    if ParseComposite(id).Some? {
      var mk := ParseComposite(id).value;
      LastContentFound(es, mk.0, mk.1);
      ParsePrintRoundTrip(id, mk.0, mk.1);
    }
  }

  predicate ConsistentContent(content: RuleWithContent, m: string, k: ErrorKey)
  {
    && content.ruleModule == m && content.errorKey == k && content.isInternal == Internal(m)
    && content.totalRisk == CalculateTotalRisk(content.impact, content.likelihood)
    && (content.osdCustomer <==> "osd_customer" in content.tags)
  }

  ghost predicate DistinctModules(srcs: seq<RuleSource>)
  {
    forall i, j :: 0 <= i < j < |srcs| ==> srcs[i].pythonModule != srcs[j].pythonModule
  }

  // ---------- safety of the severity and managed lookups ----------

  /** No listed external ID is missing from the recommendation map. */
  predicate LookupsSafe(s: Snapshot)
  {
    forall id :: id in s.externalIDs ==> id in s.recommendations
  }

  predicate Generates(e: Entry)
  {
    GenerateCompositeRuleID(e.ruleModule, e.key).Some?
  }

  lemma ListedIffStored(es: seq<Entry>, e: Entry)
    requires e in es
    ensures ListedID(e) in StoreAll(EMPTY, es).recommendations <==> Generates(e)
  {
    MapsAgree(es, e.ruleModule, e.key, ListedID(e));
    LastContentFound(es, e.ruleModule, e.key);
    if Generates(e) {
      ParsePrintRoundTrip(ListedID(e), e.ruleModule, e.key);
    } else {
      assert Split("", '|') == [""];
    }
  }

  /** The lookups dereference a missing entry iff some accepted external pair has no composite ID. */
  lemma LookupsSafeIff(es: seq<Entry>)
    ensures LookupsSafe(StoreAll(EMPTY, es)) <==> forall e :: e in es && !e.content.isInternal ==> Generates(e)
  {
    var ext := Filter(es, (e: Entry) => !e.content.isInternal);
    var s := StoreAll(EMPTY, es);
    ListsInOrder(es);
    assert |s.externalIDs| == |ext|;
    forall i | 0 <= i < |ext| ensures s.externalIDs[i] in s.recommendations <==> Generates(ext[i]) {
      ListedIffStored(es, ext[i]);
    }
    if LookupsSafe(s) {
      forall e | e in es && !e.content.isInternal ensures Generates(e) {
        var i :| 0 <= i < |ext| && ext[i] == e;
        assert s.externalIDs[i] in s.externalIDs;
      }
    } else {
      var id :| id in s.externalIDs && id !in s.recommendations;
      var i :| 0 <= i < |ext| && s.externalIDs[i] == id;
      assert ext[i] in es && !ext[i].content.isInternal && !Generates(ext[i]);
    }
  }

  /** A rule with one error key that leaves every optional attribute empty. */
  function PlainRule(m: string, k: ErrorKey): RuleSource
  {
    RuleSource(m, "", map[k := ErrorProperties("", "", "", "", "", 0, Metadata("", "", 2, 2, 0, "", []))])
  }

  lemma PlainRuleIsAccepted(m: string, k: ErrorKey, parse: DateParser)
    ensures Acceptable(PlainRule(m, k).table[k], parse)
  {
    StatusWords();
  }

  lemma SingleRuleLoads(src: RuleSource, k: ErrorKey, parse: DateParser)
    requires src.table.Keys == {k} && Acceptable(src.table[k], parse)
    ensures ValidOrders([src], [[k]])
    ensures Load([src], [[k]], parse) == Store(EMPTY, EntryAt(src, k, parse))
  {
    var e := EntryAt(src, k, parse);
    assert [k][..0] == [] && [src][..0] == [] && [[k]][..0] == [] && [e][..0] == [];
    assert EntriesOfRule(src, [], parse) + [e] == [e];
    assert EntriesOfRule(src, [k], parse) == [e];
    assert EntriesOf([], [], parse) + [e] == [e];
    assert EntriesOf([src], [[k]], parse) == [e];
    assert StoreAll(EMPTY, []) == EMPTY;
  }

  /** Such loads happen: a module with a dash is accepted, and listed under the empty ID, which no map
      holds. */
  lemma UnsafeLoadHappens(m: string, k: ErrorKey, parse: DateParser)
    requires '-' in m && '.' !in m
    ensures ValidOrders([PlainRule(m, k)], [[k]]) && !LookupsSafe(Load([PlainRule(m, k)], [[k]], parse))
  {
    PlainRuleIsAccepted(m, k, parse);
    SingleRuleLoads(PlainRule(m, k), k, parse);
    var s := Load([PlainRule(m, k)], [[k]], parse);
    assert Split(m, '.') == [m];
    assert s.externalIDs == [""] && "" in s.externalIDs && "" !in s.recommendations;
  }

  /** A directory may hold a rule twice; its composite ID is then listed twice. */
  lemma RepeatedRuleLoads(m: string, k: ErrorKey, parse: DateParser)
    requires ValidPart(m) && ValidPart(k) && !Internal(m)
    ensures var srcs, orders := [PlainRule(m, k), PlainRule(m, k)], [[k], [k]];
            && ValidOrders(srcs, orders)
            && var s := Load(srcs, orders, parse);
               && s.externalIDs == [Composite(m, k), Composite(m, k)]
               && Composite(m, k) in s.recommendations
               && s.recommendations[Composite(m, k)] == PlainContent(m, k, parse)
  {
    PlainRuleIsAccepted(m, k, parse);
    RuleLoadsTwice(PlainRule(m, k), k, parse);
  }

  lemma RuleLoadsTwice(src: RuleSource, k: ErrorKey, parse: DateParser)
    requires src.table.Keys == {k} && Acceptable(src.table[k], parse)
    ensures ValidOrders([src, src], [[k], [k]])
    ensures var e := EntryAt(src, k, parse); Load([src, src], [[k], [k]], parse) == Store(Store(EMPTY, e), e)
  {
    var srcs, orders, e := [src, src], [[k], [k]], EntryAt(src, k, parse);
    SingleRuleLoads(src, k, parse);
    EntriesOfRuleStep(src, [k], 0, parse);
    assert [k][..0] == [] && [k][..1] == [k] && [] + [e] == [e];
    assert srcs[..1] == [src] && orders[..1] == [[k]] && srcs[..2] == srcs && orders[..2] == orders;
    LoadStep(srcs, orders, 1, parse);
    StoreAllSnoc(Store(EMPTY, e), [], e);
  }

  function PlainContent(m: string, k: ErrorKey, parse: DateParser): (content: RuleWithContent)
    ensures content.totalRisk == 2 && content.impact == 2 && content.likelihood == 2 && content.resolutionRisk == 0
    ensures !content.osdCustomer
  {
    PlainRuleIsAccepted(m, k, parse);
    EntryAt(PlainRule(m, k), k, parse).content
  }

  // ---------- the indexes agree with each other ----------

  /** The two ID lists partition the composite keys along the internal flag, without repetition. */
  ghost predicate WellIndexed(s: Snapshot)
  {
    && Distinct(s.externalIDs) && Distinct(s.internalIDs)
    && (forall id :: id in s.externalIDs <==> id in s.recommendations && !s.recommendations[id].isInternal)
    && (forall id :: id in s.internalIDs <==> id in s.recommendations && s.recommendations[id].isInternal)
  }

  ghost predicate DistinctPairs(es: seq<Entry>)
  {
    forall i, j :: 0 <= i < j < |es| ==> es[i].ruleModule != es[j].ruleModule || es[i].key != es[j].key
  }

  lemma {:induction false} EntriesOfRuleDistinct(src: RuleSource, order: seq<ErrorKey>, parse: DateParser)
    requires Distinct(order) && forall k :: k in order ==> k in src.table
    ensures DistinctPairs(EntriesOfRule(src, order, parse))
  {
    if order != [] {
      var init, k := order[..|order| - 1], order[|order| - 1];
      EntriesOfRuleDistinct(src, init, parse);
      var rest := EntriesOfRule(src, init, parse);
      EntriesOfRuleMembers(src, init, parse);
      forall i | 0 <= i < |rest| ensures rest[i].key != k {
        assert EntryFrom(rest[i], src, init, parse);
      }
    }
  }

  lemma {:induction false} EntriesDistinct(srcs: seq<RuleSource>, orders: seq<seq<ErrorKey>>, parse: DateParser)
    requires ValidOrders(srcs, orders) && DistinctModules(srcs)
    ensures DistinctPairs(EntriesOf(srcs, orders, parse))
  {
    if srcs != [] {
      var n := |srcs| - 1;
      EntriesDistinct(srcs[..n], orders[..n], parse);
      EntriesOfRuleDistinct(srcs[n], orders[n], parse);
      var a, b := EntriesOf(srcs[..n], orders[..n], parse), EntriesOfRule(srcs[n], orders[n], parse);
      EntriesOfMembers(srcs[..n], orders[..n], parse);
      EntriesOfRuleMembers(srcs[n], orders[n], parse);
      forall i, j | 0 <= i < |a| && 0 <= j < |b| ensures a[i].ruleModule != b[j].ruleModule {
        assert a[i] in a && b[j] in b;
      }
    }
  }

  lemma {:induction false} FilterDistinctPairs(es: seq<Entry>, p: Entry -> bool)
    requires DistinctPairs(es)
    ensures DistinctPairs(Filter(es, p))
  {
    if es != [] {
      var init, last := es[..|es| - 1], es[|es| - 1];
      FilterDistinctPairs(init, p);
      forall e | e in Filter(init, p) ensures e.ruleModule != last.ruleModule || e.key != last.key {
        assert e in init;
      }
    }
  }

  lemma ListedDistinct(es: seq<Entry>, p: Entry -> bool)
    requires DistinctPairs(es) && forall e :: e in es ==> Generates(e)
    ensures Distinct(Map(Filter(es, p), ListedID))
  {
    var kept := Filter(es, p);
    FilterDistinctPairs(es, p);
    forall i, j | 0 <= i < j < |kept| ensures ListedID(kept[i]) != ListedID(kept[j]) {
      assert kept[i] in es && kept[j] in es;
      CompositeInjective(kept[i].ruleModule, kept[i].key, kept[j].ruleModule, kept[j].key);
    }
  }

  /** A composite ID is listed under flag `internal` iff the map holds it with that flag. */
  lemma ListedMembers(es: seq<Entry>, flag: bool, ids: seq<RuleID>, id: RuleID)
    requires DistinctPairs(es) && forall e :: e in es ==> Generates(e)
    requires ids == Map(Filter(es, (e: Entry) => e.content.isInternal == flag), ListedID)
    ensures id in ids <==> Lookup(StoreAll(EMPTY, es).recommendations, id).Some?
                           && StoreAll(EMPTY, es).recommendations[id].isInternal == flag
  {
    var kept := Filter(es, (e: Entry) => e.content.isInternal == flag);
    MapsAgree(es, "", "", id);
    if ParseComposite(id).Some? {
      LastContentFound(es, ParseComposite(id).value.0, ParseComposite(id).value.1);
      ParsePrintRoundTrip(id, ParseComposite(id).value.0, ParseComposite(id).value.1);
    }
    if id in ids {
      var i :| 0 <= i < |kept| && ids[i] == id;
      var e := kept[i];
      ParsePrintRoundTrip(id, e.ruleModule, e.key);
      assert e in es;
      var stored := Entry(e.ruleModule, e.key, LastContent(es, e.ruleModule, e.key).value);
      SamePairSameEntry(es, e, stored);
    }
    if Lookup(StoreAll(EMPTY, es).recommendations, id).Some? {
      var mk := ParseComposite(id).value;
      var e := Entry(mk.0, mk.1, LastContent(es, mk.0, mk.1).value);
      if e.content.isInternal == flag {
        assert e in kept;
        var i :| 0 <= i < |kept| && kept[i] == e;
        assert ids[i] == id;
      }
    }
  }

  lemma SamePairSameEntry(es: seq<Entry>, a: Entry, b: Entry)
    requires DistinctPairs(es) && a in es && b in es && a.ruleModule == b.ruleModule && a.key == b.key
    ensures a == b
  {
  }

  ghost predicate FlagFollowsModule(es: seq<Entry>)
  {
    forall e :: e in es ==> e.content.isInternal == Internal(e.ruleModule)
  }

  lemma WellIndexedIf(es: seq<Entry>)
    requires DistinctPairs(es) && forall e :: e in es ==> Generates(e)
    ensures WellIndexed(StoreAll(EMPTY, es))
  {
    ListsInOrder(es);
    ListedDistinct(es, (e: Entry) => e.content.isInternal);
    ListedDistinct(es, (e: Entry) => !e.content.isInternal);
    FilterCongruent(es, (e: Entry) => e.content.isInternal == true, (e: Entry) => e.content.isInternal);
    FilterCongruent(es, (e: Entry) => e.content.isInternal == false, (e: Entry) => !e.content.isInternal);
    var s := StoreAll(EMPTY, es);
    forall id ensures id in s.externalIDs <==> id in s.recommendations && !s.recommendations[id].isInternal {
      ListedMembers(es, false, s.externalIDs, id);
    }
    forall id ensures id in s.internalIDs <==> id in s.recommendations && s.recommendations[id].isInternal {
      ListedMembers(es, true, s.internalIDs, id);
    }
  }

  /** Every entry's ID is on one of the two lists. */
  lemma ListedSomewhere(es: seq<Entry>, e: Entry)
    requires e in es
    ensures ListedID(e) in
            if e.content.isInternal then StoreAll(EMPTY, es).internalIDs else StoreAll(EMPTY, es).externalIDs
  {
    ListsInOrder(es);
    var kept := if e.content.isInternal then Filter(es, (e: Entry) => e.content.isInternal)
                else Filter(es, (e: Entry) => !e.content.isInternal);
    var i :| 0 <= i < |kept| && kept[i] == e;
    assert Map(kept, ListedID)[i] == ListedID(e);
  }

  lemma NewIDIsNew(ids: seq<RuleID>, last: RuleID)
    requires Distinct(ids + [last])
    ensures Distinct(ids) && last !in ids
  {
    var all := ids + [last];
    assert all[|ids|] == last && forall i :: 0 <= i < |ids| ==> all[i] == ids[i];
  }

  lemma {:induction false} DistinctListsDistinctPairs(es: seq<Entry>)
    requires FlagFollowsModule(es)
    requires Distinct(StoreAll(EMPTY, es).internalIDs) && Distinct(StoreAll(EMPTY, es).externalIDs)
    ensures DistinctPairs(es)
  {
    if es != [] {
      var init, last := es[..|es| - 1], es[|es| - 1];
      assert es == init + [last];
      var was := StoreAll(EMPTY, init);
      NewIDIsNew(if last.content.isInternal then was.internalIDs else was.externalIDs, ListedID(last));
      DistinctListsDistinctPairs(init);
      forall e | e in init ensures e.ruleModule != last.ruleModule || e.key != last.key {
        ListedSomewhere(init, e);
        assert e in es && last in es;
      }
    }
  }

  /** The indexes agree iff every accepted pair has a composite ID and none is accepted twice. */
  lemma WellIndexedIff(srcs: seq<RuleSource>, orders: seq<seq<ErrorKey>>, parse: DateParser)
    requires ValidOrders(srcs, orders)
    ensures var es := EntriesOf(srcs, orders, parse);
            WellIndexed(Load(srcs, orders, parse)) <==> DistinctPairs(es) && forall e :: e in es ==> Generates(e)
  {
    var es := EntriesOf(srcs, orders, parse);
    EntriesOfMembers(srcs, orders, parse);
    assert FlagFollowsModule(es);
    if WellIndexed(StoreAll(EMPTY, es)) {
      DistinctListsDistinctPairs(es);
      forall e | e in es ensures Generates(e) {
        ListedSomewhere(es, e);
        ListedIffStored(es, e);
      }
    } else if DistinctPairs(es) && forall e :: e in es ==> Generates(e) {
      WellIndexedIf(es);
      assert false;
    }
  }

  /** In particular any load of distinct modules whose accepted pairs all have composite IDs. */
  lemma LoadIsWellIndexed(srcs: seq<RuleSource>, orders: seq<seq<ErrorKey>>, parse: DateParser)
    requires ValidOrders(srcs, orders) && DistinctModules(srcs)
    requires forall e :: e in EntriesOf(srcs, orders, parse) ==> Generates(e)
    ensures WellIndexed(Load(srcs, orders, parse)) && LookupsSafe(Load(srcs, orders, parse))
  {
    EntriesDistinct(srcs, orders, parse);
    WellIndexedIff(srcs, orders, parse);
  }

  // ---------- severities and the managed flag ----------

  function Severities(s: Snapshot): map<RuleID, int>
    requires LookupsSafe(s)
  {
    map id | id in s.externalIDs :: s.recommendations[id].totalRisk
  }

  function UniqueSeverities(s: Snapshot): set<int>
    requires LookupsSafe(s)
  {
    set id | id in s.externalIDs :: s.recommendations[id].totalRisk
  }

  function ManagedInfo(s: Snapshot): map<RuleID, bool>
    requires LookupsSafe(s)
  {
    map id | id in s.externalIDs :: s.recommendations[id].osdCustomer
  }
}
