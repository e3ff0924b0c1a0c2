/**
 The single-cluster report: `filterRulesInResponse`, `FetchRuleContent` and `getRuleCount`.
 */
module Report {
  import opened Sequences
  import opened Identifiers
  import opened RuleContent

  /** A rule on the aggregator's report; `extra` stands for the fields that are only passed through. */
  datatype RuleOnReport = RuleOnReport(ruleModule: string, errorKey: ErrorKey, disabled: bool, createdAt: string,
                                       extra: string)

  datatype RuleResponse = RuleResponse(
    ruleID: string, errorKey: ErrorKey, createdAt: Time, description: string, generic: string, reason: string,
    resolution: string, moreInfo: string, totalRisk: int, disabled: bool, isInternal: bool, tags: seq<string>,
    extra: string, impacted: string)

  /** What the filters are told: the OSD filter, the get_disabled flag and the acknowledged rules. */
  datatype Query = Query(filterOSD: bool, getDisabled: bool, systemWide: map<RuleID, bool>)

  /** What becomes of one reported rule. */
  datatype Fate = Hidden | NoContent | OsdFiltered | Visible

  function Selector(rule: RuleOnReport): RuleID
  {
    Composite(TrimSuffix(rule.ruleModule, DOT_REPORT), rule.errorKey)
  }

  predicate IsDisabledForOrgRule(rule: RuleOnReport, systemWide: map<RuleID, bool>)
  {
    |systemWide| > 0 && Selector(rule) in systemWide && systemWide[Selector(rule)]
  }

  predicate IsDisabledRule(rule: RuleOnReport, systemWide: map<RuleID, bool>)
  {
    rule.disabled || IsDisabledForOrgRule(rule, systemWide)
  }

  /** `GetRuleWithErrorKeyContent`, once the directory is ready. */
  function ContentOf(s: Snapshot, rule: RuleOnReport): Option<RuleWithContent>
  {
    Lookup(s.pairs, (TrimSuffix(rule.ruleModule, DOT_REPORT), rule.errorKey))
  }

  function Respond(rule: RuleOnReport, content: RuleWithContent): RuleResponse
  {
    RuleResponse(rule.ruleModule, rule.errorKey, content.publishDate, content.description, content.generic,
                 content.reason, content.resolution, content.moreInfo, content.totalRisk, rule.disabled,
                 content.isInternal, content.tags, rule.extra, "")
  }

  function FateOf(s: Snapshot, q: Query, rule: RuleOnReport): Fate
  {
    if !q.getDisabled && IsDisabledRule(rule, q.systemWide) then Hidden
    else match ContentOf(s, rule)
      case None => NoContent
      case Some(content) => if q.filterOSD && !content.osdCustomer then OsdFiltered else Visible
  }

  function Count(s: Snapshot, q: Query, report: seq<RuleOnReport>, fate: Fate): nat
  {
    |Filter(report, rule => FateOf(s, q, rule) == fate)|
  }

  function VisibleRules(s: Snapshot, q: Query, report: seq<RuleOnReport>): seq<RuleOnReport>
  {
    Filter(report, rule => FateOf(s, q, rule) == Visible)
  }

  /** One response per visible rule, in report order. */
  function Responses(s: Snapshot, q: Query, report: seq<RuleOnReport>): seq<RuleResponse>
  {
    if report == [] then [] else
      var before, last := Responses(s, q, report[..|report| - 1]), report[|report| - 1];
      if FateOf(s, q, last) == Visible then before + [Respond(last, ContentOf(s, last).value)] else before
  }

  // ---------- the code ----------

  datatype Fetch = Fetch(response: Option<RuleResponse>, osdFiltered: bool, failed: bool, timedOut: bool)

  function FetchRuleContent(s: Snapshot, ready: bool, rule: RuleOnReport, osdEligible: bool): Fetch
  {
    if !ready then Fetch(None, false, true, true)
    else match ContentOf(s, rule)
      case None => Fetch(None, false, true, false)
      case Some(content) =>
        if osdEligible && !content.osdCustomer then Fetch(None, true, false, false)
        else Fetch(Some(Respond(rule, content)), false, false, false)
  }

  lemma CountStep(s: Snapshot, q: Query, report: seq<RuleOnReport>, i: nat, fate: Fate)
    requires i < |report|
    ensures Count(s, q, report[..i + 1], fate) ==
            Count(s, q, report[..i], fate) + if FateOf(s, q, report[i]) == fate then 1 else 0
  {
    assert report[..i + 1][..i] == report[..i];
  }

  lemma ResponsesStep(s: Snapshot, q: Query, report: seq<RuleOnReport>, i: nat)
    requires i < |report|
    ensures Responses(s, q, report[..i + 1]) ==
            if FateOf(s, q, report[i]) == Visible
            then Responses(s, q, report[..i]) + [Respond(report[i], ContentOf(s, report[i]).value)]
            else Responses(s, q, report[..i])
  {
    assert report[..i + 1][..i] == report[..i];
  }

  /** Every rule is hidden, so no content is looked up. */
  ghost predicate AllHidden(s: Snapshot, q: Query, report: seq<RuleOnReport>)
  {
    forall rule :: rule in report ==> FateOf(s, q, rule) == Hidden
  }

  lemma AllHiddenSnoc(s: Snapshot, q: Query, done: seq<RuleOnReport>, rule: RuleOnReport)
    ensures AllHidden(s, q, done + [rule]) <==> AllHidden(s, q, done) && FateOf(s, q, rule) == Hidden
  {
    assert rule in done + [rule];
  }

  /** Rule `n` is the first that is not hidden, so the first whose content is looked up. */
  ghost predicate FirstShown(s: Snapshot, q: Query, report: seq<RuleOnReport>, n: nat)
  {
    n < |report| && AllHidden(s, q, report[..n]) && FateOf(s, q, report[n]) != Hidden
  }

  /** The answer and the two counters after the rules in `done`. */
  ghost predicate Tally(s: Snapshot, q: Query, done: seq<RuleOnReport>, okRules: seq<RuleResponse>, noContent: nat,
                        hidden: nat)
  {
    okRules == Responses(s, q, done) && noContent == Count(s, q, done, NoContent) && hidden == Count(s, q, done, Hidden)
  }

  lemma TallySnoc(s: Snapshot, q: Query, done: seq<RuleOnReport>, rule: RuleOnReport,
                  okRules: seq<RuleResponse>, noContent: nat, hidden: nat)
    requires Tally(s, q, done, okRules, noContent, hidden)
    ensures match FateOf(s, q, rule)
            case Hidden => Tally(s, q, done + [rule], okRules, noContent, hidden + 1)
            case NoContent => Tally(s, q, done + [rule], okRules, noContent + 1, hidden)
            case OsdFiltered => Tally(s, q, done + [rule], okRules, noContent, hidden)
            case Visible =>
              Tally(s, q, done + [rule], okRules + [Respond(rule, ContentOf(s, rule).value)], noContent, hidden)
  {
    var report := done + [rule];
    assert report[..|done|] == done && report[..|done| + 1] == report;
    CountStep(s, q, report, |done|, NoContent);
    CountStep(s, q, report, |done|, Hidden);
    ResponsesStep(s, q, report, |done|);
  }

  /** One pass of the loop. */
  method FilterRule(s: Snapshot, ready: bool, q: Query, rule: RuleOnReport, okRules: seq<RuleResponse>,
                    noContentRulesCnt: nat, disabledRulesCnt: nat, ghost done: seq<RuleOnReport>)
    returns (okRules': seq<RuleResponse>, noContentRulesCnt': nat, disabledRulesCnt': nat, timedOut: bool)
    requires Tally(s, q, done, okRules, noContentRulesCnt, disabledRulesCnt)
    ensures timedOut <==> !ready && FateOf(s, q, rule) != Hidden
    ensures timedOut ==> okRules' == okRules && disabledRulesCnt' == disabledRulesCnt
    ensures timedOut ==> noContentRulesCnt' == noContentRulesCnt + 1
    ensures !timedOut ==> Tally(s, q, done + [rule], okRules', noContentRulesCnt', disabledRulesCnt')
    ensures !timedOut && !ready ==> okRules' == okRules && noContentRulesCnt' == noContentRulesCnt
    ensures !timedOut && !ready ==> disabledRulesCnt' == disabledRulesCnt + 1
  {
    okRules', noContentRulesCnt', disabledRulesCnt', timedOut := okRules, noContentRulesCnt, disabledRulesCnt, false;
    TallySnoc(s, q, done, rule, okRules, noContentRulesCnt, disabledRulesCnt);
    if !q.getDisabled && IsDisabledRule(rule, q.systemWide) {
      disabledRulesCnt' := disabledRulesCnt + 1;
      return;
    }
    var fetch := FetchRuleContent(s, ready, rule, q.filterOSD);
    if fetch.failed {
      if !fetch.osdFiltered {
        noContentRulesCnt' := noContentRulesCnt + 1;
      }
      timedOut := fetch.timedOut;
      return;
    }
    if fetch.osdFiltered {
      return;
    }
    okRules' := okRules + [fetch.response.value];
  }

  method FilterRulesInResponse(s: Snapshot, ready: bool, q: Query, report: seq<RuleOnReport>)
    returns (okRules: seq<RuleResponse>, noContentRulesCnt: nat, disabledRulesCnt: nat, timedOut: bool)
    ensures timedOut <==> !ready && !AllHidden(s, q, report)
    ensures timedOut ==> okRules == [] && noContentRulesCnt == 1 && FirstShown(s, q, report, disabledRulesCnt)
    ensures !timedOut ==> Tally(s, q, report, okRules, noContentRulesCnt, disabledRulesCnt)
  {
    okRules, noContentRulesCnt, disabledRulesCnt, timedOut := [], 0, 0, false;
    ghost var done := [];
    for i := 0 to |report|
      invariant done == report[..i] && Tally(s, q, done, okRules, noContentRulesCnt, disabledRulesCnt)
      invariant !ready ==> NothingShown(s, q, done, okRules, noContentRulesCnt, disabledRulesCnt)
    {
      AllHiddenSnoc(s, q, done, report[i]);
      PrefixStep(report, i);
      okRules, noContentRulesCnt, disabledRulesCnt, timedOut :=
        FilterRule(s, ready, q, report[i], okRules, noContentRulesCnt, disabledRulesCnt, done);
      if timedOut {
        return;
      }
      done := done + [report[i]];
    }
    assert done == report;
  }

  /** Only hidden rules were met, each counted. */
  ghost predicate NothingShown(s: Snapshot, q: Query, done: seq<RuleOnReport>, okRules: seq<RuleResponse>,
                               noContent: nat, hidden: nat)
  {
    okRules == [] && noContent == 0 && hidden == |done| && AllHidden(s, q, done)
  }

  function GetRuleCount(visible: nat, noContentRulesCnt: nat, disabledRulesCnt: nat): nat
  {
    if visible == 0 && noContentRulesCnt > 0 && disabledRulesCnt == 0 then 0 else visible + noContentRulesCnt
  }

  // ---------- what becomes of a rule ----------

  /** The rule is hidden: disabled rules were not asked for, and it is disabled on the cluster or its
      composite ID is acknowledged. */
  predicate Hides(q: Query, rule: RuleOnReport)
  {
    var id := TrimSuffix(rule.ruleModule, DOT_REPORT) + "|" + rule.errorKey;
    !q.getDisabled && (rule.disabled || (id in q.systemWide && q.systemWide[id]))
  }

  /** The fate of a rule, from the query and the content of its pair alone. */
  lemma FateIff(s: Snapshot, q: Query, rule: RuleOnReport)
    ensures var pair, fate := (TrimSuffix(rule.ruleModule, DOT_REPORT), rule.errorKey), FateOf(s, q, rule);
            && (fate == Hidden <==> Hides(q, rule))
            && (fate == NoContent <==> !Hides(q, rule) && pair !in s.pairs)
            && (fate == OsdFiltered <==>
                  !Hides(q, rule) && pair in s.pairs && q.filterOSD && !s.pairs[pair].osdCustomer)
            && (fate == Visible <==>
                  !Hides(q, rule) && pair in s.pairs && (q.filterOSD ==> s.pairs[pair].osdCustomer))
  {
    assert Selector(rule) in q.systemWide ==> q.systemWide != map[];
  }

  /** The response names the rule as reported, passes its own fields through and shows the content. */
  predicate Answers(response: RuleResponse, rule: RuleOnReport, content: RuleWithContent)
  {
    && response.ruleID == rule.ruleModule && response.errorKey == rule.errorKey
    && response.disabled == rule.disabled && response.extra == rule.extra && response.impacted == ""
    && response.createdAt == content.publishDate && response.description == content.description
    && response.generic == content.generic && response.reason == content.reason
    && response.resolution == content.resolution && response.moreInfo == content.moreInfo
    && response.totalRisk == content.totalRisk && response.isInternal == content.isInternal
    && response.tags == content.tags
  }

  // ---------- conservation ----------

  /** Every reported rule has exactly one fate. */
  lemma {:induction false} ReportIsConserved(s: Snapshot, q: Query, report: seq<RuleOnReport>)
    ensures |report| == Count(s, q, report, Visible) + Count(s, q, report, NoContent)
                        + Count(s, q, report, Hidden) + Count(s, q, report, OsdFiltered)
    ensures |Responses(s, q, report)| == Count(s, q, report, Visible)
  {
    if report != [] {
      var n := |report| - 1;
      assert report[..n + 1] == report;
      ReportIsConserved(s, q, report[..n]);
      CountStep(s, q, report, n, Visible);
      CountStep(s, q, report, n, NoContent);
      CountStep(s, q, report, n, Hidden);
      CountStep(s, q, report, n, OsdFiltered);
    }
  }

  lemma VisibleStep(s: Snapshot, q: Query, report: seq<RuleOnReport>, i: nat)
    requires i < |report|
    ensures VisibleRules(s, q, report[..i + 1]) ==
            if FateOf(s, q, report[i]) == Visible then VisibleRules(s, q, report[..i]) + [report[i]]
            else VisibleRules(s, q, report[..i])
  {
    assert report[..i + 1][..i] == report[..i];
  }

  /** The response lists the visible rules, in report order, each with its own module and key. */
  lemma {:induction false} ResponsesMatchVisible(s: Snapshot, q: Query, report: seq<RuleOnReport>, i: nat)
    ensures |Responses(s, q, report)| == |VisibleRules(s, q, report)|
    ensures i < |VisibleRules(s, q, report)| ==>
              var rule := VisibleRules(s, q, report)[i];
              var pair := (TrimSuffix(rule.ruleModule, DOT_REPORT), rule.errorKey);
              && ContentOf(s, rule).Some? && Responses(s, q, report)[i] == Respond(rule, ContentOf(s, rule).value)
              && pair in s.pairs && Answers(Responses(s, q, report)[i], rule, s.pairs[pair])
  {
    if report != [] {
      var n := |report| - 1;
      assert report[..n + 1] == report;
      ResponsesMatchVisible(s, q, report[..n], i);
      ResponsesStep(s, q, report, n);
      VisibleStep(s, q, report, n);
    }
  }

  lemma VisibleKeepsOrder(s: Snapshot, q: Query, report: seq<RuleOnReport>)
    ensures Subsequence(VisibleRules(s, q, report), report)
  {
    FilterSubsequence(report, rule => FateOf(s, q, rule) == Visible, rule => true);
    FilterAll(report, rule => true);
  }

  /** Asking for disabled rules as well only adds rules, keeping the order. */
  lemma {:induction false} GetDisabledExtends(s: Snapshot, q: Query, report: seq<RuleOnReport>)
    ensures Subsequence(Responses(s, q.(getDisabled := false), report), Responses(s, q.(getDisabled := true), report))
  {
    if report != [] {
      var n := |report| - 1;
      var without, with := q.(getDisabled := false), q.(getDisabled := true);
      assert report[..n + 1] == report;
      GetDisabledExtends(s, q, report[..n]);
      ResponsesStep(s, without, report, n);
      ResponsesStep(s, with, report, n);
      var a, b := Responses(s, without, report[..n]), Responses(s, with, report[..n]);
      if FateOf(s, without, report[n]) == Visible {
        SubsequenceSnoc(a, b, Respond(report[n], ContentOf(s, report[n]).value));
      } else if FateOf(s, with, report[n]) == Visible {
        SubsequenceExtend(a, b, Respond(report[n], ContentOf(s, report[n]).value));
      }
    }
  }

  /** Nothing is hidden when disabled rules were asked for. */
  lemma {:induction false} GetDisabledHidesNothing(s: Snapshot, q: Query, report: seq<RuleOnReport>)
    requires q.getDisabled
    ensures Count(s, q, report, Hidden) == 0
  {
    if report != [] {
      GetDisabledHidesNothing(s, q, report[..|report| - 1]);
    }
  }

  /** The published count accounts for every rule that was neither hidden nor OSD-filtered, except
      that a report with nothing to show and nothing hidden publishes zero. */
  lemma PublishedCount(s: Snapshot, q: Query, report: seq<RuleOnReport>)
    ensures var visible, noContent := |Responses(s, q, report)|, Count(s, q, report, NoContent);
            var hidden := Count(s, q, report, Hidden);
            var count := GetRuleCount(visible, noContent, hidden);
            && (count == |report| - hidden - Count(s, q, report, OsdFiltered)
                <==> visible > 0 || hidden > 0 || noContent == 0)
            && (visible == 0 && hidden == 0 ==> count == 0)
            && (count == 0 <==> visible == 0 && (noContent == 0 || hidden == 0))
  {
    ReportIsConserved(s, q, report);
  }

  // ---------- the impacted time stamps ----------

  /** The lookup key: error key and module, joined without a separator. */
  function JoinedID(errorKey: ErrorKey, ruleModule: string): string
  {
    errorKey + ruleModule
  }

  /** The last reported rule with a given lookup key. */
  function LastWith(report: seq<RuleOnReport>, id: string): Option<RuleOnReport>
  {
    if report == [] then None
    else
      var last := report[|report| - 1];
      if JoinedID(last.errorKey, last.ruleModule) == id then Some(last) else LastWith(report[..|report| - 1], id)
  }

  function WithImpacted(r: RuleResponse, report: seq<RuleOnReport>, parse: DateParser): RuleResponse
  {
    match LastWith(report, JoinedID(r.errorKey, r.ruleID))
    case None => r
    case Some(rule) =>
      var at := parse(rule.createdAt);
      if at.Some? && at.value != ZERO_TIME then r.(impacted := rule.createdAt) else r
  }

  /** Nothing but the time stamp changes, and only to the creation time of a reported rule with the same
      joined key. */
  lemma OnlyImpactedChanges(response: RuleResponse, report: seq<RuleOnReport>, parse: DateParser)
    ensures var stamped := WithImpacted(response, report, parse);
            && stamped == response.(impacted := stamped.impacted)
            && (stamped.impacted == response.impacted
                || exists rule :: rule in report && stamped.impacted == rule.createdAt
                                  && rule.errorKey + rule.ruleModule == response.errorKey + response.ruleID)
  {
    LastWithMatches(report, JoinedID(response.errorKey, response.ruleID));
  }

  /** `fillImpacted`: updates the responses in place. */
  method FillImpacted(responses: array<RuleResponse>, report: seq<RuleOnReport>, parse: DateParser)
    modifies responses
    ensures forall i :: 0 <= i < responses.Length ==> responses[i] == WithImpacted(old(responses[i]), report, parse)
  {
    var idReport := IndexReport(report);
    for i := 0 to responses.Length
      invariant forall j :: 0 <= j < i ==> responses[j] == WithImpacted(old(responses[j]), report, parse)
      invariant forall j :: i <= j < responses.Length ==> responses[j] == old(responses[j])
    {
      var response := responses[i];
      var id := JoinedID(response.errorKey, response.ruleID);
      assert Lookup(idReport, id) == LastWith(report, id);
      if id in idReport {
        var at := parse(idReport[id].createdAt);
        if at.Some? && at.value != ZERO_TIME {
          responses[i] := response.(impacted := idReport[id].createdAt);
        }
      }
    }
  }

  method IndexReport(report: seq<RuleOnReport>) returns (idReport: map<string, RuleOnReport>)
    ensures forall id :: Lookup(idReport, id) == LastWith(report, id)
  {
    idReport := map[];
    for i := 0 to |report|
      invariant forall id :: Lookup(idReport, id) == LastWith(report[..i], id)
    {
      assert report[..i + 1][..i] == report[..i];
      idReport := idReport[JoinedID(report[i].errorKey, report[i].ruleModule) := report[i]];
    }
    assert report[..|report|] == report;
  }

  ghost predicate NoCollision(report: seq<RuleOnReport>)
  {
    forall a, b :: a in report && b in report ==>
      JoinedID(a.errorKey, a.ruleModule) == JoinedID(b.errorKey, b.ruleModule) ==> a == b
  }

  lemma {:induction false} LastWithMatches(report: seq<RuleOnReport>, id: string)
    ensures LastWith(report, id).Some? ==>
              LastWith(report, id).value in report
              && JoinedID(LastWith(report, id).value.errorKey, LastWith(report, id).value.ruleModule) == id
    ensures LastWith(report, id).None? ==> forall a :: a in report ==> JoinedID(a.errorKey, a.ruleModule) != id
  {
    if report != [] {
      assert report == report[..|report| - 1] + [report[|report| - 1]];
      LastWithMatches(report[..|report| - 1], id);
    }
  }

  /** Every reported rule finds its own record iff no two reported rules share a joined key. */
  lemma OwnRecordIff(report: seq<RuleOnReport>)
    ensures (forall a :: a in report ==> LastWith(report, JoinedID(a.errorKey, a.ruleModule)) == Some(a))
            <==> NoCollision(report)
  {
    forall a | a in report {
      LastWithMatches(report, JoinedID(a.errorKey, a.ruleModule));
    }
    if NoCollision(report) {
      forall a | a in report ensures LastWith(report, JoinedID(a.errorKey, a.ruleModule)) == Some(a) {
        LastWithMatches(report, JoinedID(a.errorKey, a.ruleModule));
      }
    }
  }

  /** Different rules can share a joined key: the first then gets the second's time stamp. */
  lemma JoinedKeysCollide(createdAt: string, other: string)
    ensures var a := RuleOnReport("BC.rule", "A", false, createdAt, "");
            var b := RuleOnReport("C.rule", "AB", false, other, "");
            LastWith([a, b], JoinedID(a.errorKey, a.ruleModule)) == Some(b)
  {
    assert JoinedID("A", "BC.rule") == "ABC.rule" == JoinedID("AB", "C.rule");
  }

  /** Without collisions each response is stamped with its own rule's creation time, if that is a
      proper time. */
  lemma ImpactedIsOwnCreation(report: seq<RuleOnReport>, rule: RuleOnReport, content: RuleWithContent,
                              parse: DateParser)
    requires NoCollision(report) && rule in report
    ensures WithImpacted(Respond(rule, content), report, parse).impacted ==
            if parse(rule.createdAt).Some? && parse(rule.createdAt).value != ZERO_TIME then rule.createdAt else ""
  {
    OwnRecordIff(report);
  }

  /** From the directory to the answer: a visible rule reported under `m.report` or `m` shows the
      total risk, and the description, that the directory gives the pair (m, k). */
  lemma ResponseShowsDirectory(srcs: seq<RuleSource>, orders: seq<seq<ErrorKey>>, parse: DateParser, i: nat,
                               q: Query, rule: RuleOnReport)
    requires ValidOrders(srcs, orders) && DistinctModules(srcs) && i < |srcs|
    requires TrimSuffix(rule.ruleModule, DOT_REPORT) == srcs[i].pythonModule
    requires rule.errorKey in srcs[i].table && Acceptable(srcs[i].table[rule.errorKey], parse)
    requires FateOf(Load(srcs, orders, parse), q, rule) == Visible
    ensures var s, props := Load(srcs, orders, parse), srcs[i].table[rule.errorKey];
            ContentOf(s, rule).Some?
            && var r := Respond(rule, ContentOf(s, rule).value);
               r.ruleID == rule.ruleModule && r.errorKey == rule.errorKey && r.disabled == rule.disabled
               && r.totalRisk == CalculateTotalRisk(props.metadata.impact, props.metadata.likelihood)
               && r.description == props.metadata.description && r.generic == props.generic && r.reason == props.reason
               && r.resolution == props.resolution && r.moreInfo == props.moreInfo && r.tags == props.metadata.tags
  {
    StoredContent(srcs, orders, parse, i, rule.errorKey);
  }
}
