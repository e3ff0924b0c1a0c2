/**
 The simplified report of one request: `filterRulesGetContent` over rule hits read from Redis.
 */
module RequestReport {
  import opened Sequences
  import opened Identifiers
  import opened RuleContent

  datatype SimplifiedHit = SimplifiedHit(ruleFQDN: string, errorKey: string, description: string, totalRisk: int)

  /** Positions in `slow` are the lookups whose wait for the content directory timed out. */
  predicate Shown(s: Snapshot, slow: set<nat>, acked: map<RuleID, bool>, disabled: map<RuleID, bool>, i: nat,
                  id: RuleID)
  {
    id !in acked && id !in disabled && i !in slow && id in s.recommendations
  }

  /** An ID that does not parse still yields an entry, with empty names. */
  function Simplify(id: RuleID, content: RuleWithContent): SimplifiedHit
  {
    var parts := ParseComposite(id);
    SimplifiedHit(if parts.Some? then parts.value.0 else "", if parts.Some? then parts.value.1 else "",
                  content.generic, content.totalRisk)
  }

  function Simplified(s: Snapshot, slow: set<nat>, acked: map<RuleID, bool>, disabled: map<RuleID, bool>,
                      hits: seq<RuleID>)
    : seq<SimplifiedHit>
  {
    if hits == [] then [] else
      var n := |hits| - 1;
      var before := Simplified(s, slow, acked, disabled, hits[..n]);
      if Shown(s, slow, acked, disabled, n, hits[n]) then before + [Simplify(hits[n], s.recommendations[hits[n]])]
      else before
  }

  method FilterRulesGetContent(s: Snapshot, slow: set<nat>, acked: map<RuleID, bool>, disabled: map<RuleID, bool>,
                               hits: seq<RuleID>)
    returns (report: seq<SimplifiedHit>)
    ensures report == Simplified(s, slow, acked, disabled, hits)
  {
    report := [];
    for i := 0 to |hits|
      invariant report == Simplified(s, slow, acked, disabled, hits[..i])
    {
      assert hits[..i + 1][..i] == hits[..i];
      if hits[i] in acked {
        continue;
      }
      if hits[i] in disabled {
        continue;
      }
      if i in slow || hits[i] !in s.recommendations {
        continue;
      }
      var content := s.recommendations[hits[i]];
      var parts := ParseComposite(hits[i]);
      var fqdn, key := "", "";
      if parts.Some? {
        fqdn, key := parts.value.0, parts.value.1;
      }
      report := report + [SimplifiedHit(fqdn, key, content.generic, content.totalRisk)];
    }
    assert hits[..|hits|] == hits;
  }

  /** On hits that came from Redis every entry names a shown hit exactly: printing its parts gives the
      hit back, and the hit was neither acknowledged nor disabled. */
  lemma {:induction false} EntriesNameTheirHits(s: Snapshot, slow: set<nat>, acked: map<RuleID, bool>,
                                                disabled: map<RuleID, bool>,
                                                hits: seq<RuleID>, e: SimplifiedHit)
    requires forall id :: id in hits ==> MatchesComposite(id)
    requires e in Simplified(s, slow, acked, disabled, hits)
    ensures var id := Composite(e.ruleFQDN, e.errorKey);
            && id in hits && id !in acked && id !in disabled && id in s.recommendations
            && e.description == s.recommendations[id].generic && e.totalRisk == s.recommendations[id].totalRisk
  {
    var n := |hits| - 1;
    var init, last := hits[..n], hits[n];
    assert hits == init + [last];
    if e in Simplified(s, slow, acked, disabled, init) {
      EntriesNameTheirHits(s, slow, acked, disabled, init, e);
    } else {
      AcceptorsAgree(last);
      ParsePrintRoundTrip(last, e.ruleFQDN, e.errorKey);
    }
  }

  lemma SimplifiedKeeps(s: Snapshot, slow: set<nat>, acked: map<RuleID, bool>, disabled: map<RuleID, bool>,
                        hits: seq<RuleID>, n: nat, e: SimplifiedHit)
    requires n <= |hits| && e in Simplified(s, slow, acked, disabled, hits[..n])
    ensures e in Simplified(s, slow, acked, disabled, hits)
    decreases |hits|
  {
    if n == |hits| {
      assert hits[..n] == hits;
    } else {
      assert hits[..|hits| - 1][..n] == hits[..n];
      SimplifiedKeeps(s, slow, acked, disabled, hits[..|hits| - 1], n, e);
    }
  }

  /** And no shown hit is lost. */
  lemma ShownHitsAppear(s: Snapshot, slow: set<nat>, acked: map<RuleID, bool>, disabled: map<RuleID, bool>,
                        hits: seq<RuleID>, i: nat)
    requires i < |hits| && Shown(s, slow, acked, disabled, i, hits[i])
    ensures Simplify(hits[i], s.recommendations[hits[i]]) in Simplified(s, slow, acked, disabled, hits)
  {
    assert hits[..i + 1][..i] == hits[..i] && hits[..i + 1][i] == hits[i];
    SimplifiedKeeps(s, slow, acked, disabled, hits, i + 1, Simplify(hits[i], s.recommendations[hits[i]]));
  }

  /** The hit at position `i` is shown: neither acknowledged nor disabled, and its content was found in
      time. */
  predicate ShownAt(s: Snapshot, slow: set<nat>, acked: map<RuleID, bool>, disabled: map<RuleID, bool>,
                    hits: seq<RuleID>, i: nat)
  {
    i < |hits| && hits[i] !in acked && hits[i] !in disabled && i !in slow && hits[i] in s.recommendations
  }

  /** The entry shows the content of its rule, and names it if the ID has two valid parts. */
  predicate Describes(e: SimplifiedHit, id: RuleID, content: RuleWithContent)
  {
    && e.description == content.generic && e.totalRisk == content.totalRisk
    && (MatchesComposite(id) ==> e.ruleFQDN + "|" + e.errorKey == id && ValidPart(e.ruleFQDN) && ValidPart(e.errorKey))
    && (!MatchesComposite(id) ==> e.ruleFQDN == "" && e.errorKey == "")
  }

  lemma SimplifyDescribes(id: RuleID, content: RuleWithContent)
    ensures Describes(Simplify(id, content), id, content)
  {
    AcceptorsAgree(id);
    if ParseComposite(id).Some? {
      ParsePrintRoundTrip(id, ParseComposite(id).value.0, ParseComposite(id).value.1);
    }
  }

  lemma {:induction false} SimplifiedAt(s: Snapshot, slow: set<nat>, acked: map<RuleID, bool>,
                                        disabled: map<RuleID, bool>, hits: seq<RuleID>, shown: nat -> bool, n: nat)
    requires n <= |hits| && forall i: nat :: shown(i) <==> ShownAt(s, slow, acked, disabled, hits, i)
    ensures var report, ps := Simplified(s, slow, acked, disabled, hits[..n]), Where(n, shown);
            && |report| == |ps|
            && forall j :: 0 <= j < |ps| ==>
                 && ShownAt(s, slow, acked, disabled, hits, ps[j])
                 && Describes(report[j], hits[ps[j]], s.recommendations[hits[ps[j]]])
  {
    if n > 0 {
      assert hits[..n][..n - 1] == hits[..n - 1];
      SimplifiedAt(s, slow, acked, disabled, hits, shown, n - 1);
      if shown(n - 1) {
        SimplifyDescribes(hits[n - 1], s.recommendations[hits[n - 1]]);
      }
    }
  }

  /** The report has one entry per shown hit, in the order of the hits, with that rule's name and content. */
  lemma ReportIsExact(s: Snapshot, slow: set<nat>, acked: map<RuleID, bool>, disabled: map<RuleID, bool>,
                      hits: seq<RuleID>, shown: nat -> bool)
    requires forall i: nat :: shown(i) <==> ShownAt(s, slow, acked, disabled, hits, i)
    ensures var report, ps := Simplified(s, slow, acked, disabled, hits), Where(|hits|, shown);
            && |report| == |ps|
            && forall j :: 0 <= j < |ps| ==>
                 && ShownAt(s, slow, acked, disabled, hits, ps[j])
                 && Describes(report[j], hits[ps[j]], s.recommendations[hits[ps[j]]])
  {
    assert hits[..|hits|] == hits;
    SimplifiedAt(s, slow, acked, disabled, hits, shown, |hits|);
  }
}
