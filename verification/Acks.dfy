/**
 The acknowledgement lifecycle: POST, PUT and DELETE handlers over the aggregator's state, and what
 the resulting acknowledgements hide in the other views.
 */
module Acks {
  import opened Sequences
  import opened Identifiers
  import opened RuleContent
  import opened DisabledRules
  import ClusterList
  import Report
  import RequestReport

  /** A rule as the aggregator stores it. */
  type Rule = (string, ErrorKey)

  type AckStore = map<Rule, string>

  datatype Operation =
    | Post(rule: Option<Rule>, justification: string) // None: the selector in the body does not parse
    | Put(id: RuleID, justification: string)
    | Delete(id: RuleID)

  /** HTTP status and, where one is sent, the justification in the body. */
  datatype Response = Response(status: nat, justification: Option<string>)

  /** The aggregator's acknowledgement table and the handlers that use it. */
  class AckService {
    var acks: AckStore

    method ReadRuleDisableStatus(rule: Rule) returns (justification: string, found: bool)
      ensures found <==> rule in acks
      ensures found ==> justification == acks[rule]
    {
      found := rule in acks;
      justification := if found then acks[rule] else "";
    }

    method AckRuleSystemWide(rule: Rule, justification: string)
      modifies this
      ensures acks == old(acks)[rule := justification]
    {
      acks := acks[rule := justification];
    }

    method UpdateAckRuleSystemWide(rule: Rule, justification: string)
      requires rule in acks
      modifies this
      ensures acks == old(acks)[rule := justification]
    {
      acks := acks[rule := justification];
    }

    method DeleteAckRuleSystemWide(rule: Rule)
      modifies this
      ensures acks == old(acks) - {rule}
    {
      acks := acks - {rule};
    }

    method AcknowledgePost(rule: Option<Rule>, justification: string) returns (r: Response)
      modifies this
      ensures (acks, r) == Step(old(acks), Post(rule, justification))
    {
      if rule.None? {
        return Response(400, None);
      }
      var _, previouslyAcked := ReadRuleDisableStatus(rule.value);
      if !previouslyAcked {
        AckRuleSystemWide(rule.value, justification);
      }
      var updated, _ := ReadRuleDisableStatus(rule.value);
      if !previouslyAcked {
        return Response(201, Some(updated));
      }
      return Response(200, Some(updated));
    }

    method UpdateAcknowledge(id: RuleID, justification: string) returns (r: Response)
      modifies this
      ensures (acks, r) == Step(old(acks), Put(id, justification))
    {
      var rule := ParseComposite(id);
      if rule.None? {
        return Response(400, None);
      }
      var _, found := ReadRuleDisableStatus(rule.value);
      if !found {
        return Response(404, None);
      }
      UpdateAckRuleSystemWide(rule.value, justification);
      var updated, _ := ReadRuleDisableStatus(rule.value);
      return Response(200, Some(updated));
    }

    method DeleteAcknowledge(id: RuleID) returns (r: Response)
      modifies this
      ensures (acks, r) == Step(old(acks), Delete(id))
    {
      var rule := ParseComposite(id);
      if rule.None? {
        return Response(400, None);
      }
      var _, found := ReadRuleDisableStatus(rule.value);
      if !found {
        return Response(404, None);
      }
      DeleteAckRuleSystemWide(rule.value);
      return Response(204, None);
    }
  }

  /** The effect and the answer of one request. */
  function Step(acks: AckStore, op: Operation): (AckStore, Response)
  {
    match op
    case Post(None, _) => (acks, Response(400, None))
    case Post(Some(rule), j) =>
      if rule in acks then (acks, Response(200, Some(acks[rule]))) else (acks[rule := j], Response(201, Some(j)))
    case Put(id, j) =>
      var rule := ParseComposite(id);
      if rule.None? then (acks, Response(400, None))
      else if rule.value !in acks then (acks, Response(404, None))
      else (acks[rule.value := j], Response(200, Some(j)))
    case Delete(id) =>
      var rule := ParseComposite(id);
      if rule.None? then (acks, Response(400, None))
      else if rule.value !in acks then (acks, Response(404, None))
      else (acks - {rule.value}, Response(204, None))
  }

  function Final(acks: AckStore, ops: seq<Operation>): AckStore
  {
    if ops == [] then acks else Step(Final(acks, ops[..|ops| - 1]), ops[|ops| - 1]).0
  }

  function Answers(acks: AckStore, ops: seq<Operation>): seq<Response>
  {
    if ops == [] then [] else
      var n := |ops| - 1;
      Answers(acks, ops[..n]) + [Step(Final(acks, ops[..n]), ops[n]).1]
  }

  // ---------- one rule at a time ----------

  /** The rule an operation is about. */
  function Subject(op: Operation): Option<Rule>
  {
    match op
    case Post(rule, _) => rule
    case Put(id, _) => ParseComposite(id)
    case Delete(id) => ParseComposite(id)
  }

  /** The life of a single acknowledgement: absent, or present with a justification. */
  function Life(state: Option<string>, op: Operation): Option<string>
  {
    match op
    case Post(_, j) => if state.Some? then state else Some(j)
    case Put(_, j) => if state.Some? then Some(j) else None
    case Delete(_) => None
  }

  function LifeOf(state: Option<string>, ops: seq<Operation>): Option<string>
  {
    if ops == [] then state else Life(LifeOf(state, ops[..|ops| - 1]), ops[|ops| - 1])
  }

  function About(ops: seq<Operation>, rule: Rule): seq<Operation>
  {
    Filter(ops, op => Subject(op) == Some(rule))
  }

  /** One request moves its own rule's acknowledgement one step and touches no other. */
  lemma StepIsLocal(acks: AckStore, op: Operation, rule: Rule)
    ensures Lookup(Step(acks, op).0, rule) ==
            if Subject(op) == Some(rule) then Life(Lookup(acks, rule), op) else Lookup(acks, rule)
  {
  }

  lemma LifeOfSnoc(state: Option<string>, ops: seq<Operation>, op: Operation)
    ensures LifeOf(state, ops + [op]) == Life(LifeOf(state, ops), op)
  {
    assert (ops + [op])[..|ops|] == ops;
  }

  /** After any run, each rule's acknowledgement depends only on the operations about that rule, and
      follows the life of a single acknowledgement. */
  lemma {:induction false} RunFollowsLives(acks: AckStore, ops: seq<Operation>, rule: Rule)
    ensures Lookup(Final(acks, ops), rule) == LifeOf(Lookup(acks, rule), About(ops, rule))
  {
    if ops != [] {
      var init, last := ops[..|ops| - 1], ops[|ops| - 1];
      RunFollowsLives(acks, init, rule);
      StepIsLocal(Final(acks, init), last, rule);
      LifeOfSnoc(Lookup(acks, rule), About(init, rule), last);
    }
  }

  /** A rule is acknowledged after a run iff its last POST or DELETE was a POST, or there was neither
      and it was acknowledged before. */
  lemma {:induction false} AckedIffLastWasPost(state: Option<string>, ops: seq<Operation>)
    ensures var decisive := Filter(ops, (op: Operation) => !op.Put?);
            LifeOf(state, ops).Some? <==> if decisive == [] then state.Some? else decisive[|decisive| - 1].Post?
  {
    if ops != [] {
      AckedIffLastWasPost(state, ops[..|ops| - 1]);
    }
  }

  /** The answer to one request about a rule, given the state of that rule's acknowledgement. */
  function AnswerTo(op: Operation, state: Option<string>): Response
  {
    match op
    case Post(_, j) => if state.Some? then Response(200, state) else Response(201, Some(j))
    case Put(_, j) => if state.Some? then Response(200, Some(j)) else Response(404, None)
    case Delete(_) => if state.Some? then Response(204, None) else Response(404, None)
  }

  /** A request is refused with 400, and changes nothing, iff its selector or ID does not name a rule; an ID
      names the rule whose composite ID it is. */
  lemma UnreadableIsRefused(acks: AckStore, op: Operation)
    ensures Step(acks, op).1.status == 400 <==> Subject(op).None?
    ensures Subject(op).None? ==> Step(acks, op) == (acks, Response(400, None))
    ensures op.Post? ==> Subject(op) == op.rule
    ensures !op.Post? ==> (Subject(op).None? <==> !MatchesComposite(op.id))
    ensures !op.Post? && Subject(op).Some? ==>
              var (m, k) := Subject(op).value; ValidPart(m) && ValidPart(k) && op.id == m + "|" + k
  {
    if !op.Post? {
      AcceptorsAgree(op.id);
      if Subject(op).Some? {
        ParsePrintRoundTrip(op.id, Subject(op).value.0, Subject(op).value.1);
      }
    }
  }

  /** What one request about a rule stores: POST a new acknowledgement, keeping an existing one as it is; PUT
      a new justification of an existing one; DELETE removes it. */
  lemma StepStores(acks: AckStore, op: Operation, rule: Rule)
    requires Subject(op) == Some(rule)
    ensures Step(acks, op).0 ==
            match op
            case Post(_, j) => if rule in acks then acks else acks[rule := j]
            case Put(_, j) => if rule in acks then acks[rule := j] else acks
            case Delete(_) => map r | r in acks && r != rule :: acks[r]
  {
  }

  lemma StepAnswers(acks: AckStore, op: Operation)
    requires Subject(op).Some?
    ensures Step(acks, op).1 == AnswerTo(op, Lookup(acks, Subject(op).value))
  {
  }

  lemma {:induction false} AnswerAt(acks: AckStore, ops: seq<Operation>, i: nat)
    requires i < |ops|
    ensures |Answers(acks, ops)| == |ops| && Answers(acks, ops)[i] == Step(Final(acks, ops[..i]), ops[i]).1
  {
    var n := |ops| - 1;
    AnswersLength(acks, ops[..n]);
    if i < n {
      assert ops[..n][..i] == ops[..i];
      AnswerAt(acks, ops[..n], i);
    }
  }

  /** Every answer in a run follows from the state of its own rule at that moment, which only the earlier
      requests about that rule decide. */
  lemma AnswerMeaning(acks: AckStore, ops: seq<Operation>, i: nat)
    requires i < |ops| && Subject(ops[i]).Some?
    ensures var rule := Subject(ops[i]).value;
            && |Answers(acks, ops)| == |ops|
            && Answers(acks, ops)[i] == AnswerTo(ops[i], LifeOf(Lookup(acks, rule), About(ops[..i], rule)))
  {
    AnswerAt(acks, ops, i);
    StepAnswers(Final(acks, ops[..i]), ops[i]);
    RunFollowsLives(acks, ops[..i], Subject(ops[i]).value);
  }

  lemma {:induction false} AnswersLength(acks: AckStore, ops: seq<Operation>)
    ensures |Answers(acks, ops)| == |ops|
  {
    if ops != [] {
      AnswersLength(acks, ops[..|ops| - 1]);
    }
  }

  function WithStatus(answers: seq<Response>, status: nat): nat
  {
    |Filter(answers, (r: Response) => r.status == status)|
  }

  lemma InsertSize(acks: AckStore, rule: Rule, justification: string)
    ensures |acks[rule := justification]| == |acks| + if rule in acks then 0 else 1
  {
    assert acks[rule := justification].Keys == acks.Keys + {rule};
  }

  lemma RemoveSize(acks: AckStore, rule: Rule)
    ensures |acks - {rule}| == |acks| - if rule in acks then 1 else 0
  {
    assert (acks - {rule}).Keys == acks.Keys - {rule};
  }

  lemma StepIsConserved(acks: AckStore, op: Operation)
    ensures var (acks', r) := Step(acks, op);
            |acks'| + (if r.status == 204 then 1 else 0) == |acks| + (if r.status == 201 then 1 else 0)
  {
    if Subject(op).Some? {
      InsertSize(acks, Subject(op).value, if op.Delete? then "" else op.justification);
      RemoveSize(acks, Subject(op).value);
    }
  }

  lemma WithStatusSnoc(answers: seq<Response>, r: Response, status: nat)
    ensures WithStatus(answers + [r], status) == WithStatus(answers, status) + if r.status == status then 1 else 0
  {
    assert (answers + [r])[..|answers|] == answers;
  }

  /** Over any run, acknowledgements grow by the creations and shrink by the deletions answered. */
  lemma {:induction false} AcksAreConserved(acks: AckStore, ops: seq<Operation>)
    ensures |Final(acks, ops)| + WithStatus(Answers(acks, ops), 204) == |acks| + WithStatus(Answers(acks, ops), 201)
  {
    if ops != [] {
      var n := |ops| - 1;
      AcksAreConserved(acks, ops[..n]);
      var before, answers := Final(acks, ops[..n]), Answers(acks, ops[..n]);
      StepIsConserved(before, ops[n]);
      WithStatusSnoc(answers, Step(before, ops[n]).1, 201);
      WithStatusSnoc(answers, Step(before, ops[n]).1, 204);
    }
  }

  // ---------- what acknowledgements hide ----------

  /** The aggregator's listing holds exactly the stored acknowledgements, in some order. */
  ghost predicate Lists(listing: seq<RuleAck>, acks: AckStore)
  {
    && (forall a :: a in listing ==> (a.ruleID, a.errorKey) in acks)
    && (forall rule :: rule in acks ==> RuleAck(rule.0, rule.1, acks[rule]) in listing)
  }

  /** The rule is acknowledged and has a composite ID. */
  predicate AckedRule(acks: AckStore, m: string, k: ErrorKey)
  {
    (m, k) in acks && ValidPart(m) && ValidPart(k)
  }

  /** The acknowledgement map holds a composite ID iff its rule is acknowledged and has that ID. */
  lemma AckMapHolds(listing: seq<RuleAck>, acks: AckStore, m: string, k: ErrorKey)
    requires Lists(listing, acks)
    ensures Composite(m, k) in AckMap(listing) <==> AckedRule(acks, m, k)
  {
    var id := Composite(m, k);
    if AckedRule(acks, m, k) {
      var a := RuleAck(m, k, acks[(m, k)]);
      assert a in listing && GenerateCompositeRuleID(a.ruleID, a.errorKey).Some?;
      assert id in AckedIDs(listing);
    }
    if id in AckedIDs(listing) {
      var a :| a in listing && GenerateCompositeRuleID(a.ruleID, a.errorKey).Some?
          && Composite(a.ruleID, a.errorKey) == id;
      CompositeUnique(m, k, a.ruleID, a.errorKey);
    }
  }

  /** The cluster list drops a hit of `m|k` because of acknowledgements iff (m, k) is acknowledged. */
  lemma ClusterListHides(listing: seq<RuleAck>, acks: AckStore, m: string, k: ErrorKey,
                         hits: seq<RuleID>, c: ClusterName, perCluster: map<ClusterName, seq<RuleID>>)
    requires Lists(listing, acks) && Composite(m, k) in hits && Composite(m, k) !in At(perCluster, c)
    ensures Composite(m, k) !in ClusterList.EnabledHits(hits, c, AckMap(listing), perCluster) <==> AckedRule(acks, m, k)
  {
    AckMapHolds(listing, acks, m, k);
  }

  /** The report hides a rule iff disabled rules are not requested and the rule is disabled on the cluster,
      or acknowledged under its module without `.report`. */
  lemma ReportHides(listing: seq<RuleAck>, acks: AckStore, s: Snapshot, q: Report.Query, rule: Report.RuleOnReport)
    requires Lists(listing, acks) && q.systemWide == AckMap(listing)
    ensures Report.FateOf(s, q, rule) == Report.Hidden
       <==> !q.getDisabled
            && (rule.disabled || AckedRule(acks, TrimSuffix(rule.ruleModule, DOT_REPORT), rule.errorKey))
  {
    AckMapHolds(listing, acks, TrimSuffix(rule.ruleModule, DOT_REPORT), rule.errorKey);
    assert Report.Selector(rule) in AckMap(listing) ==> AckMap(listing) != map[];
  }

  /** The request report has no entry of an acknowledged rule. */
  lemma RequestReportHides(listing: seq<RuleAck>, acks: AckStore, s: Snapshot, slow: set<nat>,
                           disabled: map<RuleID, bool>,
                           hits: seq<RuleID>, e: RequestReport.SimplifiedHit)
    requires Lists(listing, acks) && forall id :: id in hits ==> MatchesComposite(id)
    requires e in RequestReport.Simplified(s, slow, AckMap(listing), disabled, hits)
    ensures (e.ruleFQDN, e.errorKey) !in acks
  {
    RequestReport.EntriesNameTheirHits(s, slow, AckMap(listing), disabled, hits, e);
    var id := Composite(e.ruleFQDN, e.errorKey);
    AcceptorsAgree(id);
    EntryPartsValid(s, slow, AckMap(listing), disabled, hits, e);
    AckMapHolds(listing, acks, e.ruleFQDN, e.errorKey);
  }

  lemma {:induction false} EntryPartsValid(s: Snapshot, slow: set<nat>, acked: map<RuleID, bool>,
                                           disabled: map<RuleID, bool>,
                                           hits: seq<RuleID>, e: RequestReport.SimplifiedHit)
    requires forall id :: id in hits ==> MatchesComposite(id)
    requires e in RequestReport.Simplified(s, slow, acked, disabled, hits)
    ensures ValidPart(e.ruleFQDN) && ValidPart(e.errorKey)
  {
    var n := |hits| - 1;
    assert hits == hits[..n] + [hits[n]];
    if e in RequestReport.Simplified(s, slow, acked, disabled, hits[..n]) {
      EntryPartsValid(s, slow, acked, disabled, hits[..n], e);
    } else {
      AcceptorsAgree(hits[n]);
    }
  }

  /** A rule acknowledged by the last decisive request of a run is hidden from all three views. */
  lemma RunHidesAcknowledged(initial: AckStore, ops: seq<Operation>, listing: seq<RuleAck>, m: string, k: ErrorKey)
    requires Lists(listing, Final(initial, ops)) && ValidPart(m) && ValidPart(k)
    requires LifeOf(Lookup(initial, (m, k)), About(ops, (m, k))).Some?
    ensures forall hits, c, perCluster ::
              Composite(m, k) !in ClusterList.EnabledHits(hits, c, AckMap(listing), perCluster)
    ensures forall s: Snapshot, q: Report.Query, rule: Report.RuleOnReport ::
              q.systemWide == AckMap(listing) && !q.getDisabled
              && TrimSuffix(rule.ruleModule, DOT_REPORT) == m && rule.errorKey == k
              ==> Report.FateOf(s, q, rule) == Report.Hidden
    ensures forall s, slow, disabled, i :: !RequestReport.Shown(s, slow, AckMap(listing), disabled, i, Composite(m, k))
  {
    RunFollowsLives(initial, ops, (m, k));
    AckMapHolds(listing, Final(initial, ops), m, k);
    assert |AckMap(listing)| > 0;
  }
}
