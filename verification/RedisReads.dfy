/**
 Redis reads: the key formats, the SCAN loop over request keys, the pipelined status lookup and the
 rule-hit CSV.
 */
module RedisReads {
  import opened Sequences
  import opened Identifiers

  type RequestID = string

  // ---------- keys ----------

  /** Everything of a request key before its last separator. */
  function KeyStem(org: string, cluster: ClusterName): string
  {
    "organization:" + org + ":cluster:" + cluster + ":request"
  }

  /** `RequestIDCheck`. */
  function RequestKey(org: string, cluster: ClusterName, id: RequestID): string
  {
    KeyStem(org, cluster) + ":" + id
  }

  /** `SimplifiedReportKey`. */
  function ReportKey(org: string, cluster: ClusterName, id: RequestID): string
  {
    RequestKey(org, cluster, id) + ":reports"
  }

  /** What the SCAN loop makes of one key. */
  function ListedID(key: string): Option<RequestID>
  {
    if HasSuffix(key, ":reports") then None else
      var parts := Split(key, ':');
      Some(parts[|parts| - 1])
  }

  lemma ReportsSuffix(stem: string, id: RequestID)
    requires ':' !in id
    ensures HasSuffix(stem + ":" + id, ":reports") <==> id == "reports"
  {
    var key, suffix := stem + ":" + id, ":reports";
    assert suffix == ":" + "reports";
    assert key[|stem|] == ':' && forall i :: |stem| < i < |key| ==> key[i] == id[i - |stem| - 1];
    if HasSuffix(key, suffix) {
      var start := |key| - |suffix|;
      assert forall i :: 0 <= i < |suffix| ==> key[start + i] == suffix[i];
      assert start <= |stem| ==> suffix[|stem| - start] == ':';
      assert id == key[|stem| + 1..] && key[start..][1..] == "reports";
    }
    if id == "reports" {
      assert key == stem + suffix;
    }
  }

  /** A request key lists its own ID, except that the ID `reports` is taken for a report key. */
  lemma RequestKeyListed(org: string, cluster: ClusterName, id: RequestID)
    requires ':' !in id
    ensures ListedID(RequestKey(org, cluster, id)) == if id == "reports" then None else Some(id)
  {
    ReportsSuffix(KeyStem(org, cluster), id);
    SplitLast(KeyStem(org, cluster), ':', id);
    assert RequestKey(org, cluster, id) == KeyStem(org, cluster) + [':'] + id;
  }

  /** Requests may carry that ID: the validator accepts it, and the scan then passes the request over. */
  lemma ReportsIsPassedOver(org: string, cluster: ClusterName)
    ensures ValidRequestID("reports") && ListedID(RequestKey(org, cluster, "reports")).None?
  {
    RequestKeyListed(org, cluster, "reports");
  }

  /** A report key is never listed as a request. */
  lemma ReportKeyNotListed(org: string, cluster: ClusterName, id: RequestID)
    ensures ListedID(ReportKey(org, cluster, id)).None?
  {
    var key := ReportKey(org, cluster, id);
    assert key[|key| - |":reports"|..] == ":reports";
  }

  /** For any key the scan pattern matches, rebuilding the existence key from the listed ID gives the
      scanned key iff what follows the pattern's prefix has no separator. */
  lemma RebuiltKeyIff(org: string, cluster: ClusterName, tail: string)
    requires ListedID(RequestKey(org, cluster, tail)).Some?
    ensures RequestKey(org, cluster, ListedID(RequestKey(org, cluster, tail)).value) == RequestKey(org, cluster, tail)
       <==> ':' !in tail
  {
    var key := RequestKey(org, cluster, tail);
    var id := ListedID(key).value;
    JoinAfterSplit(key, ':');
    SplitPartsAreClean(key, ':');
    assert ':' !in id;
    if ':' !in tail {
      RequestKeyListed(org, cluster, tail);
    }
    assert key[|KeyStem(org, cluster)| + 1..] == tail;
    assert RequestKey(org, cluster, id)[|KeyStem(org, cluster)| + 1..] == id;
  }

  /** Six parts joined by colons, grouped to the right. */
  function SixParts(a: string, b: string, c: string, d: string, e: string, f: string): string
  {
    a + [':'] + (b + [':'] + (c + [':'] + (d + [':'] + (e + [':'] + f))))
  }

  lemma SplitTwoParts(a: string, b: string, rest: string)
    requires ':' !in a && ':' !in b
    ensures Split(a + [':'] + (b + [':'] + rest), ':') == [a, b] + Split(rest, ':')
  {
    SplitPrefix(b, rest, ':');
    SplitPrefix(a, b + [':'] + rest, ':');
    assert [a] + ([b] + Split(rest, ':')) == [a, b] + Split(rest, ':');
  }

  lemma SplitSixParts(a: string, b: string, c: string, d: string, e: string, f: string)
    requires ':' !in a && ':' !in b && ':' !in c && ':' !in d && ':' !in e && ':' !in f
    ensures Split(SixParts(a, b, c, d, e, f), ':') == [a, b, c, d, e, f]
  {
    var last := e + [':'] + f;
    SplitPrefix(e, f, ':');
    assert Split(last, ':') == [e, f];
    SplitTwoParts(c, d, last);
    SplitTwoParts(a, b, c + [':'] + (d + [':'] + last));
  }

  lemma RequestKeyIsSixParts(org: string, cluster: ClusterName, id: RequestID)
    ensures RequestKey(org, cluster, id) == SixParts("organization", org, "cluster", cluster, "request", id)
  {
  }

  lemma RequestKeyParts(org: string, cluster: ClusterName, id: RequestID)
    requires ':' !in org && ':' !in cluster && ':' !in id
    ensures Split(RequestKey(org, cluster, id), ':') == ["organization", org, "cluster", cluster, "request", id]
  {
    RequestKeyIsSixParts(org, cluster, id);
    SplitSixParts("organization", org, "cluster", cluster, "request", id);
  }

  /** Keys name their organisation, cluster and request: different triples have different keys. */
  lemma KeysDiffer(org: string, cluster: ClusterName, id: RequestID,
                   org': string, cluster': ClusterName, id': RequestID)
    requires ':' !in org && ':' !in cluster && ':' !in id && ':' !in org' && ':' !in cluster' && ':' !in id'
    ensures RequestKey(org, cluster, id) == RequestKey(org', cluster', id')
       <==> (org, cluster, id) == (org', cluster', id')
    ensures ReportKey(org, cluster, id) == ReportKey(org', cluster', id')
       <==> (org, cluster, id) == (org', cluster', id')
  {
    var a, b := RequestKey(org, cluster, id), RequestKey(org', cluster', id');
    if a == b {
      RequestKeyParts(org, cluster, id);
      RequestKeyParts(org', cluster', id');
      var parts := Split(a, ':');
      assert parts[1] == org == org' && parts[3] == cluster == cluster' && parts[5] == id == id';
    }
    if a + ":reports" == b + ":reports" {
      assert a == (a + ":reports")[..|a|] && b == (b + ":reports")[..|b|];
    }
  }

  lemma ValidIDHasNoColon(id: RequestID)
    requires ValidRequestID(id)
    ensures ':' !in id
  {
    assert !IdChar(':');
  }

  // ---------- the SCAN loop ----------

  /** One SCAN reply: a batch with its next cursor, or a failure. */
  datatype Scan = Batch(keys: seq<string>, cursor: nat) | ScanFailed

  function ListedIDs(keys: seq<string>): seq<RequestID>
  {
    if keys == [] then [] else
      match ListedID(keys[|keys| - 1])
      case None => ListedIDs(keys[..|keys| - 1])
      case Some(id) => ListedIDs(keys[..|keys| - 1]) + [id]
  }

  predicate LastScan(s: Scan)
  {
    s.ScanFailed? || s.cursor == 0
  }

  ghost predicate Ends(scans: seq<Scan>)
  {
    exists i :: 0 <= i < |scans| && LastScan(scans[i])
  }

  /** All keys up to the end of the iteration; None if a reply failed. */
  function KeysScanned(scans: seq<Scan>): Option<seq<string>>
  {
    if scans == [] || scans[0].ScanFailed? then None
    else if scans[0].cursor == 0 then Some(scans[0].keys)
    else Prepend(scans[0].keys, KeysScanned(scans[1..]))
  }

  function Prepend(done: seq<string>, rest: Option<seq<string>>): Option<seq<string>>
  {
    if rest.None? then None else Some(done + rest.value)
  }

  lemma PrependTwice(a: seq<string>, b: seq<string>, rest: Option<seq<string>>)
    ensures Prepend([], rest) == rest
    ensures Prepend(a, Prepend(b, rest)) == Prepend(a + b, rest)
  {
    if rest.Some? {
      assert [] + rest.value == rest.value && a + (b + rest.value) == a + b + rest.value;
    }
  }

  function KeysIn(s: Scan): seq<string>
  {
    if s.Batch? then s.keys else []
  }

  /** However the server batches the iteration, the keys scanned are all batches in order. */
  lemma {:induction false} BatchingIrrelevant(scans: seq<Scan>)
    requires scans != [] && scans[|scans| - 1].Batch? && scans[|scans| - 1].cursor == 0
    requires forall i :: 0 <= i < |scans| - 1 ==> scans[i].Batch? && scans[i].cursor != 0
    ensures KeysScanned(scans) == Some(Flatten(Map(scans, KeysIn)))
  {
    var keys := Map(scans, KeysIn);
    FlattenHead(keys);
    if |scans| == 1 {
      assert keys[1..] == [] && scans[0].keys + [] == scans[0].keys;
    } else {
      BatchingIrrelevant(scans[1..]);
      assert keys[1..] == Map(scans[1..], KeysIn);
    }
  }

  /** Reply `i` fails, and no earlier one ends the iteration. */
  ghost predicate FailsAt(scans: seq<Scan>, i: int)
  {
    0 <= i < |scans| && scans[i].ScanFailed? && forall j :: 0 <= j < i ==> scans[j].Batch? && scans[j].cursor != 0
  }

  lemma FailsLater(scans: seq<Scan>, i: int)
    requires scans != [] && !LastScan(scans[0])
    ensures FailsAt(scans, i) <==> FailsAt(scans[1..], i - 1)
  {
    var rest := scans[1..];
    assert forall j :: 0 <= j < |rest| ==> rest[j] == scans[j + 1];
    if FailsAt(rest, i - 1) {
      forall j | 0 <= j < i ensures scans[j].Batch? && scans[j].cursor != 0 {
        assert j > 0 ==> scans[j] == rest[j - 1];
      }
    }
  }

  /** The scan fails iff a reply fails before the one that ends the iteration. */
  lemma {:induction false} ScanFailsIff(scans: seq<Scan>)
    requires Ends(scans)
    ensures KeysScanned(scans).None? <==> exists i :: FailsAt(scans, i)
  {
    if LastScan(scans[0]) {
      assert scans[0].ScanFailed? ==> FailsAt(scans, 0);
    } else {
      assert scans[0..] == scans;
      EndsLater(scans, 0);
      ScanFailsIff(scans[1..]);
      forall i ensures FailsAt(scans, i) <==> FailsAt(scans[1..], i - 1) {
        FailsLater(scans, i);
      }
      if i :| FailsAt(scans[1..], i) {
        assert FailsAt(scans, i + 1);
      }
    }
  }

  method GetRequestIDsForClusterID(scans: seq<Scan>) returns (ids: Option<seq<RequestID>>)
    requires Ends(scans)
    ensures ids.Some? <==> KeysScanned(scans).Some?
    ensures ids.Some? ==> ids.value == ListedIDs(KeysScanned(scans).value)
  {
    var list, n := [], 0;
    ghost var done := [];
    assert scans[0..] == scans;
    PrependTwice([], [], KeysScanned(scans));
    while true
      invariant 0 <= n < |scans| && Ends(scans[n..])
      invariant list == ListedIDs(done)
      invariant KeysScanned(scans) == Prepend(done, KeysScanned(scans[n..]))
      decreases |scans| - n
    {
      assert scans[n..][1..] == scans[n + 1..];
      if scans[n].ScanFailed? {
        return None;
      }
      list := ListBatch(scans[n].keys, list, done);
      if scans[n].cursor == 0 {
        return Some(list);
      }
      PrependTwice(done, scans[n].keys, KeysScanned(scans[n + 1..]));
      done := done + scans[n].keys;
      EndsLater(scans, n);
      n := n + 1;
    }
  }

  lemma EndsLater(scans: seq<Scan>, n: nat)
    requires n < |scans| && Ends(scans[n..]) && !LastScan(scans[n])
    ensures n + 1 < |scans| && Ends(scans[n + 1..])
  {
    var i :| 0 <= i < |scans[n..]| && LastScan(scans[n..][i]);
    assert scans[n + 1..][i - 1] == scans[n..][i];
  }

  lemma ListedIDsSnoc(keys: seq<string>, key: string)
    ensures ListedIDs(keys + [key]) ==
            if ListedID(key).None? then ListedIDs(keys) else ListedIDs(keys) + [ListedID(key).value]
  {
    assert (keys + [key])[..|keys|] == keys;
  }

  method ListBatch(keys: seq<string>, list: seq<RequestID>, ghost done: seq<string>) returns (list': seq<RequestID>)
    requires list == ListedIDs(done)
    ensures list' == ListedIDs(done + keys)
  {
    list' := list;
    ghost var read := done;
    for i := 0 to |keys|
      invariant read == done + keys[..i] && list' == ListedIDs(read)
    {
      ListedIDsSnoc(read, keys[i]);
      PrefixSnoc(done, keys, i);
      read := read + [keys[i]];
      if HasSuffix(keys[i], ":reports") {
        continue;
      }
      var parts := Split(keys[i], ':');
      list' := list' + [parts[|parts| - 1]];
    }
    assert keys[..|keys|] == keys;
  }

  /** A stored key of one cluster: a request marker or a report. */
  datatype StoredKey = RequestEntry(id: RequestID) | ReportEntry(id: RequestID)

  function KeyOf(org: string, cluster: ClusterName, k: StoredKey): string
  {
    match k
    case RequestEntry(id) => RequestKey(org, cluster, id)
    case ReportEntry(id) => ReportKey(org, cluster, id)
  }

  predicate IsRequest(k: StoredKey)
  {
    k.RequestEntry? && k.id != "reports"
  }

  /** Scanning a cluster's keys lists exactly the IDs of its request markers, in scan order. */
  lemma {:induction false} ScanListsRequests(org: string, cluster: ClusterName, stored: seq<StoredKey>)
    requires forall k :: k in stored ==> ValidRequestID(k.id)
    ensures ListedIDs(Map(stored, k => KeyOf(org, cluster, k))) ==
              Map(Filter(stored, IsRequest), (k: StoredKey) => k.id)
  {
    if stored != [] {
      var init, last := stored[..|stored| - 1], stored[|stored| - 1];
      assert stored == init + [last];
      ScanListsRequests(org, cluster, init);
      var keys := Map(stored, k => KeyOf(org, cluster, k));
      assert keys[..|keys| - 1] == Map(init, k => KeyOf(org, cluster, k));
      ValidIDHasNoColon(last.id);
      RequestKeyListed(org, cluster, last.id);
      ReportKeyNotListed(org, cluster, last.id);
      MapSnoc(Filter(init, IsRequest), last, (k: StoredKey) => k.id);
    }
  }

  // ---------- the pipelined status lookup ----------

  /** A hash read by HMGET; a missing key reads as empty fields. */
  datatype Reply = Fields(requestID: string, received: string, processed: string) | ReplyError

  datatype RequestStatus = RequestStatus(requestID: string, valid: bool, received: string, processed: string)

  type Store = string -> Reply

  predicate Found(reply: Reply)
  {
    reply.Fields? && reply.requestID != ""
  }

  function StatusOf(id: RequestID, reply: Reply): RequestStatus
    requires reply.Fields?
  {
    RequestStatus(if Found(reply) then reply.requestID else id, Found(reply), reply.received, reply.processed)
  }

  /** The statuses of the listed requests; None if a reply cannot be read. */
  function Statuses(org: string, cluster: ClusterName, ids: seq<RequestID>, store: Store, omitMissing: bool)
    : Option<seq<RequestStatus>>
  {
    if ids == [] then Some([]) else
      var id := ids[|ids| - 1];
      var reply := store(ReportKey(org, cluster, id));
      match Statuses(org, cluster, ids[..|ids| - 1], store, omitMissing)
      case None => None
      case Some(before) =>
        if reply.ReplyError? then None
        else if omitMissing && !Found(reply) then Some(before)
        else Some(before + [StatusOf(id, reply)])
  }

  lemma StatusesStep(org: string, cluster: ClusterName, ids: seq<RequestID>, i: nat, store: Store, omitMissing: bool)
    requires i < |ids| && Statuses(org, cluster, ids[..i], store, omitMissing).Some?
    ensures var before := Statuses(org, cluster, ids[..i], store, omitMissing).value;
            var reply := store(ReportKey(org, cluster, ids[i]));
            Statuses(org, cluster, ids[..i + 1], store, omitMissing) ==
            if reply.ReplyError? then None
            else if omitMissing && !Found(reply) then Some(before)
            else Some(before + [StatusOf(ids[i], reply)])
  {
    assert ids[..i + 1][..i] == ids[..i];
  }

  /** `piped` is whether the pipeline as a whole was executed. */
  method GetTimestampsForRequestIDs(org: string, cluster: ClusterName, ids: seq<RequestID>, store: Store,
                                    piped: bool, omitMissing: bool)
    returns (statuses: Option<seq<RequestStatus>>)
    ensures statuses == if piped then Statuses(org, cluster, ids, store, omitMissing) else None
  {
    var keys := new string[|ids|](_ => "");
    for i := 0 to |ids|
      invariant forall j :: 0 <= j < i ==> keys[j] == ReportKey(org, cluster, ids[j])
    {
      keys[i] := ReportKey(org, cluster, ids[i]);
    }
    if !piped {
      return None;
    }
    var list := [];
    for i := 0 to |ids|
      invariant forall j :: 0 <= j < |ids| ==> keys[j] == ReportKey(org, cluster, ids[j])
      invariant Statuses(org, cluster, ids[..i], store, omitMissing) == Some(list)
    {
      var reply := store(keys[i]);
      StatusesStep(org, cluster, ids, i, store, omitMissing);
      if reply.ReplyError? {
        FailureStays(org, cluster, ids, i + 1, store, omitMissing);
        return None;
      }
      if reply.requestID == "" {
        if omitMissing {
          continue;
        }
        list := list + [RequestStatus(ids[i], false, reply.received, reply.processed)];
      } else {
        list := list + [RequestStatus(reply.requestID, true, reply.received, reply.processed)];
      }
    }
    assert ids[..|ids|] == ids;
    return Some(list);
  }

  lemma {:induction false} FailureStays(org: string, cluster: ClusterName, ids: seq<RequestID>, n: nat, store: Store,
                                        omitMissing: bool)
    requires n <= |ids| && Statuses(org, cluster, ids[..n], store, omitMissing).None?
    ensures Statuses(org, cluster, ids, store, omitMissing).None?
  {
    if n == |ids| {
      assert ids[..n] == ids;
    } else {
      assert ids[..|ids| - 1][..n] == ids[..n];
      FailureStays(org, cluster, ids[..|ids| - 1], n, store, omitMissing);
    }
  }

  /** The lookup fails iff some reply cannot be read. */
  lemma {:induction false} StatusesFailIff(org: string, cluster: ClusterName, ids: seq<RequestID>, store: Store,
                                           omitMissing: bool)
    ensures Statuses(org, cluster, ids, store, omitMissing).None?
       <==> exists id :: id in ids && store(ReportKey(org, cluster, id)).ReplyError?
  {
    if ids != [] {
      var init, last := ids[..|ids| - 1], ids[|ids| - 1];
      assert ids == init + [last];
      StatusesFailIff(org, cluster, init, store, omitMissing);
    }
  }

  predicate IsValid(s: RequestStatus)
  {
    s.valid
  }

  /** Omitting missing requests is exactly filtering the full answer, and both fail together. */
  lemma {:induction false} OmittingIsFiltering(org: string, cluster: ClusterName, ids: seq<RequestID>, store: Store)
    ensures var full, short := Statuses(org, cluster, ids, store, false), Statuses(org, cluster, ids, store, true);
            && (full.Some? <==> short.Some?)
            && (full.Some? ==> short.value == Filter(full.value, IsValid))
  {
    if ids != [] {
      OmittingIsFiltering(org, cluster, ids[..|ids| - 1], store);
      var full := Statuses(org, cluster, ids, store, false);
      if full.Some? {
        var before := Statuses(org, cluster, ids[..|ids| - 1], store, false).value;
        assert full.value[..|before|] == before;
      }
    }
  }

  /** The full answer has one entry per requested ID and names the requested ID where data is missing. */
  lemma {:induction false} FullAnswerIsPositional(org: string, cluster: ClusterName, ids: seq<RequestID>, store: Store,
                                                  i: nat)
    requires Statuses(org, cluster, ids, store, false).Some? && i < |ids|
    ensures var full := Statuses(org, cluster, ids, store, false).value;
            var reply := store(ReportKey(org, cluster, ids[i]));
            && |full| == |ids| && reply.Fields?
            && (full[i].valid <==> reply.requestID != "")
            && full[i].requestID == (if reply.requestID != "" then reply.requestID else ids[i])
            && full[i].received == reply.received && full[i].processed == reply.processed
  {
    var n := |ids| - 1;
    if n > 0 {
      FullAnswerIsPositional(org, cluster, ids[..n], store, if i < n then i else 0);
      assert i < n ==> ids[..n][i] == ids[i];
    } else {
      assert ids[..n] == [];
    }
  }

  // ---------- the rule-hit CSV ----------

  method ReadRuleHits(csv: string) returns (hits: seq<RuleID>)
    ensures hits == Filter(Split(csv, ','), MatchesComposite)
  {
    var parts := Split(csv, ',');
    hits := [];
    for i := 0 to |parts|
      invariant hits == Filter(parts[..i], MatchesComposite)
    {
      assert parts[..i + 1][..i] == parts[..i];
      var valid := MatchesComposite(parts[i]);
      if parts[i] == "" {
        continue;
      }
      if !valid {
        continue;
      }
      hits := hits + [parts[i]];
    }
    assert parts[..|parts|] == parts;
  }

  /** Reading the comma-join of valid IDs gives back the list, also when it is empty. */
  lemma CsvRoundTrip(ids: seq<RuleID>)
    requires forall id :: id in ids ==> MatchesComposite(id)
    ensures Filter(Split(Join(ids, ','), ','), MatchesComposite) == ids
  {
    if ids == [] {
      assert Split("", ',') == [""] && [""][..0] == [];
      assert !MatchesComposite("");
    } else {
      forall id | id in ids ensures ',' !in id {
        AcceptorsAgree(id);
        var m, k :| GenerateCompositeRuleID(m, k) == Some(id);
        ValidPartHasNoBar(m);
        ValidPartHasNoBar(k);
      }
      SplitAfterJoin(ids, ',');
      FilterAll(ids, MatchesComposite);
    }
  }

  /** Every hit read from Redis parses, so the parse when building the request report cannot fail. */
  lemma HitsFromRedisParse(csv: string, id: RuleID)
    requires id in Filter(Split(csv, ','), MatchesComposite)
    ensures ParseComposite(id).Some? && Composite(ParseComposite(id).value.0, ParseComposite(id).value.1) == id
  {
    AcceptorsAgree(id);
    ParsePrintRoundTrip(id, ParseComposite(id).value.0, ParseComposite(id).value.1);
  }
}
