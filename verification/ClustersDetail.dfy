/**
 Clusters-detail for one rule: `processClustersDetailResponse` divides the impacted clusters and the
 disable records into an enabled and a disabled list.
 */
module ClustersDetail {
  import opened Sequences
  import opened Identifiers
  import opened RuleContent
  import opened Clusters

  datatype Impacted = Impacted(cluster: ClusterName, name: string, lastSeen: string)

  datatype Disabled = Disabled(clusterID: ClusterName, clusterName: string, disabledAt: Time, justification: string)

  /** The rule's acknowledgement; its time stamp may fail to parse. */
  datatype Acknowledgement = Acknowledgement(createdAt: string, justification: string)

  datatype Detail = Detail(enabled: seq<Impacted>, disabled: seq<Disabled>)

  function NameOf(infoMap: map<ClusterName, ClusterInfo>, c: ClusterName): string
  {
    if c in infoMap then infoMap[c].displayName else ""
  }

  /** The disable records of active clusters, with display names filled in. */
  function ActiveRecords(infoMap: map<ClusterName, ClusterInfo>, records: seq<Disabled>): seq<Disabled>
  {
    if records == [] then [] else
      var before, d := ActiveRecords(infoMap, records[..|records| - 1]), records[|records| - 1];
      if d.clusterID in infoMap then before + [d.(clusterName := infoMap[d.clusterID].displayName)] else before
  }

  predicate Recorded(infoMap: map<ClusterName, ClusterInfo>, records: seq<Disabled>, c: ClusterName)
  {
    exists d :: d in ActiveRecords(infoMap, records) && d.clusterID == c
  }

  function FromAck(infoMap: map<ClusterName, ClusterInfo>, ack: Acknowledgement, parse: DateParser, i: Impacted)
    : Disabled
  {
    var at := parse(ack.createdAt);
    Disabled(i.cluster, NameOf(infoMap, i.cluster), if at.Some? then at.value else ZERO_TIME, ack.justification)
  }

  function Named(infoMap: map<ClusterName, ClusterInfo>, i: Impacted): Impacted
  {
    i.(name := NameOf(infoMap, i.cluster))
  }

  /** The impacted clusters no active record disables. */
  function Unrecorded(infoMap: map<ClusterName, ClusterInfo>, records: seq<Disabled>, impacted: seq<Impacted>)
    : seq<Impacted>
  {
    Filter(impacted, (i: Impacted) => !Recorded(infoMap, records, i.cluster))
  }

  function DetailOf(impacted: seq<Impacted>, records: seq<Disabled>, infos: seq<ClusterInfo>,
                    ack: Acknowledgement, acked: bool, parse: DateParser): Detail
  {
    var infoMap := InfoMap(infos);
    var rest := Unrecorded(infoMap, records, impacted);
    var byRecord := ActiveRecords(infoMap, records);
    if acked then Detail([], byRecord + Map(rest, i => FromAck(infoMap, ack, parse, i)))
    else Detail(Map(rest, i => Named(infoMap, i)), byRecord)
  }

  // ---------- the code ----------

  /** The clusters in `rest` are placed: disabled by the acknowledgement, or enabled. */
  ghost predicate Placed(infoMap: map<ClusterName, ClusterInfo>, rest: seq<Impacted>, ack: Acknowledgement, acked: bool,
                         parse: DateParser, enabled: seq<Impacted>, byAck: seq<Disabled>)
  {
    if acked then enabled == [] && byAck == Map(rest, i => FromAck(infoMap, ack, parse, i))
    else byAck == [] && enabled == Map(rest, i => Named(infoMap, i))
  }

  lemma PlacedSnoc(infoMap: map<ClusterName, ClusterInfo>, rest: seq<Impacted>, c: Impacted, ack: Acknowledgement,
                   acked: bool, parse: DateParser, enabled: seq<Impacted>, byAck: seq<Disabled>)
    requires Placed(infoMap, rest, ack, acked, parse, enabled, byAck)
    ensures acked ==>
              Placed(infoMap, rest + [c], ack, acked, parse, enabled, byAck + [FromAck(infoMap, ack, parse, c)])
    ensures !acked ==> Placed(infoMap, rest + [c], ack, acked, parse, enabled + [Named(infoMap, c)], byAck)
  {
    MapSnoc(rest, c, i => FromAck(infoMap, ack, parse, i));
    MapSnoc(rest, c, i => Named(infoMap, i));
  }

  method ProcessClustersDetailResponse(impacted: seq<Impacted>, records: seq<Disabled>, infos: seq<ClusterInfo>,
                                       ack: Acknowledgement, acked: bool, parse: DateParser) returns (data: Detail)
    ensures data == DetailOf(impacted, records, infos, ack, acked, parse)
  {
    var infoMap := ClusterInfoArrayToMap(infos);
    var disabledMap, byRecord := CollectRecords(infoMap, records);
    var enabled, byAck := PlaceImpacted(infoMap, disabledMap, impacted, ack, acked, parse, records);
    assert byRecord + [] == byRecord;
    data := Detail(enabled, byRecord + byAck);
  }

  lemma UnrecordedStep(infoMap: map<ClusterName, ClusterInfo>, records: seq<Disabled>, impacted: seq<Impacted>, i: nat)
    requires i < |impacted|
    ensures var before := Unrecorded(infoMap, records, impacted[..i]);
            Unrecorded(infoMap, records, impacted[..i + 1]) ==
            if Recorded(infoMap, records, impacted[i].cluster) then before else before + [impacted[i]]
  {
    FilterStep(impacted, i, (i: Impacted) => !Recorded(infoMap, records, i.cluster));
  }

  /** The loop over the impacted clusters. */
  method PlaceImpacted(infoMap: map<ClusterName, ClusterInfo>, disabledMap: map<ClusterName, Disabled>,
                       impacted: seq<Impacted>, ack: Acknowledgement, acked: bool, parse: DateParser,
                       ghost records: seq<Disabled>) returns (enabled: seq<Impacted>, byAck: seq<Disabled>)
    requires forall c :: c in disabledMap <==> Recorded(infoMap, records, c)
    ensures Placed(infoMap, Unrecorded(infoMap, records, impacted), ack, acked, parse, enabled, byAck)
  {
    enabled, byAck := [], [];
    ghost var rest := [];
    for i := 0 to |impacted|
      invariant rest == Unrecorded(infoMap, records, impacted[..i])
      invariant Placed(infoMap, rest, ack, acked, parse, enabled, byAck)
    {
      var c := impacted[i];
      UnrecordedStep(infoMap, records, impacted, i);
      if c.cluster in disabledMap {
        continue;
      }
      var name := if c.cluster in infoMap then infoMap[c.cluster].displayName else "";
      PlacedSnoc(infoMap, rest, c, ack, acked, parse, enabled, byAck);
      if acked {
        var at := parse(ack.createdAt);
        var disabledAt := if at.Some? then at.value else ZERO_TIME;
        byAck := byAck + [Disabled(c.cluster, name, disabledAt, ack.justification)];
      } else {
        enabled := enabled + [c.(name := name)];
      }
      rest := rest + [c];
    }
    assert impacted[..|impacted|] == impacted;
  }

  method CollectRecords(infoMap: map<ClusterName, ClusterInfo>, records: seq<Disabled>)
    returns (disabledMap: map<ClusterName, Disabled>, byRecord: seq<Disabled>)
    ensures byRecord == ActiveRecords(infoMap, records)
    ensures forall c :: c in disabledMap <==> Recorded(infoMap, records, c)
  {
    disabledMap, byRecord := map[], [];
    for i := 0 to |records|
      invariant byRecord == ActiveRecords(infoMap, records[..i])
      invariant forall c :: c in disabledMap <==> exists d :: d in byRecord && d.clusterID == c
    {
      assert records[..i + 1][..i] == records[..i];
      var d := records[i];
      if d.clusterID in infoMap {
        d := d.(clusterName := infoMap[d.clusterID].displayName);
        disabledMap := disabledMap[d.clusterID := d];
        byRecord := byRecord + [d];
      }
    }
    assert records[..|records|] == records;
  }

  // ---------- the partition ----------

  function EnabledTimes(data: Detail, c: ClusterName): nat
  {
    |Filter(data.enabled, (i: Impacted) => i.cluster == c)|
  }

  function DisabledTimes(data: Detail, c: ClusterName): nat
  {
    |Filter(data.disabled, (d: Disabled) => d.clusterID == c)|
  }

  function ImpactedTimes(impacted: seq<Impacted>, c: ClusterName): nat
  {
    |Filter(impacted, (i: Impacted) => i.cluster == c)|
  }

  function RecordTimes(records: seq<Disabled>, c: ClusterName): nat
  {
    |Filter(records, (d: Disabled) => d.clusterID == c)|
  }

  lemma {:induction false} ActiveRecordTimes(infoMap: map<ClusterName, ClusterInfo>, records: seq<Disabled>,
                                             c: ClusterName)
    ensures RecordTimes(ActiveRecords(infoMap, records), c) == if c in infoMap then RecordTimes(records, c) else 0
  {
    if records != [] {
      var init, d := records[..|records| - 1], records[|records| - 1];
      ActiveRecordTimes(infoMap, init, c);
      var before := ActiveRecords(infoMap, init);
      if d.clusterID in infoMap {
        var named := d.(clusterName := infoMap[d.clusterID].displayName);
        assert (before + [named])[..|before|] == before;
      }
    }
  }

  lemma RecordedIff(infoMap: map<ClusterName, ClusterInfo>, records: seq<Disabled>, c: ClusterName)
    ensures Recorded(infoMap, records, c) <==> c in infoMap && RecordTimes(records, c) > 0
  {
    ActiveRecordTimes(infoMap, records, c);
    var mine := Filter(ActiveRecords(infoMap, records), (d: Disabled) => d.clusterID == c);
    if d :| d in ActiveRecords(infoMap, records) && d.clusterID == c {
      assert d in mine;
    }
    if |mine| > 0 {
      assert mine[0] in ActiveRecords(infoMap, records) && mine[0].clusterID == c;
    }
  }

  lemma UnrecordedTimes(infoMap: map<ClusterName, ClusterInfo>, records: seq<Disabled>, impacted: seq<Impacted>,
                        c: ClusterName)
    ensures ImpactedTimes(Unrecorded(infoMap, records, impacted), c) ==
            if Recorded(infoMap, records, c) then 0 else ImpactedTimes(impacted, c)
  {
    FilterFilter(impacted, (i: Impacted) => !Recorded(infoMap, records, i.cluster), (i: Impacted) => i.cluster == c,
                 (i: Impacted) => !Recorded(infoMap, records, c) && i.cluster == c);
    if Recorded(infoMap, records, c) {
      FilterNone(impacted, (i: Impacted) => !Recorded(infoMap, records, c) && i.cluster == c);
    } else {
      FilterCongruent(impacted, (i: Impacted) => !Recorded(infoMap, records, c) && i.cluster == c,
                      (i: Impacted) => i.cluster == c);
    }
  }

  /** How often each cluster appears in each list, for any inputs: an active record beats the
      acknowledgement, and a record of an inactive cluster counts for nothing. */
  lemma DetailTimes(impacted: seq<Impacted>, records: seq<Disabled>, infos: seq<ClusterInfo>, ack: Acknowledgement,
                    acked: bool, parse: DateParser, c: ClusterName)
    ensures var data := DetailOf(impacted, records, infos, ack, acked, parse);
            var active, recorded := c in InfoMap(infos), c in InfoMap(infos) && RecordTimes(records, c) > 0;
            && EnabledTimes(data, c) == (if acked || recorded then 0 else ImpactedTimes(impacted, c))
            && DisabledTimes(data, c) == (if active then RecordTimes(records, c) else 0)
                                         + (if acked && !recorded then ImpactedTimes(impacted, c) else 0)
  {
    var infoMap := InfoMap(infos);
    var rest := Unrecorded(infoMap, records, impacted);
    RecordedIff(infoMap, records, c);
    ActiveRecordTimes(infoMap, records, c);
    UnrecordedTimes(infoMap, records, impacted, c);
    FilterMapLength(rest, i => Named(infoMap, i), (i: Impacted) => i.cluster == c, (i: Impacted) => i.cluster == c);
    FilterMapLength(rest, i => FromAck(infoMap, ack, parse, i), (i: Impacted) => i.cluster == c,
                    (d: Disabled) => d.clusterID == c);
    if acked {
      FilterAppend(ActiveRecords(infoMap, records), Map(rest, i => FromAck(infoMap, ack, parse, i)),
                   (d: Disabled) => d.clusterID == c);
    }
  }

  /** For duplicate-free inputs: every impacted cluster is listed exactly once, in one of the lists;
      an acknowledged rule leaves nothing enabled. */
  lemma DetailPartition(impacted: seq<Impacted>, records: seq<Disabled>, infos: seq<ClusterInfo>, ack: Acknowledgement,
                        acked: bool, parse: DateParser, c: ClusterName)
    requires ImpactedTimes(impacted, c) <= 1 && RecordTimes(records, c) <= 1
    ensures var data := DetailOf(impacted, records, infos, ack, acked, parse);
            && EnabledTimes(data, c) + DisabledTimes(data, c) <= 1
            && (ImpactedTimes(impacted, c) == 1 ==> EnabledTimes(data, c) + DisabledTimes(data, c) == 1)
            && (acked ==> data.enabled == [])
            && (EnabledTimes(data, c) == 1 <==>
                  ImpactedTimes(impacted, c) == 1 && !acked && !(c in InfoMap(infos) && RecordTimes(records, c) == 1))
  {
    DetailTimes(impacted, records, infos, ack, acked, parse, c);
  }

  /** An active record wins over the acknowledgement: it is what the disabled list shows. */
  lemma RecordWins(infos: seq<ClusterInfo>, records: seq<Disabled>, d: Disabled)
    requires d in records && d.clusterID in InfoMap(infos)
    ensures forall impacted, ack, acked, parse ::
              d.(clusterName := InfoMap(infos)[d.clusterID].displayName)
              in DetailOf(impacted, records, infos, ack, acked, parse).disabled
  {
    ActiveRecordKept(InfoMap(infos), records, d);
  }

  lemma {:induction false} ActiveRecordKept(infoMap: map<ClusterName, ClusterInfo>, records: seq<Disabled>, d: Disabled)
    requires d in records && d.clusterID in infoMap
    ensures d.(clusterName := infoMap[d.clusterID].displayName) in ActiveRecords(infoMap, records)
  {
    var init, last := records[..|records| - 1], records[|records| - 1];
    assert records == init + [last];
    if d != last {
      ActiveRecordKept(infoMap, init, d);
    }
  }

  lemma {:induction false} InactiveRecordsVanish(infoMap: map<ClusterName, ClusterInfo>, records: seq<Disabled>)
    ensures ActiveRecords(infoMap, records) ==
              ActiveRecords(infoMap, Filter(records, (d: Disabled) => d.clusterID in infoMap))
  {
    if records != [] {
      var init, last := records[..|records| - 1], records[|records| - 1];
      InactiveRecordsVanish(infoMap, init);
      var kept := Filter(init, (d: Disabled) => d.clusterID in infoMap);
      assert (kept + [last])[..|kept|] == kept;
    }
  }

  /** A disable of an inactive cluster has no effect: dropping all such records changes nothing. */
  lemma InactiveRecordsHaveNoEffect(impacted: seq<Impacted>, records: seq<Disabled>, infos: seq<ClusterInfo>,
                                    ack: Acknowledgement, acked: bool, parse: DateParser)
    ensures DetailOf(impacted, records, infos, ack, acked, parse) ==
            DetailOf(impacted, Filter(records, (d: Disabled) => d.clusterID in InfoMap(infos)),
                     infos, ack, acked, parse)
  {
    var infoMap := InfoMap(infos);
    var active := Filter(records, (d: Disabled) => d.clusterID in infoMap);
    InactiveRecordsVanish(infoMap, records);
    FilterCongruent(impacted, (i: Impacted) => !Recorded(infoMap, records, i.cluster),
                    (i: Impacted) => !Recorded(infoMap, active, i.cluster));
  }

  // ---------- what the lists show ----------

  /** The record as shown: with the display name of its cluster, otherwise unchanged. */
  predicate ShowsRecord(shown: Disabled, d: Disabled, infoMap: map<ClusterName, ClusterInfo>)
  {
    && d.clusterID in infoMap && shown.clusterID == d.clusterID
    && shown.clusterName == infoMap[d.clusterID].displayName
    && shown.disabledAt == d.disabledAt && shown.justification == d.justification
  }

  lemma {:induction false} ActiveRecordsAt(infoMap: map<ClusterName, ClusterInfo>, records: seq<Disabled>)
    ensures var active := Filter(records, (d: Disabled) => d.clusterID in infoMap);
            && |ActiveRecords(infoMap, records)| == |active|
            && forall j :: 0 <= j < |active| ==> ShowsRecord(ActiveRecords(infoMap, records)[j], active[j], infoMap)
  {
    if records != [] {
      ActiveRecordsAt(infoMap, records[..|records| - 1]);
    }
  }

  /** The display name AMS gives a cluster; unknown clusters have none. */
  predicate HasName(name: string, c: ClusterName, infoMap: map<ClusterName, ClusterInfo>)
  {
    (c in infoMap ==> name == infoMap[c].displayName) && (c !in infoMap ==> name == "")
  }

  /** The impacted cluster is disabled by a record of an active cluster. */
  ghost predicate ByRecord(infoMap: map<ClusterName, ClusterInfo>, records: seq<Disabled>, c: ClusterName)
  {
    c in infoMap && exists d :: d in records && d.clusterID == c
  }

  lemma RecordedIffByRecord(infoMap: map<ClusterName, ClusterInfo>, records: seq<Disabled>, c: ClusterName)
    ensures Recorded(infoMap, records, c) <==> ByRecord(infoMap, records, c)
  {
    RecordedIff(infoMap, records, c);
    var mine := Filter(records, (d: Disabled) => d.clusterID == c);
    if |mine| > 0 {
      assert mine[0] in records && mine[0].clusterID == c;
    }
    if d :| d in records && d.clusterID == c {
      assert d in mine;
    }
  }

  /** The impacted cluster as shown: with its display name. */
  predicate ShowsImpacted(shown: Impacted, i: Impacted, infoMap: map<ClusterName, ClusterInfo>)
  {
    shown.cluster == i.cluster && shown.lastSeen == i.lastSeen && HasName(shown.name, i.cluster, infoMap)
  }

  /** The impacted cluster as disabled by the acknowledgement. */
  predicate ShowsAcked(shown: Disabled, i: Impacted, infoMap: map<ClusterName, ClusterInfo>, ack: Acknowledgement,
                       parse: DateParser)
  {
    && shown.clusterID == i.cluster && HasName(shown.clusterName, i.cluster, infoMap)
    && shown.justification == ack.justification
    && shown.disabledAt == match parse(ack.createdAt) case Some(at) => at case None => ZERO_TIME
  }

  lemma UnrecordedAre(infoMap: map<ClusterName, ClusterInfo>, records: seq<Disabled>, impacted: seq<Impacted>)
    ensures Unrecorded(infoMap, records, impacted) ==
            Filter(impacted, (i: Impacted) => !ByRecord(infoMap, records, i.cluster))
  {
    forall i | i in impacted ensures Recorded(infoMap, records, i.cluster) <==> ByRecord(infoMap, records, i.cluster) {
      RecordedIffByRecord(infoMap, records, i.cluster);
    }
    FilterCongruent(impacted, (i: Impacted) => !Recorded(infoMap, records, i.cluster),
                    (i: Impacted) => !ByRecord(infoMap, records, i.cluster));
  }

  lemma RestShown(infoMap: map<ClusterName, ClusterInfo>, rest: seq<Impacted>, ack: Acknowledgement, parse: DateParser)
    ensures forall j :: 0 <= j < |rest| ==> ShowsImpacted(Map(rest, i => Named(infoMap, i))[j], rest[j], infoMap)
    ensures forall j :: 0 <= j < |rest| ==>
              ShowsAcked(Map(rest, i => FromAck(infoMap, ack, parse, i))[j], rest[j], infoMap, ack, parse)
  {
  }

  /** Both lists, entry by entry: the records of active clusters in order; then the impacted clusters no
      such record disables, in order, with the acknowledgement's time and justification if the rule is
      acknowledged and as enabled otherwise. */
  lemma DetailIsExact(impacted: seq<Impacted>, records: seq<Disabled>, infos: seq<ClusterInfo>,
                      ack: Acknowledgement, acked: bool, parse: DateParser)
    ensures var data, infoMap := DetailOf(impacted, records, infos, ack, acked, parse), InfoMap(infos);
            var active := Filter(records, (d: Disabled) => d.clusterID in infoMap);
            var rest := Filter(impacted, (i: Impacted) => !ByRecord(infoMap, records, i.cluster));
            && |data.enabled| == (if acked then 0 else |rest|)
            && |data.disabled| == |active| + (if acked then |rest| else 0)
            && (forall j :: 0 <= j < |active| ==> ShowsRecord(data.disabled[j], active[j], infoMap))
            && (!acked ==> forall j :: 0 <= j < |rest| ==> ShowsImpacted(data.enabled[j], rest[j], infoMap))
            && (acked ==> forall j :: 0 <= j < |rest| ==>
                  ShowsAcked(data.disabled[|active| + j], rest[j], infoMap, ack, parse))
  {
    var infoMap := InfoMap(infos);
    var rest := Unrecorded(infoMap, records, impacted);
    ActiveRecordsAt(infoMap, records);
    UnrecordedAre(infoMap, records, impacted);
    RestShown(infoMap, rest, ack, parse);
    if acked {
      var byRecord, byAck := ActiveRecords(infoMap, records), Map(rest, i => FromAck(infoMap, ack, parse, i));
      assert forall j :: 0 <= j < |byAck| ==> (byRecord + byAck)[|byRecord| + j] == byAck[j];
    }
  }
}
