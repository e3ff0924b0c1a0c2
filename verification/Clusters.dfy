/**
 Cluster records from AMS and the two conversions of `types/operations.go`.
 */
module Clusters {
  import opened Sequences
  import opened Identifiers

  datatype ClusterInfo = ClusterInfo(id: ClusterName, displayName: string, managed: bool, status: string)

  function NamesOf(infos: seq<ClusterInfo>): seq<ClusterName>
  {
    Map(infos, (info: ClusterInfo) => info.id)
  }

  method GetClusterNames(infos: seq<ClusterInfo>) returns (names: array<ClusterName>)
    ensures fresh(names) && names[..] == NamesOf(infos)
    ensures names.Length == |infos| && forall i :: 0 <= i < |infos| ==> names[i] == infos[i].id
  {
    names := new ClusterName[|infos|](_ => "");
    for i := 0 to |infos|
      invariant names[..i] == NamesOf(infos)[..i]
    {
      names[i] := infos[i].id;
    }
  }

  /** The map keeps the last record of each ID. */
  function InfoMap(infos: seq<ClusterInfo>): map<ClusterName, ClusterInfo>
  {
    if infos == [] then map[] else InfoMap(infos[..|infos| - 1])[infos[|infos| - 1].id := infos[|infos| - 1]]
  }

  method ClusterInfoArrayToMap(infos: seq<ClusterInfo>) returns (m: map<ClusterName, ClusterInfo>)
    ensures m == InfoMap(infos)
  {
    m := map[];
    for i := 0 to |infos|
      invariant m == InfoMap(infos[..i])
    {
      assert infos[..i + 1][..i] == infos[..i];
      m := m[infos[i].id := infos[i]];
    }
    assert infos[..|infos|] == infos;
  }

  ghost predicate DistinctIDs(infos: seq<ClusterInfo>)
  {
    forall i, j :: 0 <= i < j < |infos| ==> infos[i].id != infos[j].id
  }

  lemma {:induction false} InfoMapKeys(infos: seq<ClusterInfo>)
    ensures forall c :: c in InfoMap(infos) <==> c in NamesOf(infos)
    ensures forall c :: c in InfoMap(infos) ==> InfoMap(infos)[c] in infos && InfoMap(infos)[c].id == c
  {
    if infos != [] {
      var init, last := infos[..|infos| - 1], infos[|infos| - 1];
      assert infos == init + [last];
      MapSnoc(init, last, (info: ClusterInfo) => info.id);
      InfoMapKeys(init);
    }
  }

  /** Record `i` is the last one of its ID. */
  ghost predicate LastOf(infos: seq<ClusterInfo>, c: ClusterName, i: nat)
  {
    i < |infos| && infos[i].id == c && forall j :: i < j < |infos| ==> infos[j].id != c
  }

  /** The map holds the last record of each ID, and nothing else. */
  lemma {:induction false} InfoMapKeepsLast(infos: seq<ClusterInfo>, c: ClusterName)
    ensures c in InfoMap(infos) <==> exists i: nat :: LastOf(infos, c, i)
    ensures forall i: nat :: LastOf(infos, c, i) ==> c in InfoMap(infos) && InfoMap(infos)[c] == infos[i]
  {
    if infos != [] {
      var n := |infos| - 1;
      InfoMapKeepsLast(infos[..n], c);
      if infos[n].id == c {
        assert LastOf(infos, c, n);
      } else {
        forall i: nat ensures LastOf(infos, c, i) <==> LastOf(infos[..n], c, i) {
          assert forall j :: 0 <= j < n ==> infos[..n][j] == infos[j];
        }
      }
    }
  }

  /** With distinct IDs the conversion loses nothing: every record is found under its ID. */
  lemma InfoMapLossless(infos: seq<ClusterInfo>, i: nat)
    requires DistinctIDs(infos) && i < |infos|
    ensures infos[i].id in InfoMap(infos) && InfoMap(infos)[infos[i].id] == infos[i]
  {
    InfoMapKeys(infos);
    assert NamesOf(infos)[i] == infos[i].id;
    var j :| 0 <= j < |infos| && infos[j] == InfoMap(infos)[infos[i].id];
  }
}
