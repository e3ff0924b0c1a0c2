/**
 AMS pagination: `executeSubscriptionListRequest` reads pages until an empty one, drops items
 without a valid external ID and keeps the first item of each ID.
 */
module AmsPaging {
  import opened Sequences
  import opened Clusters

  /** A subscription; each attribute may be absent. */
  datatype Item = Item(externalID: Option<string>, displayName: Option<string>, managed: Option<bool>,
                       status: Option<string>)

  datatype Response = Page(items: seq<Item>) | RequestFailed

  type UuidCheck = string -> bool

  predicate Valid(item: Item, uuid: UuidCheck)
  {
    item.externalID.Some? && item.externalID.value != "" && uuid(item.externalID.value)
  }

  function ToInfo(item: Item): ClusterInfo
    requires item.externalID.Some?
  {
    var id := item.externalID.value;
    ClusterInfo(id,
                if item.displayName.Some? then item.displayName.value else id,
                item.managed.Some? && item.managed.value,
                if item.status.Some? then item.status.value else "")
  }

  /** First-occurrence deduplication of the valid items of one whole list. */
  function Unique(items: seq<Item>, uuid: UuidCheck): seq<ClusterInfo>
  {
    if items == [] then [] else
      var before, last := Unique(items[..|items| - 1], uuid), items[|items| - 1];
      if Valid(last, uuid) && last.externalID.value !in NamesOf(before) then before + [ToInfo(last)] else before
  }

  predicate Terminal(r: Response)
  {
    r.RequestFailed? || r.items == []
  }

  /** The items of the pages read before the listing ends. */
  function ItemsRead(pages: seq<Response>): seq<Item>
  {
    if pages == [] || Terminal(pages[0]) then [] else pages[0].items + ItemsRead(pages[1..])
  }

  ghost predicate Ends(pages: seq<Response>)
  {
    exists i :: 0 <= i < |pages| && Terminal(pages[i])
  }

  predicate Fails(pages: seq<Response>)
  {
    pages != [] && (if Terminal(pages[0]) then pages[0].RequestFailed? else Fails(pages[1..]))
  }

  // ---------- the code ----------

  /** `pages[n]` is the answer to the request for page `n + 1`. */
  method ExecuteSubscriptionListRequest(pages: seq<Response>, uuid: UuidCheck)
    returns (list: seq<ClusterInfo>, failed: bool)
    requires Ends(pages)
    ensures list == Unique(ItemsRead(pages), uuid)
    ensures failed == Fails(pages)
  {
    list := [];
    var seen, page := {}, 0;
    ghost var done := [];
    assert pages[0..] == pages;
    while true
      invariant 0 <= page < |pages| && Ends(pages[page..])
      invariant list == Unique(done, uuid) && seen == IDsOf(list)
      invariant ItemsRead(pages) == done + ItemsRead(pages[page..]) && Fails(pages[page..]) == Fails(pages)
      decreases |pages| - page
    {
      var response := pages[page];
      NextPage(pages, page);
      assert done + [] == done;
      if response.RequestFailed? {
        return list, true;
      }
      if |response.items| == 0 {
        return list, false;
      }
      ConcatAssoc(done, response.items, ItemsRead(pages[page + 1..]));
      list, seen := ReadPage(response.items, uuid, list, seen, done);
      done := done + response.items;
      page := page + 1;
    }
  }

  /** How the rest of the listing unfolds at one page. */
  lemma NextPage(pages: seq<Response>, page: nat)
    requires page < |pages| && Ends(pages[page..])
    ensures Terminal(pages[page]) ==>
              ItemsRead(pages[page..]) == [] && Fails(pages[page..]) == pages[page].RequestFailed?
    ensures !Terminal(pages[page]) ==>
              && ItemsRead(pages[page..]) == pages[page].items + ItemsRead(pages[page + 1..])
              && Fails(pages[page..]) == Fails(pages[page + 1..])
              && page + 1 < |pages| && Ends(pages[page + 1..])
  {
    assert pages[page..][1..] == pages[page + 1..];
    if !Terminal(pages[page]) {
      var i :| 0 <= i < |pages[page..]| && Terminal(pages[page..][i]);
      assert pages[page + 1..][i - 1] == pages[page..][i];
    }
  }

  function IDsOf(list: seq<ClusterInfo>): set<string>
  {
    set info | info in list :: info.id
  }

  lemma IDsAreNames(list: seq<ClusterInfo>, id: string)
    ensures id in IDsOf(list) <==> id in NamesOf(list)
  {
    if id in NamesOf(list) {
      var i :| 0 <= i < |list| && NamesOf(list)[i] == id;
      assert list[i] in list;
    }
    if info :| info in list && info.id == id {
      var i :| 0 <= i < |list| && list[i] == info;
      assert NamesOf(list)[i] == id;
    }
  }

  lemma UniqueSnoc(items: seq<Item>, item: Item, uuid: UuidCheck)
    ensures Unique(items + [item], uuid) ==
            if Valid(item, uuid) && item.externalID.value !in IDsOf(Unique(items, uuid))
            then Unique(items, uuid) + [ToInfo(item)] else Unique(items, uuid)
  {
    assert (items + [item])[..|items|] == items;
    if Valid(item, uuid) {
      IDsAreNames(Unique(items, uuid), item.externalID.value);
    }
  }

  lemma IDsOfSnoc(list: seq<ClusterInfo>, info: ClusterInfo)
    ensures IDsOf(list + [info]) == IDsOf(list) + {info.id}
  {
  }

  /** The inner loop, over one page. */
  method ReadPage(items: seq<Item>, uuid: UuidCheck, list: seq<ClusterInfo>, seen: set<string>, ghost done: seq<Item>)
    returns (list': seq<ClusterInfo>, seen': set<string>)
    requires list == Unique(done, uuid) && seen == IDsOf(list)
    ensures list' == Unique(done + items, uuid) && seen' == IDsOf(list')
  {
    list', seen' := list, seen;
    ghost var read := done;
    for i := 0 to |items|
      invariant read == done + items[..i] && list' == Unique(read, uuid) && seen' == IDsOf(list')
    {
      var item := items[i];
      UniqueSnoc(read, item, uuid);
      PrefixSnoc(done, items, i);
      read := read + [item];
      if item.externalID.None? || item.externalID.value == "" {
        continue;
      }
      var id := item.externalID.value;
      if !uuid(id) {
        continue;
      }
      if id in seen' {
        continue;
      }
      var displayName := if item.displayName.Some? then item.displayName.value else id;
      var managed := item.managed.Some? && item.managed.value;
      var status := if item.status.Some? then item.status.value else "";
      IDsOfSnoc(list', ClusterInfo(id, displayName, managed, status));
      seen' := seen' + {id};
      list' := list' + [ClusterInfo(id, displayName, managed, status)];
    }
    assert items[..|items|] == items;
  }

  /** The two callers that look for one cluster: None is the missing cluster. */
  function FirstCluster(list: seq<ClusterInfo>): Option<ClusterInfo>
  {
    if list == [] then None else Some(list[0])
  }

  // ---------- what the result means ----------

  /** Item `i` is the first valid item with its ID. */
  ghost predicate FirstOccurrence(items: seq<Item>, uuid: UuidCheck, i: nat)
  {
    && i < |items| && Valid(items[i], uuid)
    && forall j :: 0 <= j < i && Valid(items[j], uuid) ==> items[j].externalID != items[i].externalID
  }

  lemma {:induction false} UniqueNames(items: seq<Item>, uuid: UuidCheck, id: string)
    ensures id in NamesOf(Unique(items, uuid))
            <==> exists i :: 0 <= i < |items| && Valid(items[i], uuid) && items[i].externalID == Some(id)
  {
    if items != [] {
      var n := |items| - 1;
      var before, last := Unique(items[..n], uuid), items[n];
      UniqueNames(items[..n], uuid, id);
      if Valid(last, uuid) {
        MapSnoc(before, ToInfo(last), (info: ClusterInfo) => info.id);
      }
      if id in NamesOf(before) {
        var i :| 0 <= i < n && Valid(items[..n][i], uuid) && items[..n][i].externalID == Some(id);
        assert items[i] == items[..n][i];
      }
      if i :| 0 <= i < |items| && Valid(items[i], uuid) && items[i].externalID == Some(id) {
        assert i < n ==> items[..n][i] == items[i];
      }
    }
  }

  /** The last item is a first occurrence iff its ID is not among the earlier results. */
  lemma LastIsFirst(items: seq<Item>, uuid: UuidCheck)
    requires items != []
    ensures var n := |items| - 1;
            FirstOccurrence(items, uuid, n)
            <==> Valid(items[n], uuid) && items[n].externalID.value !in NamesOf(Unique(items[..n], uuid))
  {
    var n := |items| - 1;
    if Valid(items[n], uuid) {
      UniqueNames(items[..n], uuid, items[n].externalID.value);
      assert forall j :: 0 <= j < n ==> items[..n][j] == items[j];
    }
  }

  /** Item `i` is a first occurrence that becomes `info`. */
  ghost predicate Becomes(items: seq<Item>, uuid: UuidCheck, i: nat, info: ClusterInfo)
  {
    FirstOccurrence(items, uuid, i) && info == ToInfo(items[i])
  }

  lemma BecomesEarlier(items: seq<Item>, uuid: UuidCheck, i: nat, info: ClusterInfo)
    requires items != [] && i < |items| - 1
    ensures Becomes(items, uuid, i, info) <==> Becomes(items[..|items| - 1], uuid, i, info)
  {
    var init := items[..|items| - 1];
    assert forall j :: 0 <= j <= i ==> init[j] == items[j];
  }

  /** Every valid item, repeated or not, in order. */
  function ValidInfos(items: seq<Item>, uuid: UuidCheck): seq<ClusterInfo>
  {
    if items == [] then [] else
      var before, last := ValidInfos(items[..|items| - 1], uuid), items[|items| - 1];
      if Valid(last, uuid) then before + [ToInfo(last)] else before
  }

  lemma {:induction false} UniqueKeepsOrder(items: seq<Item>, uuid: UuidCheck)
    ensures Subsequence(Unique(items, uuid), ValidInfos(items, uuid))
  {
    if items != [] {
      var n := |items| - 1;
      UniqueKeepsOrder(items[..n], uuid);
      if Valid(items[n], uuid) {
        var kept, all := Unique(items[..n], uuid), ValidInfos(items[..n], uuid);
        SubsequenceSnoc(kept, all, ToInfo(items[n]));
        SubsequenceExtend(kept, all, ToInfo(items[n]));
      }
    }
  }

  /** The result holds exactly the first occurrence of each valid ID, in the order of the items. */
  lemma {:induction false} UniqueKeepsFirsts(items: seq<Item>, uuid: UuidCheck, info: ClusterInfo)
    ensures info in Unique(items, uuid) <==> exists i: nat :: Becomes(items, uuid, i, info)
    ensures Subsequence(Unique(items, uuid), ValidInfos(items, uuid))
  {
    UniqueKeepsOrder(items, uuid);
    if items != [] {
      var n := |items| - 1;
      UniqueKeepsFirsts(items[..n], uuid, info);
      LastIsFirst(items, uuid);
      if i: nat :| Becomes(items[..n], uuid, i, info) {
        BecomesEarlier(items, uuid, i, info);
      }
      if i: nat :| Becomes(items, uuid, i, info) && i < n {
        BecomesEarlier(items, uuid, i, info);
      }
      if Valid(items[n], uuid) && ToInfo(items[n]) == info && FirstOccurrence(items, uuid, n) {
        assert Becomes(items, uuid, n, info);
      }
    }
  }

  /** The IDs are distinct, so converting the list to a map loses nothing. */
  lemma {:induction false} UniqueIsDistinct(items: seq<Item>, uuid: UuidCheck)
    ensures DistinctIDs(Unique(items, uuid))
  {
    if items != [] {
      var n := |items| - 1;
      var before := Unique(items[..n], uuid);
      UniqueIsDistinct(items[..n], uuid);
      forall i | 0 <= i < |before| ensures before[i].id in NamesOf(before) {
        assert NamesOf(before)[i] == before[i].id;
      }
    }
  }

  /** The result is nil iff no valid item was read; otherwise element 0 is the first valid item. */
  lemma {:induction false} FirstIsFirstValid(items: seq<Item>, uuid: UuidCheck)
    ensures FirstCluster(Unique(items, uuid)).None? <==> forall item :: item in items ==> !Valid(item, uuid)
    ensures FirstCluster(Unique(items, uuid)).Some? ==>
              exists i :: 0 <= i < |items| && Valid(items[i], uuid)
                          && FirstCluster(Unique(items, uuid)).value == ToInfo(items[i])
                          && forall j :: 0 <= j < i ==> !Valid(items[j], uuid)
  {
    if items != [] {
      var n := |items| - 1;
      assert items == items[..n] + [items[n]];
      FirstIsFirstValid(items[..n], uuid);
      if Unique(items[..n], uuid) != [] {
        var i :| 0 <= i < n && Valid(items[..n][i], uuid) && Unique(items[..n], uuid)[0] == ToInfo(items[..n][i])
                 && forall j :: 0 <= j < i ==> !Valid(items[..n][j], uuid);
        assert items[i] == items[..n][i] && forall j :: 0 <= j < i ==> items[j] == items[..n][j];
      } else {
        assert forall j :: 0 <= j < n ==> items[j] == items[..n][j] && items[j] in items[..n];
      }
    }
  }

  /** The item has the external ID `id`, and that is a UUID. */
  predicate Identifies(item: Item, uuid: UuidCheck, id: string)
  {
    item.externalID == Some(id) && id != "" && uuid(id)
  }

  /** The record shows the item: a missing name is replaced by the ID, a missing flag by false and a missing
      status by nothing. */
  predicate Describes(info: ClusterInfo, item: Item)
  {
    && item.externalID == Some(info.id)
    && (match item.displayName case Some(name) => info.displayName == name case None => info.displayName == info.id)
    && (match item.managed case Some(managed) => info.managed == managed case None => !info.managed)
    && (match item.status case Some(status) => info.status == status case None => info.status == "")
  }

  /** Item `i` is the first with the record's ID, and the record shows it. */
  ghost predicate FirstShown(items: seq<Item>, uuid: UuidCheck, i: nat, info: ClusterInfo)
  {
    && i < |items| && Identifies(items[i], uuid, info.id) && Describes(info, items[i])
    && forall j :: 0 <= j < i ==> !Identifies(items[j], uuid, info.id)
  }

  lemma BecomesIff(items: seq<Item>, uuid: UuidCheck, i: nat, info: ClusterInfo)
    ensures Becomes(items, uuid, i, info) <==> FirstShown(items, uuid, i, info)
  {
    if FirstShown(items, uuid, i, info) {
      assert info == ToInfo(items[i]);
    }
    if Becomes(items, uuid, i, info) {
      forall j | 0 <= j < i ensures !Identifies(items[j], uuid, info.id) {
        assert Valid(items[j], uuid) ==> items[j].externalID != items[i].externalID;
      }
    }
  }

  /** A record is listed iff it shows the first item that has its ID. */
  lemma ListedIffFirst(items: seq<Item>, uuid: UuidCheck, info: ClusterInfo)
    ensures info in Unique(items, uuid) <==> exists i: nat :: FirstShown(items, uuid, i, info)
  {
    UniqueKeepsFirsts(items, uuid, info);
    forall i: nat ensures Becomes(items, uuid, i, info) <==> FirstShown(items, uuid, i, info) {
      BecomesIff(items, uuid, i, info);
    }
  }

  // ---------- how the items are divided into pages does not matter ----------

  /** The server's answers when it lists items page by page and then has no more. */
  function Paginate(split: seq<seq<Item>>): seq<Response>
  {
    Map(split, items => Page(items)) + [Page([])]
  }

  lemma {:induction false} PagesReadAll(split: seq<seq<Item>>, rest: seq<Response>)
    requires [] !in split
    ensures var pages := Paginate(split) + rest;
            Ends(pages) && !Fails(pages) && ItemsRead(pages) == Flatten(split)
  {
    var pages := Paginate(split) + rest;
    assert Terminal(pages[|split|]);
    if split != [] {
      assert split[0] in split && pages[0] == Page(split[0]);
      assert pages[1..] == Paginate(split[1..]) + rest;
      PagesReadAll(split[1..], rest);
      FlattenHead(split);
    }
  }

  /** However the server divides a list into non-empty pages, and whatever it would answer after the
      empty one, the listing succeeds with the same clusters: those of the whole list. */
  lemma PagingIrrelevant(items: seq<Item>, split: seq<seq<Item>>, rest: seq<Response>, uuid: UuidCheck)
    requires [] !in split && Flatten(split) == items
    ensures var pages := Paginate(split) + rest;
            Ends(pages) && !Fails(pages) && Unique(ItemsRead(pages), uuid) == Unique(items, uuid)
  {
    PagesReadAll(split, rest);
  }

  /** A request that fails ends the listing with an error, and with the clusters of the pages before it. */
  lemma {:induction false} FailedPageEndsListing(split: seq<seq<Item>>, rest: seq<Response>)
    requires [] !in split
    ensures var pages := Map(split, items => Page(items)) + [RequestFailed] + rest;
            Ends(pages) && Fails(pages) && ItemsRead(pages) == Flatten(split)
  {
    var pages := Map(split, items => Page(items)) + [RequestFailed] + rest;
    assert Terminal(pages[|split|]);
    if split != [] {
      assert split[0] in split && pages[0] == Page(split[0]);
      assert pages[1..] == Map(split[1..], items => Page(items)) + [RequestFailed] + rest;
      FailedPageEndsListing(split[1..], rest);
      FlattenHead(split);
    }
  }
}
