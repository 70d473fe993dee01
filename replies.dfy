/** What the jobs of `mopidy_youtube/youtube.py` do with a data-source reply, as pure
    functions: the `id -> item` map of a batch lookup, the video/playlist dispatch of
    `Entry.search`, the field lists of `load_info`, and the page loop of the
    `Playlist.videos` job.

    A reply is what `API` or `scrAPI` returns.  Where the source indexes a key that
    may be missing, the key is an `Option` here and `None` makes the source raise. */
module Replies {
  import opened Wrappers
  import opened Items
  import opened Entries

  /** The fields `Video.load_info` and `Playlist.load_info` ask for, in their order. */
  function FieldsOf(kind: Kind): (fields: seq<Field>)
  {
    match kind
    case VideoKind => [Title, Length, Channel]
    case PlaylistKind => [Title, VideoCount, Thumbnails, Channel]
  }

  /** Every field `load_info` fills is one `_set_api_data` can compute and a property of
      the class, none is asked for twice, and title and channel are always among them. */
  lemma FieldsOfSpec(kind: Kind)
    ensures forall k :: k in FieldsOf(kind) ==> IsItemField(k) && HasProperty(kind, k)
    ensures forall i, j :: 0 <= i < j < |FieldsOf(kind)| ==> FieldsOf(kind)[i] != FieldsOf(kind)[j]
    ensures Title in FieldsOf(kind) && Channel in FieldsOf(kind)
    ensures Length in FieldsOf(kind) <==> kind == VideoKind
    ensures (VideoCount in FieldsOf(kind) || Thumbnails in FieldsOf(kind)) <==> kind == PlaylistKind
  {
  }

  // ---------------------------------------------------------------------------------
  // Batch lookups: `list_videos` / `list_playlists`

  /** One element of `data['items']` of a batch lookup: its `id`, and the rest of it. */
  datatype ListedItem = ListedItem(id: Option<string>, item: Item)

  /** `{item['id']: item for item in data['items']}`: a later item with the same id
      replaces an earlier one; `None` when an item has no `id` (the `KeyError` is
      caught, and the job goes on with `{}`).  The map is built exactly when every
      item has an id. */
  function ItemsById(items: seq<ListedItem>): (r: Option<map<string, Item>>)
    ensures r.Some? <==> forall i :: 0 <= i < |items| ==> items[i].id.Some?
    decreases |items|
  {
    if items == [] then Some(map[])
    else
      var last := items[|items| - 1];
      match (ItemsById(items[..|items| - 1]), last.id)
      case (Some(m), Some(id)) => Some(m[id := last.item])
      case _ => None
  }

  /** The map holds exactly the ids of the items. */
  lemma {:induction false} ItemsByIdKeys(items: seq<ListedItem>)
    requires ItemsById(items).Some?
    ensures forall id :: id in ItemsById(items).value <==> exists i :: 0 <= i < |items| && items[i].id == Some(id)
    decreases |items|
  {
    if items != [] {
      var init, last := items[..|items| - 1], items[|items| - 1];
      ItemsByIdKeys(init);
      var m := ItemsById(items).value;
      forall id ensures id in m <==> exists i :: 0 <= i < |items| && items[i].id == Some(id) {
        if id in m && id != last.id.value {
          var i :| 0 <= i < |init| && init[i].id == Some(id);
          assert items[i].id == Some(id);
        }
        if exists i :: 0 <= i < |items| && items[i].id == Some(id) {
          var i :| 0 <= i < |items| && items[i].id == Some(id);
          if i < |init| {
            assert init[i].id == Some(id);
          }
        }
      }
    }
  }

  /** Each id maps to the item of the LAST occurrence of that id. */
  lemma {:induction false} ItemsByIdLast(items: seq<ListedItem>, i: nat)
    requires ItemsById(items).Some?
    requires i < |items| && items[i].id.Some?
    requires forall j :: i < j < |items| ==> items[j].id != items[i].id
    ensures items[i].id.value in ItemsById(items).value
    ensures ItemsById(items).value[items[i].id.value] == items[i].item
    decreases |items|
  {
    var init, last := items[..|items| - 1], items[|items| - 1];
    if i < |init| {
      assert init[i] == items[i];
      forall j | i < j < |init| ensures init[j].id != init[i].id {
        assert init[j] == items[j];
      }
      ItemsByIdLast(init, i);
    }
  }

  /** `dict.get(id)` in the batch job: the item for `id`, or `None` when the lookup
      failed, `items` was missing, some item had no `id`, or no item carries `id`. */
  function Lookup(reply: Option<seq<ListedItem>>, id: string): (r: Option<Item>)
    ensures r.Some? <==> reply.Some? && (forall i :: 0 <= i < |reply.value| ==> reply.value[i].id.Some?)
                         && exists i :: 0 <= i < |reply.value| && reply.value[i].id == Some(id)
  {
    if reply.None? then None
    else match ItemsById(reply.value)
      case None => None
      case Some(m) =>
        ItemsByIdKeys(reply.value);
        if id in m then Some(m[id]) else None
  }

  /** After a lookup that failed, or that returned no item for the entity, every field
      of the entity that was not yet set becomes `None`, and nothing raises. */
  lemma MissingItemClearsAll(reply: Option<seq<ListedItem>>, e: string, cells: Cells, kind: Kind, maxVideos: nat)
    requires reply.None? || (forall i :: 0 <= i < |reply.value| ==> reply.value[i].id != Some(e))
    ensures Lookup(reply, e).None?
    ensures var r := ApplyFields(cells, kind, FieldsOf(kind), Lookup(reply, e), maxVideos);
            r.1 && forall k :: k in FieldsOf(kind) ==>
              IsSet(r.0, k) && r.0[k] == if IsSet(cells, k) then cells[k] else Some(Absent)
  {
    if reply.Some? && ItemsById(reply.value).Some? {
      ItemsByIdKeys(reply.value);
    }
    FieldsOfSpec(kind);
    AbsentItemClearsAll(cells, kind, FieldsOf(kind), maxVideos);
  }

  /** A lookup finds an item exactly when the reply arrived, every item has an id and
      one has `id`; it is the last item with that id. */
  lemma LookupFinds(items: seq<ListedItem>, id: string, i: nat)
    requires forall j :: 0 <= j < |items| ==> items[j].id.Some?
    requires i < |items| && items[i].id == Some(id)
    requires forall j :: i < j < |items| ==> items[j].id != Some(id)
    ensures Lookup(Some(items), id) == Some(items[i].item)
  {
    ItemsByIdLast(items, i);
  }

  /** The ids a batch lookup is asked about: `[x.id for x in sublist]`. */
  function Ids(members: seq<Entry>): (ids: seq<string>)
    ensures |ids| == |members| && forall i :: 0 <= i < |members| ==> ids[i] == members[i].id
  {
    if members == [] then [] else [members[0].id] + Ids(members[1..])
  }

  // ---------------------------------------------------------------------------------
  // Search: `create_object`

  /** One element of a search reply's `items`: `id.kind`, `id.videoId`, `id.playlistId`
      and the rest of the item. */
  datatype SearchItem = SearchItem(kind: Option<string>, videoId: Option<string>, playlistId: Option<string>, item: Item)

  /** The entity `create_object` looks up for a search result, or `None` where it raises
      for a missing key.  Any kind other than `youtube#video` is taken to be a playlist:
      a video result names a video by `videoId`, any other result a playlist by
      `playlistId`, and the dispatch fails exactly when the key it needs is missing. */
  function Target(it: SearchItem): (r: Option<(Kind, string)>)
    ensures r.Some? <==>
              it.kind.Some? && (if it.kind.value == "youtube#video" then it.videoId.Some? else it.playlistId.Some?)
    ensures r.Some? ==>
              (r.value.0 == VideoKind <==> it.kind == Some("youtube#video"))
              && r.value.1 == (if r.value.0 == VideoKind then it.videoId.value else it.playlistId.value)
  {
    match it.kind
    case None => None
    case Some(k) =>
      if k == "youtube#video" then
        (if it.videoId.Some? then Some((VideoKind, it.videoId.value)) else None)
      else if it.playlistId.Some? then Some((PlaylistKind, it.playlistId.value))
      else None
  }

  /** The fields `create_object` fills from a search result: title and channel, plus
      thumbnails for a playlist only, each a property of the class. */
  function SearchFields(kind: Kind): (fields: seq<Field>)
    ensures forall k :: k in fields ==> IsItemField(k) && HasProperty(kind, k)
    ensures Title in fields && Channel in fields && (Thumbnails in fields <==> kind == PlaylistKind)
  {
    match kind
    case VideoKind => [Title, Channel]
    case PlaylistKind => [Title, Channel, Thumbnails]
  }

  // ---------------------------------------------------------------------------------
  // The `Playlist.videos` job

  /** One element of a `list_playlistitems` reply's `items`:
      `snippet.resourceId.videoId` and the rest of the item. */
  datatype PlaylistItem = PlaylistItem(videoId: Option<string>, item: Item)

  /** The reply to one `list_playlistitems` request: a failure (an exception inside the
      loop's `try`) or the reply's `nextPageToken` and `items`, each possibly missing. */
  datatype PageReply = RequestFails | PageReply(nextPageToken: Option<string>, items: Option<seq<PlaylistItem>>)

  /** The most results one page request asks for. */
  const PageSize: nat := 50

  /** `data.get('nextPageToken') or None`: a missing or empty token ends the loop. */
  function NextToken(t: Option<string>): (r: Option<string>)
    ensures r.Some? <==> t.Some? && t.value != ""
    ensures r.Some? ==> r == t
  {
    if t.Some? && t.value != "" then t else None
  }

  /** One `list_playlistitems(id, page, max_results)` request. */
  datatype Request = Request(pageToken: string, maxResults: nat)

  /** Why the loop ended: no further page, `max_videos` reached, a failed request
      (`break`), or a reply without `items` (which raises outside the `try`). */
  datatype Stop = NoMorePages | Full | RequestFailed | MissingItems

  /** What the loop did: the requests in order, the items of the pages it received,
      and why it ended. */
  datatype Paged = Paged(requests: seq<Request>, items: seq<PlaylistItem>, stop: Stop)

  /** The loop from its state: `count` videos gathered and the next page requested with
      `token`; request number `n` (from 0) is answered by `pages[n]`, and a request
      past the last reply fails.  A request is made exactly when fewer than `maxVideos`
      were gathered, and the first asks with `token` for what is still wanted, at most
      a page. */
  function PaginateFrom(pages: seq<PageReply>, n: nat, token: string, count: nat, maxVideos: nat): (r: Paged)
    requires n <= |pages|
    ensures r.requests == [] <==> count >= maxVideos
    ensures r.requests != [] ==> r.requests[0] == Request(token, Min(maxVideos - count, PageSize))
    decreases |pages| - n
  {
    if count >= maxVideos then Paged([], [], Full)
    else
      var req := Request(token, Min(maxVideos - count, PageSize));
      if n == |pages| || pages[n].RequestFails? then Paged([req], [], RequestFailed)
      else if pages[n].items.None? then Paged([req], [], MissingItems)
      else
        var got := pages[n].items.value;
        var next := NextToken(pages[n].nextPageToken);
        if next.None? then Paged([req], got, NoMorePages)
        else
          var rest := PaginateFrom(pages, n + 1, next.value, count + |got|, maxVideos);
          Paged([req] + rest.requests, got + rest.items, rest.stop)
  }

  /** The whole loop: `all_videos = []`, `page = ''`; the first request asks for page
      `''` and `min(max_videos, 50)` results, and none is made when `max_videos` is 0. */
  function Paginate(pages: seq<PageReply>, maxVideos: nat): (r: Paged)
    ensures r.requests == [] <==> maxVideos == 0
    ensures r.requests != [] ==> r.requests[0] == Request("", Min(maxVideos, PageSize))
  {
    PaginateFrom(pages, 0, "", 0, maxVideos)
  }

  /** The items a reply contributes: none from a failed request or one without `items`. */
  function PageItems(p: PageReply): seq<PlaylistItem> {
    if p.PageReply? && p.items.Some? then p.items.value else []
  }

  /** The items of a run of replies, in order. */
  function AllItems(ps: seq<PageReply>): seq<PlaylistItem>
    decreases |ps|
  {
    if ps == [] then [] else PageItems(ps[0]) + AllItems(ps[1..])
  }

  /** Every request asks for between 1 and 50 results, and no more than are still wanted. */
  lemma {:induction false} RequestsBounded(pages: seq<PageReply>, n: nat, token: string, count: nat, maxVideos: nat)
    requires n <= |pages|
    ensures forall i :: 0 <= i < |PaginateFrom(pages, n, token, count, maxVideos).requests| ==>
              1 <= PaginateFrom(pages, n, token, count, maxVideos).requests[i].maxResults <= PageSize
              && PaginateFrom(pages, n, token, count, maxVideos).requests[i].maxResults <= maxVideos - count
    decreases |pages| - n
  {
    var r := PaginateFrom(pages, n, token, count, maxVideos);
    if count < maxVideos && n < |pages| && pages[n].PageReply? && pages[n].items.Some?
       && NextToken(pages[n].nextPageToken).Some? {
      var got := pages[n].items.value;
      var next := NextToken(pages[n].nextPageToken).value;
      RequestsBounded(pages, n + 1, next, count + |got|, maxVideos);
      var rest := PaginateFrom(pages, n + 1, next, count + |got|, maxVideos);
      assert r.requests == [Request(token, Min(maxVideos - count, PageSize))] + rest.requests;
      forall i | 0 <= i < |r.requests|
        ensures 1 <= r.requests[i].maxResults <= PageSize && r.requests[i].maxResults <= maxVideos - count
      {
        if i > 0 {
          assert r.requests[i] == rest.requests[i - 1];
        }
      }
    }
  }

  /** The gathered items are those of the replies to the requests made, page after
      page, in order. */
  lemma {:induction false} ItemsInPageOrder(pages: seq<PageReply>, n: nat, token: string, count: nat, maxVideos: nat)
    requires n <= |pages|
    ensures PaginateFrom(pages, n, token, count, maxVideos).items
            == AllItems(pages[n..Min(n + |PaginateFrom(pages, n, token, count, maxVideos).requests|, |pages|)])
    decreases |pages| - n
  {
    var r := PaginateFrom(pages, n, token, count, maxVideos);
    if count < maxVideos && n < |pages| {
      var k := Min(n + |r.requests|, |pages|);
      assert pages[n..k][0] == pages[n];
      assert pages[n..k][1..] == pages[n + 1..k];
      if pages[n].PageReply? && pages[n].items.Some? && NextToken(pages[n].nextPageToken).Some? {
        var got := pages[n].items.value;
        var next := NextToken(pages[n].nextPageToken).value;
        ItemsInPageOrder(pages, n + 1, next, count + |got|, maxVideos);
      } else {
        assert pages[n + 1..k] == [];
      }
    }
  }

  /** At most one request is made after the last reply. */
  lemma {:induction false} RequestCount(pages: seq<PageReply>, n: nat, token: string, count: nat, maxVideos: nat)
    requires n <= |pages|
    ensures n + |PaginateFrom(pages, n, token, count, maxVideos).requests| <= |pages| + 1
    decreases |pages| - n
  {
    if count < maxVideos && n < |pages| && pages[n].PageReply? && pages[n].items.Some?
       && NextToken(pages[n].nextPageToken).Some? {
      var got := pages[n].items.value;
      RequestCount(pages, n + 1, NextToken(pages[n].nextPageToken).value, count + |got|, maxVideos);
    }
  }

  /** Reply `k` arrived with items and points on to the page `token`. */
  predicate LeadsTo(pages: seq<PageReply>, k: int, token: string) {
    0 <= k < |pages| && pages[k].PageReply? && pages[k].items.Some?
    && NextToken(pages[k].nextPageToken) == Some(token)
  }

  /** Every request after the first carries the `nextPageToken` of the reply before it:
      a request is followed by another only when its reply had items and a non-empty
      token. */
  lemma TokensAdvance(pages: seq<PageReply>, n: nat, token: string, count: nat, maxVideos: nat)
    requires n <= |pages|
    ensures forall i :: 1 <= i < |PaginateFrom(pages, n, token, count, maxVideos).requests| ==>
              LeadsTo(pages, n + i - 1, PaginateFrom(pages, n, token, count, maxVideos).requests[i].pageToken)
  {
    forall i | 1 <= i < |PaginateFrom(pages, n, token, count, maxVideos).requests|
      ensures LeadsTo(pages, n + i - 1, PaginateFrom(pages, n, token, count, maxVideos).requests[i].pageToken)
    {
      TokenAt(pages, n, token, count, maxVideos, i);
    }
  }

  lemma {:induction false} TokenAt(pages: seq<PageReply>, n: nat, token: string, count: nat, maxVideos: nat, i: nat)
    requires n <= |pages|
    requires 1 <= i < |PaginateFrom(pages, n, token, count, maxVideos).requests|
    ensures LeadsTo(pages, n + i - 1, PaginateFrom(pages, n, token, count, maxVideos).requests[i].pageToken)
    decreases i
  {
    var r := PaginateFrom(pages, n, token, count, maxVideos);
    assert count < maxVideos && n < |pages| && pages[n].PageReply? && pages[n].items.Some?
       && NextToken(pages[n].nextPageToken).Some?;
    var got := pages[n].items.value;
    var next := NextToken(pages[n].nextPageToken).value;
    var rest := PaginateFrom(pages, n + 1, next, count + |got|, maxVideos);
    assert r.requests == [Request(token, Min(maxVideos - count, PageSize))] + rest.requests;
    assert r.requests[i] == rest.requests[i - 1];
    if i == 1 {
      RequestCount(pages, n + 1, next, count + |got|, maxVideos);
    } else {
      TokenAt(pages, n + 1, next, count + |got|, maxVideos, i - 1);
      assert n + i - 1 == (n + 1) + (i - 1) - 1;
    }
  }

  /** Why the loop ended, read off the reply to its last request: `max_videos` reached
      after a reply that pointed to a further page, a failed request, a reply without
      `items`, or a reply without a further page. */
  lemma {:induction false} StopReason(pages: seq<PageReply>, n: nat, token: string, count: nat, maxVideos: nat)
    requires n <= |pages|
    ensures var last := n + |PaginateFrom(pages, n, token, count, maxVideos).requests| - 1;
            var stop := PaginateFrom(pages, n, token, count, maxVideos).stop;
            (|PaginateFrom(pages, n, token, count, maxVideos).requests| == 0 ==> stop == Full)
            && (|PaginateFrom(pages, n, token, count, maxVideos).requests| > 0 ==>
                  last <= |pages|
                  && (stop == RequestFailed <==> last == |pages| || pages[last].RequestFails?)
                  && (stop == MissingItems <==> last < |pages| && pages[last].PageReply? && pages[last].items.None?)
                  && (stop == NoMorePages <==> last < |pages| && pages[last].PageReply? && pages[last].items.Some?
                                               && NextToken(pages[last].nextPageToken).None?)
                  && (stop == Full <==> last < |pages| && pages[last].PageReply? && pages[last].items.Some?
                                        && NextToken(pages[last].nextPageToken).Some?))
    ensures PaginateFrom(pages, n, token, count, maxVideos).stop == Full ==>
              count + |PaginateFrom(pages, n, token, count, maxVideos).items| >= maxVideos
    decreases |pages| - n
  {
    var r := PaginateFrom(pages, n, token, count, maxVideos);
    if count < maxVideos && n < |pages| && pages[n].PageReply? && pages[n].items.Some?
       && NextToken(pages[n].nextPageToken).Some? {
      var got := pages[n].items.value;
      var next := NextToken(pages[n].nextPageToken).value;
      StopReason(pages, n + 1, next, count + |got|, maxVideos);
      var rest := PaginateFrom(pages, n + 1, next, count + |got|, maxVideos);
      assert n + |r.requests| - 1 == (n + 1) + |rest.requests| - 1;
    }
  }

  /** When every reply holds at most the `max_results` its request asked for, no more
      than `max_videos` videos are gathered. */
  lemma {:induction false} WithinMaxVideos(pages: seq<PageReply>, n: nat, token: string, count: nat, maxVideos: nat)
    requires n <= |pages| && count <= maxVideos
    requires forall i :: 0 <= i < |PaginateFrom(pages, n, token, count, maxVideos).requests| && n + i < |pages| ==>
               |PageItems(pages[n + i])| <= PaginateFrom(pages, n, token, count, maxVideos).requests[i].maxResults
    ensures count + |PaginateFrom(pages, n, token, count, maxVideos).items| <= maxVideos
    decreases |pages| - n
  {
    var r := PaginateFrom(pages, n, token, count, maxVideos);
    RequestsBounded(pages, n, token, count, maxVideos);
    if count < maxVideos && n < |pages| && pages[n].PageReply? && pages[n].items.Some? {
      var got := pages[n].items.value;
      assert |PageItems(pages[n + 0])| <= r.requests[0].maxResults;
      var next := NextToken(pages[n].nextPageToken);
      if next.Some? {
        var rest := PaginateFrom(pages, n + 1, next.value, count + |got|, maxVideos);
        forall i | 0 <= i < |rest.requests| && (n + 1) + i < |pages|
          ensures |PageItems(pages[(n + 1) + i])| <= rest.requests[i].maxResults
        {
          assert r.requests[i + 1] == rest.requests[i];
          assert n + (i + 1) == (n + 1) + i;
        }
        WithinMaxVideos(pages, n + 1, next.value, count + |got|, maxVideos);
      }
    }
  }

  /** With `max_videos` 60, a playlist whose first reply holds 50 videos is fetched in
      two requests, for 50 and then for the 10 still wanted, and the loop stops full
      although a third page exists. */
  lemma SixtyOfMany(a: seq<PlaylistItem>, b: seq<PlaylistItem>, c: seq<PlaylistItem>)
    requires |a| == 50 && |b| == 10 && |c| == 30
    ensures var pages := [PageReply(Some("B"), Some(a)), PageReply(Some("C"), Some(b)), PageReply(None, Some(c))];
            Paginate(pages, 60) == Paged([Request("", 50), Request("B", 10)], a + b, Full)
  {
    var pages := [PageReply(Some("B"), Some(a)), PageReply(Some("C"), Some(b)), PageReply(None, Some(c))];
    assert PaginateFrom(pages, 2, "C", 60, 60) == Paged([], [], Full);
    assert PaginateFrom(pages, 1, "B", 50, 60) == Paged([Request("B", 10)], b, Full);
  }
}
