/** The raw items the data source returns, as far as `Entry._set_api_data` reads
    them, and the per-field conversions that do not depend on an entity: the
    `video_count` clamp and the thumbnail filter.

    A raw item is a JSON object.  Each key the source reads is an `Option` here:
    `None` is a missing key, which makes the source raise `KeyError`.  The one key
    whose value can be null is `channelTitle`: the scraper stores the `uploader`
    group there, which is `None` when the group did not match. */
module Items {
  import opened Wrappers

  /** One entry of `snippet.thumbnails`: its size key and its `url`, if it has one. */
  datatype Thumbnail = Thumbnail(key: string, url: Option<string>)

  /** The parts of a raw item that are read: `snippet.title`, `snippet.channelTitle`,
      `contentDetails.duration`, `contentDetails.itemCount` and `snippet.thumbnails`
      (in the dictionary's iteration order).  `channelTitle` is `Some(None)` when the
      key is present with a null value. */
  datatype Item = Item(
    title: Option<string>,
    channelTitle: Option<Option<string>>,
    duration: Option<string>,
    itemCount: Option<int>,
    thumbnails: Option<seq<Thumbnail>>)

  /** `min(itemCount, max_videos)`: never above the limit, and the count itself when it is smaller. */
  function ClampCount(itemCount: int, maxVideos: nat): (r: int)
    ensures r <= maxVideos && r <= itemCount
    ensures r == itemCount || r == maxVideos
  {
    Min(itemCount, maxVideos)
  }

  /** `Playlist.max_videos` as the class declares it. */
  const DefaultMaxVideos: nat := 60

  /** A playlist of 85 videos reports the default limit. */
  lemma ClampCountExample()
    ensures ClampCount(85, DefaultMaxVideos) == DefaultMaxVideos
  {
  }

  /** The two size keys whose URLs are kept. */
  predicate IsKeptSize(key: string) {
    key == "medium" || key == "high"
  }

  /** The thumbnails whose key is `medium` or `high`, in iteration order. */
  function KeptThumbnails(ts: seq<Thumbnail>): seq<Thumbnail> {
    if ts == [] then []
    else (if IsKeptSize(ts[0].key) then [ts[0]] else []) + KeptThumbnails(ts[1..])
  }

  /** `[val['url'] for (key, val) in thumbnails.items() if key in ['medium', 'high']]`;
      `None` when a kept entry has no `url`, where the source raises. */
  function ThumbnailUrls(ts: seq<Thumbnail>): (r: Option<seq<string>>)
    ensures r.Some? ==> |r.value| == |KeptThumbnails(ts)|
  {
    if ts == [] then Some([])
    else if !IsKeptSize(ts[0].key) then ThumbnailUrls(ts[1..])
    else match (ts[0].url, ThumbnailUrls(ts[1..]))
      case (Some(u), Some(us)) => Some([u] + us)
      case _ => None
  }

  /** The URLs of a list of thumbnails that all have one. */
  function Urls(ts: seq<Thumbnail>): seq<string>
    requires forall i :: 0 <= i < |ts| ==> ts[i].url.Some?
  {
    if ts == [] then [] else [ts[0].url.value] + Urls(ts[1..])
  }

  /** The filter fails exactly when some kept thumbnail has no URL, and otherwise yields
      the URLs of the kept thumbnails, in order. */
  lemma {:induction false} ThumbnailUrlsSpec(ts: seq<Thumbnail>)
    ensures var kept := KeptThumbnails(ts);
            ThumbnailUrls(ts).Some? <==> forall i :: 0 <= i < |kept| ==> kept[i].url.Some?
    ensures var kept := KeptThumbnails(ts);
            ThumbnailUrls(ts).Some? ==>
              (forall i :: 0 <= i < |kept| ==> kept[i].url.Some?) && ThumbnailUrls(ts).value == Urls(kept)
  {
    if ts != [] {
      ThumbnailUrlsSpec(ts[1..]);
      var rest := KeptThumbnails(ts[1..]);
      if IsKeptSize(ts[0].key) {
        var kept := KeptThumbnails(ts);
        assert kept == [ts[0]] + rest;
        assert kept[0] == ts[0];
        assert forall i :: 1 <= i < |kept| ==> kept[i] == rest[i - 1];
        if forall i :: 0 <= i < |kept| ==> kept[i].url.Some? {
          forall j | 0 <= j < |rest| ensures rest[j].url.Some? {
            assert rest[j] == kept[j + 1];
          }
        }
        if ThumbnailUrls(ts).Some? {
          assert Urls(kept) == [ts[0].url.value] + Urls(rest);
        }
      } else {
        assert KeptThumbnails(ts) == rest;
      }
    }
  }

  /** Exactly the thumbnails with a kept size key are kept, in the original order. */
  lemma {:induction false} KeptThumbnailsSpec(ts: seq<Thumbnail>)
    ensures forall t :: t in KeptThumbnails(ts) <==> t in ts && IsKeptSize(t.key)
    ensures |KeptThumbnails(ts)| <= |ts|
  {
    if ts != [] {
      KeptThumbnailsSpec(ts[1..]);
      assert ts == [ts[0]] + ts[1..];
    }
  }

  /** Every key occurs at most once, as in a dictionary. */
  predicate DistinctKeys(ts: seq<Thumbnail>) {
    forall i, j :: 0 <= i < j < |ts| ==> ts[i].key != ts[j].key
  }

  /** The number of thumbnails whose key is `key`. */
  function CountKey(ts: seq<Thumbnail>, key: string): nat {
    if ts == [] then 0 else (if ts[0].key == key then 1 else 0) + CountKey(ts[1..], key)
  }

  lemma {:induction false} CountKeyAtMostOne(ts: seq<Thumbnail>, key: string)
    requires DistinctKeys(ts)
    ensures CountKey(ts, key) <= 1
    ensures (forall i :: 0 <= i < |ts| ==> ts[i].key != key) ==> CountKey(ts, key) == 0
  {
    if ts != [] {
      CountKeyAtMostOne(ts[1..], key);
      if ts[0].key == key {
        assert forall i :: 0 <= i < |ts[1..]| ==> ts[1..][i].key != key by {
          forall i | 0 <= i < |ts[1..]| ensures ts[1..][i].key != key {
            assert ts[1..][i] == ts[i + 1];
          }
        }
      }
    }
  }

  lemma {:induction false} KeptCount(ts: seq<Thumbnail>)
    ensures |KeptThumbnails(ts)| == CountKey(ts, "medium") + CountKey(ts, "high")
  {
    if ts != [] {
      KeptCount(ts[1..]);
    }
  }

  /** Since a dictionary has each key once, at most two URLs are kept. */
  lemma ThumbnailUrlsAtMostTwo(ts: seq<Thumbnail>)
    requires DistinctKeys(ts)
    ensures ThumbnailUrls(ts).Some? ==> |ThumbnailUrls(ts).value| <= 2
  {
    KeptCount(ts);
    CountKeyAtMostOne(ts, "medium");
    CountKeyAtMostOne(ts, "high");
    ThumbnailUrlsSpec(ts);
    if ThumbnailUrls(ts).Some? {
      UrlsLength(KeptThumbnails(ts));
    }
  }

  lemma {:induction false} UrlsLength(ts: seq<Thumbnail>)
    requires forall i :: 0 <= i < |ts| ==> ts[i].url.Some?
    ensures |Urls(ts)| == |ts|
  {
    if ts != [] {
      UrlsLength(ts[1..]);
    }
  }
}
