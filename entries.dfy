/** Videos and playlists (`Entry`, `Video`, `Playlist` in `mopidy_youtube/youtube.py`)
    with their per-field futures, the identity cache behind `Entry.get`, and the two
    routines that write futures: `Entry._add_futures` and `Entry._set_api_data`.

    A future is a set-once cell: `None` is "created but not yet set".  An entity's
    `__dict__` entries `_title`, `_length`, ... are the map `cells`: a field that is
    not a key has no future yet. */
module Entries {
  import opened Wrappers
  import Duration
  import opened Items

  /** The Python class of an entity: `Video` or `Playlist`. */
  datatype Kind = VideoKind | PlaylistKind

  /** The lazily loaded properties; `Children` is the playlist property `videos`. */
  datatype Field = Title | Channel | Length | VideoCount | Thumbnails | Children | AudioUrl

  /** The fields `_set_api_data` can fill from a raw item. */
  predicate IsItemField(f: Field) {
    !f.Children? && !f.AudioUrl?
  }

  /** The property names each class defines. */
  predicate HasProperty(kind: Kind, f: Field) {
    match kind
    case VideoKind => f.Title? || f.Channel? || f.Length? || f.Thumbnails? || f.AudioUrl?
    case PlaylistKind => f.Title? || f.Channel? || f.VideoCount? || f.Thumbnails? || f.Children?
  }

  /** A value a future is set to; `Absent` is Python's `None`. */
  datatype Value = Absent | Text(text: string) | Number(number: int) | UrlList(urls: seq<string>)
                 | Videos(videos: seq<Entry>)

  /** The futures of one entity, by field; `None` is a future not yet set. */
  type Cells = map<Field, Option<Value>>

  predicate IsSet(cells: Cells, k: Field) {
    k in cells && cells[k].Some?
  }

  /** Every future of `c0` is still in `c1`, and every one that was set holds the same
      value: futures are never dropped, and a set future is never overwritten. */
  predicate KeepsSet(c0: Cells, c1: Cells) {
    (forall k :: k in c0 ==> k in c1) && (forall k :: IsSet(c0, k) ==> c1[k] == c0[k])
  }

  lemma KeepsSetTrans(c0: Cells, c1: Cells, c2: Cells)
    requires KeepsSet(c0, c1) && KeepsSet(c1, c2)
    ensures KeepsSet(c0, c2)
  {
  }

  /** The futures `before` records for `e`; none for an entity made since. */
  function BaseOf(before: map<Entry, Cells>, e: Entry): Cells {
    if e in before then before[e] else map[]
  }

  /** The value `_set_api_data` computes for field `k` from `item`; `None` where it raises
      (a missing key, a duration without `PT`, `max_videos` asked of a video).  A null
      `channelTitle` is stored as it is: the absent value. */
  function FieldValue(kind: Kind, k: Field, item: Option<Item>, maxVideos: nat): (r: Option<Value>)
    requires IsItemField(k)
    ensures item.None? ==> r == Some(Absent)
    ensures item.Some? && r.Some? ==>
              (k.Title? ==> r.value.Text?) && (k.Length? || k.VideoCount? ==> r.value.Number?)
              && (k.Thumbnails? ==> r.value.UrlList?)
    ensures item.Some? && k.Title? ==> (r.None? <==> item.value.title.None?)
    ensures item.Some? && k.Channel? ==> (r.None? <==> item.value.channelTitle.None?)
    ensures item.Some? && k.Channel? && r.Some? ==>
              (r.value == Absent <==> item.value.channelTitle == Some(None))
              && (r.value.Text? <==> item.value.channelTitle.value.Some?)
    ensures item.Some? && k.VideoCount? ==> (r.None? <==> item.value.itemCount.None? || kind == VideoKind)
    ensures item.Some? && k.VideoCount? && r.Some? ==> r.value.number <= maxVideos
  {
    match item
    case None => Some(Absent)
    case Some(it) =>
      match k
      case Title => if it.title.Some? then Some(Text(it.title.value)) else None
      case Channel =>
        (match it.channelTitle
         case None => None
         case Some(None) => Some(Absent)
         case Some(Some(c)) => Some(Text(c)))
      case Length =>
        if it.duration.None? then None
        else (match Duration.LengthOf(it.duration.value)
              case None => None
              case Some(n) => Some(Number(n)))
      case VideoCount =>
        if it.itemCount.None? || kind == VideoKind then None
        else Some(Number(ClampCount(it.itemCount.value, maxVideos)))
      case Thumbnails =>
        if it.thumbnails.None? then None
        else (match ThumbnailUrls(it.thumbnails.value)
              case None => None
              case Some(urls) => Some(UrlList(urls)))
      case _ => None
  }

  /** The effect of `_set_api_data(fields, item)` on an entity's futures, and whether it
      finished without raising.  Field by field: create the future if missing, skip it
      if already set, otherwise set it to the computed value; a raise stops the loop. */
  function ApplyFields(cells: Cells, kind: Kind, fields: seq<Field>, item: Option<Item>, maxVideos: nat): (r: (Cells, bool))
    requires forall k :: k in fields ==> IsItemField(k)
    ensures !r.1 ==> exists k :: k in fields && k in r.0 && r.0[k].None?
    decreases |fields|
  {
    if fields == [] then (cells, true)
    else
      var k := fields[0];
      var c := if k in cells then cells else cells[k := None];
      if c[k].Some? then ApplyFields(c, kind, fields[1..], item, maxVideos)
      else match FieldValue(kind, k, item, maxVideos)
        case None => (c, false)
        case Some(v) => ApplyFields(c[k := Some(v)], kind, fields[1..], item, maxVideos)
  }

  /** A future that is already set is never overwritten. */
  lemma {:induction false} ApplyKeepsSet(cells: Cells, kind: Kind, fields: seq<Field>, item: Option<Item>, maxVideos: nat)
    requires forall k :: k in fields ==> IsItemField(k)
    ensures var r := ApplyFields(cells, kind, fields, item, maxVideos).0;
            forall k :: IsSet(cells, k) ==> k in r && r[k] == cells[k]
    decreases |fields|
  {
    if fields != [] {
      var k := fields[0];
      var c := if k in cells then cells else cells[k := None];
      if c[k].Some? {
        ApplyKeepsSet(c, kind, fields[1..], item, maxVideos);
      } else if FieldValue(kind, k, item, maxVideos).Some? {
        ApplyKeepsSet(c[k := Some(FieldValue(kind, k, item, maxVideos).value)], kind, fields[1..], item, maxVideos);
      }
    }
  }

  /** No future is dropped. */
  lemma {:induction false} ApplyKeepsFutures(cells: Cells, kind: Kind, fields: seq<Field>, item: Option<Item>, maxVideos: nat)
    requires forall k :: k in fields ==> IsItemField(k)
    ensures forall k :: k in cells ==> k in ApplyFields(cells, kind, fields, item, maxVideos).0
    decreases |fields|
  {
    if fields != [] {
      var k := fields[0];
      var c := if k in cells then cells else cells[k := None];
      if c[k].Some? {
        ApplyKeepsFutures(c, kind, fields[1..], item, maxVideos);
      } else if FieldValue(kind, k, item, maxVideos).Some? {
        ApplyKeepsFutures(c[k := Some(FieldValue(kind, k, item, maxVideos).value)], kind, fields[1..], item, maxVideos);
      }
    }
  }

  /** Futures of fields not named in `fields` are neither created nor changed. */
  lemma {:induction false} ApplyOnlyFields(cells: Cells, kind: Kind, fields: seq<Field>, item: Option<Item>, maxVideos: nat)
    requires forall k :: k in fields ==> IsItemField(k)
    ensures var r := ApplyFields(cells, kind, fields, item, maxVideos).0;
            forall k :: k !in fields ==> (k in r <==> k in cells) && (k in cells ==> r[k] == cells[k])
    decreases |fields|
  {
    if fields != [] {
      var k := fields[0];
      var c := if k in cells then cells else cells[k := None];
      if c[k].Some? {
        ApplyOnlyFields(c, kind, fields[1..], item, maxVideos);
      } else if FieldValue(kind, k, item, maxVideos).Some? {
        ApplyOnlyFields(c[k := Some(FieldValue(kind, k, item, maxVideos).value)], kind, fields[1..], item, maxVideos);
      }
    }
  }

  /** Without a raise, every requested field ends with a set future. */
  lemma {:induction false} ApplyCompletes(cells: Cells, kind: Kind, fields: seq<Field>, item: Option<Item>, maxVideos: nat)
    requires forall k :: k in fields ==> IsItemField(k)
    ensures var r := ApplyFields(cells, kind, fields, item, maxVideos);
            r.1 ==> forall k :: k in fields ==> IsSet(r.0, k)
    decreases |fields|
  {
    if fields != [] {
      var k := fields[0];
      var c := if k in cells then cells else cells[k := None];
      var next := if c[k].Some? then c else c[k := FieldValue(kind, k, item, maxVideos)];
      if c[k].Some? || FieldValue(kind, k, item, maxVideos).Some? {
        ApplyCompletes(next, kind, fields[1..], item, maxVideos);
        ApplyKeepsSet(next, kind, fields[1..], item, maxVideos);
      }
    }
  }

  /** Every future the call sets holds the value computed for its field. */
  lemma {:induction false} ApplyValues(cells: Cells, kind: Kind, fields: seq<Field>, item: Option<Item>, maxVideos: nat)
    requires forall k :: k in fields ==> IsItemField(k)
    ensures var r := ApplyFields(cells, kind, fields, item, maxVideos).0;
            forall k :: IsSet(r, k) && !IsSet(cells, k) ==> k in fields && Some(r[k].value) == FieldValue(kind, k, item, maxVideos)
    decreases |fields|
  {
    if fields != [] {
      var k := fields[0];
      var c := if k in cells then cells else cells[k := None];
      if c[k].Some? {
        ApplyValues(c, kind, fields[1..], item, maxVideos);
      } else if FieldValue(kind, k, item, maxVideos).Some? {
        var next := c[k := Some(FieldValue(kind, k, item, maxVideos).value)];
        ApplyValues(next, kind, fields[1..], item, maxVideos);
        ApplyKeepsSet(next, kind, fields[1..], item, maxVideos);
      }
    }
  }

  /** The call raises exactly when some requested field that is not yet set has no
      computable value. */
  lemma {:induction false} ApplyRaises(cells: Cells, kind: Kind, fields: seq<Field>, item: Option<Item>, maxVideos: nat)
    requires forall k :: k in fields ==> IsItemField(k)
    ensures !ApplyFields(cells, kind, fields, item, maxVideos).1 <==>
            exists k :: k in fields && !IsSet(cells, k) && FieldValue(kind, k, item, maxVideos).None?
    decreases |fields|
  {
    if fields != [] {
      var k := fields[0];
      var c := if k in cells then cells else cells[k := None];
      if c[k].Some? {
        ApplyRaises(c, kind, fields[1..], item, maxVideos);
        assert IsSet(cells, k);
        assert forall j :: IsSet(c, j) <==> IsSet(cells, j);
      } else if FieldValue(kind, k, item, maxVideos).Some? {
        var next := c[k := Some(FieldValue(kind, k, item, maxVideos).value)];
        ApplyRaises(next, kind, fields[1..], item, maxVideos);
        assert forall j :: j != k ==> (IsSet(next, j) <==> IsSet(cells, j));
      } else {
        assert k in fields && !IsSet(cells, k);
      }
    }
  }

  /** A scraped search result whose `uploader` group did not match: `create_object`'s
      `_set_api_data(['title', 'channel'], item)` stores the null channel as the absent
      value and does not raise. */
  lemma NullChannelStored(title: string, maxVideos: nat)
    ensures var item := Item(Some(title), Some(None), None, None, None);
            ApplyFields(map[], VideoKind, [Title, Channel], Some(item), maxVideos)
            == (map[Title := Some(Text(title)), Channel := Some(Absent)], true)
  {
    var item := Item(Some(title), Some(None), None, None, None);
    var c1 := map[Title := Some(Text(title))];
    assert [Title, Channel][1..] == [Channel] && [Channel][1..] == [];
    var m0: Cells := map[];
    assert m0[Title := None][Title := Some(Text(title))] == c1;
    assert Channel !in c1 && c1[Channel := None][Channel := Some(Absent)] == c1[Channel := Some(Absent)];
    assert FieldValue(VideoKind, Title, Some(item), maxVideos) == Some(Text(title));
    assert FieldValue(VideoKind, Channel, Some(item), maxVideos) == Some(Absent);
    assert ApplyFields(map[], VideoKind, [Title, Channel], Some(item), maxVideos)
           == ApplyFields(c1, VideoKind, [Channel], Some(item), maxVideos);
    assert ApplyFields(c1, VideoKind, [Channel], Some(item), maxVideos)
           == ApplyFields(c1[Channel := Some(Absent)], VideoKind, [], Some(item), maxVideos);
  }

  /** A missing item (`dict.get` found no entry, or the lookup failed) sets every
      requested future that was not yet set to `None`, and does not raise. */
  lemma AbsentItemClearsAll(cells: Cells, kind: Kind, fields: seq<Field>, maxVideos: nat)
    requires forall k :: k in fields ==> IsItemField(k)
    ensures var r := ApplyFields(cells, kind, fields, None, maxVideos);
            r.1 && forall k :: k in fields ==> IsSet(r.0, k) && r.0[k] == if IsSet(cells, k) then cells[k] else Some(Absent)
  {
    ApplyRaises(cells, kind, fields, None, maxVideos);
    ApplyCompletes(cells, kind, fields, None, maxVideos);
    ApplyKeepsSet(cells, kind, fields, None, maxVideos);
    ApplyValues(cells, kind, fields, None, maxVideos);
  }

  /** Once every requested field is set, the call changes nothing. */
  lemma {:induction false} ApplyAllSet(cells: Cells, kind: Kind, fields: seq<Field>, item: Option<Item>, maxVideos: nat)
    requires forall k :: k in fields ==> IsItemField(k)
    requires forall k :: k in fields ==> IsSet(cells, k)
    ensures ApplyFields(cells, kind, fields, item, maxVideos) == (cells, true)
    decreases |fields|
  {
    if fields != [] {
      assert IsSet(cells, fields[0]);
      assert forall k :: k in fields[1..] ==> k in fields;
      ApplyAllSet(cells, kind, fields[1..], item, maxVideos);
    }
  }

  /** Repeating a call that did not raise changes nothing. */
  lemma ApplyIdempotent(cells: Cells, kind: Kind, fields: seq<Field>, item: Option<Item>, maxVideos: nat)
    requires forall k :: k in fields ==> IsItemField(k)
    ensures var r := ApplyFields(cells, kind, fields, item, maxVideos);
            r.1 ==> ApplyFields(r.0, kind, fields, item, maxVideos) == r
  {
    ApplyCompletes(cells, kind, fields, item, maxVideos);
    var r := ApplyFields(cells, kind, fields, item, maxVideos);
    if r.1 {
      ApplyAllSet(r.0, kind, fields, item, maxVideos);
    }
  }

  /** Some field in `fields` has no future yet. */
  predicate LacksAny(cells: Cells, fields: seq<Field>) {
    exists k :: k in fields && k !in cells
  }

  /** The futures after `add(obj)` in `_add_futures`: a new, unset future for every
      field in `fields` that had none. */
  function WithFutures(cells: Cells, fields: seq<Field>): Cells {
    map k | k in cells.Keys + (set f | f in fields) :: if k in cells then cells[k] else None
  }

  /** Existing futures are kept, every requested field gets one, and the new ones are
      unset; a future is added exactly when one was lacking. */
  lemma WithFuturesSpec(cells: Cells, fields: seq<Field>)
    ensures var w := WithFutures(cells, fields);
            (forall k :: k in cells ==> k in w && w[k] == cells[k])
            && (forall k :: k in fields ==> k in w)
            && (forall k :: k in w && k !in cells ==> k in fields && w[k].None?)
            && (w != cells <==> LacksAny(cells, fields))
  {
    var w := WithFutures(cells, fields);
    if !LacksAny(cells, fields) {
      assert w.Keys == cells.Keys;
    } else {
      var k :| k in fields && k !in cells;
      assert k in w;
    }
  }

  /** Adding futures keeps what an earlier step kept. */
  lemma KeepsSetWithFutures(c0: Cells, c1: Cells, fields: seq<Field>)
    requires KeepsSet(c0, c1)
    ensures KeepsSet(c0, WithFutures(c1, fields))
  {
    WithFuturesSpec(c1, fields);
  }

  lemma WithFuturesIdempotent(cells: Cells, fields: seq<Field>)
    ensures WithFutures(WithFutures(cells, fields), fields) == WithFutures(cells, fields)
  {
  }

  /** Distinct positions hold distinct objects. */
  predicate Distinct(s: seq<Entry>) {
    forall i, j :: 0 <= i < j < |s| ==> s[i] != s[j]
  }

  /** The list `_add_futures` returns: in order, each object that lacked a future for
      some field when `add` reached it.  A later occurrence of an object finds every
      future in place, so only its first occurrence can be kept. */
  function Kept(list: seq<Entry>, fields: seq<Field>): seq<Entry>
    reads list
  {
    if list == [] then []
    else
      var init, last := list[..|list| - 1], list[|list| - 1];
      Kept(init, fields) + (if last !in init && LacksAny(last.cells, fields) then [last] else [])
  }

  /** The position of the first occurrence of `e`. */
  function FirstIndex(list: seq<Entry>, e: Entry): (i: nat)
    requires e in list
    ensures i < |list| && list[i] == e && e !in list[..i]
  {
    if list[0] == e then 0 else assert list == [list[0]] + list[1..]; 1 + FirstIndex(list[1..], e)
  }

  lemma FirstIndexInit(list: seq<Entry>, e: Entry)
    requires list != [] && e in list[..|list| - 1]
    ensures FirstIndex(list, e) == FirstIndex(list[..|list| - 1], e)
  {
    var init := list[..|list| - 1];
    var i, j := FirstIndex(list, e), FirstIndex(init, e);
    assert forall n :: 0 <= n < |init| ==> list[n] == init[n];
    assert list[j] == e;
    assert i <= j;
    assert init[i] == e;
  }

  /** Appending an object leaves the first positions of the others as they were. */
  lemma FirstIndexSnoc(list: seq<Entry>, v: Entry, e: Entry)
    requires e in list + [v]
    ensures FirstIndex(list + [v], e) == if e in list then FirstIndex(list, e) else |list|
  {
    var l := list + [v];
    assert l[..|l| - 1] == list;
    if e in list {
      FirstIndexInit(l, e);
    }
  }

  /** An object is kept exactly when it is in the list and lacked a future. */
  lemma {:induction false} KeptMembers(list: seq<Entry>, fields: seq<Field>)
    ensures forall e :: e in Kept(list, fields) <==> e in list && LacksAny(e.cells, fields)
    decreases |list|
  {
    if list != [] {
      var init := list[..|list| - 1];
      KeptMembers(init, fields);
      assert list == init + [list[|list| - 1]];
    }
  }

  lemma KeptMember(list: seq<Entry>, fields: seq<Field>, e: Entry)
    requires e in Kept(list, fields)
    ensures e in list && LacksAny(e.cells, fields)
  {
    KeptMembers(list, fields);
  }

  /** No object is returned twice. */
  lemma {:induction false} KeptDistinct(list: seq<Entry>, fields: seq<Field>)
    ensures Distinct(Kept(list, fields))
    decreases |list|
  {
    if list != [] {
      var init := list[..|list| - 1];
      KeptDistinct(init, fields);
      KeptMembers(init, fields);
    }
  }

  /** The kept objects come in the order of their first occurrences in the list. */
  lemma {:induction false} KeptOrder(list: seq<Entry>, fields: seq<Field>)
    ensures forall e :: e in Kept(list, fields) ==> e in list
    ensures var r := Kept(list, fields);
            forall i, j :: 0 <= i < j < |r| ==> FirstIndex(list, r[i]) < FirstIndex(list, r[j])
    decreases |list|, 1
  {
    KeptMembers(list, fields);
    if list != [] {
      var init, last := list[..|list| - 1], list[|list| - 1];
      KeptOrder(init, fields);
      KeptShift(list, fields);
      var r0 := Kept(init, fields);
      var r := Kept(list, fields);
      if last !in init && LacksAny(last.cells, fields) {
        assert forall n :: 0 <= n < |init| ==> list[n] == init[n];
        assert FirstIndex(list, last) == |init|;
        assert r == r0 + [last];
        forall i, j | 0 <= i < j < |r| ensures FirstIndex(list, r[i]) < FirstIndex(list, r[j]) {
          assert r[i] == r0[i];
          assert FirstIndex(list, r0[i]) < |init|;
          if j < |r0| {
            assert r[j] == r0[j];
            KeptOrderAt(init, fields, i, j);
          }
        }
      } else {
        assert r == r0;
        forall i, j | 0 <= i < j < |r| ensures FirstIndex(list, r[i]) < FirstIndex(list, r[j]) {
          KeptOrderAt(init, fields, i, j);
        }
      }
    }
  }

  lemma KeptOrderAt(list: seq<Entry>, fields: seq<Field>, i: nat, j: nat)
    requires i < j < |Kept(list, fields)|
    ensures Kept(list, fields)[i] in list && Kept(list, fields)[j] in list
    ensures FirstIndex(list, Kept(list, fields)[i]) < FirstIndex(list, Kept(list, fields)[j])
    decreases |list|, 2
  {
    KeptOrder(list, fields);
  }

  /** The objects kept from all but the last element have the same first position in the
      whole list. */
  lemma {:induction false} KeptShift(list: seq<Entry>, fields: seq<Field>)
    requires list != []
    ensures var init := list[..|list| - 1];
            var r0 := Kept(init, fields);
            forall i :: 0 <= i < |r0| ==> r0[i] in init && FirstIndex(list, r0[i]) == FirstIndex(init, r0[i]) < |init|
  {
    var init := list[..|list| - 1];
    KeptMembers(init, fields);
    var r0 := Kept(init, fields);
    forall i | 0 <= i < |r0| ensures r0[i] in init && FirstIndex(list, r0[i]) == FirstIndex(init, r0[i]) < |init| {
      assert r0[i] in r0;
      KeptMember(init, fields, r0[i]);
      FirstIndexInit(list, r0[i]);
    }
  }

  /** What `_add_futures` promises of the list it returns: no object twice, exactly
      the objects of `list` that lack a future for one of `fields`, in the order of
      their first occurrences. */
  ghost predicate KeptSpec(list: seq<Entry>, fields: seq<Field>, kept: seq<Entry>)
    reads list
  {
    Distinct(kept)
    && (forall e :: e in kept ==> e in list && LacksAny(e.cells, fields))
    && (forall e :: e in list && LacksAny(e.cells, fields) ==> e in kept)
    && forall i, j :: 0 <= i < j < |kept| ==>
         kept[i] in list && kept[j] in list && FirstIndex(list, kept[i]) < FirstIndex(list, kept[j])
  }

  lemma KeptMeetsSpec(list: seq<Entry>, fields: seq<Field>)
    ensures KeptSpec(list, fields, Kept(list, fields))
  {
    KeptDistinct(list, fields);
    KeptMembers(list, fields);
    KeptOrder(list, fields);
  }

  /** After a caller has added every future, a second request keeps nothing. */
  lemma {:induction false} KeptNoneWhenComplete(list: seq<Entry>, fields: seq<Field>)
    requires forall e :: e in list ==> forall k :: k in fields ==> k in e.cells
    ensures Kept(list, fields) == []
    decreases |list|
  {
    if list != [] {
      var init := list[..|list| - 1];
      assert forall e :: e in init ==> e in list;
      KeptNoneWhenComplete(init, fields);
      assert !LacksAny(list[|list| - 1].cells, fields);
    }
  }

  /** `Video.thumbnails`: the medium- and high-quality still of the video, in that order. */
  function VideoThumbnailUrls(id: string): (urls: seq<string>)
    ensures |urls| == 2
  {
    ["https://i.ytimg.com/vi/" + id + "/mqdefault.jpg", "https://i.ytimg.com/vi/" + id + "/hqdefault.jpg"]
  }

  /** Each URL has the fixed host and path prefix, carries the id between them and the
      size name, and the two differ only in the size name `mqdefault` / `hqdefault`. */
  lemma VideoThumbnailUrlsSpec(id: string)
    ensures var urls := VideoThumbnailUrls(id);
            var prefix := "https://i.ytimg.com/vi/";
            |urls| == 2
            && (forall i :: 0 <= i < 2 ==> urls[i][..|prefix|] == prefix && urls[i][|prefix|..|prefix| + |id|] == id)
            && urls[0][|prefix| + |id|..] == "/mqdefault.jpg"
            && urls[1][|prefix| + |id|..] == "/hqdefault.jpg"
            && urls[0] != urls[1]
  {
    var prefix := "https://i.ytimg.com/vi/";
    var urls := VideoThumbnailUrls(id);
    assert urls[0] == prefix + id + "/mqdefault.jpg";
    assert urls[1] == prefix + id + "/hqdefault.jpg";
    assert urls[0][|prefix| + |id| + 1] == 'm' && urls[1][|prefix| + |id| + 1] == 'h';
  }

  /** A video or a playlist.  `kind` and `id` never change after `Entry.get` set them. */
  class Entry {
    const kind: Kind
    const id: string
    var cells: Cells

    constructor (kind: Kind, id: string)
      ensures this.kind == kind && this.id == id && cells == map[]
    {
      this.kind := kind;
      this.id := id;
      cells := map[];
    }

    /** `add(obj)` inside `_add_futures`: give every field in `fields` a future, and
        report whether one had to be created. */
    method AddMissing(fields: seq<Field>) returns (added: bool)
      modifies this
      ensures cells == WithFutures(old(cells), fields)
      ensures added == LacksAny(old(cells), fields)
    {
      added := false;
      var j := 0;
      while j < |fields|
        invariant 0 <= j <= |fields|
        invariant cells == WithFutures(old(cells), fields[..j])
        invariant added == LacksAny(old(cells), fields[..j])
      {
        var k := fields[j];
        if k !in cells {
          cells := cells[k := None];
          added := true;
        }
        assert fields[..j + 1] == fields[..j] + [k];
        j := j + 1;
      }
      assert fields[..j] == fields;
    }

    /** `Entry._add_futures(list, fields)`: add the missing futures to every object and
        return, in order, those that lacked one. */
    static method AddFutures(list: seq<Entry>, fields: seq<Field>) returns (kept: seq<Entry>)
      modifies list
      ensures kept == old(Kept(list, fields))
      ensures forall e :: e in list ==> e.cells == WithFutures(old(e.cells), fields)
    {
      kept := [];
      var i := 0;
      while i < |list|
        invariant 0 <= i <= |list|
        invariant kept == old(Kept(list[..i], fields))
        invariant forall e :: e in list[..i] ==> e.cells == WithFutures(old(e.cells), fields)
        invariant forall e :: e in list && e !in list[..i] ==> e.cells == old(e.cells)
      {
        var obj := list[i];
        ghost var seen := obj in list[..i];
        ghost var step := if !seen && LacksAny(old(obj.cells), fields) then [obj] else [];
        assert list[..i + 1] == list[..i] + [obj];
        assert old(Kept(list[..i + 1], fields)) == old(Kept(list[..i], fields)) + step;
        assert seen ==> !LacksAny(obj.cells, fields) by {
          if seen {
            WithFuturesSpec(old(obj.cells), fields);
          }
        }
        var added := obj.AddMissing(fields);
        assert added <==> step != [];
        if added {
          kept := kept + [obj];
        }
        i := i + 1;
      }
      assert list[..|list|] == list;
    }

    /** `future.set(v)` on the future of field `f`: a future can be set once, and a
        second `set` raises (`ok` is false) and changes nothing. */
    method SetFuture(f: Field, v: Value) returns (ok: bool)
      modifies this
      ensures ok <==> !IsSet(old(cells), f)
      ensures cells == if ok then old(cells)[f := Some(v)] else old(cells)
    {
      ok := !(f in cells && cells[f].Some?);
      if ok {
        cells := cells[f := Some(v)];
      }
    }

    /** `_set_api_data(fields, item)`: fill the requested futures that are not yet set;
        `ok` is false where the source raises, leaving the later fields untouched. */
    method SetApiData(fields: seq<Field>, item: Option<Item>, maxVideos: nat) returns (ok: bool)
      requires forall k :: k in fields ==> IsItemField(k)
      modifies this
      ensures (cells, ok) == ApplyFields(old(cells), kind, fields, item, maxVideos)
    {
      var i := 0;
      while i < |fields|
        invariant 0 <= i <= |fields|
        invariant ApplyFields(old(cells), kind, fields, item, maxVideos)
                  == ApplyFields(cells, kind, fields[i..], item, maxVideos)
      {
        var k := fields[i];
        assert fields[i..][0] == k && fields[i..][1..] == fields[i + 1..];
        if k !in cells {
          cells := cells[k := None];
        }
        if cells[k].None? {
          var v := FieldValue(kind, k, item, maxVideos);
          if v.None? {
            return false;
          }
          cells := cells[k := v];
        }
        i := i + 1;
      }
      return true;
    }
  }

  /** The capacity of the `Entry.get` cache, shared by videos and playlists. */
  const CacheMaxLen: nat := 400

  /** The cache index after looking `key` up: a hit leaves it as it was; otherwise no
      other entry changes, and at most one is dropped, only when the cache was full. */
  predicate LookupStep(before: map<(Kind, string), Entry>, after: map<(Kind, string), Entry>, key: (Kind, string)) {
    (key in before ==> after == before)
    && (forall k :: k in after && k != key ==> k in before && after[k] == before[k])
    && (|before| < CacheMaxLen ==> before.Keys <= after.Keys)
    && (forall a, b :: a in before && a !in after && b in before && b !in after ==> a == b)
  }

  /** The `lru_cache` behind `Entry.get`, keyed by class and id.  An entry is evicted
      only when the cache is full, one at a time; which one is the library's business
      and is left open here. */
  class EntityCache {
    var index: map<(Kind, string), Entry>

    ghost predicate Valid()
      reads this
    {
      |index| <= CacheMaxLen
      && forall key :: key in index ==> index[key].kind == key.0 && index[key].id == key.1
    }

    constructor ()
      ensures Valid() && index == map[]
    {
      index := map[];
    }

    /** `Video.get(id)` / `Playlist.get(id)`: the cached entity, or a fresh one that
        is added, replacing one entry when the cache is full. */
    method Get(kind: Kind, id: string) returns (e: Entry)
      requires Valid()
      modifies this
      ensures Valid()
      ensures e.kind == kind && e.id == id
      ensures (kind, id) in index && index[(kind, id)] == e
      ensures (kind, id) in old(index) ==> e == old(index[(kind, id)])
      ensures (kind, id) !in old(index) ==> fresh(e) && e.cells == map[]
      ensures LookupStep(old(index), index, (kind, id))
    {
      if (kind, id) in index {
        e := index[(kind, id)];
      } else {
        e := new Entry(kind, id);
        if |index| >= CacheMaxLen {
          var victim :| victim in index;
          index := index - {victim};
        }
        index := index[(kind, id) := e];
      }
    }
  }
}
