/** The running system of `mopidy_youtube/youtube.py`: the entity cache, the thread
    pool and the jobs it runs, the lazy properties and `Entry.search`.

    The data source (`API` or `scrAPI`, chosen by `api_enabled`) and youtube_dl are
    one collaborator, `Source`, fixed for a run; its answers are given, not fetched.
    A job runs to completion when a worker takes it; worker threads are not
    interleaved. */
module Youtube {
  import opened Wrappers
  import opened Items
  import opened Entries
  import opened Batching
  import opened Pool
  import opened Replies
  import opened Fills

  /** The outcome of `youtube_dl.YoutubeDL(...).extract_info(...)`: an exception, or the
      info dictionary's `url`, which may be missing. */
  datatype Extraction = ExtractFails | Extracted(url: Option<string>)

  /** The answers of the data source.  `None` from a lookup is a raised exception or a
      reply without `items`; the `n`-th page request for a playlist is answered by the
      `n`-th element of `playlistPages(id)`. */
  datatype Source = Source(
    search: string -> Option<seq<SearchItem>>,
    listVideos: seq<string> -> Option<seq<ListedItem>>,
    listPlaylists: seq<string> -> Option<seq<ListedItem>>,
    playlistPages: string -> seq<PageReply>,
    extract: string -> Extraction)

  /** A job submitted with `ThreadPool.run`: the batch job of `load_info`, the job of
      `Video.audio_url`, and the job of `Playlist.videos`. */
  datatype Job = Batch(kind: Kind, members: seq<Entry>) | AudioUrlJob(video: Entry) | VideosJob(playlist: Entry)

  /** One batch job per slice. */
  function BatchJobs(kind: Kind, slices: seq<seq<Entry>>): (jobs: seq<Job>)
    ensures |jobs| == |slices| && forall i :: 0 <= i < |slices| ==> jobs[i] == Batch(kind, slices[i])
  {
    if slices == [] then [] else [Batch(kind, slices[0])] + BatchJobs(kind, slices[1..])
  }

  /** The number of pending `Playlist.videos` jobs: only they submit further jobs. */
  function CountVideosJobs(jobs: seq<Job>): nat
    decreases |jobs|
  {
    if jobs == [] then 0
    else CountVideosJobs(jobs[..|jobs| - 1]) + (if jobs[|jobs| - 1].VideosJob? then 1 else 0)
  }

  /** The count of a concatenation is the sum of the counts. */
  lemma {:induction false} CountAppend(a: seq<Job>, b: seq<Job>)
    ensures CountVideosJobs(a + b) == CountVideosJobs(a) + CountVideosJobs(b)
    decreases |b|
  {
    if b == [] {
      assert a + b == a;
    } else {
      var ab := a + b;
      assert ab[..|ab| - 1] == a + b[..|b| - 1];
      assert ab[|ab| - 1] == b[|b| - 1];
      CountAppend(a, b[..|b| - 1]);
    }
  }

  /** Batch jobs never add to the count of pending `Playlist.videos` jobs. */
  lemma {:induction false} CountAfterBatches(jobs: seq<Job>, kind: Kind, slices: seq<seq<Entry>>)
    ensures CountVideosJobs(jobs + BatchJobs(kind, slices)) == CountVideosJobs(jobs)
    decreases |slices|
  {
    CountAppend(jobs, BatchJobs(kind, slices));
    if slices != [] {
      var rest := BatchJobs(kind, slices[1..]);
      CountAfterBatches([Batch(kind, slices[0])], kind, slices[1..]);
      assert CountVideosJobs([Batch(kind, slices[0])]) == 0 by {
        assert [Batch(kind, slices[0])][..0] == [];
      }
    }
  }

  /** The loop's slice at `i = 50 j` is slice `j`, and submitting it extends the jobs
      submitted so far by one. */
  lemma NextSlice(kind: Kind, kept: seq<Entry>, j: nat)
    requires BatchSize * j < |kept|
    ensures j < |Chunks(kept)|
    ensures Chunks(kept)[j] == kept[BatchSize * j .. Min(BatchSize * j + BatchSize, |kept|)]
    ensures BatchJobs(kind, Chunks(kept)[..j + 1]) == BatchJobs(kind, Chunks(kept)[..j]) + [Batch(kind, Chunks(kept)[j])]
  {
    ChunkIndex(kept, j);
    ChunkAt(kept, j);
    var slices := Chunks(kept);
    assert slices[..j + 1][..j] == slices[..j];
  }

  lemma DistinctSlice(s: seq<Entry>, lo: nat, hi: nat)
    requires Distinct(s) && lo <= hi <= |s|
    ensures Distinct(s[lo..hi])
  {
    forall i, j | 0 <= i < j < hi - lo ensures s[lo..hi][i] != s[lo..hi][j] {
      assert s[lo..hi][i] == s[lo + i] && s[lo..hi][j] == s[lo + j];
    }
  }

  /** What a job may touch: live entities, batch members listed once, and a
      `Playlist.videos` job for a playlist. */
  ghost predicate JobWithin(job: Job, entities: set<Entry>) {
    match job
    case Batch(_, members) => (forall e :: e in members ==> e in entities) && Distinct(members)
    case AudioUrlJob(v) => v in entities
    case VideosJob(p) => p in entities && p.kind == PlaylistKind
  }

  /** Jobs within a set of entities stay within any larger set. */
  lemma JobsWithinGrow(jobs: seq<Job>, small: set<Entry>, large: set<Entry>)
    requires small <= large && forall job :: job in jobs ==> JobWithin(job, small)
    ensures forall job :: job in jobs ==> JobWithin(job, large)
  {
  }

  /** An item that makes the loop over a page raise where the video has no title yet:
      it has no `videoId`, or no title. */
  predicate Unusable(it: PlaylistItem) {
    it.videoId.None? || it.item.title.None?
  }

  /** Some item of the page names video `e`. */
  predicate OnPage(e: Entry, items: seq<PlaylistItem>) {
    e.kind == VideoKind && exists i :: 0 <= i < |items| && items[i].videoId == Some(e.id)
  }

  /** `mine[i]` is the video that item `i` names, for each video of `mine`. */
  predicate VideosOf(mine: seq<Entry>, items: seq<PlaylistItem>) {
    |mine| <= |items|
    && forall i :: 0 <= i < |mine| ==> mine[i].kind == VideoKind && items[i].videoId == Some(mine[i].id)
  }

  lemma VideosOfSnoc(mine: seq<Entry>, items: seq<PlaylistItem>, v: Entry)
    requires VideosOf(mine, items) && |mine| < |items|
    requires v.kind == VideoKind && items[|mine|].videoId == Some(v.id)
    ensures VideosOf(mine + [v], items)
  {
  }

  /** The calls of the loop over a page's items: `_set_api_data(['title'], item)`. */
  function TitleFills(items: seq<PlaylistItem>): (fills: seq<Fill>)
    ensures |fills| == |items| && ItemFills(fills)
    ensures forall i :: 0 <= i < |items| ==> fills[i] == Fill([Title], items[i].item)
  {
    seq(|items|, i requires 0 <= i < |items| => Fill([Title], items[i].item))
  }

  /** Once every item of a page named its video: the videos are on the page, and every
      other entity keeps its futures. */
  lemma TitledFrame(before: map<Entry, Cells>, mine: seq<Entry>, items: seq<PlaylistItem>, maxVideos: nat)
    requires VideosOf(mine, items) && |mine| == |items|
    ensures var titled := FillAll(before, mine, TitleFills(items), maxVideos);
            before.Keys <= titled.Keys
            && (forall e :: e in mine ==> e.kind == VideoKind && e in titled && OnPage(e, items))
            && (forall e :: e in before && e !in mine ==> titled[e] == before[e])
            && (forall e :: e in before ==> KeepsSet(before[e], titled[e]))
  {
    FillAllOthers(before, mine, TitleFills(items), maxVideos);
    FillAllKeepsSet(before, mine, TitleFills(items), maxVideos);
    forall e | e in mine ensures e.kind == VideoKind && OnPage(e, items) {
      var i :| 0 <= i < |mine| && mine[i] == e;
    }
  }

  /** A page's loop that ran through leaves every video of the page with its title
      set. */
  lemma TitlesSet(before: map<Entry, Cells>, mine: seq<Entry>, items: seq<PlaylistItem>, maxVideos: nat)
    requires |mine| <= |items| && FillsRun(before, mine, TitleFills(items), maxVideos)
    ensures var titled := FillAll(before, mine, TitleFills(items), maxVideos);
            forall e :: e in mine ==> e in titled && IsSet(titled[e], Title)
  {
    var fills := TitleFills(items);
    assert SameFields(mine, fills);
    FillsRunFirst(before, mine, fills, maxVideos);
    forall e | e in mine ensures IsSet(FillAll(before, mine, fills, maxVideos)[e], Title) {
      var j := FirstIndex(mine, e);
      assert fills[j].fields == [Title];
    }
  }

  /** `_set_api_data(['title'], item)` raises only where the item has no title. */
  lemma TitleRaises(cells: map<Entry, Cells>, v: Entry, item: Item, maxVideos: nat)
    requires !FillStep(cells, v, Fill([Title], item), maxVideos).1
    ensures item.title.None?
  {
    ApplyRaises(BaseOf(cells, v), v.kind, [Title], Some(item), maxVideos);
  }

  /** Whatever the first `n` items of a page produced, the futures after them keep every
      set future and change only videos that some item names; so do the futures after
      one more call, on a video that the next item names. */
  lemma PageFrame(before: map<Entry, Cells>, mine: seq<Entry>, items: seq<PlaylistItem>, touched: Option<Entry>,
                  maxVideos: nat)
    requires VideosOf(mine, items)
    requires touched.Some? ==> |mine| < |items| && touched.value.kind == VideoKind && items[|mine|].videoId == Some(touched.value.id)
    ensures var fills := TitleFills(items);
            var mid := FillAll(before, mine, fills, maxVideos);
            var after := if touched.Some? then FillStep(mid, touched.value, fills[|mine|], maxVideos).0 else mid;
            before.Keys <= after.Keys
            && (forall e :: e in before && !OnPage(e, items) ==> after[e] == before[e])
            && (forall e :: e in before ==> KeepsSet(before[e], after[e]))
  {
    var fills := TitleFills(items);
    var mid := FillAll(before, mine, fills, maxVideos);
    FillAllOthers(before, mine, fills, maxVideos);
    FillAllKeepsSet(before, mine, fills, maxVideos);
    forall e | e in mine ensures OnPage(e, items) {
      var i :| 0 <= i < |mine| && mine[i] == e;
    }
    if touched.Some? {
      assert OnPage(touched.value, items);
      FillStepKeepsSet(mid, touched.value, fills[|mine|], maxVideos);
      var after := FillStep(mid, touched.value, fills[|mine|], maxVideos).0;
      forall e | e in before ensures KeepsSet(before[e], after[e]) {
        KeepsSetTrans(before[e], mid[e], after[e]);
      }
    }
  }

  /** The call `create_object` makes on the entity a search result names:
      `_set_api_data` with the search fields of its kind (none where it names no
      entity). */
  function SearchFill(it: SearchItem): (f: Fill)
    ensures forall k :: k in f.fields ==> IsItemField(k)
    ensures Target(it).Some? ==> f.fields == SearchFields(Target(it).value.0)
  {
    Fill(if Target(it).Some? then SearchFields(Target(it).value.0) else [], it.item)
  }

  /** The calls of `create_object` over a search reply, in order. */
  function SearchFills(reply: seq<SearchItem>): (fills: seq<Fill>)
    ensures |fills| == |reply| && ItemFills(fills)
    ensures forall i :: 0 <= i < |reply| ==> fills[i] == SearchFill(reply[i])
  {
    seq(|reply|, i requires 0 <= i < |reply| => SearchFill(reply[i]))
  }

  /** The call on the entity a result names raises only where a search field has no
      value in the item. */
  lemma SearchRaises(cells: map<Entry, Cells>, x: Entry, it: SearchItem, maxVideos: nat)
    requires Target(it) == Some((x.kind, x.id)) && !FillStep(cells, x, SearchFill(it), maxVideos).1
    ensures CreateRaises(it, maxVideos)
  {
    ApplyRaises(BaseOf(cells, x), x.kind, SearchFields(x.kind), Some(it.item), maxVideos);
  }

  /** Some result of the reply names entity `e`. */
  predicate NamedBy(e: Entry, reply: seq<SearchItem>) {
    exists i :: 0 <= i < |reply| && Target(reply[i]) == Some((e.kind, e.id))
  }

  /** `found[i]` is the entity result `i` names, for each entity of `found`. */
  predicate NamesOf(found: seq<Entry>, reply: seq<SearchItem>) {
    |found| <= |reply| && forall i :: 0 <= i < |found| ==> Target(reply[i]) == Some((found[i].kind, found[i].id))
  }

  /** The entity the next result names extends `found`. */
  lemma NamesOfSnoc(found: seq<Entry>, reply: seq<SearchItem>, v: Entry)
    requires NamesOf(found, reply) && |found| < |reply| && Target(reply[|found|]) == Some((v.kind, v.id))
    ensures NamesOf(found + [v], reply)
  {
  }

  /** An entity named twice is asked for the same fields both times, so the futures a
      search leaves are those of the first result naming each entity (`FillsRunFirst`). */
  lemma SearchSameFields(found: seq<Entry>, reply: seq<SearchItem>)
    requires NamesOf(found, reply)
    ensures SameFields(found, SearchFills(reply))
  {
  }

  /** Whatever the first results produced, the futures after them keep every set future
      and change only entities that some result names; so do the futures after one more
      call, on the entity the next result names. */
  lemma SearchFrame(before: map<Entry, Cells>, found: seq<Entry>, reply: seq<SearchItem>, touched: Option<Entry>,
                    maxVideos: nat)
    requires NamesOf(found, reply)
    requires touched.Some? ==> |found| < |reply| && Target(reply[|found|]) == Some((touched.value.kind, touched.value.id))
    ensures var fills := SearchFills(reply);
            var mid := FillAll(before, found, fills, maxVideos);
            var after := if touched.Some? then FillStep(mid, touched.value, fills[|found|], maxVideos).0 else mid;
            before.Keys <= after.Keys
            && (forall e :: e in before && !NamedBy(e, reply) ==> after[e] == before[e])
            && (forall e :: e in before ==> KeepsSet(before[e], after[e]))
  {
    var fills := SearchFills(reply);
    var mid := FillAll(before, found, fills, maxVideos);
    FillAllOthers(before, found, fills, maxVideos);
    FillAllKeepsSet(before, found, fills, maxVideos);
    forall e | e in found ensures NamedBy(e, reply) {
      var i :| 0 <= i < |found| && found[i] == e;
    }
    if touched.Some? {
      assert NamedBy(touched.value, reply);
      FillStepKeepsSet(mid, touched.value, fills[|found|], maxVideos);
      var after := FillStep(mid, touched.value, fills[|found|], maxVideos).0;
      forall e | e in before ensures KeepsSet(before[e], after[e]) {
        KeepsSetTrans(before[e], mid[e], after[e]);
      }
    }
  }

  /** The module-level state of one run of the extension. */
  class Runtime {
    const source: Source
    const maxVideos: nat
    const cache: EntityCache
    const pool: ThreadPool<Job>
    /** Every entity handed out so far. */
    ghost var Entities: set<Entry>

    /** `m` holds the futures of exactly the entities handed out so far. */
    ghost predicate Mirrors(m: map<Entry, Cells>)
      reads this, Entities
    {
      m.Keys == Entities && forall e :: e in Entities ==> e.cells == m[e]
    }

    /** The futures of every entity handed out so far. */
    lemma Snapshot() returns (m: map<Entry, Cells>)
      ensures Mirrors(m)
    {
      m := map e | e in Entities :: e.cells;
    }

    /** Since the pool was in state `start`, no `videos` job was submitted and no
        running thread went away. */
    ghost predicate OnlyBatchJobsSince(start: PoolState<Job>)
      reads pool
    {
      CountVideosJobs(pool.jobs) == CountVideosJobs(start.jobs) && start.active <= pool.threadsActive
    }

    /** Since the call began, entities were only added, and each added one is new. */
    twostate predicate Grew()
      reads this
    {
      old(Entities) <= Entities && forall e :: e in Entities ==> e in old(Entities) || fresh(e)
    }

    ghost predicate Valid()
      reads this, cache, pool
    {
      cache.Valid() && pool.Valid()
      && cache.index.Values <= Entities
      && forall job :: job in pool.jobs ==> JobWithin(job, Entities)
    }

    constructor (source: Source, maxVideos: nat)
      ensures Valid()
      ensures this.source == source && this.maxVideos == maxVideos
      ensures cache.index == map[] && pool.jobs == [] && pool.threadsActive == 0 && Entities == {}
    {
      this.source := source;
      this.maxVideos := maxVideos;
      cache := new EntityCache();
      pool := new ThreadPool<Job>();
      Entities := {};
    }

    /** The reply to the batch lookup of `load_info`'s job. */
    function Reply(kind: Kind, members: seq<Entry>): Option<seq<ListedItem>> {
      match kind
      case VideoKind => source.listVideos(Ids(members))
      case PlaylistKind => source.listPlaylists(Ids(members))
    }

    /** The replies to the page requests for playlist `id`. */
    function PagesOf(id: string): seq<PageReply> {
      source.playlistPages(id)
    }

    /** What the loop of the `Playlist.videos` job makes of the replies for playlist `id`. */
    function Paging(id: string): Paged {
      Paginate(PagesOf(id), maxVideos)
    }

    /** The reply to `search(q)`. */
    function SearchReply(q: string): Option<seq<SearchItem>> {
      source.search(q)
    }

    /** The outcome of extracting the audio stream of video `id`. */
    function ExtractInfo(id: string): Extraction {
      source.extract(id)
    }

    /** `Video.get(id)` / `Playlist.get(id)`. */
    method Get(kind: Kind, id: string, ghost cells: map<Entry, Cells>) returns (e: Entry)
      requires Valid() && Mirrors(cells)
      modifies this, cache
      ensures Valid() && e in Entities && Entities == old(Entities) + {e}
      ensures e.kind == kind && e.id == id && (kind, id) in cache.index && cache.index[(kind, id)] == e
      ensures (kind, id) in old(cache.index) ==> e == old(cache.index[(kind, id)])
      ensures (kind, id) !in old(cache.index) ==> fresh(e) && e.cells == map[]
      ensures LookupStep(old(cache.index), cache.index, (kind, id))
      ensures MirrorsBut(cells, e)
    {
      e := cache.Get(kind, id);
      Entities := Entities + {e};
      JobsWithinGrow(pool.jobs, old(Entities), Entities);
    }

    /** `m` holds the futures of every entity handed out but `x`, which holds those `m`
        records for it (none where `m` has no entry for it). */
    ghost predicate MirrorsBut(m: map<Entry, Cells>, x: Entry)
      reads this, Entities
    {
      x in Entities && Entities == m.Keys + {x} && x.cells == BaseOf(m, x)
      && forall e :: e in Entities && e != x ==> e.cells == m[e]
    }

    /** `_set_api_data(f.fields, f.item)` on the entity `x` just handed out, seen on the
        futures of every entity: one `FillStep` on `cells`, the futures before the
        lookup. */
    method SetOn(x: Entry, f: Fill, ghost cells: map<Entry, Cells>) returns (ok: bool)
      requires MirrorsBut(cells, x) && forall k :: k in f.fields ==> IsItemField(k)
      modifies x
      ensures var step := FillStep(cells, x, f, maxVideos); Mirrors(step.0) && ok == step.1
    {
      ok := x.SetApiData(f.fields, Some(f.item), maxVideos);
      ghost var m := cells[x := x.cells];
      forall e | e in Entities ensures e.cells == m[e] {
        if e != x {
          assert e.cells == old(e.cells);
        }
      }
    }

    /** `Video.load_info(list)` (`kind` video) and `Playlist.load_info(list)`: add the
        futures, keep the entities that lacked one, and submit one batch job per slice
        of 50 of them, in order. */
    method LoadInfo(kind: Kind, list: seq<Entry>) returns (kept: seq<Entry>)
      requires Valid() && forall e :: e in list ==> e in Entities
      modifies list, pool
      ensures Valid()
      ensures kept == old(Kept(list, FieldsOf(kind)))
      ensures old(KeptSpec(list, FieldsOf(kind), kept))
      ensures forall e :: e in list ==> e.cells == WithFutures(old(e.cells), FieldsOf(kind))
      ensures pool.State() == RunAll(old(pool.State()), BatchJobs(kind, Chunks(kept)))
      ensures OnlyBatchJobsSince(old(pool.State()))
    {
      var fields := FieldsOf(kind);
      KeptMeetsSpec(list, fields);
      ghost var toKeep := Kept(list, fields);
      forall e | e in toKeep ensures e in Entities {
        KeptMember(list, fields, e);
      }
      ghost var pending := pool.State();
      kept := Entry.AddFutures(list, fields);
      assert kept == toKeep;
      SubmitSlices(kind, kept);
      RunAllSpec(pending, BatchJobs(kind, Chunks(kept)));
      CountAfterBatches(pending.jobs, kind, Chunks(kept));
    }

    /** The loop `for i in range(0, len(list), 50): ThreadPool.run(job, (list[i:i+50],))`. */
    method SubmitSlices(kind: Kind, kept: seq<Entry>)
      requires Valid() && Distinct(kept) && forall e :: e in kept ==> e in Entities
      modifies pool
      ensures Valid()
      ensures pool.State() == RunAll(old(pool.State()), BatchJobs(kind, Chunks(kept)))
    {
      ghost var slices := Chunks(kept);
      var i := 0;
      ghost var j := 0;
      while i < |kept|
        invariant j <= |slices| && i == BatchSize * j
        invariant Valid()
        invariant pool.State() == RunAll(old(pool.State()), BatchJobs(kind, slices[..j]))
      {
        ghost var done := BatchJobs(kind, slices[..j]);
        var sub := kept[i..Min(i + BatchSize, |kept|)];
        NextSlice(kind, kept, j);
        DistinctSlice(kept, i, Min(i + BatchSize, |kept|));
        Submit(Batch(kind, sub));
        RunAllSnoc(old(pool.State()), done, Batch(kind, sub));
        i := i + BatchSize;
        j := j + 1;
      }
      ChunkIndex(kept, j);
      assert slices[..j] == slices;
    }

    /** `ThreadPool.run(job)` for a job over live entities. */
    method Submit(job: Job)
      requires Valid() && JobWithin(job, Entities)
      modifies pool
      ensures Valid()
      ensures pool.State() == RunStep(old(pool.State()), job)
    {
      var _ := pool.Run(job);
    }

    /** The job of `load_info` for one slice: one lookup for all members, then
        `_set_api_data(fields, dict.get(id))` for each member in order.  A raise in
        `_set_api_data` ends the job there (the worker catches it); `raisedAt` is the
        member it happened on. */
    method BatchJob(kind: Kind, members: seq<Entry>) returns (raisedAt: Option<nat>)
      requires Distinct(members)
      modifies members
      ensures raisedAt.Some? ==> raisedAt.value < |members|
      ensures forall i :: 0 <= i < |members| && (raisedAt.None? || i < raisedAt.value) ==>
                (members[i].cells, true)
                == ApplyFields(old(members[i].cells), members[i].kind, FieldsOf(kind), Lookup(Reply(kind, members), members[i].id), maxVideos)
      ensures raisedAt.Some? ==>
                var e := members[raisedAt.value];
                (e.cells, false) == ApplyFields(old(e.cells), e.kind, FieldsOf(kind), Lookup(Reply(kind, members), e.id), maxVideos)
      ensures forall i :: 0 <= i < |members| && raisedAt.Some? && raisedAt.value < i ==> members[i].cells == old(members[i].cells)
    {
      var fields := FieldsOf(kind);
      FieldsOfSpec(kind);
      var reply := Reply(kind, members);
      var i := 0;
      while i < |members|
        invariant 0 <= i <= |members|
        invariant forall k :: 0 <= k < i ==>
                    (members[k].cells, true)
                    == ApplyFields(old(members[k].cells), members[k].kind, fields, Lookup(reply, members[k].id), maxVideos)
        invariant forall k :: i <= k < |members| ==> members[k].cells == old(members[k].cells)
      {
        var e := members[i];
        var ok := e.SetApiData(fields, Lookup(reply, e.id), maxVideos);
        if !ok {
          return Some(i);
        }
        i := i + 1;
      }
      return None;
    }

    /** The job of `Video.audio_url`: a failed extraction sets the future to `None`,
        otherwise it is set to the info's `url`, and a missing `url` raises.  Setting a
        future that is already set raises too.  A raise leaves the future as it was. */
    method AudioJob(v: Entry) returns (raised: bool)
      modifies v
      ensures var x := ExtractInfo(v.id);
              (raised <==> (x.Extracted? && x.url.None?) || IsSet(old(v.cells), AudioUrl))
              && (raised ==> v.cells == old(v.cells))
              && (!raised ==> v.cells == old(v.cells)[AudioUrl := Some(if x.ExtractFails? then Absent else Text(x.url.value))])
    {
      var x := ExtractInfo(v.id);
      match x
      case ExtractFails =>
        var ok := v.SetFuture(AudioUrl, Absent);
        raised := !ok;
      case Extracted(url) =>
        if url.None? {
          raised := true;
        } else {
          var ok := v.SetFuture(AudioUrl, Text(url.value));
          raised := !ok;
        }
    }

    /** The loop `for item in data['items']` of the `Playlist.videos` job: look each
        video up and set its title from the item.  It stops at the first call that
        raises (`ok` false); `mine` holds the videos of the items before it.  The
        futures of every entity are then those `FillAll` gives for `mine`, followed,
        where the raising item had a `videoId`, by that item's call on its video
        (`touched`). */
    method PageVideos(items: seq<PlaylistItem>, ghost before: map<Entry, Cells>)
      returns (mine: seq<Entry>, ok: bool, ghost touched: Option<Entry>)
      requires Valid() && Mirrors(before)
      modifies this, cache, Entities
      ensures Valid() && Grew()
      ensures VideosOf(mine, items) && (ok <==> |mine| == |items|)
      ensures FillsRun(before, mine, TitleFills(items), maxVideos)
      ensures touched.None? ==> Mirrors(FillAll(before, mine, TitleFills(items), maxVideos))
      ensures !ok && touched.None? ==> items[|mine|].videoId.None?
      ensures touched.Some? ==>
                var v := touched.value;
                !ok && v.kind == VideoKind && items[|mine|].videoId == Some(v.id)
                && var step := FillStep(FillAll(before, mine, TitleFills(items), maxVideos), v, TitleFills(items)[|mine|], maxVideos);
                   Mirrors(step.0) && !step.1
      ensures !ok ==> Unusable(items[|mine|])
      ensures StayedOffPage(before, items)
    {
      ghost var fills := TitleFills(items);
      mine := [];
      while |mine| < |items|
        invariant Valid() && Grew()
        invariant VideosOf(mine, items)
        invariant Mirrors(FillAll(before, mine, fills, maxVideos)) && FillsRun(before, mine, fills, maxVideos)
        decreases |items| - |mine|
      {
        var k := |mine|;
        var video, reached := ItemVideo(items[k], FillAll(before, mine, fills, maxVideos));
        if !reached {
          PageFrame(before, mine, items, video, maxVideos);
          return mine, false, video;
        }
        var v := video.value;
        VideosOfSnoc(mine, items, v);
        assert fills[k] == Fill([Title], items[k].item);
        FillAllSnoc(before, mine, v, fills, maxVideos);
        mine := mine + [v];
      }
      PageFrame(before, mine, items, None, maxVideos);
      ok, touched := true, None;
    }

    /** One item of that loop: `Video.get(item['snippet']['resourceId']['videoId'])`,
        then `_set_api_data(['title'], item)` on the video; `ok` is false where the
        item has no `videoId` (`video` is `None`) or the call raises.  `cells` holds
        the futures on entry. */
    method ItemVideo(it: PlaylistItem, ghost cells: map<Entry, Cells>) returns (video: Option<Entry>, ok: bool)
      requires Valid() && Mirrors(cells)
      modifies this, cache, Entities
      ensures Valid() && Grew()
      ensures video.None? <==> it.videoId.None?
      ensures video.None? ==> !ok && Mirrors(cells)
      ensures video.Some? ==>
                var v := video.value;
                var step := FillStep(cells, v, Fill([Title], it.item), maxVideos);
                v.kind == VideoKind && it.videoId == Some(v.id) && Mirrors(step.0) && ok == step.1
      ensures !ok ==> Unusable(it)
    {
      if it.videoId.None? {
        return None, false;
      }
      var v := Get(VideoKind, it.videoId.value, cells);
      ok := SetOn(v, Fill([Title], it.item), cells);
      video := Some(v);
      if !ok {
        TitleRaises(cells, v, it.item, maxVideos);
      }
    }

    /** Since `before` was taken, only videos that some item of the page names have
        changed, and every future that was set keeps its value. */
    ghost predicate StayedOffPage(before: map<Entry, Cells>, items: seq<PlaylistItem>)
      reads before.Keys
    {
      (forall e :: e in before && !OnPage(e, items) ==> e.cells == before[e])
      && (forall e :: e in before ==> KeepsSet(before[e], e.cells))
    }

    /** One page of the `Playlist.videos` job: the loop over its items, then
        `Video.load_info(myvideos)`.  Without a raise, `PageLoaded` holds.  A raise
        happens on an unusable item and adds no job.  Either way only videos that some
        item names change, and set futures keep their values.  `before` holds the
        futures on entry. */
    method TakePage(items: seq<PlaylistItem>, ghost before: map<Entry, Cells>)
      returns (mine: seq<Entry>, ok: bool, ghost titled: map<Entry, Cells>, ghost kept: seq<Entry>)
      requires Valid() && Mirrors(before)
      modifies this, cache, pool, Entities
      ensures Valid() && Grew()
      ensures StayedOffPage(before, items)
      ensures OnlyBatchJobsSince(old(pool.State()))
      ensures !ok ==> |mine| < |items| && Unusable(items[|mine|])
      ensures !ok ==> pool.State() == old(pool.State())
      ensures ok ==> PageLoaded(items, mine, before, titled, kept, old(pool.State()))
      ensures ok ==> forall e :: e in mine ==> e in Entities
    {
      ghost var touched;
      mine, ok, touched := PageVideos(items, before);
      if !ok {
        titled, kept := map[], [];
        return;
      }
      titled, kept := FinishPage(items, mine, before);
    }

    /** What a page leaves once every item named its video and `load_info` ran: the
        videos match the items, none of the `_set_api_data` calls raised, and the videos
        hold the futures `FillAll` gives them (`titled`) with the futures of `load_info`
        added; no other entity changed; the batch jobs added to `start` are those of
        `kept`, which holds, in order of first appearance, the videos that lacked one of
        those futures. */
    ghost predicate PageLoaded(items: seq<PlaylistItem>, mine: seq<Entry>, before: map<Entry, Cells>,
                               titled: map<Entry, Cells>, kept: seq<Entry>, start: PoolState<Job>)
      reads pool, before.Keys, mine
    {
      Gathered(mine, items) && ItemFills(TitleFills(items)) && FillsRun(before, mine, TitleFills(items), maxVideos)
      && titled == FillAll(before, mine, TitleFills(items), maxVideos)
      && (forall e :: e in mine ==> e in titled && e.cells == WithFutures(titled[e], FieldsOf(VideoKind)))
      && (forall e :: e in before && e !in mine ==> e.cells == before[e])
      && pool.State() == RunAll(start, BatchJobs(VideoKind, Chunks(kept)))
      && Distinct(kept)
      && (forall e :: e in kept ==> e in mine && e in titled && LacksAny(titled[e], FieldsOf(VideoKind)))
      && (forall e :: e in mine && e in titled && LacksAny(titled[e], FieldsOf(VideoKind)) ==> e in kept)
      && (forall i, j :: 0 <= i < j < |kept| ==>
            kept[i] in mine && kept[j] in mine && FirstIndex(mine, kept[i]) < FirstIndex(mine, kept[j]))
    }

    /** `Loaded` on a page whose every item named its video is `PageLoaded`. */
    lemma LoadedPage(items: seq<PlaylistItem>, mine: seq<Entry>, before: map<Entry, Cells>,
                     titled: map<Entry, Cells>, kept: seq<Entry>, start: PoolState<Job>)
      requires Gathered(mine, items) && FillsRun(before, mine, TitleFills(items), maxVideos)
      requires titled == FillAll(before, mine, TitleFills(items), maxVideos)
      requires Loaded(mine, before, titled, kept, start)
      ensures PageLoaded(items, mine, before, titled, kept, start)
    {
    }

    /** A page that loaded leaves each of its videos listed: the first item naming it
        set its title (`FillsRunFirst`), and `load_info` added the rest of its futures. */
    lemma PageListed(items: seq<PlaylistItem>, mine: seq<Entry>, before: map<Entry, Cells>,
                     titled: map<Entry, Cells>, kept: seq<Entry>, start: PoolState<Job>)
      requires PageLoaded(items, mine, before, titled, kept, start)
      ensures AllListed(mine)
    {
      TitlesSet(before, mine, items, maxVideos);
      forall i | 0 <= i < |mine| ensures ListedVideo(mine[i].cells) {
        WithFuturesSpec(titled[mine[i]], FieldsOf(VideoKind));
      }
    }

    /** The videos listed so far, as `before` records them. */
    lemma ListedBefore(videos: seq<Entry>, before: map<Entry, Cells>)
      requires AllListed(videos) && Mirrors(before) && forall v :: v in videos ==> v in Entities
      ensures ListedIn(videos, before)
    {
    }

    /** After a page loaded, the videos listed before it are still listed (their futures
        are kept), and so are the page's own videos. */
    lemma ListedAfterPage(videos: seq<Entry>, before: map<Entry, Cells>, items: seq<PlaylistItem>, mine: seq<Entry>,
                          titled: map<Entry, Cells>, kept: seq<Entry>, start: PoolState<Job>)
      requires ListedIn(videos, before) && StayedOffPage(before, items)
      requires PageLoaded(items, mine, before, titled, kept, start)
      ensures AllListed(videos + mine)
    {
      forall i | 0 <= i < |videos| ensures ListedVideo(videos[i].cells) {
        ListedKept(before[videos[i]], videos[i].cells);
      }
      PageListed(items, mine, before, titled, kept, start);
      AllListedAppend(videos, mine);
    }

    /** What `load_info` on a page's videos leaves: they hold the futures `titled`
        records for them with those of `load_info` added; every other entity holds what
        `before` records; the batch jobs added to `start` are those of `kept`, which
        holds, in order of first appearance, the videos that lacked one of those
        futures. */
    ghost predicate Loaded(mine: seq<Entry>, before: map<Entry, Cells>, titled: map<Entry, Cells>,
                           kept: seq<Entry>, start: PoolState<Job>)
      reads pool, before.Keys, mine
    {
      (forall e :: e in mine ==> e in titled && e.cells == WithFutures(titled[e], FieldsOf(VideoKind)))
      && (forall e :: e in before && e !in mine ==> e.cells == before[e])
      && pool.State() == RunAll(start, BatchJobs(VideoKind, Chunks(kept)))
      && Distinct(kept)
      && (forall e :: e in kept ==> e in mine && e in titled && LacksAny(titled[e], FieldsOf(VideoKind)))
      && (forall e :: e in mine && e in titled && LacksAny(titled[e], FieldsOf(VideoKind)) ==> e in kept)
      && (forall i, j :: 0 <= i < j < |kept| ==>
            kept[i] in mine && kept[j] in mine && FirstIndex(mine, kept[i]) < FirstIndex(mine, kept[j]))
    }

    /** The rest of a page once the loop got through every item, the videos holding
        the futures `FillAll` gives them: `load_info` on the videos. */
    method FinishPage(items: seq<PlaylistItem>, mine: seq<Entry>, ghost before: map<Entry, Cells>)
      returns (ghost titled: map<Entry, Cells>, ghost kept: seq<Entry>)
      requires Valid() && VideosOf(mine, items) && |mine| == |items|
      requires FillsRun(before, mine, TitleFills(items), maxVideos)
      requires Mirrors(FillAll(before, mine, TitleFills(items), maxVideos))
      modifies mine, pool
      ensures Valid()
      ensures StayedOffPage(before, items)
      ensures OnlyBatchJobsSince(old(pool.State()))
      ensures PageLoaded(items, mine, before, titled, kept, old(pool.State()))
    {
      titled := FillAll(before, mine, TitleFills(items), maxVideos);
      TitledFrame(before, mine, items, maxVideos);
      kept := LoadPage(mine, before, titled);
      LoadedPage(items, mine, before, titled, kept, old(pool.State()));
    }

    /** `load_info` on a page's videos, whose futures `titled` records for every
        entity; `before` records the futures some time earlier, which `titled` keeps
        outside `mine`. */
    method LoadPage(mine: seq<Entry>, ghost before: map<Entry, Cells>, ghost titled: map<Entry, Cells>)
      returns (ghost kept: seq<Entry>)
      requires Valid() && Mirrors(titled) && forall e :: e in mine ==> e.kind == VideoKind && e in titled
      requires before.Keys <= titled.Keys
      requires forall e :: e in before && e !in mine ==> titled[e] == before[e]
      requires forall e :: e in before ==> KeepsSet(before[e], titled[e])
      modifies mine, pool
      ensures Valid()
      ensures forall e :: e in before ==> KeepsSet(before[e], e.cells)
      ensures OnlyBatchJobsSince(old(pool.State()))
      ensures Loaded(mine, before, titled, kept, old(pool.State()))
    {
      kept := LoadInfo(VideoKind, mine);
      forall e | e in before ensures KeepsSet(before[e], e.cells) {
        if e in mine {
          KeepsSetWithFutures(before[e], titled[e], FieldsOf(VideoKind));
        }
      }
    }

    /** The `videos` job of playlist `p`, whose futures were `before`, finished without a
        raise: the pages were read without a reply lacking `items`, `videos` was unset
        and now holds `children`, which are the videos of the gathered items, in order,
        each with its title set and the futures of `Video.load_info` created. */
    ghost predicate ChildrenSet(p: Entry, before: Cells, children: seq<Entry>)
      reads this, p, children
    {
      var paged := Paging(p.id);
      paged.stop != MissingItems && !IsSet(before, Children)
      && p.cells == before[Children := Some(Videos(children))]
      && Gathered(children, paged.items) && AllListed(children)
    }

    /** The job of `Playlist.videos`: gather the playlist's videos, and set its
        `videos` future to them.  A reply without `items`, or a video item that raises,
        ends the job with the future unset.  Only batch jobs are submitted. */
    method PlaylistVideosJob(p: Entry) returns (raised: bool, children: seq<Entry>)
      requires Valid() && p in Entities && p.kind == PlaylistKind
      modifies this, cache, pool, Entities
      ensures Valid() && Grew()
      ensures OnlyBatchJobsSince(old(pool.State()))
      ensures raised ==> p.cells == old(p.cells)
      ensures raised ==>
                (var paged := Paging(p.id);
                 paged.stop == MissingItems || exists i :: 0 <= i < |paged.items| && Unusable(paged.items[i]))
                || IsSet(old(p.cells), Children)
      ensures !raised ==> ChildrenSet(p, old(p.cells), children)
    {
      var failed;
      ghost var requests;
      failed, children, requests := CollectVideos(p.id);
      if failed {
        return true, children;
      }
      assert p in old(Entities);
      var ok := p.SetFuture(Children, Videos(children));
      raised := !ok;
    }

    /** The loop of the `Playlist.videos` job: request pages while there is a next page
        and fewer than `max_videos` videos, and start `Video.load_info` on each page's
        videos.  A failed request ends the loop and keeps what was gathered; a reply
        without `items`, or a video item that raises, fails (`failed`).

        The requests made are those of `Paginate` up to where the loop stopped; when it
        does not fail, they are exactly those of `Paginate`, and the videos are the ones
        of `Paginate`'s items, in order.  Playlists are not touched. */
    method CollectVideos(id: string) returns (failed: bool, children: seq<Entry>, ghost requests: seq<Request>)
      requires Valid()
      modifies this, cache, pool, Entities
      ensures Valid() && Grew()
      ensures forall e :: e in old(Entities) && e.kind == PlaylistKind ==> e.cells == old(e.cells)
      ensures OnlyBatchJobsSince(old(pool.State()))
      ensures MadeSoFar(requests, Paging(id))
      ensures failed ==>
                var paged := Paging(id);
                paged.stop == MissingItems || exists i :: 0 <= i < |paged.items| && Unusable(paged.items[i])
      ensures !failed ==>
                var paged := Paging(id);
                requests == paged.requests && paged.stop != MissingItems
                && Gathered(children, paged.items) && AllListed(children)
    {
      var pages := PagesOf(id);
      ghost var target := Paging(id);
      children := [];
      requests := [];
      ghost var got: seq<PlaylistItem> := [];
      var page: Option<string> := Some("");
      var n := 0;
      ghost var count: nat := 0;
      CursorStart(pages, maxVideos);
      while page.Some? && |children| < maxVideos
        invariant Valid() && Grew()
        invariant forall e :: e in old(Entities) && e.kind == PlaylistKind ==> e.cells == old(e.cells)
        invariant OnlyBatchJobsSince(old(pool.State()))
        invariant Gathered(children, got) && |got| == count
        invariant Cursor(target, requests, got, pages, n, page, count, maxVideos)
        invariant MadeSoFar(requests, target)
        invariant AllListed(children) && forall c :: c in children ==> c in Entities
        decreases |pages| - n
      {
        ghost var req := Request(page.value, Min(maxVideos - count, PageSize));
        if n == |pages| || pages[n].RequestFails? || pages[n].items.None? {
          CursorFails(target, requests, got, pages, n, page.value, count, maxVideos);
          failed := n < |pages| && pages[n].PageReply?;
          requests := requests + [req];
          return;
        }
        var items := pages[n].items.value;
        var next := NextToken(pages[n].nextPageToken);
        ghost var made, got', count' := CursorNext(target, requests, got, pages, n, page.value, count, maxVideos);
        ghost var before := Snapshot();
        ListedBefore(children, before);
        var mine, ok;
        ghost var titled, kept;
        ghost var start := pool.State();
        mine, ok, titled, kept := TakePage(items, before);
        if !ok {
          CursorItems(target, made, got', pages, n + 1, next, count', maxVideos);
          assert target.items[|got| + |mine|] == items[|mine|];
          return true, children, made;
        }
        GatheredAppend(children, got, mine, items);
        ListedAfterPage(children, before, items, mine, titled, kept, start);
        children := children + mine;
        got, requests, count := got', made, count';
        page := next;
        n := n + 1;
      }
      CursorDone(target, requests, got, pages, n, page, count, maxVideos);
      failed := false;
    }

    /** Reading a property declared with `async_property`: the first access runs the
        property's body, which creates the future (`_foo`); every access returns that
        future.  The bodies: a video's `thumbnails` sets its future at once;
        `audio_url` and `videos` create an unset future and submit their job; every
        other property calls `load_info([self])`, which submits one batch job for the
        entity. */
    method Access(e: Entry, f: Field) returns (cell: Option<Value>)
      requires Valid() && e in Entities && HasProperty(e.kind, f)
      modifies e, pool
      ensures Valid()
      ensures f in e.cells && cell == e.cells[f]
      ensures f in old(e.cells) ==> e.cells == old(e.cells) && pool.State() == old(pool.State())
      ensures f !in old(e.cells) && e.kind == VideoKind && f == Thumbnails ==>
                e.cells == old(e.cells)[Thumbnails := Some(UrlList(VideoThumbnailUrls(e.id)))]
                && pool.State() == old(pool.State())
      ensures f !in old(e.cells) && f == AudioUrl ==>
                e.cells == old(e.cells)[AudioUrl := None] && pool.State() == RunStep(old(pool.State()), AudioUrlJob(e))
      ensures f !in old(e.cells) && f == Children ==>
                e.cells == old(e.cells)[Children := None] && pool.State() == RunStep(old(pool.State()), VideosJob(e))
      ensures f !in old(e.cells) && IsItemField(f) && !(e.kind == VideoKind && f == Thumbnails) ==>
                e.cells == WithFutures(old(e.cells), FieldsOf(e.kind))
                && pool.State() == RunStep(old(pool.State()), Batch(e.kind, [e]))
    {
      if f !in e.cells {
        if e.kind == VideoKind && f == Thumbnails {
          e.cells := e.cells[Thumbnails := Some(UrlList(VideoThumbnailUrls(e.id)))];
        } else if f == AudioUrl {
          e.cells := e.cells[AudioUrl := None];
          Submit(AudioUrlJob(e));
        } else if f == Children {
          e.cells := e.cells[Children := None];
          Submit(VideosJob(e));
        } else {
          assert f in FieldsOf(e.kind);
          LoadSelf(e);
          WithFuturesSpec(old(e.cells), FieldsOf(e.kind));
        }
      }
      cell := e.cells[f];
    }

    /** `self.load_info([self])` on an entity that lacks one of its kind's futures: the
        futures are added and one batch job is submitted for the entity. */
    method LoadSelf(e: Entry)
      requires Valid() && e in Entities && LacksAny(e.cells, FieldsOf(e.kind))
      modifies e, pool
      ensures Valid()
      ensures e.cells == WithFutures(old(e.cells), FieldsOf(e.kind))
      ensures pool.State() == RunStep(old(pool.State()), Batch(e.kind, [e]))
    {
      assert Kept([e], FieldsOf(e.kind)) == [e];
      var kept := LoadInfo(e.kind, [e]);
      assert Chunks(kept) == [[e]];
      assert BatchJobs(e.kind, [[e]]) == [Batch(e.kind, [e])];
    }

    /** `Entry.search(q)`: one search request, then `create_object` for each result in
        order.  A failed request or a reply without `items` makes the search return
        `None` and changes nothing; otherwise the results are as `CreateAll` leaves
        them.  The pool is not touched.  `before` holds the futures on entry. */
    method Search(q: string, ghost before: map<Entry, Cells>) returns (result: Option<seq<Entry>>)
      requires Valid() && Mirrors(before)
      modifies this, cache, Entities
      ensures Valid() && Grew()
      ensures SearchReply(q).None? ==> result.None? && Mirrors(before)
      ensures SearchReply(q).Some? ==> Created(before, SearchReply(q).value, result)
    {
      var reply := source.search(q);
      if reply.None? {
        return None;
      }
      result := CreateAll(reply.value, before);
    }

    /** What `map(create_object, data['items'])` leaves, from the futures `before`:
        without a raise, the entities the results name, one for one, holding the
        futures `FillAll` gives them, each with the fields of a search result set;
        with a raise, some result could not be made (`None`).  Either way only
        entities some result names have changed, and set futures keep their values. */
    ghost predicate Created(before: map<Entry, Cells>, reply: seq<SearchItem>, result: Option<seq<Entry>>)
      reads this, Entities, before.Keys
    {
      (result.Some? ==>
         var fills := SearchFills(reply);
         |result.value| == |reply| && NamesOf(result.value, reply)
         && FillsRun(before, result.value, fills, maxVideos)
         && Mirrors(FillAll(before, result.value, fills, maxVideos))
         && forall i :: 0 <= i < |reply| ==> SearchResult(reply[i], result.value[i], Entities))
      && (result.None? ==> exists i :: 0 <= i < |reply| && CreateRaises(reply[i], maxVideos))
      && SearchStayed(before, reply)
    }

    /** The loop over a search reply's items: `create_object` on each in order; a raise
        ends the loop with `None`. */
    method CreateAll(items: seq<SearchItem>, ghost before: map<Entry, Cells>) returns (result: Option<seq<Entry>>)
      requires Valid() && Mirrors(before)
      modifies this, cache, Entities
      ensures Valid() && Grew()
      ensures Created(before, items, result)
    {
      var found: seq<Entry> := [];
      var k := 0;
      while k < |items|
        invariant 0 <= k <= |items| && |found| == k
        invariant Valid() && Grew()
        invariant SearchSoFar(before, found, items)
      {
        var e, named := CreateObject(items[k], FillAll(before, found, SearchFills(items), maxVideos));
        if e.None? {
          RaisedAt(before, found, items, named);
          return None;
        }
        SearchStep(before, found, items, e.value);
        found := found + [e.value];
        k := k + 1;
      }
      AllCreated(before, found, items);
      return Some(found);
    }

    /** The first `|found|` results named `found`, and the calls on them, none of which
        raised, left the futures `FillAll` gives. */
    ghost predicate SearchSoFar(before: map<Entry, Cells>, found: seq<Entry>, reply: seq<SearchItem>)
      reads this, Entities
    {
      NamesOf(found, reply)
      && FillsRun(before, found, SearchFills(reply), maxVideos)
      && Mirrors(FillAll(before, found, SearchFills(reply), maxVideos))
    }

    /** One more result made without a raise. */
    lemma SearchStep(before: map<Entry, Cells>, found: seq<Entry>, reply: seq<SearchItem>, v: Entry)
      requires NamesOf(found, reply) && |found| < |reply| && FillsRun(before, found, SearchFills(reply), maxVideos)
      requires Target(reply[|found|]) == Some((v.kind, v.id))
      requires var step := FillStep(FillAll(before, found, SearchFills(reply), maxVideos), v, SearchFill(reply[|found|]), maxVideos);
               Mirrors(step.0) && step.1
      ensures SearchSoFar(before, found + [v], reply)
    {
      FillAllSnoc(before, found, v, SearchFills(reply), maxVideos);
      NamesOfSnoc(found, reply, v);
    }

    /** A raise in `create_object` on result `|found|`, after the results before it
        named `found`: the entities hold the futures the calls so far left. */
    lemma RaisedAt(before: map<Entry, Cells>, found: seq<Entry>, reply: seq<SearchItem>, named: Option<Entry>)
      requires NamesOf(found, reply) && |found| < |reply| && CreateRaises(reply[|found|], maxVideos)
      requires var mid := FillAll(before, found, SearchFills(reply), maxVideos);
               if named.Some? then
                 Target(reply[|found|]) == Some((named.value.kind, named.value.id))
                 && Mirrors(FillStep(mid, named.value, SearchFill(reply[|found|]), maxVideos).0)
               else Mirrors(mid)
      ensures Created(before, reply, None)
    {
      var fills := SearchFills(reply);
      var mid := FillAll(before, found, fills, maxVideos);
      SearchFrame(before, found, reply, named, maxVideos);
      SearchStays(before, reply, if named.Some? then FillStep(mid, named.value, fills[|found|], maxVideos).0 else mid);
    }

    /** Every result made, without a raise. */
    lemma AllCreated(before: map<Entry, Cells>, found: seq<Entry>, reply: seq<SearchItem>)
      requires |found| == |reply| && NamesOf(found, reply)
      requires FillsRun(before, found, SearchFills(reply), maxVideos)
      requires Mirrors(FillAll(before, found, SearchFills(reply), maxVideos))
      ensures Created(before, reply, Some(found))
    {
      SearchFrame(before, found, reply, None, maxVideos);
      SearchStays(before, reply, FillAll(before, found, SearchFills(reply), maxVideos));
      ResultsSet(before, found, reply);
    }

    /** Since `before` was taken, only entities that some result of `reply` names have
        changed, and every future that was set keeps its value. */
    ghost predicate SearchStayed(before: map<Entry, Cells>, reply: seq<SearchItem>)
      reads before.Keys
    {
      (forall e :: e in before && !NamedBy(e, reply) ==> e.cells == before[e])
      && (forall e :: e in before ==> KeepsSet(before[e], e.cells))
    }

    /** The entities hold the futures `after` records, which differ from `before` only
        on entities the reply names, and keep every set future. */
    lemma SearchStays(before: map<Entry, Cells>, reply: seq<SearchItem>, after: map<Entry, Cells>)
      requires Mirrors(after) && before.Keys <= after.Keys
      requires forall e :: e in before && !NamedBy(e, reply) ==> after[e] == before[e]
      requires forall e :: e in before ==> KeepsSet(before[e], after[e])
      ensures SearchStayed(before, reply)
    {
    }

    /** Without a raise, each entity the search made has the fields of a search result
        set: the first result naming it set them, and any later one asked for the same. */
    lemma ResultsSet(before: map<Entry, Cells>, found: seq<Entry>, reply: seq<SearchItem>)
      requires |found| == |reply| && NamesOf(found, reply)
      requires FillsRun(before, found, SearchFills(reply), maxVideos)
      requires Mirrors(FillAll(before, found, SearchFills(reply), maxVideos))
      ensures forall i :: 0 <= i < |reply| ==> SearchResult(reply[i], found[i], Entities)
    {
      var fills := SearchFills(reply);
      SearchSameFields(found, reply);
      FillsRunFirst(before, found, fills, maxVideos);
      forall i | 0 <= i < |reply| ensures SearchResult(reply[i], found[i], Entities) {
        var e := found[i];
        var j := FirstIndex(found, e);
        assert Target(reply[j]) == Some((e.kind, e.id));
      }
    }

    /** `create_object(item)`: `Video.get` or `Playlist.get` on the id the result
        names, then `_set_api_data` with the search fields of its kind; `e` is `None`
        where it raises.  `cells` holds the futures on entry; `named` is the entity
        looked up, `None` where a key for the lookup is missing. */
    method CreateObject(it: SearchItem, ghost cells: map<Entry, Cells>) returns (e: Option<Entry>, ghost named: Option<Entry>)
      requires Valid() && Mirrors(cells)
      modifies this, cache, Entities
      ensures Valid() && Grew()
      ensures named.None? <==> Target(it).None?
      ensures named.None? ==> e.None? && Mirrors(cells)
      ensures named.Some? ==>
                var x := named.value;
                var step := FillStep(cells, x, SearchFill(it), maxVideos);
                Target(it) == Some((x.kind, x.id)) && Mirrors(step.0) && (e.Some? <==> step.1) && (e.Some? ==> e == named)
      ensures e.Some? ==> SearchResult(it, e.value, Entities)
      ensures e.None? ==> CreateRaises(it, maxVideos)
    {
      var target := Target(it);
      if target.None? {
        return None, None;
      }
      var kind, id := target.value.0, target.value.1;
      var x := Get(kind, id, cells);
      named := Some(x);
      var ok := SetOn(x, SearchFill(it), cells);
      if !ok {
        SearchRaises(cells, x, it, maxVideos);
        return None, named;
      }
      FillStepFresh(cells, cells, x, SearchFill(it), maxVideos);
      e := Some(x);
    }

    /** `ThreadPool.worker` for a live worker: take the newest job and run it, until no
        job is left; then the worker counts itself out.  A raise inside a job is caught
        and ends only that job.  The loop ends because only `Playlist.videos` jobs
        submit further jobs, and those are batch jobs: every pass lowers the number of
        pending `Playlist.videos` jobs, or keeps it and shortens the list. */
    method Worker()
      requires Valid() && pool.threadsActive > 0
      modifies this, cache, pool, Entities
      ensures Valid() && Grew()
      ensures pool.jobs == [] && old(pool.threadsActive) - 1 <= pool.threadsActive < ThreadsMax
    {
      while true
        invariant Valid() && Grew()
        invariant old(pool.threadsActive) <= pool.threadsActive
        decreases CountVideosJobs(pool.jobs), |pool.jobs|
      {
        ghost var pending := pool.jobs;
        var job := pool.Take();
        if job.None? {
          break;
        }
        assert pending == pool.jobs + [job.value];
        assert job.value in pending;
        match job.value
        case Batch(kind, members) =>
          var _ := BatchJob(kind, members);
        case AudioUrlJob(v) =>
          var _ := AudioJob(v);
        case VideosJob(p) =>
          var _, _ := PlaylistVideosJob(p);
      }
    }
  }

  /** `create_object(item)` produced `e` for search result `it`: the entity the
      result names, with the fields of a search result set. */
  ghost predicate SearchResult(it: SearchItem, e: Entry, entities: set<Entry>)
    reads e
  {
    e in entities && Target(it) == Some((e.kind, e.id))
    && forall k :: k in SearchFields(e.kind) ==> IsSet(e.cells, k)
  }

  /** `create_object(item)` can raise only here: a key it needs to find the entity is
      missing, or a search field has no value in the item. */
  predicate CreateRaises(it: SearchItem, maxVideos: nat) {
    Target(it).None?
    || exists k :: k in SearchFields(Target(it).value.0) && IsItemField(k)
                   && FieldValue(Target(it).value.0, k, Some(it.item), maxVideos).None?
  }

  /** `target` is what a loop produces that has made `requests`, gathered `got`, and
      goes on as `rest`. */
  predicate Resumes(target: Paged, requests: seq<Request>, got: seq<PlaylistItem>, rest: Paged) {
    target == Paged(requests + rest.requests, got + rest.items, rest.stop)
  }

  /** `videos` are the videos made from `items`, one for one and in order. */
  predicate Gathered(videos: seq<Entry>, items: seq<PlaylistItem>) {
    |videos| == |items|
    && forall i :: 0 <= i < |videos| ==> videos[i].kind == VideoKind && items[i].videoId == Some(videos[i].id)
  }

  /** A video as the `Playlist.videos` job leaves it: its title set by the item loop,
      and the futures of `Video.load_info` created. */
  predicate ListedVideo(c: Cells) {
    IsSet(c, Title) && forall f :: f in FieldsOf(VideoKind) ==> f in c
  }

  /** A listed video stays listed: its futures are kept, and so is the set title. */
  lemma ListedKept(c0: Cells, c1: Cells)
    requires ListedVideo(c0) && KeepsSet(c0, c1)
    ensures ListedVideo(c1)
  {
  }

  /** Every video of `videos` is listed in `m`. */
  predicate ListedIn(videos: seq<Entry>, m: map<Entry, Cells>) {
    forall i :: 0 <= i < |videos| ==> videos[i] in m && ListedVideo(m[videos[i]])
  }

  /** Every video of `videos` is listed. */
  ghost predicate AllListed(videos: seq<Entry>)
    reads videos
  {
    forall i :: 0 <= i < |videos| ==> ListedVideo(videos[i].cells)
  }

  /** Videos listed on two pages are listed together. */
  lemma AllListedAppend(videos: seq<Entry>, more: seq<Entry>)
    requires AllListed(videos) && AllListed(more)
    ensures AllListed(videos + more)
  {
    forall i | 0 <= i < |videos + more| ensures ListedVideo((videos + more)[i].cells) {
      if i >= |videos| {
        assert (videos + more)[i] == more[i - |videos|];
      }
    }
  }

  /** Videos gathered page after page match the pages' items taken together. */
  lemma GatheredAppend(videos: seq<Entry>, items: seq<PlaylistItem>, more: seq<Entry>, moreItems: seq<PlaylistItem>)
    requires Gathered(videos, items) && Gathered(more, moreItems)
    ensures Gathered(videos + more, items + moreItems)
  {
    forall i | 0 <= i < |videos + more|
      ensures (videos + more)[i].kind == VideoKind && (items + moreItems)[i].videoId == Some((videos + more)[i].id)
    {
      if i >= |videos| {
        assert (videos + more)[i] == more[i - |videos|] && (items + moreItems)[i] == moreItems[i - |items|];
      }
    }
  }

  /** `requests` are the first requests of the loop that produces `target`. */
  predicate MadeSoFar(requests: seq<Request>, target: Paged) {
    requests <= target.requests
  }

  /** Where the loop of the `Playlist.videos` job stands with respect to `target`:
      it has made `requests` and gathered `got` (`count` videos), its next request is
      number `n`, and it goes on with token `page`, or has seen the last page. */
  predicate Cursor(target: Paged, requests: seq<Request>, got: seq<PlaylistItem>, pages: seq<PageReply>,
                   n: nat, page: Option<string>, count: nat, maxVideos: nat)
  {
    n <= |pages|
    && match page
       case Some(token) => Resumes(target, requests, got, PaginateFrom(pages, n, token, count, maxVideos))
       case None => target == Paged(requests, got, NoMorePages)
  }

  lemma CursorStart(pages: seq<PageReply>, maxVideos: nat)
    ensures Cursor(Paginate(pages, maxVideos), [], [], pages, 0, Some(""), 0, maxVideos)
  {
    var r := PaginateFrom(pages, 0, "", 0, maxVideos);
    assert [] + r.requests == r.requests && [] + r.items == r.items;
  }

  /** The request fails, or its reply has no `items`: the loop has made one more
      request and ends there. */
  lemma CursorFails(target: Paged, requests: seq<Request>, got: seq<PlaylistItem>, pages: seq<PageReply>,
                    n: nat, token: string, count: nat, maxVideos: nat)
    requires Cursor(target, requests, got, pages, n, Some(token), count, maxVideos) && count < maxVideos
    requires n == |pages| || pages[n].RequestFails? || pages[n].items.None?
    ensures target.requests == requests + [Request(token, Min(maxVideos - count, PageSize))]
    ensures MadeSoFar(requests + [Request(token, Min(maxVideos - count, PageSize))], target)
    ensures target.items == got
    ensures target.stop == if n == |pages| || pages[n].RequestFails? then RequestFailed else MissingItems
  {
  }

  /** A page received with its items: the loop has made one more request, gathered
      those items, and goes on with the reply's next-page token. */
  lemma CursorNext(target: Paged, requests: seq<Request>, got: seq<PlaylistItem>, pages: seq<PageReply>,
                   n: nat, token: string, count: nat, maxVideos: nat)
    returns (made: seq<Request>, got': seq<PlaylistItem>, count': nat)
    requires Cursor(target, requests, got, pages, n, Some(token), count, maxVideos) && count < maxVideos
    requires n < |pages| && pages[n].PageReply? && pages[n].items.Some?
    ensures made == requests + [Request(token, Min(maxVideos - count, PageSize))] && MadeSoFar(made, target)
    ensures got' == got + pages[n].items.value && count' == count + |pages[n].items.value|
    ensures Cursor(target, made, got', pages, n + 1, NextToken(pages[n].nextPageToken), count', maxVideos)
  {
    var req := Request(token, Min(maxVideos - count, PageSize));
    var items := pages[n].items.value;
    var next := NextToken(pages[n].nextPageToken);
    made, got', count' := requests + [req], got + items, count + |items|;
    if next.Some? {
      var rest := PaginateFrom(pages, n + 1, next.value, count + |items|, maxVideos);
      assert requests + ([req] + rest.requests) == requests + [req] + rest.requests;
      assert got + (items + rest.items) == got + items + rest.items;
    }
  }

  /** The items gathered so far come first among the items of `target`. */
  lemma CursorItems(target: Paged, requests: seq<Request>, got: seq<PlaylistItem>, pages: seq<PageReply>,
                    n: nat, page: Option<string>, count: nat, maxVideos: nat)
    requires Cursor(target, requests, got, pages, n, page, count, maxVideos)
    ensures got <= target.items
  {
  }

  /** The loop ended because there is no next page or enough videos were gathered:
      it made all the requests of `target` and gathered all its items. */
  lemma CursorDone(target: Paged, requests: seq<Request>, got: seq<PlaylistItem>, pages: seq<PageReply>,
                   n: nat, page: Option<string>, count: nat, maxVideos: nat)
    requires Cursor(target, requests, got, pages, n, page, count, maxVideos)
    requires page.None? || count >= maxVideos
    ensures target.requests == requests && target.items == got && target.stop != MissingItems
    ensures MadeSoFar(requests, target)
  {
    if page.Some? {
      assert requests + [] == requests && got + [] == got;
    }
  }

}
