# mopidy-youtube metadata core in Dafny

This project models the metadata layer of `mopidy_youtube/youtube.py` and proves
properties of the model. In that layer, videos and playlists are cached by id and
expose every field as a set-once future. Reading a field for the first time starts
a background job on a small thread pool. That job asks the data source about up to
50 entities at once and fills their futures from the reply. A playlist's `videos`
job pages through the playlist's items, and `Entry.search` turns one search reply
into cached entities.

The model has eight modules:

- `Wrappers`: `Option` and `Min`.
- `Duration`: reading a `PT#H#M#S` duration as `_set_api_data` does, and the
  scraper's assembly of such a string.
- `Items`: the raw items of a reply. Every key the source reads is an `Option`, and
  `None` is a key whose absence makes the source raise. Also the `video_count`
  clamp and the thumbnail filter.
- `Entries`: the entities (`class Entry`, whose `cells` map plays the role of the
  `_title`, `_length`, ... futures in `__dict__`); `_add_futures` and
  `_set_api_data`, both as a specification function and as an imperative method;
  and the `Entry.get` cache (`class EntityCache`).
- `Batching`: the slices of 50 taken by `load_info`.
- `Pool`: `ThreadPool` as a class over a job stack and a worker count, with
  `run` and the locked step of `worker` as methods.
- `Replies`: what the jobs make of a reply, as pure functions:
  - the `id -> item` dictionary;
  - the dispatch of `search`;
  - the field lists;
  - the page loop of `Playlist.videos` (`Paginate`).
- `Youtube`: the running system (`class Runtime`):
  - `load_info`;
  - the three kinds of job;
  - property access (`async_property`);
  - `search`;
  - a worker taking jobs until none is left.

A raise in the source is an outcome value here (`ok`/`raised`/`None`). The data
source and youtube_dl are one collaborator, `Source`, whose answers are given as
functions of the request.

Where the design's intent and the code differ, the model follows the code:

- Pending jobs are a stack: `worker` pops the newest job.
- A raise inside a job leaves the futures it had not reached unset. The design
  wants every future resolved even on failure. The code does not do this when
  `_set_api_data` meets an item missing a key or a duration without `PT` (the
  regular-expression search finds no match and `.group` is called on `None`), when
  a page reply has no `items`, or when youtube_dl's info has no `url`.
- A second `set` on a future raises (pykka's one-slot queue is full). The job that
  did it ends there.
- `search` returns `None` when any item raises in `create_object`, but the items
  handled before it keep what was set on them.

## Model

| member | source | states |
|---|---|---|
| Duration.FindPT | mopidy_youtube/youtube.py:179-182 | `re.search` starts at the leftmost `PT`. `None` exactly when no position holds `PT`. |
| Duration.DigitRunEnd | mopidy_youtube/youtube.py:179-181 | Greedy `\d+`: the run ends at the first non-digit, and every character before it is a digit. |
| Duration.MatchComponent | mopidy_youtube/youtube.py:179-181 | An optional group stays within the text, and it is skipped exactly when it consumes nothing. |
| Duration.MatchShape | mopidy_youtube/youtube.py:179-181 | A group that matches consumes at least one digit and then its designator letter. |
| Duration.MatchAll | mopidy_youtube/youtube.py:179-181 | After `PT`, the hours, minutes and seconds groups each take exactly their own segment of the text. |
| Duration.ScrapedRoundTrip | mopidy_youtube/youtube.py:465-471 | `ParseDuration` of the scraper's assembled string (`ScrapedDuration`) gives back exactly the hours, minutes and seconds it was built from (round trip). |
| Duration.ScrapedLength | mopidy_youtube/youtube.py:179-185 | `LengthOf` a scraped duration is hours*3600 + minutes*60 + seconds, a missing component counting 0. |
| Duration.ScrapedDurationPresent | mopidy_youtube/youtube.py:486-491 | `ScrapedDuration`: the `'PT' + duration` string is built exactly when at least one of the three groups matched. |
| Duration.ScrapedDurationKept | mopidy_youtube/youtube.py:486-497 | `ScrapedContentDetails`: a scraped item keeps `contentDetails.duration` exactly when some group matched and no `itemCount` did, and the duration is the assembled string. A matched `itemCount` replaces the whole `contentDetails`, dropping the duration. |
| Duration.LengthFailsWithoutPT | mopidy_youtube/youtube.py:179-185 | `LengthOf` (the `length` computation over `ParseDuration`) raises exactly when the duration string contains no `PT`, in both directions. |
| Duration.LengthExampleFull | mopidy_youtube/youtube.py:178-185 | `PT1H2M10S` is 3730 seconds, the example of the source's comment. |
| Duration.LengthExampleMinutes | mopidy_youtube/youtube.py:179-185 | `PT5M` is 300 seconds: the missing hours and seconds count 0. |
| Duration.LengthExampleSeconds | mopidy_youtube/youtube.py:179-185 | `PT10S` is 10 seconds. |
| Duration.LengthExampleDays | mopidy_youtube/youtube.py:179-185 | `P1D` has no `PT`, so the search finds nothing and the source raises. |
| Items.ClampCount | mopidy_youtube/youtube.py:187 | `min(itemCount, max_videos)`: at most both arguments, and equal to one of them. |
| Items.ClampCountExample | mopidy_youtube/youtube.py:187 | A playlist of 85 videos reports 60 with the default `max_videos` (60, line 284). |
| Items.ThumbnailUrls | mopidy_youtube/youtube.py:188-193 | Without a raise, the filter yields one URL per kept thumbnail. |
| Items.ThumbnailUrlsSpec | mopidy_youtube/youtube.py:188-193 | The thumbnail filter raises exactly when a `medium`/`high` entry lacks `url`. Otherwise it yields the URLs of exactly those entries, in dictionary order. |
| Items.KeptThumbnailsSpec | mopidy_youtube/youtube.py:188-193 | An entry is kept exactly when its key is `medium` or `high`, and no entry is added. |
| Items.ThumbnailUrlsAtMostTwo | mopidy_youtube/youtube.py:188-193 | Since a dictionary holds each key once, at most two URLs come out. |
| Entries.FieldValue | mopidy_youtube/youtube.py:171-193 | The value of one field: no item gives the absent value. Title is text and raises exactly when its key is missing. Channel raises exactly when `channelTitle` is missing. A null `channelTitle` (the scraper's unmatched `uploader`, line 509) is stored as the absent value, and any other is text. Length and video count are numbers. `video_count` raises exactly when `itemCount` is missing or the entity is a video (no `max_videos`), and is at most `max_videos`. Thumbnails are a URL list. |
| Entries.ApplyFields | mopidy_youtube/youtube.py:161-195 | A call that raises leaves the future of some requested field created but unset. |
| Entries.ApplyKeepsSet | mopidy_youtube/youtube.py:168-169 | `_set_api_data` never overwrites a future that is already set. |
| Entries.ApplyKeepsFutures | mopidy_youtube/youtube.py:164-169 | `_set_api_data` drops no future: every future the entity had is still there. |
| Entries.NullChannelStored | mopidy_youtube/youtube.py:173-176 | A search result with a title and a null `channelTitle` gets its title as text and its channel as the absent value, without a raise. |
| Entries.ApplyOnlyFields | mopidy_youtube/youtube.py:162-195 | Futures of fields not in `fields` are neither created nor changed. |
| Entries.ApplyCompletes | mopidy_youtube/youtube.py:162-195 | Without a raise, every requested field ends with a set future. |
| Entries.ApplyValues | mopidy_youtube/youtube.py:171-195 | Every future the call sets is a requested field and holds the value computed for it from the item. |
| Entries.ApplyRaises | mopidy_youtube/youtube.py:171-195 | The call raises exactly when some requested, not yet set field has no computable value (missing key, no `PT`, `max_videos` of a video). |
| Entries.AbsentItemClearsAll | mopidy_youtube/youtube.py:171-172 | With no item, every requested unset future becomes the absent value, set ones are kept, and nothing raises. |
| Entries.ApplyAllSet | mopidy_youtube/youtube.py:168-169 | Once every requested field is set, the call changes nothing and does not raise. |
| Entries.ApplyIdempotent | mopidy_youtube/youtube.py:161-195 | Repeating a call that did not raise changes nothing. |
| Entries.WithFuturesSpec | mopidy_youtube/youtube.py:138-144 | `WithFutures`, the futures after `add(obj)`: existing futures are kept and every requested field gets one. New futures are unset, and one is added exactly when one was lacking. |
| Entries.WithFuturesIdempotent | mopidy_youtube/youtube.py:138-144 | Adding the same futures twice is the same as adding them once. |
| Entries.KeptMembers | mopidy_youtube/youtube.py:137-146 | `_add_futures` returns exactly the listed objects that lacked one of the futures. |
| Entries.KeptDistinct | mopidy_youtube/youtube.py:137-146 | No object is returned twice, even when the list repeats it. |
| Entries.KeptOrder | mopidy_youtube/youtube.py:146 | `filter` keeps list order: returned objects come in the order of their first occurrences. |
| Entries.KeptMeetsSpec | mopidy_youtube/youtube.py:137-146 | `Kept`, the list `_add_futures` returns, has the three properties above together: no repeats, exactly the objects lacking a future, in order of first occurrence. |
| Entries.KeptNoneWhenComplete | mopidy_youtube/youtube.py:137-146 | Once every listed object has the futures, a second request returns nothing, so no second job is started. |
| Entries.VideoThumbnailUrls | mopidy_youtube/youtube.py:236-239 | A video has two thumbnail URLs, one per size name. |
| Entries.VideoThumbnailUrlsSpec | mopidy_youtube/youtube.py:233-239 | A video's thumbnails are two URLs on `i.ytimg.com` carrying its id, `mqdefault` then `hqdefault`. |
| Entries.Entry.AddMissing | mopidy_youtube/youtube.py:138-144 | The loop of `add(obj)` leaves the futures of `WithFutures` and reports whether it added one. |
| Entries.Entry.AddFutures | mopidy_youtube/youtube.py:137-146 | Returns `Kept` of the list as it was before the call, and every listed object, repeated or not, ends with `WithFutures` of its old futures. |
| Entries.Entry.SetFuture | mopidy_youtube/youtube.py:195 | `future.set(v)` succeeds exactly on an unset future. A second `set` raises and changes nothing. |
| Entries.Entry.SetApiData | mopidy_youtube/youtube.py:161-195 | The loop's futures and raise outcome are exactly those of `ApplyFields`. |
| Entries.EntityCache.Get | mopidy_youtube/youtube.py:84-89 | A cached `(class, id)` returns the same object and leaves the cache unchanged. Otherwise a fresh object with no futures is stored. The cache stays within 400 entries, and every other entry still cached maps to the same object as before. A miss evicts nothing while fewer than 400 entries are cached, and at most one entry otherwise. |
| Fills.FillStep | mopidy_youtube/youtube.py:161-195 | One `_set_api_data` call seen on the futures of every entity: it records the entity it ran on and changes no other entity. |
| Fills.FillAll | mopidy_youtube/youtube.py:336-339 | The calls of a loop (this one, or the search loop of lines 125-129), one per element in order: the futures of exactly the entities seen before and those the loop ran on are recorded. |
| Fills.FillAllSnoc | mopidy_youtube/youtube.py:336-339 | One more element of the loop is one more call, and the loop went through without a raise exactly when the earlier ones did and the new call did not raise. |
| Fills.FillAllOthers | mopidy_youtube/youtube.py:336-339 | Entities the loop did not reach keep their futures. |
| Fills.FillAllKeepsSet | mopidy_youtube/youtube.py:168-169 | Over a whole loop, no future is dropped and no future that was set is overwritten. |
| Fills.FillStepKeepsSet | mopidy_youtube/youtube.py:168-169 | One call keeps every future of every entity, with each set one holding its value. |
| Fills.FillStepIdle | mopidy_youtube/youtube.py:168-169 | A call on an entity whose requested fields are all set changes nothing. |
| Fills.FillStepFresh | mopidy_youtube/youtube.py:161-195 | A call that does not raise sets every requested field to what `ApplyFields` makes of the entity's earlier futures. |
| Fills.FillsRunFirst | mopidy_youtube/youtube.py:336-339 | When no call raised, each entity holds what the call at its first occurrence made of its earlier futures; later occurrences change nothing. |
| Batching.Chunks | mopidy_youtube/youtube.py:224-225 | There are no slices exactly for an empty list, and the first slice is `list[0:50]`. |
| Batching.ChunksFlatten | mopidy_youtube/youtube.py:224-225 | The slices concatenate back to the list. |
| Batching.ChunkCount | mopidy_youtube/youtube.py:224-225 | There are ceil(n / 50) slices. |
| Batching.ChunkAt | mopidy_youtube/youtube.py:224-225 | Slice `j` is `list[50j : 50j + 50]`. |
| Batching.ChunkIndex | mopidy_youtube/youtube.py:224 | `range(0, len, 50)` reaches `50j` exactly when there is a slice `j`. |
| Batching.ChunkSizes | mopidy_youtube/youtube.py:224-225 | Each slice holds 1 to 50 elements, and all but the last hold exactly 50. |
| Batching.ChunksOf120 | mopidy_youtube/youtube.py:224-226 | 120 entities go out as three lookups of 50, 50 and 20. |
| Pool.RunStep | mopidy_youtube/youtube.py:631-642 | `run` makes the stack one job longer with the new job on top, and afterwards at least one worker is live. That the jobs below stay as they were is stated by `RunStepSpec`. |
| Pool.TakeStep | mopidy_youtube/youtube.py:613-621 | A worker takes a job exactly when the stack is not empty, and the job it takes is the top one, the rest staying in order. |
| Pool.RunStepSpec | mopidy_youtube/youtube.py:631-642 | `run` pushes the job on top and starts a worker exactly when fewer than `threads_max` run. The pool stays within its bound, with a worker for any pending job. |
| Pool.TakeStepSpec | mopidy_youtube/youtube.py:613-621 | A worker pops the newest job, keeping the rest in order. Exactly when none is left, it counts itself out. Health is kept. |
| Pool.RunThenTake | mopidy_youtube/youtube.py:616 | Last in, first out: the job just submitted is the next one taken. |
| Pool.RunAllSpec | mopidy_youtube/youtube.py:631-642 | Submitting `n` jobs appends them in order, and the worker count becomes `min(threads_max, active + n)`. |
| Pool.RunAllSnoc | mopidy_youtube/youtube.py:631-642 | Submitting one more job is one more `run` step. |
| Pool.ThreeJobsTwoWorkers | mopidy_youtube/youtube.py:636-640 | Three submissions to an idle pool start only two workers. |
| Pool.ThreadPool.Run | mopidy_youtube/youtube.py:631-642 | The new pool state is `RunStep` of the old one, and `started` tells whether a worker was started. |
| Pool.ThreadPool.Take | mopidy_youtube/youtube.py:613-622 | The new pool state and the job taken are `TakeStep` of the old state. |
| Replies.FieldsOfSpec | mopidy_youtube/youtube.py:205 | The `load_info` fields can all be computed and are properties of the class, with none repeated. `length` is asked only of videos, `video_count` and `thumbnails` only of playlists (line 291). |
| Replies.ItemsById | mopidy_youtube/youtube.py:214-217 | The dictionary is built exactly when every item has an `id`. Otherwise the job falls back to `{}`. |
| Replies.ItemsByIdKeys | mopidy_youtube/youtube.py:214 | Its keys are exactly the items' ids. |
| Replies.ItemsByIdLast | mopidy_youtube/youtube.py:214 | A repeated id maps to the last item that carries it. |
| Replies.Lookup | mopidy_youtube/youtube.py:209-220 | `dict.get(id)` finds an item exactly when the lookup succeeded, every item has an `id`, and one of them carries `id`. |
| Replies.MissingItemClearsAll | mopidy_youtube/youtube.py:214-220 | A failed lookup, or one without the entity's id, sets every unset requested future to absent without raising. |
| Replies.LookupFinds | mopidy_youtube/youtube.py:214-220 | `dict.get(id)` finds the last item carrying `id`. |
| Replies.Ids | mopidy_youtube/youtube.py:211-213 | `[x.id for x in sublist]`: one id per member, in order. |
| Replies.Target | mopidy_youtube/youtube.py:97-107 | `create_object` finds its entity exactly when the keys it indexes exist. Kind `youtube#video` gives the video of `videoId`, any other kind the playlist of `playlistId`. |
| Replies.SearchFields | mopidy_youtube/youtube.py:105-113 | A search result fills title and channel, plus thumbnails for playlists only, all properties of the class. |
| Replies.NextToken | mopidy_youtube/youtube.py:333 | `data.get('nextPageToken') or None`: a missing or empty token ends the loop, and any other is kept. |
| Replies.PaginateFrom | mopidy_youtube/youtube.py:324-333 | The loop makes a request exactly when fewer than `max_videos` are gathered. The first asks with the current token for `min(max_videos - gathered, 50)` results. |
| Replies.Paginate | mopidy_youtube/youtube.py:322-326 | The whole loop makes no request exactly when `max_videos` is 0. Its first request asks for page `''` and `min(max_videos, 50)` results. |
| Replies.RequestsBounded | mopidy_youtube/youtube.py:326 | Every request asks for 1 to 50 results, and no more than are still wanted. |
| Replies.ItemsInPageOrder | mopidy_youtube/youtube.py:321-345 | The gathered items are the replies' items, page after page, in order. |
| Replies.RequestCount | mopidy_youtube/youtube.py:324-332 | At most one request is made past the last reply. |
| Replies.TokensAdvance | mopidy_youtube/youtube.py:323-333 | Each request after the first carries the token of the previous reply, which arrived with items. |
| Replies.StopReason | mopidy_youtube/youtube.py:324-336 | The loop stops for exactly one of four reasons, each tied to the last reply: full, failed request, reply without `items`, or no next page. |
| Replies.WithinMaxVideos | mopidy_youtube/youtube.py:324-326 | When every reply holds at most what was asked, no more than `max_videos` videos are gathered. |
| Replies.SixtyOfMany | mopidy_youtube/youtube.py:321-345 | With `max_videos` 60 and a 50-item first page, the loop asks for 50, then 10, and stops full. |
| Youtube.BatchJobs | mopidy_youtube/youtube.py:224-226 | One batch job per slice, in the order of the slices. |
| Youtube.CountAfterBatches | mopidy_youtube/youtube.py:208-226 | Submitting batch jobs adds no `Playlist.videos` job, which bounds the worker's loop. |
| Youtube.NextSlice | mopidy_youtube/youtube.py:224-226 | The loop's slice at `i = 50j` is slice `j`, and submitting it extends the submitted jobs by one. |
| Youtube.TitleFills | mopidy_youtube/youtube.py:338 | Each item of a page asks for `_set_api_data(['title'], item)`. |
| Youtube.TitledFrame | mopidy_youtube/youtube.py:335-339 | After a page's loop, its videos are recorded, entities it did not name keep their futures, and every set future keeps its value. |
| Youtube.TitlesSet | mopidy_youtube/youtube.py:335-339 | A page whose loop did not raise leaves every video of the page with its title set. |
| Youtube.TitleRaises | mopidy_youtube/youtube.py:338 | `_set_api_data(['title'], item)` can raise only when the item has no title. |
| Youtube.PageFrame | mopidy_youtube/youtube.py:335-339 | Part way through a page's loop, and after the call on the video that raised: entities no item of the page names keep their futures, and set futures keep their values. |
| Youtube.SearchFill | mopidy_youtube/youtube.py:105-113 | A search result asks for the search fields of the entity it names. |
| Youtube.SearchFills | mopidy_youtube/youtube.py:126 | `map` calls `create_object` on each item of the reply, in order. |
| Youtube.SearchRaises | mopidy_youtube/youtube.py:105-113 | The call of `create_object` can raise only on a search field that has no value in the item. |
| Youtube.SearchSameFields | mopidy_youtube/youtube.py:97-114 | An entity named by two results is asked for the same fields both times. |
| Youtube.SearchFrame | mopidy_youtube/youtube.py:125-129 | Part way through the search loop: entities no result names keep their futures, and set futures keep their values. |
| Youtube.GatheredAppend | mopidy_youtube/youtube.py:340 | `all_videos += myvideos` keeps the videos in step with the items of all pages so far. |
| Youtube.CursorStart | mopidy_youtube/youtube.py:322-323 | The loop starts at the first reply, with no requests made, nothing gathered, and token `''`. |
| Youtube.CursorFails | mopidy_youtube/youtube.py:325-336 | A failed request, or a reply without `items`, is the last request. The gathered items are final. |
| Youtube.CursorNext | mopidy_youtube/youtube.py:324-340 | A reply with items adds one request and those items, and goes on with the reply's token, as `Paginate` does. |
| Youtube.CursorItems | mopidy_youtube/youtube.py:340 | The items gathered so far start the loop's final list. |
| Youtube.CursorDone | mopidy_youtube/youtube.py:324 | Exiting the loop's condition means every request and item of `Paginate` has been made or gathered. |
| Youtube.Runtime.Get | mopidy_youtube/youtube.py:84-89 | `Video.get` / `Playlist.get` return the cached entity of that id, or a fresh one with no futures, and register it. The cache changes as `EntityCache.Get` allows, and no entity's futures change. |
| Youtube.Runtime.SetOn | mopidy_youtube/youtube.py:161-195 | `_set_api_data` on one entity: the futures of every entity and the outcome are `FillStep`'s. |
| Youtube.Runtime.LoadInfo | mopidy_youtube/youtube.py:204-226 | `load_info`: futures are added as `_add_futures` does, and one batch job is pushed per slice of 50 of `Kept`, in order. `Kept` has no repeats, holds exactly the objects lacking a future, in list order. The same holds for playlists (lines 290-311). |
| Youtube.Runtime.SubmitSlices | mopidy_youtube/youtube.py:224-226 | The slicing loop pushes exactly `BatchJobs(Chunks(kept))`. |
| Youtube.Runtime.Submit | mopidy_youtube/youtube.py:226 | `ThreadPool.run(job)` is one `RunStep`. |
| Youtube.Runtime.BatchJob | mopidy_youtube/youtube.py:208-220 | Members up to a raise get exactly `ApplyFields` over the lookup of their id in the one reply. The member that raises gets its partial result, and later members are untouched. |
| Youtube.Runtime.AudioJob | mopidy_youtube/youtube.py:248-273 | An extraction error sets the future to absent, and otherwise it is set to `info['url']`. A missing `url`, or a future already set, raises and leaves it unchanged. |
| Youtube.Runtime.ItemVideo | mopidy_youtube/youtube.py:337-338 | No video exactly when the item has no `videoId`. Otherwise it is the video of that id, and the futures of every entity are those of `_set_api_data(['title'], item)` on it (`FillStep`), raise included. A raise happens only on an item without `videoId` or title. |
| Youtube.Runtime.PageVideos | mopidy_youtube/youtube.py:335-339 | The videos of the items, in order, stopping at a raise. The futures of every entity are those of `FillAll` of the title calls so far, plus the call that raised. A raise happens only on an item without `videoId` or title. Other entities keep their futures, and set futures keep their values. |
| Youtube.Runtime.TakePage | mopidy_youtube/youtube.py:335-343 | One page. Without a raise: one video per item, each holding the `FillAll` title futures plus those of `load_info`; no other entity changes; exactly `BatchJobs(Chunks(kept))` is pushed, `kept` being the videos lacking a future, without repeats, in order. A raise happens only on an unusable item and pushes nothing. |
| Youtube.Runtime.PageListed | mopidy_youtube/youtube.py:338-343 | After a page has loaded, each of its videos has its title set (by the first item naming it) and the futures of `Video.load_info` created. |
| Youtube.Runtime.ListedAfterPage | mopidy_youtube/youtube.py:335-343 | A page that loaded keeps the videos gathered before it as they were listed, their futures being kept, and lists its own. |
| Youtube.Runtime.FinishPage | mopidy_youtube/youtube.py:340-343 | After a page's loop ran through, `Video.load_info(myvideos)` leaves the page as `PageLoaded` describes. |
| Youtube.Runtime.LoadPage | mopidy_youtube/youtube.py:343 | `Video.load_info(myvideos)` adds the futures, pushes the batch jobs of `Kept`, and changes no other entity. |
| Youtube.Runtime.CollectVideos | mopidy_youtube/youtube.py:322-343 | The requests made start those of `Paginate`. Without a raise, they are exactly those, and the videos are `Paginate`'s items one for one, in order, each with its title set and the futures of `Video.load_info` created. A raise happens only on a reply without `items` or an unusable item. |
| Youtube.Runtime.PlaylistVideosJob | mopidy_youtube/youtube.py:321-345 | Without a raise (`ChildrenSet`), `videos` is set to the gathered list, also after a failed request (partial result), and each of its videos has its title set and the futures of `Video.load_info` created. With a raise, the future is unchanged, and a raise happens only on a reply without `items`, an unusable item, or an already set future. |
| Youtube.Runtime.Access | mopidy_youtube/youtube.py:38-46 | The first read runs the property body, and every read returns the same future. Per property: video `thumbnails` is set at once; `audio_url` and `videos` push their job; any other pushes one batch job for the entity. |
| Youtube.Runtime.LoadSelf | mopidy_youtube/youtube.py:150-156 | `self.load_info([self])` (also `length`, lines 228-230) on an entity lacking a future adds its futures and pushes one batch job for it. |
| Youtube.Runtime.CreateObject | mopidy_youtube/youtube.py:97-114 | No entity exactly when a key that names it is missing. Otherwise the futures of every entity are those of `_set_api_data` with the search fields on it (`FillStep`), and the entity is returned exactly when that call did not raise. A raise happens only where a needed key or value is missing. |
| Youtube.Runtime.CreateAll | mopidy_youtube/youtube.py:125-131 | `map(create_object, items)` stops with `None` at the first raise. Otherwise it returns one entity per item, each the one the item names with its search fields set, and the futures of every entity are those of `FillAll`. |
| Youtube.Runtime.RaisedAt | mopidy_youtube/youtube.py:125-129 | A raise in `create_object` ends the search with `None`, only entities the reply names having changed. |
| Youtube.Runtime.AllCreated | mopidy_youtube/youtube.py:125-131 | A loop that ran through returns the entities it made, as `Created` describes. |
| Youtube.Runtime.ResultsSet | mopidy_youtube/youtube.py:97-114 | When no call raised, every result is the entity its item names, with the search fields set. |
| Youtube.Runtime.Search | mopidy_youtube/youtube.py:116-131 | A failed search gives `None` and changes nothing. Otherwise the result is `CreateAll`'s: `None` only when some item can raise, or one entity per item with the futures of `FillAll`. Either way entities no item names keep their futures, and set futures keep their values. |
| Youtube.Runtime.Worker | mopidy_youtube/youtube.py:612-628 | A worker runs jobs, catching their raises, until the stack is empty. It then exits, leaving fewer than `threads_max` workers. |

## Left out

- The HTTP layer:
  - the `API` and `scrAPI` classes;
  - their requests and sessions, and the proxy and user-agent setup;
  - the scraper's HTML regular expressions, except the duration assembly.

  Their answers are the `Source` collaborator, whose answers are given as functions.
- youtube_dl: only the outcome of `extract_info` (an error or an info with or without `url`) is modelled.
- Threads, the lock and interleaving:
  - a job runs to completion when a worker takes it;
  - `run` and a worker's locked step are atomic;
  - blocking `get()` on a future is not modelled.
- Logging (`logger.error`) and the daemon flag of worker threads.
- The `api_enabled` switch: both data sources are the one collaborator.
- The properties `is_video`, which are constants.
- Eviction order of the `lru_cache`: `Entries.EntityCache.Get` evicts an arbitrary entry when the cache is full. The library's least-recently-used choice is not modelled.
- Python dictionary iteration order of `thumbnails` is the order of a sequence, and the identity of a future is its field key in `cells`.
- The page source is a finite sequence of replies per playlist, and a request past its end fails.
- Items.ClampCount: `itemCount` is taken as an integer. The scraper supplies it as a string (lines 492-495), and Python 2's mixed-type `min` would then always give `max_videos`; that is not modelled.
- Youtube.Runtime.CollectVideos: the `max_results` of each request is a ghost value, because the data source is given as replies and does not read it. On a raise, only that the requests made are a prefix of `Paginate`'s is stated.
- Youtube.Runtime.Search: the futures and the outcome are exactly those of `FillAll` and `FillsRun`. Only the item-level summary is one-directional: a `None` result implies that some item can raise, but not the converse, because whether an item raises also depends on which of its fields are already set.
- Youtube.Runtime.CreateObject: whether it raises is exact, through `FillStep`. Only the item-level condition is one-directional: a raise implies a missing key or value, not the converse, for the same reason.
- Youtube.Runtime.PageVideos: whether it raises is exact, through `FillStep` on the touched video. Only the item-level condition is one-directional: a raise implies an item without `videoId` or `title`, not the converse, for the same reason.
- Youtube.Runtime.ItemVideo: the same as `PageVideos`, for one item.
- Youtube.Runtime.Worker: states the frames, that the stack ends empty and the bound on workers, but not the effect of each job it takes; that effect is stated by the job's own method.
