# A verified model of ZeroNime's startup cache and its surroundings

ZeroNime keeps the first and the last bytes of an episode's file so that a browser can start
playing at once. This project models that cache and the services that feed it, and proves what
they keep. The parts:

- **Head/tail cache** (`MediaCache`, `RangeHeader`, `CacheKeys`, `TieredStore`). Prewarming from an
  upstream, answering range requests, the two header parsers, the cache keys, the two-tier blob store.
- **Predictive cache** (`PredictiveWindow`, `PredictiveProgress`, `PredictiveAlone`,
  `PredictiveCache`). `PredictiveWindow` is a step system: any number of `UpdateWindow` calls, each
  with its prewarm goroutines and its prune pass, and any number of readers, interleaved at every
  access to shared state. `PredictiveProgress` is why its calls end, `PredictiveAlone` what a call
  leaves behind that runs with no other. `PredictiveCache` is the object, with its loops, for one
  call at a time.
- **Coalescing fetcher** (`CoalescingFetch`, `FetchAnswers`, `MediaFetcher`). The first is a step
  system with a heap of buffers, single flight, evictions and callers that overwrite what they were
  given; the second ties every answer to what the upstream replied; the third has the copying on
  Dafny's own heap.
- **Stream resolution** (`StreamCandidates`, `Otakudesu`, `StreamService`). Sort, dedupe, filter,
  re-sort, select; and the memory and table caches with URLs that expire.
- **Crawl, pools, identifiers, history** (`Crawl`, `EpisodeRefs`, `WorkerPool`, `EpisodePools`,
  `Identifiers`, `Aliases`, `WatchHistory`, `HistoryRaces`, `ContinueWatching`). `WatchHistory` is
  the table with one request after another, `HistoryRaces` the step system of requests that overlap.

`GoText` and `Sorting` model the pieces of Go's library the code leans on; `Sums` serves the
measures of the progress theorems.

## How to read it

A service that changes its fields is a class; its methods are proved equal to a function of the old
state, and the promises are proved about that function. A protocol is a state, a `Step` datatype
holding every choice the environment has, and an `Apply` function; theorems are about all runs of
enabled steps. What a database, disk, upstream or clock does is a parameter of the call or the step.

Assumptions, each of which is a visible precondition or part of a step's guard:

- An upstream is honest: whatever range header it is sent, a 206 carries exactly the bytes that
  header asks for, clipped to the file, and its `Content-Range` has the complete length
  (`MediaCache.HonestUpstream`, `Honest`; sections 14.4 and 15.3.7 of RFC 9110).
- URLs with one source key serve one file per episode (`MediaCache.FileOf`).
- The hash of a blob key does not collide on the preimages compared (`CacheKeys.BlobKeysInjective`);
  on that ground `Domain.BlobKey` stands for the key text.
- One blob read or write is atomic, and a failed write leaves the store as it was.
- `headBytes` and `tailBytes` do not change during a run.
- Single flight runs one function per key at a time and gives its result to all who wait.
- GORM's `Save` of a row that has a primary key replaces the row with that key, or inserts it when
  it is gone; `First` takes the lowest primary key.
- Ten calendar years from now is later than now (`StreamService.ValidConfig`).

Where the code is stricter than section 14.1.2 of RFC 9110 (a last position or suffix length beyond
the file is refused, not clipped), the model follows the code; `ParsePrinted` says exactly that.

Some properties one might expect are not kept by the code. Each is stated with an input that breaks
it and the exact condition under which it holds:

- One request's bytes never answer another. Coalescing keys can collide (`CommaKeysCollide`), for a
  given request exactly when its range or its URL can be cut at a bar so that an accepted range
  results (`SharesItsKeyIff`); never when neither holds a bar (`BarFreeKeyIsOwn`, `AnswersAreOwn`).
- Every accepted range fits the buffer limit: all but one (`CoalescedSize`, `WrappingHeaderAccepted`).
- After a successful `Put` a `Get` never returns older bytes. A lost local write can bring them back
  (`StaleLocalRead`); a `Put` is reliable exactly when its local write succeeds or the local tier
  holds no other bytes for the key (`PutReliableIff`).
- An input with a direct mp4 leaves only direct mp4s: exactly when one of them wins its dedupe key
  (`AllDirectMp4Iff`, `DirectMp4CanBeLost`).
- A client and a catalog have at most one history row. This holds for saves that come one after
  another (`RunRows`) and, with overlapping ones, as long as no find comes up empty while another
  save of that client and catalog is between its find and its save (`OrderlyRunsHaveOneRow`); such a
  find is safe exactly then (`FirstSaveIsSafeIff`).
- Fetching only the missing catalogs is enough for continue watching: exactly when no row hides
  behind a complete first row (`RestrictionIsEnoughIff`), so on every history with one row each
  (`ContinueWatchingAfterRun`, `ContinueWatchingAfterOrderlyRun`), but not on one that two racing
  first saves can leave (`RacingSavesHideARow`).

## Model

| member | source | states |
|---|---|---|
| RangeHeader.ParsePrinted | internal/mediacache/service.go:228-265 | parsing a printed bounded, suffix or open header gives exactly the interval it selects from the file, and refuses it when it selects nothing or reaches past the file |
| RangeHeader.AcceptedMeansAForm | internal/mediacache/service.go:228-265 | every accepted header means one of the three forms, unclipped, and its interval lies in the file |
| RangeHeader.ParsersAgree | internal/httpserver/media_fetch.go:126-148 | whenever the cache accepts a bounded header the fetcher reads the same pair, and it refuses the suffix and open forms |
| RangeHeader.TotalLengthOfContentRange | internal/mediacache/service.go:267-284 | the complete length of a printed Content-Range is read back |
| RangeHeader.TotalLengthUnknown | internal/mediacache/service.go:267-284 | an unknown complete length and a missing Content-Range give the body's length, and zero when that is unknown |
| CacheKeys.CoalescingKeyIs | internal/httpserver/media_fetch.go:112-124 | the requests that have a key are those with two bounds in order within the limit, and the one that wraps; and the key's text |
| CacheKeys.ExplicitOfUnit | internal/httpserver/media_fetch.go:126-148 | the unit may be written in any case |
| CacheKeys.ExplicitOfList | internal/httpserver/media_fetch.go:131-135 | of a list of ranges the first one counts |
| CacheKeys.KeyCollision | internal/httpserver/media_fetch.go:112-124 | two range texts can share a key for different requests exactly when one ends in a bar and the other |
| CacheKeys.CommaFreeKeysInjective | internal/httpserver/media_fetch.go:112-148 | accepted headers without a comma share a key only if URL and trimmed header agree |
| CacheKeys.SharesItsKeyIff | internal/httpserver/media_fetch.go:112-148 | an accepted request shares its key with a different accepted one exactly when its range splits at a bar into anything and an accepted range, or its URL splits at a bar into anything and the start of an accepted range that ends in its own |
| CacheKeys.BarFreeKeyIsOwn | internal/httpserver/media_fetch.go:112-148 | a request without a bar in URL and range shares its key with no other, whatever that one holds |
| CacheKeys.CommaKeysCollide | internal/httpserver/media_fetch.go:112-148 | for every URL and accepted comma-free range, that range, a comma, a bar and the range again is accepted for the same bytes and shares its key with a different accepted request |
| CacheKeys.CoalescedSize | internal/httpserver/media_fetch.go:117-122 | the size test keeps every accepted range within the limit except the one whose length wraps int64 |
| CacheKeys.WrappingHeaderAccepted | internal/httpserver/media_fetch.go:117-122 | that one, from 0 to 2^63-1, is accepted whatever the limit |
| CacheKeys.BlobKeysInjective | internal/mediacache/service.go:301-304 | blob keys differ for different episode, URL or part |
| MediaCache.Service.IsSufficientlyCached | internal/mediacache/service.go:127-157 | the early-return chain computes sufficiency of entry and blobs |
| MediaCache.Service.Prewarm | internal/mediacache/service.go:59-125 | the new store, the error and the ranges fetched, as the function Prewarmed of the old store |
| MediaCache.Service.TryServeRange | internal/mediacache/service.go:159-209 | the answer is that of Served, through misses, failing metadata and blob reads, and slices |
| MediaCache.PrewarmKeepsCanonical | internal/mediacache/service.go:66-125 | from an honest upstream every blob is the one piece of its file that belongs under its key and every entry describes its file, through any failures |
| MediaCache.FetchedHeaders | internal/mediacache/service.go:66-111 | the header texts sent: none, the head's, or the head's and then that of the last tailBytes of the file, and exactly when each |
| MediaCache.PutBlobsAreReplies | internal/mediacache/service.go:73-122 | the blobs put are the upstream's replies to those headers, all others stay |
| MediaCache.WrittenEntry | internal/mediacache/service.go:82-124 | the entry written: source, container, quality, content type, lengths and the keys that were put; entries of other episodes stay |
| MediaCache.ServedOtherwise | internal/mediacache/service.go:159-181 | blank requests, unknown episodes and other sources miss, a failing metadata read is an error, and a hit has the entry's content type |
| MediaCache.HeadAndTailDisjoint | internal/mediacache/service.go:66-125 | after a Prewarm without error, from an honest upstream, the stored entry describes the file of the URL asked for, and its head and tail do not overlap in it |
| MediaCache.PlanExact | internal/mediacache/service.go:183-226 | never a slice outside a blob; a miss exactly outside head and tail; a hit has the file's bytes and the matching Content-Range and Content-Length |
| MediaCache.HitExactly | internal/mediacache/service.go:183-206 | with the blobs present a request hits exactly when its interval lies in the head or in the tail |
| MediaCache.HitIsHonest | internal/mediacache/service.go:159-226 | a hit is an honest upstream's reply to the same range, shortened only for open requests that start in the head |
| MediaCache.SecondPrewarmFetchesNothing | internal/mediacache/service.go:66-157 | after a prewarm that went through, a second one fetches nothing exactly when the file is at least head plus tail long |
| TieredStore.Store.Put | internal/mediacache/tiered.go:17-30 | remote first, its error returned; a local failure is ignored |
| TieredStore.Store.Get | internal/mediacache/tiered.go:32-52 | local first, then remote, refilling the local tier |
| TieredStore.PutCoherentIff | internal/mediacache/tiered.go:17-30 | a Put keeps the tiers coherent exactly when it fails, or its local write succeeds, or no other bytes are held locally |
| TieredStore.GetRefinesRemote | internal/mediacache/tiered.go:32-52 | on coherent tiers a Get is a look-up in the remote map and changes no later answer |
| TieredStore.LocalStaysSubMap | internal/mediacache/tiered.go:17-52 | when each key only ever receives one content the local tier stays a sub-map of the remote one |
| TieredStore.PutThenGet | internal/mediacache/tiered.go:17-52 | after a successful Put and any operations and local losses that put no other bytes under this key, a Get gives those bytes or the remote's error |
| TieredStore.PutReliableIff | internal/mediacache/tiered.go:17-52 | so it does in every continuation exactly when the Put's local write succeeds or the local tier holds no other bytes for the key |
| TieredStore.ServedFromLocal | internal/mediacache/tiered.go:17-52 | after a Put or a refilling Get whose local write succeeded, the next Get needs no remote |
| TieredStore.RefusedPut | internal/mediacache/tiered.go:17-30 | a Put fails exactly when the remote refuses it, and then changes nothing |
| TieredStore.StaleLocalRead | internal/mediacache/tiered.go:43-45 | with two contents for a key one lost local write brings the older bytes back |
| PredictiveWindow.NormalizedIds | internal/httpserver/predictive_startup_cache.go:150-165 | normalising leaves the distinct trimmed identifiers of the usable episodes, each with the candidate of its first usable episode |
| PredictiveWindow.ReaderIsServed | internal/httpserver/predictive_startup_cache.go:138-143 | a reader whose two accesses meet one store is answered what TryServeRange serves from it |
| PredictiveWindow.AloneIsPrewarm | internal/mediacache/service.go:59-125 | the goroutine's atomic steps, uninterrupted, are Prewarm |
| PredictiveWindow.StepAttended | internal/httpserver/predictive_startup_cache.go:167-219 | each step keeps: an entry outside all windows has a call that will still prune it |
| PredictiveWindow.QuiescentCacheIsInWindows | internal/httpserver/predictive_startup_cache.go:145-219 | after any interleaving, once all calls have returned, every stored episode is in some client's current window |
| PredictiveAlone.GoroutinesMatchWindows | internal/httpserver/predictive_startup_cache.go:150-192 | in every run a call has one goroutine for each usable episode of its window, with that episode's candidate, and each stored window is that of a call of its client |
| PredictiveAlone.LoneCall | internal/httpserver/predictive_startup_cache.go:145-219 | a call that runs with no other, its goroutines interleaving in any way: unless it reports an error every usable episode is cached for its own URL, nothing failing there is none; what was servable and active stays; the blobs of entries outside the windows are gone if their deletions succeed |
| PredictiveAlone.LoneCallHits | internal/mediacache/service.go:159-195 | and a read of any range in the head of such an episode hits with the file's bytes |
| PredictiveProgress.CallCanStep | internal/httpserver/predictive_startup_cache.go:145-219 | in every state each call that has not returned can take a step of its own |
| PredictiveProgress.EachStepLeavesLess | internal/httpserver/predictive_startup_cache.go:145-219 | without new arrivals a measure decreases at every step, though other calls add entries |
| PredictiveProgress.QuiescenceIsReached | internal/httpserver/predictive_startup_cache.go:145-219 | after any run the calls can all be brought to their return, and then every stored episode is in a window |
| PredictiveWindow.StepHonored | internal/httpserver/predictive_startup_cache.go:138-219 | each step keeps blobs, entries, goroutines and readers honest |
| PredictiveWindow.EveryHitIsExact | internal/httpserver/predictive_startup_cache.go:138-219 | in every interleaving a hit is exactly the file's bytes of its range, and no read leaves a blob |
| PredictiveCache.PredictiveStartupCache.Normalize | internal/httpserver/predictive_startup_cache.go:150-165 | the loop computes the normalised list and its set of identifiers |
| PredictiveCache.PredictiveStartupCache.PruneInactive | internal/httpserver/predictive_startup_cache.go:198-219 | the prune loops keep exactly the active entries and drop exactly the blobs of the others, whatever the visiting order |
| PredictiveCache.PruneKeepsActive | internal/httpserver/predictive_startup_cache.go:208-218 | a prune takes no blob from an active episode |
| PredictiveCache.PredictiveStartupCache.UpdateWindow | internal/httpserver/predictive_startup_cache.go:145-196 | alone: nothing outside the windows is left, nor its blobs; every usable episode is cached for its own URL when no error is reported, and none is when nothing fails; what was servable and active stays so |
| CoalescingFetch.OneFetchBetweenEvictions | internal/httpserver/media_fetch.go:66-83 | over all interleavings, two bufferable fetches for one key have an eviction of that key between them |
| CoalescingFetch.FlightMatesAgree | internal/httpserver/media_fetch.go:66-87 | all callers of one flight get equal contents |
| CoalescingFetch.MutationKeepsInternal | internal/httpserver/media_fetch.go:81-110 | overwriting a returned buffer changes nothing cached or still to be shared |
| CoalescingFetch.MutationKeepsOthers | internal/httpserver/media_fetch.go:84-110 | overwriting a returned buffer changes no other caller's |
| CoalescingFetch.AnswersAreOwn | internal/httpserver/media_fetch.go:53-148 | a buffered answer was fetched under the caller's own key; for its own URL and range if these hold no bar, whatever others ask for, or if neither header has a comma |
| FetchAnswers.BufferIsAReply | internal/httpserver/media_fetch.go:53-94 | in every run a buffer handed out has the status, headers and body of a reply fetched by a flight for the caller's own key |
| FetchAnswers.LiveIsAReply | internal/httpserver/media_fetch.go:92-94 | a live response is the reply to the caller's own fetch, and then it has no key or a reply for its key could not be buffered |
| FetchAnswers.ErrorIsAFailure | internal/httpserver/media_fetch.go:72-94 | an error means that a fetch for the caller's key failed, or its own |
| CoalescingFetch.ReadBufferedIs | internal/httpserver/media_fetch.go:169-198 | a reply is buffered whole exactly when its status is 200 or 206, its length announced and within the limit, and its body read to the end |
| CoalescingFetch.HitIsCurrent | internal/httpserver/media_fetch.go:61-63 | a caller that looks while its key is cached is answered with what was fetched last |
| CoalescingFetch.NobodyIsStranded | internal/httpserver/media_fetch.go:53-94 | a caller without an answer can take a step, or the flight it waits for can |
| CoalescingFetch.EightStepsEach | internal/httpserver/media_fetch.go:53-94 | callers and flights together make at most eight steps for each caller |
| CoalescingFetch.StepValid | internal/httpserver/media_fetch.go:53-110 | each step keeps cache, flights, results, callers and log consistent |
| MediaFetcher.Clone | internal/httpserver/media_fetch.go:200-217 | the clone is a fresh object with a fresh body and equal contents |
| MediaFetcher.Fetcher.CachedBuffered | internal/httpserver/media_fetch.go:100-110 | a hit is a fresh copy of the cached response |
| MediaFetcher.Fetcher.Fetch | internal/httpserver/media_fetch.go:53-94 | what is returned in each case, in terms of the reply's status, length and bytes, what is cached, and that nothing returned existed before |
| MediaFetcher.Fetcher.FetchScribbleFetch | internal/httpserver/media_fetch.go:53-94 | overwriting an answer does not change the next one |
| StreamCandidates.Normalize | internal/service/stream/service.go:201-245 | the dedupe and filter loops compute Normalized |
| StreamCandidates.NormalizedShape | internal/service/stream/service.go:201-245 | the output is sorted by descending priority, has distinct keys and holds inputs only |
| StreamCandidates.NormalizedMembers | internal/service/stream/service.go:201-245 | which candidates come out: the winners of their keys, of these the direct playable ones if any, of these the mp4s if any |
| StreamCandidates.DedupeKeyIs | internal/service/stream/service.go:210-217 | labelled candidates share a key exactly when their trimmed labels agree but for case, unlabelled ones when their URLs do |
| StreamCandidates.NormalizedIdempotent | internal/service/stream/service.go:201-245 | normalising twice is normalising once |
| StreamCandidates.DroppedMp4 | internal/service/stream/service.go:210-242 | a dropped direct mp4 shares its key with another input of at least its priority |
| StreamCandidates.AllDirectMp4Iff | internal/service/stream/service.go:206-244 | the output is all direct mp4 exactly when some direct mp4 of the input has a higher priority than, or the same as and comes before, every other candidate of its key |
| StreamCandidates.DirectMp4CanBeLost | internal/service/stream/service.go:210-222 | an indirect candidate of the same key with higher priority, or an earlier one of equal priority, displaces the only direct mp4 |
| StreamCandidates.SelectIsRuled | internal/service/stream/service.go:84-119 | preferred is the first direct playable mp4 at 720p, else the first direct playable mp4, else the first direct one, else the first, with the reason of that rule |
| StreamCandidates.SelectedIsCandidate | internal/service/stream/service.go:84-103 | the preferred stream is one of the candidates, and exists when there are any |
| StreamCandidates.TiesDoNotMatterAt720 | internal/service/stream/service.go:75-113 | the 720p choice does not depend on how the unstable sort breaks ties |
| StreamCandidates.SelectsDirectMp4 | internal/service/stream/service.go:75-120 | with a direct mp4 left every sort selects one, of the highest priority unless one has 720p |
| Otakudesu.BuildLoop | internal/provider/otakudesu/stream.go:23-48 | the callbacks compute the candidates of the links with an address, one each and in order |
| Otakudesu.CandidateOf | internal/provider/otakudesu/stream.go:24-46 | every field of a link's candidate, its priority from a table of the qualities |
| Otakudesu.PriorityOrder | internal/provider/otakudesu/stream.go:81-102 | direct links come first, then mp4s, then 720p before 480p before 1080p before 360p |
| Otakudesu.PageLink | internal/provider/otakudesu/stream.go:68-71 | a pixeldrain page becomes the download address of its identifier |
| Otakudesu.OtherLink | internal/provider/otakudesu/stream.go:72-79 | any other link keeps its address, and which are direct |
| Otakudesu.SameKeySameScore | internal/provider/otakudesu/stream.go:55-102 | candidates with one dedupe key have one container and differ in priority only by the direct bonus |
| Otakudesu.DirectSurvivesDedupe | internal/provider/otakudesu/stream.go:55-102 | a direct candidate is never deduped away in favour of an indirect one |
| Otakudesu.PrefersDirectMp4 | internal/provider/otakudesu/stream.go:13-53 | if the page has a direct mp4, the preferred stream is a direct playable mp4 under every tie break |
| StreamService.ResultExpiresAt | internal/service/stream/service.go:150-177 | the running minimum is the expiry of the result |
| StreamService.EarliestIsMinimum | internal/service/stream/service.go:150-177 | that minimum bounds all signed URLs and is attained by one |
| StreamService.UnexpiredIffFresh | internal/service/stream/service.go:145-177 | a result is unexpired exactly when every signed URL in it has more than five minutes left |
| StreamService.MemoryTtlBounds | internal/service/stream/service.go:130-143 | the time to live is positive and ends no later than an unexpired result's expiry |
| StreamService.MemoryTtlIs | internal/service/stream/service.go:130-143 | until expiry or for the configured time, whichever is shorter |
| StreamService.Service.Resolve | internal/service/stream/service.go:45-106 | the new caches and the answer, as the function Resolved of the old ones |
| StreamService.Service.Persist | internal/service/stream/service.go:122-128 | the result goes to memory, and with its expiry to the table |
| StreamService.Service.Invalidate | internal/service/stream/service.go:37-43 | the episode leaves memory, and the table if the delete succeeds |
| StreamService.CachedAnswerIsFresh | internal/service/stream/service.go:45-68 | whatever is cached, an answer from memory or table is fresh at the call's now |
| StreamService.ProviderAnswerIsGood | internal/service/stream/service.go:70-106 | an answer from the provider has the normalised offer in order of priority, the preferred stream and reason of the rules, and is empty only for an empty offer |
| StreamService.EveryAnswerIsGood | internal/service/stream/service.go:45-106 | in every run each answer follows so from an offer for that episode, made at this call or, if it is cached, at an earlier one, and then it is fresh; errors are the provider's |
| StreamService.WhoAnswers | internal/service/stream/service.go:45-128 | memory answers if it holds a fresh result, else the table if it does, unless forced, else the provider; and what is stored afterwards, with the row's expiry |
| StreamService.AnswerIsRemembered | internal/service/stream/service.go:45-68 | asked again while fresh, the service gives the same result from memory |
| StreamService.TableRemembers | internal/service/stream/service.go:60-68 | and from the table when memory has lost it |
| StreamService.StaleRowGoes | internal/service/stream/service.go:60-63 | a stale row is deleted when it is met |
| StreamService.LookupsSourced | internal/store/postgres/store.go:226-268 | memory and table look-ups, with failing reads and deletes, return only what was produced for the episode |
| StreamService.InvalidateForcesProvider | internal/service/stream/service.go:37-43 | after an Invalidate that went through the next resolve asks the provider |
| EpisodeRefs.SortedEpisodeRefs | internal/provider/kuramanime/episodes.go:131-144 | the list is sorted and holds each entry of the map once, whatever the visiting order |
| EpisodeRefs.MergeEpisodeRefs | internal/provider/kuramanime/episodes.go:118-129 | the loops build the sorted list of the base overlaid on the extra |
| EpisodeRefs.ListingUnique | internal/provider/kuramanime/episodes.go:131-144 | there is only one sorted list of a map |
| EpisodeRefs.MergeIsOrdered | internal/provider/kuramanime/episodes.go:131-144 | the list is strictly ordered by number and slug |
| EpisodeRefs.StringLessIs | internal/provider/kuramanime/episodes.go:137-142 | the order of slugs is the dictionary order |
| EpisodeRefs.MergeIsLeftBiasedUnion | internal/provider/kuramanime/episodes.go:118-129 | on distinct slugs the merge is the base and what the extra adds |
| EpisodeRefs.MergeAssociative | internal/provider/kuramanime/episodes.go:118-129 | merging is associative |
| EpisodeRefs.MergeIdempotent | internal/provider/kuramanime/episodes.go:118-129 | merging a merged list with itself changes nothing |
| Crawl.CrawlPages | internal/provider/kuramanime/catalog.go:283-323 | the loop ends, fetches a prefix of a queue of distinct pages, and keeps frontier and references |
| Crawl.FetchedPages | internal/provider/kuramanime/catalog.go:301-323 | no page twice, at most 24, only reachable ones, and all reachable ones when the bound does not cut |
| Crawl.CollectedSlugs | internal/provider/kuramanime/catalog.go:301-315 | the slugs are exactly those of the start page and of the pages fetched successfully |
| Crawl.ReachesIgnoresOrder | internal/provider/kuramanime/episodes.go:93-96 | reachability does not depend on the order of links on a page |
| Crawl.CollectEpisodes | internal/provider/kuramanime/catalog.go:271-346 | an error without references, else one episode per collected reference, with its identifier, number and title, newest first |
| WorkerPool.StepValid | cmd/prewarm-startup/main.go:156-180 | each step keeps: an item sent is completed or with exactly one worker, and the result is the fold of the completions |
| WorkerPool.NoDeadlock | cmd/prewarm-startup/main.go:156-180 | until it returns the pool can take a step |
| WorkerPool.SchedulesAreBounded | cmd/prewarm-startup/main.go:156-180 | every schedule is finite |
| WorkerPool.InFlightBounded | cmd/prewarm-startup/main.go:161-174 | items in hand never exceed the workers |
| WorkerPool.PoolIsSequential | internal/provider/kuramanime/episodes.go:213-246 | every item is processed exactly once and, when completions commute, the result is the sequential one |
| EpisodePools.PrewarmCounts | cmd/prewarm-startup/main.go:145-183 | success counts the episodes that worked and both counters add up to all of them |
| EpisodePools.PrewarmProgress | cmd/prewarm-startup/main.go:145-183 | no deadlock, no more episodes in hand than workers, no more workers than episodes |
| EpisodePools.ReleaseDatesAreTheMap | internal/provider/kuramanime/episodes.go:202-247 | under every schedule of 8 workers the list is the input with the release date of each episode's page where there is one |
| EpisodePools.SelectEpisodes | cmd/prewarm-startup/main.go:124-143 | the first ones in order, at most 25; nothing left out comes before them, and ties stay in input order |
| Identifiers.QualifiedRoundTrip | internal/domain/models.go:149-159 | a built identifier parses back exactly when the provider is not empty, holds no colon and does not start with space, and the cleaned slug is neither empty nor ends in space |
| Aliases.UuidVersionAndVariant | internal/store/postgres/store.go:409-424 | 36 characters with version 4 and variant 8, 9, a or b |
| Aliases.UuidKeepsRandomness | internal/store/postgres/store.go:409-424 | two are equal exactly when all random bits but the six masked ones are |
| Aliases.UuidIsNotQualified | internal/store/postgres/store.go:409-424 | such a text is trimmed and never parses as a qualified identifier |
| Aliases.Store.EnsureAlias | internal/store/postgres/store.go:374-394 | the answer and the table in every case: an existing or raced row wins, else the new one is inserted; the unique indexes stay |
| Aliases.CallerIsEnsureAlias | internal/store/postgres/store.go:374-394 | the steps of one racing caller are those of EnsureAlias |
| Aliases.AliasesAgree | internal/store/postgres/store.go:374-394 | in every interleaving successful callers get one public identifier per internal one and never share one |
| Aliases.LuckyCallersSucceed | internal/store/postgres/store.go:374-394 | when no access fails and no UUID repeats, every racing caller gets an identifier |
| Aliases.ResolveInvertsPublic | internal/service/identifiers/service.go:172-200 | with any later changes of the table, resolving a public identifier gives the trimmed internal one exactly when that is not blank and: the alias was ensured and the table can be read; or EnsureAlias failed and it is qualified, or is its own alias in a table that can be read |
| WatchHistory.Store.UpsertHistory | internal/store/postgres/store.go:194-214 | find, assign field by field, save |
| WatchHistory.Store.DeleteHistory | internal/store/postgres/store.go:216-218 | exactly the rows of the client and catalog go; every copy of the others stays, in order |
| WatchHistory.RunRows | internal/store/postgres/store.go:194-218 | after any run of saves and deletes, one after another, a client and catalog have at most one row, and it is the one their saves since the last delete build up |
| WatchHistory.StoredIsLastNonBlank | internal/store/postgres/store.go:203-208 | its title and cover are the last non-blank ones saved, and blank if none was |
| WatchHistory.StoredIsLastSave | internal/store/postgres/store.go:199-213 | its provider is the last non-blank one, its episode and position are those of the last save |
| HistoryRaces.AloneIsUpsert | internal/store/postgres/store.go:194-214 | a find and a save with nothing between them do what UpsertHistory does |
| HistoryRaces.OrderlyRunsHaveOneRow | internal/store/postgres/store.go:194-218 | over all interleavings and failures a client and catalog have at most one row, if no find comes up empty while another save of theirs is between find and save |
| HistoryRaces.FirstSaveIsSafeIff | internal/store/postgres/store.go:194-214 | after such a run, a find that comes up empty leaves one row in all orderly continuations exactly when no other save is under way |
| HistoryRaces.RacingSavesHideARow | internal/store/postgres/store.go:194-214 | two overlapping first saves leave two rows, and continue watching from the missing catalogs alone then loses a title and a cover |
| ContinueWatching.CollectMissing | internal/service/library/service.go:98-124 | the loops compute the catalogs whose first row seems to miss something |
| ContinueWatching.MissingIs | internal/service/library/service.go:104-122 | a catalog is collected exactly when its first row and its watchlist row are both incomplete |
| ContinueWatching.CollectedCatalogs | internal/service/library/service.go:98-124 | a catalog is collected, once, exactly when its first history row and its last watchlist row, if any, lack a title or a cover |
| ContinueWatching.BuildItems | internal/service/library/service.go:126-168 | one item per history row with its catalog, episode and position, title and cover each from the row, else the last watchlist row, else the details |
| ContinueWatching.RestrictionIsEnoughIff | internal/service/library/service.go:86-168 | fetching only the missing catalogs is enough for all details exactly when no row that uses details has a complete first row of its catalog |
| ContinueWatching.ContinueWatchingAfterRun | internal/service/library/service.go:76-168 | on the history of any run of saves and deletes, one after another, it is enough |
| HistoryRaces.ContinueWatchingAfterOrderlyRun | internal/service/library/service.go:76-168 | and so it is after any interleaving without an overlapping first save |

## Left out

- HTTP routing, handlers, middleware, image proxy, host allow-lists and configuration: plumbing.
- HTML, regular expressions and URL parsing: their results are inputs (page to links and references, URL to source key, URL to signed expiry).
- Case: `ToLower` lowers ASCII letters only; other letters keep their case.
- Upstreams that answer 200 to a range request or hide the complete length: the step systems assume honest 206 replies; `Prewarm` itself is modelled for any reply.
- Torn writes: a blob write that fails halfway is taken to leave the store as it was.
- `headBytes` near the end of int64, where subtracting one or the tail wraps: sizes are unbounded integers there.
- `ttlcache` timing: an eviction is a step that may happen at any time; no upper bound on an item's life is claimed.
- Fairness: that a scheduler lets every call move is not modelled; what is stated is that each can move and that the work left decreases.
- Time stamps of history and watchlist rows: `HistoryRaces` lists the row saved last first, elsewhere rows are listed in any order.
- Titles and covers under overlapping saves: a save writes back what its find read, so a save in between can be lost; the last-non-blank property is stated for saves one after another.
- `MediaFetcher.Fetcher.Fetch` has one caller at a time and header lists are values, so sharing of header slices is not visible; `CoalescingFetch` has the concurrency.
- The table of stream results is changed by one service only; other processes on the same database are not modelled.
- The 32-bit counters of the prewarm pool are unbounded integers.
- The in-place sort of the provider's slice by `normalizeCandidates` is not visible to the provider in the model.
- The list functions of the identifier service, the watchlist and catalog caches: one look-up per element.
